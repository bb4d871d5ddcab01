/** The decision `query_gemini` takes on what the language model returned
    (main.py:97-127). The call to the model itself is not modelled: its outcome is
    an input, either an exception or the pair (text, finish reason). */
module LanguageModel {

  import opened Basics
  import opened Text

  /** The token the prompt asks the model to answer with when a question is off topic. */
  const Sentinel := "OUT_OF_CONTEXT"
  const Redirect := "I can only answer questions about "
    + "Jharkhand tourism. How can I help "
    + "you with your trip?"
  const Incomplete := "I couldn't complete the response. "
    + "Please try rephrasing your question."
  const CallFailed := "Sorry, an error occurred while "
    + "contacting the AI model."

  /** What `generate_content_async` and the reads of its response gave. */
  datatype ModelCall =
    | Raised                                                // any exception inside the try block
    | Responded(text: Option<string>, finishReason: string) // `response.text` (None when absent) and the name of the first candidate's finish reason

  /** The whole of `query_gemini`: building the model object happens before the
      try block, so a failure there reaches the caller. */
  datatype GeminiOutcome =
    | ConstructionRaised
    | Constructed(call: ModelCall)

  predicate NoDoubleNewline(s: string) {
    forall i :: 0 <= i < |s| - 1 ==> !(s[i] == '\n' && s[i + 1] == '\n')
  }

  /** The characters of `s` other than newlines, in order. */
  function WithoutNewlines(s: string): (r: string)
    ensures '\n' !in r
  {
    if s == [] then []
    else (if s[0] == '\n' then [] else [s[0]]) + WithoutNewlines(s[1..])
  }

  /** The end of the run of newlines that starts at i. */
  function NewlineRunEnd(s: string, i: int): (j: int)
    requires 0 <= i <= |s|
    ensures i <= j <= |s| && (j == |s| || s[j] != '\n')
    ensures forall k :: i <= k < j ==> s[k] == '\n'
    decreases |s| - i
  {
    if i < |s| && s[i] == '\n' then NewlineRunEnd(s, i + 1) else i
  }

  /** re.sub(r"\n{2,}", "\n", s): scanning from the left, every run of two or more
      newlines, taken whole (the quantifier is greedy), becomes one newline. */
  function CollapseNewlines(s: string): (r: string)
    ensures |s| > 0 ==> |r| > 0 && r[0] == s[0] && r[|r| - 1] == s[|s| - 1]
    ensures NoDoubleNewline(r)
    decreases |s|
  {
    if s == [] then []
    else if |s| >= 2 && s[0] == '\n' && s[1] == '\n' then
      var j := NewlineRunEnd(s, 0);
      "\n" + CollapseNewlines(s[j..])
    else [s[0]] + CollapseNewlines(s[1..])
  }

  /** A reference for the substitution, read left to right: a newline is dropped
      exactly when the character before it is a newline, so every run of newlines
      keeps its first one and every other character is kept. `afterNewline` says
      whether the character before t was a newline. */
  function KeepFirstNewlines(t: string, afterNewline: bool): string {
    if t == [] then []
    else (if t[0] == '\n' && afterNewline then [] else [t[0]]) + KeepFirstNewlines(t[1..], t[0] == '\n')
  }

  function DropRepeatedNewlines(s: string): string {
    KeepFirstNewlines(s, false)
  }

  /** What follows a newline matters only when it starts with a newline. */
  lemma KeepFirstNewlinesFlag(t: string)
    requires t == [] || t[0] != '\n'
    ensures KeepFirstNewlines(t, true) == KeepFirstNewlines(t, false)
  {
  }

  /** After a newline, a run of newlines leaves nothing behind. */
  lemma {:induction false} KeepFirstNewlinesSkipsRun(t: string, j: nat)
    requires j <= |t| && forall k :: 0 <= k < j ==> t[k] == '\n'
    ensures KeepFirstNewlines(t, true) == KeepFirstNewlines(t[j..], true)
    decreases j
  {
    if j > 0 {
      KeepFirstNewlinesSkipsRun(t[1..], j - 1);
      assert t[1..][j - 1..] == t[j..];
    }
  }

  /** `re.sub(r"\n{2,}", "\n", s)` is the text with every newline that follows
      another newline removed: each run of two or more newlines becomes one
      newline in its place, and nothing else changes. */
  lemma {:induction false} CollapseMatchesReference(s: string)
    ensures CollapseNewlines(s) == DropRepeatedNewlines(s)
    decreases |s|
  {
    if s == [] {
    } else if |s| >= 2 && s[0] == '\n' && s[1] == '\n' {
      var j := NewlineRunEnd(s, 0);
      CollapseMatchesReference(s[j..]);
      ReferenceOfRun(s, j);
    } else {
      CollapseMatchesReference(s[1..]);
      ReferenceOfOne(s);
    }
  }

  /** The reference on a leading run of newlines: one newline, then the rest. */
  lemma ReferenceOfRun(s: string, j: nat)
    requires 1 <= j <= |s| && (j == |s| || s[j] != '\n')
    requires forall k :: 0 <= k < j ==> s[k] == '\n'
    ensures DropRepeatedNewlines(s) == "\n" + DropRepeatedNewlines(s[j..])
  {
    KeepFirstNewlinesSkipsRun(s[1..], j - 1);
    assert s[1..][j - 1..] == s[j..];
    KeepFirstNewlinesFlag(s[j..]);
  }

  /** The reference on any other first character: it is kept, then the rest. */
  lemma ReferenceOfOne(s: string)
    requires s != [] && !(|s| >= 2 && s[0] == '\n' && s[1] == '\n')
    ensures DropRepeatedNewlines(s) == [s[0]] + DropRepeatedNewlines(s[1..])
  {
    if s[0] == '\n' {
      KeepFirstNewlinesFlag(s[1..]);
    }
  }

  lemma {:induction false} WithoutNewlinesOfRun(s: string, j: int)
    requires 0 <= j <= |s| && forall k :: 0 <= k < j ==> s[k] == '\n'
    ensures WithoutNewlines(s) == WithoutNewlines(s[j..])
    decreases j
  {
    if j > 0 {
      WithoutNewlinesOfRun(s[1..], j - 1);
      assert s[1..][j - 1..] == s[j..];
    }
  }

  /** Collapsing changes only newlines: every other character keeps its place in
      the order. */
  lemma {:induction false} CollapseKeepsOtherCharacters(s: string)
    ensures WithoutNewlines(CollapseNewlines(s)) == WithoutNewlines(s)
    decreases |s|
  {
    if s == [] {
    } else if |s| >= 2 && s[0] == '\n' && s[1] == '\n' {
      var j := NewlineRunEnd(s, 0);
      CollapseKeepsOtherCharacters(s[j..]);
      WithoutNewlinesOfRun(s, j);
      assert ("\n" + CollapseNewlines(s[j..]))[1..] == CollapseNewlines(s[j..]);
    } else {
      CollapseKeepsOtherCharacters(s[1..]);
      assert ([s[0]] + CollapseNewlines(s[1..]))[1..] == CollapseNewlines(s[1..]);
    }
  }

  /** A newline survives collapsing exactly when the text had one. */
  lemma {:induction false} CollapseKeepsSomeNewline(s: string)
    ensures '\n' in CollapseNewlines(s) <==> '\n' in s
    decreases |s|
  {
    if s == [] {
    } else if |s| >= 2 && s[0] == '\n' && s[1] == '\n' {
    } else {
      CollapseKeepsSomeNewline(s[1..]);
      assert s == [s[0]] + s[1..];
    }
  }

  /** Text with no two adjacent newlines is left as it is. */
  lemma CollapseFixesSingleNewlines(s: string)
    requires NoDoubleNewline(s)
    ensures CollapseNewlines(s) == s
  {
    CollapseMatchesReference(s);
    KeepFirstNewlinesAll(s, false);
  }

  lemma {:induction false} KeepFirstNewlinesAll(t: string, afterNewline: bool)
    requires NoDoubleNewline(t) && (afterNewline ==> t == [] || t[0] != '\n')
    ensures KeepFirstNewlines(t, afterNewline) == t
    decreases |t|
  {
    if t != [] {
      assert NoDoubleNewline(t[1..]) by {
        forall i | 0 <= i < |t| - 2
          ensures !(t[1..][i] == '\n' && t[1..][i + 1] == '\n')
        {
          assert t[1..][i] == t[i + 1] && t[1..][i + 1] == t[i + 2];
        }
      }
      KeepFirstNewlinesAll(t[1..], t[0] == '\n');
      assert t == [t[0]] + t[1..];
    }
  }

  /** Collapsing twice is the same as collapsing once. */
  lemma CollapseIdempotent(s: string)
    ensures CollapseNewlines(CollapseNewlines(s)) == CollapseNewlines(s)
  {
    CollapseFixesSingleNewlines(CollapseNewlines(s));
  }

  /** The post-processing of the model's answer (main.py:112-123). The stripped
      text is compared with the sentinel before the finish reason is looked at. */
  function PostProcess(text: string, finishReason: string): (r: string)
    ensures Strip(text) == Sentinel ==> r == Redirect
    ensures Strip(text) != Sentinel && finishReason != "STOP" ==> r == Incomplete
    ensures Strip(text) != Sentinel && finishReason == "STOP" ==> r == CollapseNewlines(Strip(text))
  {
    var reply := Strip(text);
    if reply == Sentinel then Redirect
    else if finishReason == "STOP" then CollapseNewlines(reply)
    else Incomplete
  }

  /** On a normal stop the reply is the model's text, trimmed, with no two adjacent
      newlines and with its other characters in their original order; it is
      already trimmed and collapsed, so post-processing it again would change
      nothing. */
  lemma StopReplyShape(text: string)
    requires Strip(text) != Sentinel
    ensures var r := PostProcess(text, "STOP");
            NoDoubleNewline(r) && WithoutNewlines(r) == WithoutNewlines(Strip(text))
            && Strip(r) == r && CollapseNewlines(r) == r
  {
    var t := Strip(text);
    var r := PostProcess(text, "STOP");
    CollapseKeepsOtherCharacters(t);
    CollapseIdempotent(t);
    if r != [] {
      assert !IsSpace(r[0]) && !IsSpace(r[|r| - 1]);
    }
  }

  /** The sentinel never reaches the user: whatever the model answers, the
      post-processed reply is not "OUT_OF_CONTEXT". */
  lemma SentinelNeverLeaked(text: string, finishReason: string)
    ensures PostProcess(text, finishReason) != Sentinel
  {
    var t := Strip(text);
    if t == Sentinel {
      assert Redirect[0] == 'I' && Sentinel[0] == 'O';
    } else if finishReason == "STOP" {
      NoNewlineSurvivesOnlyUnchanged(t);
      SentinelHasNoNewline();
    } else {
      assert Incomplete[0] == 'I' && Sentinel[0] == 'O';
    }
  }

  lemma SentinelHasNoNewline()
    ensures '\n' !in Sentinel
  {
  }

  /** A collapsed text without newlines is the text itself. */
  lemma NoNewlineSurvivesOnlyUnchanged(t: string)
    ensures '\n' !in CollapseNewlines(t) ==> CollapseNewlines(t) == t
  {
    if '\n' !in CollapseNewlines(t) {
      CollapseKeepsSomeNewline(t);
      CollapseFixesSingleNewlines(t);
    }
  }

  /** The try block of query_gemini (main.py:99-127): it never raises. */
  function ModelReply(call: ModelCall): (r: string)
    ensures call.Raised? ==> r == CallFailed
    ensures call.Responded? ==>
              r == PostProcess(match call.text case Some(t) => t case None => "", call.finishReason)
    ensures r != Sentinel
  {
    match call
    case Raised => CallFailed
    case Responded(text, finishReason) =>
      var t := match text case Some(t) => t case None => "";
      SentinelNeverLeaked(t, finishReason);
      PostProcess(t, finishReason)
  }

  /** query_gemini: None stands for the exception raised when the model object
      cannot be built (main.py:98, before the try block). */
  function QueryGemini(g: GeminiOutcome): (r: Option<string>)
    ensures r.None? <==> g.ConstructionRaised?
    ensures g.Constructed? ==> r == Some(ModelReply(g.call))
  {
    match g
    case ConstructionRaised => None
    case Constructed(call) => Some(ModelReply(call))
  }
}
