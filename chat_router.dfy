/** The `/chat` endpoint (main.py:136-176): the one-shot greeting per user id,
    the itinerary generator, the direct place lookup and the fallback to the
    language model. */
module ChatRouter {

  import opened Basics
  import opened Text
  import opened KnowledgeBase
  import Patterns
  import LanguageModel

  const Greeting := "\U{1F44B} Hello! Welcome to "
    + "Jharkhand Tourism Chatbot. "
    + "How can I help you today?"
  const TroubleReply := "\U{274C} Sorry, I had trouble "
    + "processing your request."

  /** The `user_id` of a chat request: a JSON null arrives as None, an omitted
      field as Some("default"). Ids are compared exactly as sent. */
  type UserId = Option<string>

  /** The itinerary trigger of main.py:146, on the lower-cased message: the word
      "itinerary" anywhere, or "plan" followed later on the same line by "day". */
  predicate ItineraryWanted(msg: string)
    ensures ItineraryWanted(msg) <==>
            Contains(msg, "itinerary")
            || exists p, j :: OccursAt(msg, "plan", p) && p + 4 <= j && OccursAt(msg, "day", j)
                              && Patterns.NoNewline(msg, p + 4, j)
  {
    Contains(msg, "itinerary") || Patterns.PlanDay(msg)
  }

  /** The answer to a user who has already been greeted (main.py:139, 146-176).
      An Err is the KeyError of the direct lookup, which the endpoint does not
      catch. */
  function Respond(places: Places, message: string, gemini: LanguageModel.GeminiOutcome): (r: Result<string, LookupFailure>)
    ensures ItineraryWanted(Lower(message)) ==> r == Ok(ItineraryReply(places, Interests, Lower(message)))
    ensures !ItineraryWanted(Lower(message)) && FirstPlaceFrom(places, Lower(message), 0).Some? ==>
              r == PlaceAnswer(places, FirstPlaceFrom(places, Lower(message), 0).value)
    ensures !ItineraryWanted(Lower(message)) && FirstPlaceFrom(places, Lower(message), 0).None? ==>
              r.Ok? && r.value == (if LanguageModel.QueryGemini(gemini).Some? then LanguageModel.QueryGemini(gemini).value
                                   else TroubleReply)
    ensures r.Err? ==> !ItineraryWanted(Lower(message)) && FirstPlaceFrom(places, Lower(message), 0).Some?
  {
    var msg := Lower(message);
    if ItineraryWanted(msg) then Ok(ItineraryReply(places, Interests, msg))
    else match FirstPlaceFrom(places, msg, 0)
      case Some(k) => PlaceAnswer(places, k)
      case None =>
        match LanguageModel.QueryGemini(gemini)
        case Some(reply) => Ok(reply)
        case None => Ok(TroubleReply)
  }

  /** The loop of main.py:155-164: fill the dict `plan` with one entry per day,
      keyed "Day {i+1}", and join its values with blank lines. The keys are all
      different, so the values come out in day order, one per day. */
  method BuildItinerary(places: Places, selected: seq<string>, days: nat) returns (reply: string)
    requires selected != []
    ensures reply == Join(DayBlocks(places, selected, days), BlockSeparator)
  {
    var plan: Dict<string> := [];
    ghost var blocks := DayBlocks(places, selected, days);
    for i := 0 to days
      invariant PlanHolds(plan, blocks, i)
    {
      var place := selected[i % |selected|];
      var block := RenderBlock(places, place);
      DayBlocksAt(places, selected, days, i);
      PlanGrows(plan, blocks, i);
      plan := Assign(plan, DayKey(i), block);
    }
    PlanValues(plan, blocks);
    reply := Join(Values(plan), BlockSeparator);
  }

  /** `plan` holds exactly the first `i` of the day texts `blocks`, in day order,
      under the keys "Day 1", "Day 2", .... */
  predicate PlanHolds(plan: Dict<string>, blocks: seq<string>, i: nat)
    requires i <= |blocks|
  {
    |plan| == i && forall k :: 0 <= k < i ==> plan[k] == (DayKey(k), blocks[k])
  }

  /** One round of the loop: the next day's key is new, so its text is appended. */
  lemma PlanGrows(plan: Dict<string>, blocks: seq<string>, i: nat)
    requires i < |blocks| && PlanHolds(plan, blocks, i)
    ensures PlanHolds(Assign(plan, DayKey(i), blocks[i]), blocks, i + 1)
  {
    NextDayKeyIsNew(plan, i);
    var grown := Assign(plan, DayKey(i), blocks[i]);
    assert grown == plan + [(DayKey(i), blocks[i])];
    forall k | 0 <= k < i + 1
      ensures grown[k] == (DayKey(k), blocks[k])
    {
      if k < i {
        assert grown[k] == plan[k];
      }
    }
  }

  /** Once every day is in, the values of `plan` are the day texts. */
  lemma PlanValues(plan: Dict<string>, blocks: seq<string>)
    requires PlanHolds(plan, blocks, |blocks|)
    ensures Values(plan) == blocks
  {
  }

  /** The key of the next day is not yet in a plan that holds the earlier days. */
  lemma NextDayKeyIsNew(plan: Dict<string>, i: nat)
    requires |plan| == i && forall k :: 0 <= k < i ==> plan[k].0 == DayKey(k)
    ensures DayKey(i) !in Keys(plan)
  {
    forall k | 0 <= k < i
      ensures Keys(plan)[k] != DayKey(i)
    {
      DayKeysDistinct(k, i);
    }
  }

  /** The loop of main.py:166-168: the first entry of places.json, in stored
      order, whose key occurs in the message. */
  method FindPlace(places: Places, msg: string) returns (found: Option<nat>)
    ensures found.Some? ==> found.value < |places| && Contains(msg, places[found.value].0)
                            && forall j :: 0 <= j < found.value ==> !Contains(msg, places[j].0)
    ensures found.None? ==> forall j :: 0 <= j < |places| ==> !Contains(msg, places[j].0)
    ensures found == FirstPlaceFrom(places, msg, 0)
  {
    var i := 0;
    while i < |places|
      invariant 0 <= i <= |places|
      invariant forall j :: 0 <= j < i ==> !Contains(msg, places[j].0)
    {
      if Contains(msg, places[i].0) {
        return Some(i);
      }
      i := i + 1;
    }
    return None;
  }

  /** The router and its one piece of state, the process-wide `greeted_users` set
      (main.py:61). */
  class Router {
    var greeted: set<UserId>
    const places: Places

    constructor(places: Places)
      ensures greeted == {} && this.places == places
    {
      greeted := {};
      this.places := places;
    }

    /** One call of `chat`. The first message from an id not seen before is
        consumed: the id is recorded and the greeting returned, whatever the
        message says. Every later message from that id is answered. `gemini`
        is what the language model would give if it were asked. */
    method Chat(userId: UserId, message: string, gemini: LanguageModel.GeminiOutcome)
      returns (r: Result<string, LookupFailure>)
      modifies this
      ensures greeted == old(greeted) + {userId}
      ensures userId !in old(greeted) ==> r == Ok(Greeting)
      ensures userId in old(greeted) ==> r == Respond(places, message, gemini)
    {
      var msg := Lower(message);
      if userId !in greeted {
        greeted := greeted + {userId};
        return Ok(Greeting);
      }
      if ItineraryWanted(msg) {
        var days := Patterns.DayCount(msg);
        var selected := SelectedPlaces(places, Interests, msg);
        if selected == [] {
          return Ok(NoPlaces);
        }
        var reply := BuildItinerary(places, selected, days);
        return Ok(reply);
      }
      var found := FindPlace(places, msg);
      if found.Some? {
        return PlaceAnswer(places, found.value);
      }
      var reply := LanguageModel.QueryGemini(gemini);
      if reply.Some? {
        return Ok(reply.value);
      }
      return Ok(TroubleReply);
    }
  }

  /** A direct-lookup answer has a colon right after the place name; the greeting
      has none. */
  lemma PlaceAnswerIsNotGreeting(places: Places, k: nat)
    requires k < |places|
    ensures PlaceAnswer(places, k) != Ok(Greeting)
  {
    var r := PlaceAnswer(places, k);
    if r.Ok? {
      var c := Capitalize(places[k].0);
      var d := places[k].1.description.value;
      assert r.value == c + ": " + d;
      assert (c + ": " + d)[|c|] == ':';
      GreetingHasNoColon();
    }
  }

  lemma GreetingHasNoColon()
    ensures ':' !in Greeting
  {
    var a, b, c := "\U{1F44B} Hello! Welcome to ", "Jharkhand Tourism Chatbot. ", "How can I help you today?";
    assert Greeting == a + b + c;
    assert ':' !in a && ':' !in b && ':' !in c;
  }

  /** Once greeted, a user gets the greeting text again only if the language
      model itself answers with exactly that text: neither the itinerary, nor the
      direct lookup, nor any of the fixed replies can produce it. */
  lemma GreetingOnlyFromModel(places: Places, message: string, gemini: LanguageModel.GeminiOutcome)
    requires Respond(places, message, gemini) == Ok(Greeting)
    ensures exists text :: gemini == LanguageModel.Constructed(LanguageModel.Responded(Some(text), "STOP"))
                           && LanguageModel.CollapseNewlines(Strip(text)) == Greeting
  {
    var msg := Lower(message);
    assert Greeting[0] == '\U{1F44B}';
    if ItineraryWanted(msg) {
      ItineraryShape(places, msg);
      assert false;
    }
    match FirstPlaceFrom(places, msg, 0)
    case Some(k) =>
      PlaceAnswerIsNotGreeting(places, k);
      assert false;
    case None =>
      match gemini
      case ConstructionRaised =>
        assert false;
      case Constructed(call) =>
        match call
        case Raised =>
          assert false;
        case Responded(text, finishReason) =>
          var t := match text case Some(t) => t case None => "";
          assert LanguageModel.Redirect[0] != Greeting[0];
          assert LanguageModel.Incomplete[0] != Greeting[0];
          assert finishReason == "STOP";
          assert LanguageModel.CollapseNewlines(Strip(t)) == Greeting;
          if text.None? {
            assert false;
          }
  }
}
