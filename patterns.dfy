/** The two regular expressions of the chat router, written as predicates over
    the (already lower-cased) message: `plan.*day`, which decides whether an
    itinerary is wanted, and `(\d+)\s*day`, which supplies the number of days.
    Both are searched for with `re.search`, that is, anywhere in the message,
    leftmost match first. */
module Patterns {

  import opened Basics
  import opened Text

  /** No newline among s[i..j]: the region a `.` of the pattern may run over. */
  predicate NoNewline(s: string, i: int, j: int)
    requires 0 <= i <= j <= |s|
  {
    forall m :: i <= m < j ==> s[m] != '\n'
  }

  /** Some "day" starts at or after k, on the same line as k. */
  function DayOnLine(s: string, k: int): (b: bool)
    requires 0 <= k <= |s|
    ensures b <==> exists j :: k <= j && OccursAt(s, "day", j) && NoNewline(s, k, j)
    decreases |s| - k
  {
    if k + 3 > |s| then false
    else if s[k] == '\n' then
      assert forall j :: k < j <= |s| ==> !NoNewline(s, k, j);
      false
    else if s[k..k + 3] == "day" then
      assert OccursAt(s, "day", k) && NoNewline(s, k, k);
      true
    else
      var b := DayOnLine(s, k + 1);
      assert forall j :: k + 1 <= j <= |s| ==> (NoNewline(s, k, j) <==> NoNewline(s, k + 1, j));
      b
  }

  /** `plan.*day` matches somewhere at or after index i. */
  function PlanDayFrom(s: string, i: int): (b: bool)
    requires 0 <= i <= |s|
    ensures b <==> exists p, j :: i <= p && OccursAt(s, "plan", p) && p + 4 <= j
                                 && OccursAt(s, "day", j) && NoNewline(s, p + 4, j)
    decreases |s| - i
  {
    if i + 4 > |s| then false
    else if s[i..i + 4] == "plan" && DayOnLine(s, i + 4) then
      assert OccursAt(s, "plan", i);
      true
    else PlanDayFrom(s, i + 1)
  }

  /** re.search(r"plan.*day", s) finds a match: some "plan" is followed, later on
      the same line, by "day" (`.` does not match a newline). */
  function PlanDay(s: string): (b: bool)
    ensures b <==> exists p, j :: OccursAt(s, "plan", p) && p + 4 <= j
                                && OccursAt(s, "day", j) && NoNewline(s, p + 4, j)
  {
    PlanDayFrom(s, 0)
  }

  /** The end of the run of digits that starts at p. */
  function DigitRunEnd(s: string, p: int): (q: int)
    requires 0 <= p <= |s|
    ensures p <= q <= |s| && AllDigits(s[p..q])
    ensures q == |s| || !IsDigit(s[q])
    decreases |s| - p
  {
    if p < |s| && IsDigit(s[p]) then
      var q := DigitRunEnd(s, p + 1);
      assert s[p..q] == [s[p]] + s[p + 1..q];
      q
    else p
  }

  /** The end of the run of whitespace that starts at q. */
  function SpaceRunEnd(s: string, q: int): (r: int)
    requires 0 <= q <= |s|
    ensures q <= r <= |s| && AllSpace(s, q, r)
    ensures r == |s| || !IsSpace(s[r])
    decreases |s| - q
  {
    if q < |s| && IsSpace(s[q]) then SpaceRunEnd(s, q + 1) else q
  }

  lemma DigitsBetween(s: string, p: int, q: int)
    requires 0 <= p <= q <= |s| && AllDigits(s[p..q])
    ensures forall k :: p <= k < q ==> IsDigit(s[k])
  {
    forall k | p <= k < q ensures IsDigit(s[k]) {
      assert s[p..q][k - p] == s[k];
    }
  }

  /** The regular expression `(\d+)\s*day` matches the text starting at p, its
      group 1 being s[p..q] and its "day" starting at r. */
  predicate DayCountMatch(s: string, p: int, q: int, r: int) {
    0 <= p < q <= r <= |s| && AllDigits(s[p..q]) && AllSpace(s, q, r) && OccursAt(s, "day", r)
  }

  /** The greedy reading of `(\d+)\s*day` at p: the whole digit run, then the
      whole whitespace run, then "day". */
  predicate DayCountAt(s: string, p: int)
    requires 0 <= p <= |s|
  {
    p < |s| && IsDigit(s[p]) && OccursAt(s, "day", SpaceRunEnd(s, DigitRunEnd(s, p)))
  }

  /** A match of `(\d+)\s*day` at p is unique: group 1 is necessarily the whole
      digit run and "day" comes right after the whole whitespace run, so a
      backtracking engine can find no other. */
  lemma DayCountMatchDetermined(s: string, p: int, q: int, r: int)
    requires 0 <= p <= |s|
    ensures DayCountMatch(s, p, q, r) <==>
            DayCountAt(s, p) && q == DigitRunEnd(s, p) && r == SpaceRunEnd(s, q)
  {
    var q0 := DigitRunEnd(s, p);
    if DayCountMatch(s, p, q, r) {
      assert IsDigit(s[p]) by { assert s[p..q][0] == s[p]; }
      DigitsBetween(s, p, q);
      DigitsBetween(s, p, q0);
      var r0 := SpaceRunEnd(s, q);
      assert s[r] == 'd' by { assert s[r..r + 3][0] == s[r]; }
    }
    if DayCountAt(s, p) && q == q0 && r == SpaceRunEnd(s, q) {
      assert p < q by { assert IsDigit(s[p]); }
    }
  }

  /** A match that starts inside a run of digits also matches one position to
      the left; hence the leftmost match always takes the whole number. */
  lemma DayCountAtExtendsLeft(s: string, p: int)
    requires 0 < p <= |s| && IsDigit(s[p - 1]) && DayCountAt(s, p)
    ensures DayCountAt(s, p - 1) && DigitRunEnd(s, p - 1) == DigitRunEnd(s, p)
  {
  }

  /** The leftmost position at or after `from` where `(\d+)\s*day` matches. */
  function LeftmostDayCount(s: string, from: int): (r: Option<int>)
    requires 0 <= from <= |s|
    ensures r.Some? ==> from <= r.value < |s| && DayCountAt(s, r.value)
                        && forall p :: from <= p < r.value ==> !DayCountAt(s, p)
    ensures r.None? ==> forall p :: from <= p <= |s| ==> !DayCountAt(s, p)
    decreases |s| - from
  {
    if from == |s| then None
    else if DayCountAt(s, from) then Some(from)
    else LeftmostDayCount(s, from + 1)
  }

  /** `days = int(m.group(1)) if m else 3` for m = re.search(r"(\d+)\s*day", s). */
  function DayCount(s: string): (r: nat)
    ensures (forall p :: 0 <= p <= |s| ==> !DayCountAt(s, p)) ==> r == 3
    ensures r != 3 ==> exists p :: 0 <= p < |s| && DayCountAt(s, p)
  {
    match LeftmostDayCount(s, 0)
    case Some(p) => DigitsValue(s[p..DigitRunEnd(s, p)])
    case None => 3
  }

  /** The day count is 3 when `(\d+)\s*day` matches nowhere, and otherwise the
      value of group 1 of the leftmost match, a group that is a whole run of
      digits (the number is never cut short on its left). */
  lemma DayCountSpec(s: string)
    ensures (forall p, q, r :: !DayCountMatch(s, p, q, r)) ==> DayCount(s) == 3
    ensures forall p, q, r :: DayCountMatch(s, p, q, r) &&
                              (forall p', q', r' :: p' < p ==> !DayCountMatch(s, p', q', r')) ==>
              DayCount(s) == DigitsValue(s[p..q]) && (p == 0 || !IsDigit(s[p - 1]))
  {
    match LeftmostDayCount(s, 0)
    case None =>
      forall p, q, r | DayCountMatch(s, p, q, r)
        ensures false
      {
        DayCountMatchDetermined(s, p, q, r);
      }
    case Some(p0) =>
      var q0 := DigitRunEnd(s, p0);
      var r0 := SpaceRunEnd(s, q0);
      DayCountMatchDetermined(s, p0, q0, r0);
      forall p, q, r | DayCountMatch(s, p, q, r) &&
                       (forall p', q', r' :: p' < p ==> !DayCountMatch(s, p', q', r'))
        ensures DayCount(s) == DigitsValue(s[p..q]) && (p == 0 || !IsDigit(s[p - 1]))
      {
        DayCountMatchDetermined(s, p, q, r);
        assert p <= p0;
        assert p == p0;
        if p > 0 && IsDigit(s[p - 1]) {
          DayCountAtExtendsLeft(s, p);
          DayCountMatchDetermined(s, p - 1, q, r);
        }
      }
  }
}
