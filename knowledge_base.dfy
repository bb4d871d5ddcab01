/** The chatbot's knowledge base and the itinerary and place replies built from
    it (main.py:48-60, 146-168). `places` is the content of places.json, an
    ordered list of (key, entry) pairs as Python's dict keeps it; the interest
    map is the fixed table of main.py:56-60. */
module KnowledgeBase {

  import opened Basics
  import opened Text
  import Patterns

  /** One entry of places.json; a field the entry lacks is None. */
  datatype PlaceInfo = PlaceInfo(description: Option<string>, bestTime: Option<string>, activities: Option<string>)

  /** A dict with string keys, as its (key, value) pairs in insertion order. */
  type Dict<V> = seq<(string, V)>

  /** No key occurs twice, as in every Python dict. */
  predicate DistinctKeys<V>(d: Dict<V>) {
    forall i, j :: 0 <= i < j < |d| ==> d[i].0 != d[j].0
  }

  /** The content of places.json: `json.load` keeps one entry per key. */
  type Places = p: Dict<PlaceInfo> | DistinctKeys(p)

  type InterestMap = Dict<seq<string>>

  /** `interest_map` (main.py:56-60). */
  const Interests: InterestMap := [
    ("nature", ["netarhat", "patratu", "hundru"]),
    ("wildlife", ["betla"]),
    ("pilgrimage", ["deoghar"])
  ]

  const Missing := "N/A"
  const NoPlaces := "I couldn't find any places "
    + "matching your interests."
  const BlockSeparator := "\n\n"

  function Keys<V>(d: Dict<V>): (r: seq<string>)
    ensures |r| == |d| && forall i :: 0 <= i < |d| ==> r[i] == d[i].0
  {
    if d == [] then [] else [d[0].0] + Keys(d[1..])
  }

  /** d.get(k): the value stored under k, or None. */
  function Get<V>(d: Dict<V>, k: string): (r: Option<V>)
    ensures r.Some? <==> k in Keys(d)
    ensures r.Some? ==> exists i :: 0 <= i < |d| && d[i] == (k, r.value)
  {
    if d == [] then None
    else if d[0].0 == k then Some(d[0].1)
    else Get(d[1..], k)
  }

  /** `[i for i in interest_map if i in msg]`: the keys that occur in the message,
      in the map's order. */
  function MatchedInterests(im: InterestMap, msg: string): (r: seq<string>)
    ensures |r| <= |im|
    ensures forall k :: k in r <==> k in Keys(im) && Contains(msg, k)
  {
    if im == [] then []
    else (if Contains(msg, im[0].0) then [im[0].0] else []) + MatchedInterests(im[1..], msg)
  }

  /** The interests of main.py:149: the matched ones, or ["nature"] when none matched. */
  function SelectedInterests(im: InterestMap, msg: string): (r: seq<string>)
    ensures r != []
    ensures MatchedInterests(im, msg) == [] ==> r == ["nature"]
    ensures MatchedInterests(im, msg) != [] ==> r == MatchedInterests(im, msg)
    ensures MatchedInterests(im, msg) != [] ==> forall k :: k in r <==> k in Keys(im) && Contains(msg, k)
  {
    var m := MatchedInterests(im, msg);
    if m == [] then ["nature"] else m
  }

  /** `[p for i in interests for p in interest_map.get(i, [])]`: the place lists of
      the interests, concatenated in order and with repetitions kept. */
  function CandidatePlaces(im: InterestMap, interests: seq<string>): (r: seq<string>)
    ensures interests != [] && Get(im, interests[0]).Some? ==>
              |r| >= |Get(im, interests[0]).value| && r[..|Get(im, interests[0]).value|] == Get(im, interests[0]).value
  {
    if interests == [] then []
    else
      var first := match Get(im, interests[0]) case Some(ps) => ps case None => [];
      first + CandidatePlaces(im, interests[1..])
  }

  /** The candidates of a list of interests are those of its parts, one after the
      other: the place lists are concatenated in interest order, repetitions kept. */
  lemma {:induction false} CandidatePlacesAppend(im: InterestMap, a: seq<string>, b: seq<string>)
    ensures CandidatePlaces(im, a + b) == CandidatePlaces(im, a) + CandidatePlaces(im, b)
    decreases |a|
  {
    if a != [] {
      assert (a + b)[0] == a[0] && (a + b)[1..] == a[1..] + b;
      CandidatePlacesAppend(im, a[1..], b);
    } else {
      assert a + b == b;
    }
  }

  /** One interest contributes its own place list, or nothing when the map lacks it. */
  lemma CandidatePlacesOne(im: InterestMap, i: string)
    ensures CandidatePlaces(im, [i]) == (match Get(im, i) case Some(ps) => ps case None => [])
  {
    assert [i][1..] == [];
  }

  /** A place is a candidate exactly when it is listed under one of the interests. */
  lemma {:induction false} CandidatePlacesMembers(im: InterestMap, interests: seq<string>, p: string)
    ensures p in CandidatePlaces(im, interests) <==>
            exists i :: i in interests && Get(im, i).Some? && p in Get(im, i).value
  {
    if interests != [] {
      var i0 := interests[0];
      var first := match Get(im, i0) case Some(ps) => ps case None => [];
      assert CandidatePlaces(im, interests) == first + CandidatePlaces(im, interests[1..]);
      CandidatePlacesMembers(im, interests[1..], p);
      if p in first {
        assert i0 in interests && Get(im, i0).Some? && p in Get(im, i0).value;
      }
      if exists i :: i in interests && Get(im, i).Some? && p in Get(im, i).value {
        var i :| i in interests && Get(im, i).Some? && p in Get(im, i).value;
        if i != i0 {
          assert i in interests[1..];
        }
      }
    }
  }

  /** The place list of main.py:150: the candidates, or every key of places.json
      when there are none. */
  function SelectedPlaces(places: Places, im: InterestMap, msg: string): (r: seq<string>)
    ensures r == [] <==> CandidatePlaces(im, SelectedInterests(im, msg)) == [] && places == []
    ensures CandidatePlaces(im, SelectedInterests(im, msg)) != [] ==> r == CandidatePlaces(im, SelectedInterests(im, msg))
    ensures CandidatePlaces(im, SelectedInterests(im, msg)) == [] ==> r == Keys(places)
  {
    var c := CandidatePlaces(im, SelectedInterests(im, msg));
    if c == [] then Keys(places) else c
  }

  /** With the fixed interest map every selected interest has places, so the
      fallback to all keys of places.json is never taken and the list is never
      empty, whatever places.json holds. */
  lemma StaticCandidatesNonEmpty(places: Places, msg: string)
    ensures CandidatePlaces(Interests, SelectedInterests(Interests, msg)) != []
    ensures SelectedPlaces(places, Interests, msg) == CandidatePlaces(Interests, SelectedInterests(Interests, msg))
  {
    var sel := SelectedInterests(Interests, msg);
    var i0 := sel[0];
    assert i0 in Keys(Interests) by {
      if MatchedInterests(Interests, msg) != [] {
        assert i0 in MatchedInterests(Interests, msg);
      }
    }
    assert Keys(Interests) == ["nature", "wildlife", "pilgrimage"];
    assert Get(Interests, i0).Some? && Get(Interests, i0).value != [];
    var p := Get(Interests, i0).value[0];
    assert p in CandidatePlaces(Interests, sel);
  }

  /** `info.get(field, 'N/A')`. */
  function FieldOrMissing(v: Option<string>): (r: string)
    ensures v.None? ==> r == Missing
    ensures v.Some? ==> r == v.value
  {
    match v case Some(s) => s case None => Missing
  }

  /** `places.get(place_name, {})`: a place absent from places.json has no fields. */
  function InfoOf(places: Places, place: string): (r: PlaceInfo)
    ensures place !in Keys(places) ==> r == PlaceInfo(None, None, None)
    ensures Get(places, place).Some? ==> r == Get(places, place).value
  {
    match Get(places, place) case Some(info) => info case None => PlaceInfo(None, None, None)
  }

  /** The text of one day of the itinerary (main.py:158-163). */
  function RenderBlock(places: Places, place: string): (r: string)
    ensures |r| > 0 && r[0] == '\U{1F4CD}'
  {
    var info := InfoOf(places, place);
    var head := "\U{1F4CD} " + Capitalize(place) + " - " + FieldOrMissing(info.description);
    assert head[0] == '\U{1F4CD}';
    Join([head,
          "   \U{1F552} Best time: " + FieldOrMissing(info.bestTime),
          "   \U{1F3AF} Activities: " + FieldOrMissing(info.activities)], "\n")
  }

  /** The key under which day i (counted from 0) is stored in `plan`: "Day {i+1}". */
  function DayKey(i: nat): (r: string)
    ensures |r| > 4 && r[..4] == "Day " && r[4..] == NatToDecimal(i + 1)
  {
    "Day " + NatToDecimal(i + 1)
  }

  /** No two days share a key, so filling `plan` never overwrites an earlier day. */
  lemma DayKeysDistinct(i: nat, j: nat)
    requires i != j
    ensures DayKey(i) != DayKey(j)
  {
    if DayKey(i) == DayKey(j) {
      DecimalInjective(i + 1, j + 1);
    }
  }

  /** Python's `d[k] = v`: overwrite the value of an existing key in place, or
      append a new pair at the end. */
  function Assign<V>(d: Dict<V>, k: string, v: V): (r: Dict<V>)
    ensures k !in Keys(d) ==> r == d + [(k, v)]
    ensures k in Keys(d) ==> |r| == |d| && Keys(r) == Keys(d)
    ensures Get(r, k) == Some(v)
    ensures forall k' :: k' != k ==> Get(r, k') == Get(d, k')
  {
    if d == [] then [(k, v)]
    else if d[0].0 == k then [(k, v)] + d[1..]
    else [d[0]] + Assign(d[1..], k, v)
  }

  /** `d.values()`, in insertion order. */
  function Values<V>(d: Dict<V>): (r: seq<V>)
    ensures |r| == |d| && forall i :: 0 <= i < |d| ==> r[i] == d[i].1
  {
    if d == [] then [] else [d[0].1] + Values(d[1..])
  }

  /** The place visited on each of `days` days: day i (counted from 0) visits
      selected[i mod |selected|], so the list is reused cyclically. */
  function DayPlaces(selected: seq<string>, days: nat): (r: seq<string>)
    requires selected != []
    ensures |r| == days && forall i :: 0 <= i < days ==> r[i] == selected[i % |selected|]
  {
    seq(days, i requires 0 <= i < days => selected[i % |selected|])
  }

  /** The first |selected| days visit the selected places once each, in order. */
  lemma DayPlacesFirstLap(selected: seq<string>, days: nat)
    requires selected != [] && days <= |selected|
    ensures DayPlaces(selected, days) == selected[..days]
  {
    forall i | 0 <= i < days
      ensures DayPlaces(selected, days)[i] == selected[i]
    {
      RemainderBelow(i, |selected|);
    }
  }

  /** After a full lap the itinerary visits the same place again. */
  lemma DayPlacesRepeat(selected: seq<string>, days: nat, i: nat)
    requires selected != [] && i + |selected| < days
    ensures DayPlaces(selected, days)[i + |selected|] == DayPlaces(selected, days)[i]
  {
    RemainderAfterLap(i, |selected|);
  }

  lemma RemainderBelow(i: nat, n: nat)
    requires i < n
    ensures i % n == i
  {
  }

  lemma RemainderAfterLap(i: nat, n: nat)
    requires n > 0
    ensures (i + n) % n == i % n
  {
    RemainderUnique(i + n, n, i / n + 1, i % n);
  }

  /** The remainder is the one r in [0, n) with x == n * q + r for some q. */
  lemma RemainderUnique(x: int, n: int, q: int, r: int)
    requires n > 0 && x == n * q + r && 0 <= r < n
    ensures x % n == r
  {
    var d := q - x / n;
    assert n * d == x % n - r;
    if d >= 1 {
      MultipleAtLeast(n, d);
    } else if d <= -1 {
      MultipleAtLeast(n, -d);
    }
  }

  lemma {:induction false} MultipleAtLeast(n: int, d: int)
    requires n > 0 && d >= 1
    ensures n * d >= n
    decreases d
  {
    if d > 1 {
      MultipleAtLeast(n, d - 1);
      assert n * d == n * (d - 1) + n;
    }
  }

  /** The block of each place in `names`, in order. */
  function Blocks(places: Places, names: seq<string>): (r: seq<string>)
    ensures |r| == |names| && forall i :: 0 <= i < |names| ==> r[i] == RenderBlock(places, names[i])
  {
    seq(|names|, i requires 0 <= i < |names| => RenderBlock(places, names[i]))
  }

  /** The day texts of an itinerary of `days` days. */
  function DayBlocks(places: Places, selected: seq<string>, days: nat): (r: seq<string>)
    requires selected != []
    ensures |r| == days
  {
    Blocks(places, DayPlaces(selected, days))
  }

  /** Day i of an itinerary is the block of selected[i mod |selected|]. */
  lemma DayBlocksAt(places: Places, selected: seq<string>, days: nat, i: nat)
    requires selected != [] && i < days
    ensures DayBlocks(places, selected, days)[i] == RenderBlock(places, selected[i % |selected|])
  {
    assert DayPlaces(selected, days)[i] == selected[i % |selected|];
  }

  /** The reply of the itinerary branch (main.py:147-164), as a value. */
  function ItineraryReply(places: Places, im: InterestMap, msg: string): (r: string)
    ensures SelectedPlaces(places, im, msg) == [] ==> r == NoPlaces
    ensures SelectedPlaces(places, im, msg) != [] ==>
              r == Join(DayBlocks(places, SelectedPlaces(places, im, msg), Patterns.DayCount(msg)), BlockSeparator)
  {
    var selected := SelectedPlaces(places, im, msg);
    if selected == [] then NoPlaces
    else Join(DayBlocks(places, selected, Patterns.DayCount(msg)), BlockSeparator)
  }

  /** With the fixed interest map the itinerary reply is exactly DayCount(msg)
      blocks joined by blank lines (the empty text for zero days), built from
      the candidate places of the message's interests; it starts with a block,
      never with the "couldn't find any places" reply. */
  lemma ItineraryShape(places: Places, msg: string)
    ensures var sel := CandidatePlaces(Interests, SelectedInterests(Interests, msg));
            sel != [] &&
            ItineraryReply(places, Interests, msg) == Join(DayBlocks(places, sel, Patterns.DayCount(msg)), BlockSeparator)
    ensures Patterns.DayCount(msg) == 0 <==> ItineraryReply(places, Interests, msg) == []
    ensures var r := ItineraryReply(places, Interests, msg); r == [] || r[0] == '\U{1F4CD}'
  {
    StaticCandidatesNonEmpty(places, msg);
    var sel := CandidatePlaces(Interests, SelectedInterests(Interests, msg));
    var days := Patterns.DayCount(msg);
    var blocks := DayBlocks(places, sel, days);
    var r := Join(blocks, BlockSeparator);
    assert ItineraryReply(places, Interests, msg) == r;
    if days == 0 {
      assert blocks == [];
    } else {
      assert |blocks[0]| > 0 && r[..|blocks[0]|] == blocks[0];
      assert r[0] == '\U{1F4CD}';
    }
  }

  /** The position of the first key of places.json, at or after `from`, that
      occurs in the message (the loop of main.py:166-168). */
  function FirstPlaceFrom(places: Places, msg: string, from: nat): (r: Option<nat>)
    requires from <= |places|
    ensures r.Some? ==> from <= r.value < |places| && Contains(msg, places[r.value].0)
                        && forall j :: from <= j < r.value ==> !Contains(msg, places[j].0)
    ensures r.None? ==> forall j :: from <= j < |places| ==> !Contains(msg, places[j].0)
    decreases |places| - from
  {
    if from == |places| then None
    else if Contains(msg, places[from].0) then Some(from)
    else FirstPlaceFrom(places, msg, from + 1)
  }

  /** The failure of the direct lookup: `info['description']` raises KeyError for an
      entry without a description, and nothing in `chat` catches it. */
  datatype LookupFailure = MissingDescription(place: string)

  /** The reply of the direct lookup for the entry at index k (main.py:168). */
  function PlaceAnswer(places: Places, k: nat): (r: Result<string, LookupFailure>)
    requires k < |places|
    ensures places[k].1.description.None? <==> r.Err?
    ensures r.Ok? ==> r.value == Capitalize(places[k].0) + ": " + places[k].1.description.value
  {
    var (place, info) := places[k];
    match info.description
    case Some(d) => Ok(Capitalize(place) + ": " + d)
    case None => Err(MissingDescription(place))
  }
}
