/**
 * The tour director: reading the replanning intent out of a model reply,
 * filtering place-search results, ranking places by cheapest insertion into
 * the rest of the route, and the route edits and replies of `replan_route`.
 */
module Director {
  import opened Wrappers
  import opened Geo
  import opened Strings
  import opened Sequences
  import opened State
  import opened Routing
  import opened Knowledge

  /** What the model's JSON may hold for `query`: no key, `null`, or a string. */
  datatype QueryField = QueryMissing | QueryNull | Query(text: string)

  /** What the model's JSON may hold for `action`: no key, `null`, or a string. */
  datatype ActionField = ActionMissing | ActionNull | Action(text: string)

  /** The intent `replan_route` reads: `action`, `auto_add` (false when absent or null) and `query`. */
  datatype ReplanIntent = ReplanIntent(action: ActionField, autoAdd: bool, query: QueryField)

  /**
   * The text `extract_replan_request` hands to the JSON parser: the stripped
   * reply, or, when that opens with a fence, the text between the first fence
   * and the next one (or the end), less a leading `json` tag.
   */
  function FencePayload(response: string): (payload: string)
    ensures !StartsWith(Strip(response), Fence) ==> payload == Strip(response)
    ensures StartsWith(Strip(response), Fence) ==>
      var inner := Before(Strip(response)[3..], Fence);
      payload == if StartsWith(inner, "json") then inner[4..] else inner
    ensures StartsWith(Strip(response), Fence) ==> !Contains(payload, Fence)
  {
    var text := Strip(response);
    if StartsWith(text, Fence) then
      FencedInner(text);
      var inner := Split(text, Fence)[1];
      if StartsWith(inner, "json") then
        UntaggedFenceFree(inner);
        inner[4..]
      else inner
    else text
  }

  /** Text that opens with a fence has a second piece: the fence-free text up to the next fence. */
  lemma FencedInner(text: string)
    requires StartsWith(text, Fence)
    ensures |Split(text, Fence)| >= 2
    ensures Split(text, Fence)[1] == Before(text[3..], Fence)
    ensures !Contains(Split(text, Fence)[1], Fence)
  {
    SplitLeading(text, Fence);
    SplitHead(text[3..], Fence);
    PrefixBeforeFirst(text[3..], Fence, |Before(text[3..], Fence)|);
  }

  /** Dropping a four-character tag from fence-free text leaves it fence-free. */
  lemma UntaggedFenceFree(inner: string)
    requires |inner| >= 4 && !Contains(inner, Fence)
    ensures !Contains(inner[4..], Fence)
  {
    assert inner[4..] == inner[4..|inner|];
    FenceFreeSlice(inner, 4, |inner|);
  }

  /** The fallback intent when the reply does not parse: a place search for the whole message. */
  function FallbackIntent(message: string): ReplanIntent {
    ReplanIntent(Action("find_place"), false, Query(message))
  }

  /** `extract_replan_request`, with the model's reply and the JSON parser as parameters. */
  function ExtractReplanRequest(message: string, response: string, parse: string -> Option<ReplanIntent>): (intent: ReplanIntent)
    ensures parse(FencePayload(response)).Some? ==> intent == parse(FencePayload(response)).value
    ensures parse(FencePayload(response)).None? ==>
      intent.action == Action("find_place") && !intent.autoAdd && intent.query == Query(message)
  {
    match parse(FencePayload(response))
    case Some(intent) => intent
    case None => FallbackIntent(message)
  }

  /**
   * A reply that opens with a fence, a `json` tag, a body and a closing fence
   * reaches the parser as exactly that body, whatever follows the closing
   * fence, provided the body holds no fence and does not end in a backtick.
   */
  lemma FencedJsonPayload(response: string, body: string)
    requires StartsWith(Strip(response), Fence + "json" + body + Fence)
    requires !Contains(body, Fence) && (body == [] || body[|body| - 1] != '`')
    ensures FencePayload(response) == body
  {
    var text := Strip(response);
    FencedJsonText(text, body);
    var inner := "json" + body;
    assert inner[..4] == "json" && inner[4..] == body;
  }

  /** The text between the first two fences of such a reply is the tag and the body. */
  lemma FencedJsonText(text: string, body: string)
    requires StartsWith(text, Fence + "json" + body + Fence)
    requires !Contains(body, Fence) && (body == [] || body[|body| - 1] != '`')
    ensures StartsWith(text, Fence)
    ensures Before(text[3..], Fence) == "json" + body
  {
    var head := "json" + body;
    var p := Fence + head + Fence;
    assert p == Fence + "json" + body + Fence;
    var tail := text[|p|..];
    assert text == p + tail;
    assert text[..3] == Fence;
    assert text[3..] == head + Fence + tail;
    JsonTagFenceFree();
    ConcatFenceFree("json", body);
    assert head[|head| - 1] != '`';
    FenceAfter(head, tail);
  }

  lemma JsonTagFenceFree()
    ensures !Contains("json", Fence)
  {
    forall j ensures !OccursAt("json", Fence, j) {
      if 0 <= j && j + 3 <= 4 {
        assert "json"[j..j + 3][0] == "json"[j];
      }
    }
  }

  /** A place from the search: name, address when known, coordinates, rating when known. */
  datatype Place = Place(name: string, address: Option<string>, coordinates: Coord, rating: Option<real>)

  /** `p.get("rating") and float(p["rating"]) >= 2.0`: a missing rating, or a zero one, is not high quality. */
  predicate HighQuality(p: Place) {
    p.rating.Some? && p.rating.value >= 2.0
  }

  function HighQualityOnly(places: seq<Place>): (r: seq<Place>)
    ensures forall p :: p in r <==> p in places && HighQuality(p)
    ensures IsSubsequence(r, places)
  {
    if places == [] then []
    else
      var rest := HighQualityOnly(places[1..]);
      assert places == [places[0]] + places[1..];
      if HighQuality(places[0]) then
        assert ([places[0]] + rest)[1..] == rest;
        [places[0]] + rest
      else rest
  }

  /** Filtering a list with one more place at the end adds that place at the end exactly when it is high quality. */
  lemma {:induction false} HighQualityOnlyAppend(places: seq<Place>, p: Place)
    ensures HighQualityOnly(places + [p]) == HighQualityOnly(places) + (if HighQuality(p) then [p] else [])
  {
    if places == [] {
      assert [] + [p] == [p] && [p][1..] == [];
    } else {
      assert (places + [p])[0] == places[0] && (places + [p])[1..] == places[1..] + [p];
      HighQualityOnlyAppend(places[1..], p);
    }
  }

  /** `find_nearby_places`: the places rated 2.0 or better, in search order, or every place when none is. */
  function FindNearbyPlaces(searchResults: seq<Place>): (r: seq<Place>)
    ensures (exists p :: p in searchResults && HighQuality(p)) ==>
      && r == HighQualityOnly(searchResults)
      && IsSubsequence(r, searchResults) && forall p :: p in r <==> p in searchResults && HighQuality(p)
    ensures (forall p :: p in searchResults ==> !HighQuality(p)) ==> r == searchResults
    ensures r == [] <==> searchResults == []
  {
    var high := HighQualityOnly(searchResults);
    assert high != [] ==> high[0] in high;
    if high != [] then high else searchResults
  }

  /** The keyword arguments `find_nearby_places` passes after the query and the location. */
  const NearbySearchKeywords: seq<string> := ["radius_meters", "open_now"]

  /** `find_nearby_places` as written: the search is called with `open_now`, which it does not declare. */
  function FindNearbyPlacesAsWritten(searchResults: seq<Place>): CallOutcome<seq<Place>> {
    match CallSearchPlaces(NearbySearchKeywords, searchResults)
    case RaisedTypeError(k) => RaisedTypeError(k)
    case Returned(places) => Returned(FindNearbyPlaces(places))
  }

  /** As written, every call of `find_nearby_places` raises a `TypeError` on `open_now`. */
  lemma NearbySearchRaises(searchResults: seq<Place>)
    ensures FindNearbyPlacesAsWritten(searchResults) == RaisedTypeError("open_now")
  {
    assert NearbySearchKeywords == ["radius_meters"] + ["open_now"] + [];
    OpenNowRaises<seq<Place>>(["radius_meters"], [], searchResults);
  }

  /**
   * The extra walking, in meters, of visiting `place` just before `stops[i]`,
   * or after the last stop when `i == |stops|`.
   */
  function InsertionCost(stops: seq<PoiStop>, i: int, place: Coord, dist: Distance): real
    requires 1 <= i <= |stops|
  {
    var prev := stops[i - 1].coordinates;
    if i < |stops| then dist(prev, place) + dist(place, stops[i].coordinates) - dist(prev, stops[i].coordinates)
    else dist(prev, place)
  }

  /** With a real distance a detour never shortens the walk. */
  lemma InsertionCostNonNegative(stops: seq<PoiStop>, i: int, place: Coord, dist: Distance)
    requires 1 <= i <= |stops| && IsMetric(dist)
    ensures InsertionCost(stops, i, place, dist) >= 0.0
  {
    var prev := stops[i - 1].coordinates;
    if i < |stops| {
      assert dist(prev, stops[i].coordinates) <= dist(prev, place) + dist(place, stops[i].coordinates);
    } else {
      assert dist(prev, place) >= 0.0;
    }
  }

  /** `i` is the first position in `from..|stops|` where inserting `place` costs least. */
  ghost predicate IsCheapestInsertion(stops: seq<PoiStop>, from: int, place: Coord, i: int, dist: Distance) {
    && 1 <= from <= i <= |stops|
    && (forall j :: from <= j <= |stops| ==> InsertionCost(stops, i, place, dist) <= InsertionCost(stops, j, place, dist))
    && (forall j :: from <= j < i ==> InsertionCost(stops, i, place, dist) < InsertionCost(stops, j, place, dist))
  }

  /** The cheapest insertion point is unique. */
  lemma CheapestInsertionUnique(stops: seq<PoiStop>, from: int, place: Coord, i: int, k: int, dist: Distance)
    requires IsCheapestInsertion(stops, from, place, i, dist) && IsCheapestInsertion(stops, from, place, k, dist)
    ensures i == k
  {
    assert InsertionCost(stops, i, place, dist) <= InsertionCost(stops, k, place, dist);
    assert InsertionCost(stops, k, place, dist) <= InsertionCost(stops, i, place, dist);
  }

  /** The inner loop of `rank_candidates_by_insertion`: the first cheapest position at or after `from`, or -1 when there is none to try. */
  method CheapestInsertion(stops: seq<PoiStop>, from: int, place: Coord, dist: Distance)
    returns (best: int, minCost: real)
    requires from >= 1
    ensures best == -1 <==> from > |stops|
    ensures best != -1 ==> IsCheapestInsertion(stops, from, place, best, dist)
    ensures best != -1 ==> minCost == InsertionCost(stops, best, place, dist)
  {
    best, minCost := -1, 0.0;
    var i := from;
    while i <= |stops|
      invariant from <= i <= if from <= |stops| + 1 then |stops| + 1 else from
      invariant best == -1 <==> i == from
      invariant best != -1 ==> from <= best < i && minCost == InsertionCost(stops, best, place, dist)
      invariant best != -1 ==> forall j :: from <= j < i ==> minCost <= InsertionCost(stops, j, place, dist)
      invariant best != -1 ==> forall j :: from <= j < best ==> minCost < InsertionCost(stops, j, place, dist)
    {
      var cost := InsertionCost(stops, i, place, dist);
      if best == -1 || cost < minCost {
        best, minCost := i, cost;
      }
      i := i + 1;
    }
    assert from <= |stops| ==> i == |stops| + 1;
  }

  /** A ranked place: where to insert it and what that adds. */
  datatype Ranked = Ranked(place: Place, index: int, cost: real)

  function ByCost(): Ranked -> real {
    (r: Ranked) => r.cost
  }

  /**
   * `unsorted` ranks every candidate, in candidate order, at its cheapest
   * position, or is empty when no position is left; `ranked` is it sorted by cost.
   */
  ghost predicate IsRanking(stops: seq<PoiStop>, from: int, candidates: seq<Place>,
                            ranked: seq<Ranked>, unsorted: seq<Ranked>, dist: Distance)
  {
    && |unsorted| == (if from <= |stops| then |candidates| else 0)
    && (forall k :: 0 <= k < |unsorted| ==>
          && unsorted[k].place == candidates[k]
          && IsCheapestInsertion(stops, from, candidates[k].coordinates, unsorted[k].index, dist)
          && unsorted[k].cost == InsertionCost(stops, unsorted[k].index, candidates[k].coordinates, dist))
    && ranked == SortBy(unsorted, ByCost())
  }

  /**
   * `rank_candidates_by_insertion` over the positions after the current stop.
   * Every candidate is ranked, in candidate order before sorting, at its
   * cheapest position, or none is when no position is left; the result is
   * then sorted by cost, equal costs in candidate order.
   */
  method RankCandidates(route: Route, candidates: seq<Place>, dist: Distance)
    returns (ranked: seq<Ranked>, ghost unsorted: seq<Ranked>)
    requires route.currentStopIndex >= 0
    ensures IsRanking(route.stops, route.currentStopIndex + 1, candidates, ranked, unsorted, dist)
    ensures SortedBy(ranked, ByCost()) && multiset(ranked) == multiset(unsorted)
    ensures forall v :: WithKey(ranked, ByCost(), v) == WithKey(unsorted, ByCost(), v)
  {
    var stops := route.stops;
    var from := route.currentStopIndex + 1;
    var results: seq<Ranked> := [];
    var n := 0;
    while n < |candidates|
      invariant 0 <= n <= |candidates|
      invariant |results| == if from <= |stops| then n else 0
      invariant forall k :: 0 <= k < |results| ==>
        && results[k].place == candidates[k]
        && IsCheapestInsertion(stops, from, candidates[k].coordinates, results[k].index, dist)
        && results[k].cost == InsertionCost(stops, results[k].index, candidates[k].coordinates, dist)
    {
      var place := candidates[n];
      var best, minCost := CheapestInsertion(stops, from, place.coordinates, dist);
      if best != -1 {
        results := results + [Ranked(place, best, minCost)];
      }
      n := n + 1;
    }
    unsorted := results;
    ranked := SortBy(results, ByCost());
    SortBySorted(results, ByCost());
    SortByPermutation(results, ByCost());
    forall v ensures WithKey(ranked, ByCost(), v) == WithKey(unsorted, ByCost(), v) {
      SortByStable(results, ByCost(), v);
    }
  }

  /** The first of a sorted ranking is a cheapest (place, position) pair over every candidate and position. */
  lemma FirstRankedIsCheapest(stops: seq<PoiStop>, from: int, candidates: seq<Place>,
                              ranked: seq<Ranked>, unsorted: seq<Ranked>, dist: Distance)
    requires from >= 1 && ranked != [] && |unsorted| == |candidates|
    requires forall k :: 0 <= k < |unsorted| ==>
      && IsCheapestInsertion(stops, from, candidates[k].coordinates, unsorted[k].index, dist)
      && unsorted[k].cost == InsertionCost(stops, unsorted[k].index, candidates[k].coordinates, dist)
    requires SortedBy(ranked, ByCost()) && multiset(ranked) == multiset(unsorted)
    ensures forall k, j :: 0 <= k < |candidates| && from <= j <= |stops| ==>
      ranked[0].cost <= InsertionCost(stops, j, candidates[k].coordinates, dist)
  {
    forall k, j | 0 <= k < |candidates| && from <= j <= |stops|
      ensures ranked[0].cost <= InsertionCost(stops, j, candidates[k].coordinates, dist)
    {
      assert unsorted[k] in multiset(ranked);
      var t :| 0 <= t < |ranked| && ranked[t] == unsorted[k];
      if t > 0 {
        assert ByCost()(ranked[0]) <= ByCost()(ranked[t]);
      }
    }
  }

  /** `int(x)`: truncation toward zero. */
  function Truncate(x: real): (r: int)
    ensures x >= 0.0 ==> r as real <= x < r as real + 1.0
    ensures x < 0.0 ==> r as real - 1.0 < x <= r as real
  {
    if x >= 0.0 then x.Floor else -((-x).Floor)
  }

  const SecondsPerDay: nat := 86400

  /**
   * The time budget of a theme change: the tour length less the minutes
   * elapsed, at least 20. The elapsed time is read through `timedelta.seconds`,
   * which keeps only the part below one day.
   */
  function RemainingBudget(tourLength: int, elapsedSeconds: nat): (minutes: int)
    ensures minutes >= 20
    ensures minutes == if tourLength - (elapsedSeconds % SecondsPerDay) / 60 > 20
                       then tourLength - (elapsedSeconds % SecondsPerDay) / 60 else 20
  {
    var seconds := elapsedSeconds % SecondsPerDay;
    WholeMinutes(seconds);
    var elapsedMinutes := Truncate(seconds as real / 60.0);
    if tourLength - elapsedMinutes > 20 then tourLength - elapsedMinutes else 20
  }

  /** `int(seconds / 60)` is the number of whole minutes. */
  lemma WholeMinutes(seconds: nat)
    ensures Truncate(seconds as real / 60.0) == seconds / 60
  {
    var q, r := seconds / 60, seconds % 60;
    assert seconds as real / 60.0 == q as real + r as real / 60.0;
  }

  /** A tour that has run a whole day longer gets the same budget: the days are dropped. */
  lemma BudgetIgnoresWholeDays(tourLength: int, elapsedSeconds: nat, days: nat)
    ensures RemainingBudget(tourLength, elapsedSeconds + days * SecondsPerDay) == RemainingBudget(tourLength, elapsedSeconds)
  {
    assert (elapsedSeconds + days * SecondsPerDay) % SecondsPerDay == elapsedSeconds % SecondsPerDay;
  }

  /** Where the reply says an added stop went. */
  datatype Placement = AsNextStop | After(name: string) | UpAhead

  /** The wording choice of an auto-add, read from the stops after the insertion. */
  function PlacementOf(stops: seq<PoiStop>, currentIndex: int, insertIdx: int): (p: Placement)
    requires insertIdx <= |stops|
  {
    if insertIdx == currentIndex + 1 then AsNextStop
    else if insertIdx > 0 then After(stops[insertIdx - 1].name)
    else UpAhead
  }

  /**
   * An insertion after the current stop is announced as the next stop exactly
   * when it lands right after the current one, and otherwise as following the
   * stop before it; "up ahead" is never said.
   */
  lemma PlacementWording(stops: seq<PoiStop>, currentIndex: int, insertIdx: int)
    requires 0 <= currentIndex < insertIdx <= |stops|
    ensures PlacementOf(stops, currentIndex, insertIdx) == AsNextStop <==> insertIdx == currentIndex + 1
    ensures insertIdx != currentIndex + 1 ==> PlacementOf(stops, currentIndex, insertIdx) == After(stops[insertIdx - 1].name)
    ensures !PlacementOf(stops, currentIndex, insertIdx).UpAhead?
  {
  }

  /** A line of the browse reply: a place, its rating when known, and the added meters as a whole number. */
  datatype BrowseOption = BrowseOption(name: string, rating: Option<real>, addedMeters: int)

  /** The reply `replan_route` gives, by the case it is in; the exact wording is not modelled. */
  datatype ReplanMessage =
    | Rerouted(theme: Option<string>, nextNames: seq<string>)
    | NoSegment(theme: Option<string>)
    | CouldNotFit
    | Added(name: string, rating: Option<real>, placement: Placement)
    | Options(query: Option<string>, options: seq<BrowseOption>)
    | NothingOpen(query: Option<string>)
    | Skipping
    | WrappingUp
    | Unclear

  /** An entry of `new_stops`: a stop of a new segment, or the place that was added. */
  datatype NewStop = SegmentStop(name: string, address: string) | FoundPlace(place: Place)

  datatype ReplanResult = ReplanResult(
    success: bool,
    action: Option<string>,
    message: ReplanMessage,
    newStops: seq<NewStop>,
    skipped: bool,
    routeUpdated: bool)

  /** `intent.get("action", "find_place")`, where `None` is a JSON `null`. */
  function ActionOf(intent: ReplanIntent): Option<string> {
    match intent.action
    case ActionMissing => Some("find_place")
    case ActionNull => None
    case Action(text) => Some(text)
  }

  /** `intent.get("query", user_request)`, where `None` is a JSON `null`. */
  function QueryOf(intent: ReplanIntent, userRequest: string): Option<string> {
    match intent.query
    case QueryMissing => Some(userRequest)
    case QueryNull => None
    case Query(text) => Some(text)
  }

  /** A query is truthy when it is a non-empty string. */
  predicate Truthy(query: Option<string>) {
    query.Some? && query.value != ""
  }

  /** The stop an auto-add inserts: a 15-minute detour with the id drawn for it. */
  function DetourStop(id: string, place: Place): PoiStop {
    PoiStop(id, place.name, place.coordinates, place.address.GetOr(""), "added_stop", 15, ["detour"])
  }

  function NamesOf(stops: seq<PoiStop>): (names: seq<string>)
    ensures |names| == |stops| && forall i :: 0 <= i < |stops| ==> names[i] == stops[i].name
  {
    seq(|stops|, i requires 0 <= i < |stops| => stops[i].name)
  }

  function SegmentStops(stops: seq<PoiStop>): (r: seq<NewStop>)
    ensures |r| == |stops| && forall i :: 0 <= i < |stops| ==> r[i] == SegmentStop(stops[i].name, stops[i].address)
  {
    seq(|stops|, i requires 0 <= i < |stops| => SegmentStop(stops[i].name, stops[i].address))
  }

  function BrowseOptions(top: seq<Ranked>): (r: seq<BrowseOption>)
    ensures |r| == |top|
    ensures forall i :: 0 <= i < |top| ==> r[i] == BrowseOption(top[i].place.name, top[i].place.rating, Truncate(top[i].cost))
  {
    seq(|top|, i requires 0 <= i < |top| => BrowseOption(top[i].place.name, top[i].place.rating, Truncate(top[i].cost)))
  }

  /** The branch of `replan_route` a request takes. */
  datatype ReplanCase = ChangeTheme | FindPlace | SkipStop | EndTour | NotUnderstood

  function CaseOf(intent: ReplanIntent, userRequest: string): ReplanCase {
    var action := ActionOf(intent);
    if action == Some("change_theme") then ChangeTheme
    else if action == Some("find_place") && Truthy(QueryOf(intent, userRequest)) then FindPlace
    else if action == Some("skip_stop") then SkipStop
    else if action == Some("end_tour") then EndTour
    else NotUnderstood
  }

  /**
   * An absent action is a place request, taken when the query is truthy; a
   * `null` action is none of the branches and gets the unclear reply.
   */
  lemma MissingAndNullActions(intent: ReplanIntent, userRequest: string)
    ensures intent.action == ActionMissing ==> ActionOf(intent) == Some("find_place")
    ensures intent.action == ActionMissing && Truthy(QueryOf(intent, userRequest)) ==> CaseOf(intent, userRequest) == FindPlace
    ensures intent.action == ActionMissing && !Truthy(QueryOf(intent, userRequest)) ==> CaseOf(intent, userRequest) == NotUnderstood
    ensures intent.action == ActionNull ==> ActionOf(intent) == None && CaseOf(intent, userRequest) == NotUnderstood
  {
  }

  /**
   * A theme change: the new segment has at most five stops with distinct ids
   * within the budget; a non-empty one replaces every stop after the current
   * one, and an empty one changes nothing.
   */
  ghost predicate ChangeThemeOutcome(before: seq<PoiStop>, after: seq<PoiStop>, idx: int, action: Option<string>,
                                     query: Option<string>, location: Coord, budget: int,
                                     segment: seq<PoiStop>, result: ReplanResult, dist: Distance)
  {
    && |segment| <= 5 && DistinctIds(segment)
    && (segment != [] ==> RouteMinutes(location, segment, dist) <= budget as real)
    && (segment != [] ==>
          && after == PrefixTo(before, idx + 1) + segment
          && result == ReplanResult(true, action, Rerouted(query, NamesOf(PrefixTo(segment, 3))),
                                    SegmentStops(segment), false, true))
    && (segment == [] ==>
          && after == before
          && result == ReplanResult(false, action, NoSegment(query), [], false, false))
  }

  /**
   * A place request: nothing found or nothing placeable changes nothing; an
   * auto-add inserts one detour at the best-ranked position, the cheapest over
   * every candidate and position; browsing lists the top three and changes nothing.
   */
  ghost predicate FindPlaceOutcome(before: seq<PoiStop>, after: seq<PoiStop>, idx: int, action: Option<string>,
                                   query: Option<string>, autoAdd: bool, places: seq<Place>, newStopId: string,
                                   ranked: seq<Ranked>, unsorted: seq<Ranked>, result: ReplanResult, dist: Distance)
  {
    && (places == [] ==>
          && after == before
          && result == ReplanResult(false, action, NothingOpen(query), [], false, false))
    && (places != [] ==> IsRanking(before, idx + 1, places, ranked, unsorted, dist))
    && (places != [] && ranked == [] ==>
          && after == before
          && result == ReplanResult(false, action, CouldNotFit, [], false, false))
    && (places != [] && ranked != [] && autoAdd ==>
          && idx + 1 <= ranked[0].index <= |before|
          && after == before[..ranked[0].index] + [DetourStop(newStopId, ranked[0].place)] + before[ranked[0].index..]
          && (forall k, j :: 0 <= k < |places| && idx + 1 <= j <= |before| ==>
                ranked[0].cost <= InsertionCost(before, j, places[k].coordinates, dist))
          && result == ReplanResult(true, action,
                                    Added(ranked[0].place.name, ranked[0].place.rating, PlacementOf(after, idx, ranked[0].index)),
                                    [FoundPlace(ranked[0].place)], false, true))
    && (places != [] && ranked != [] && !autoAdd ==>
          && after == before
          && result == ReplanResult(true, action, Options(query, BrowseOptions(PrefixTo(ranked, 3))), [], false, false))
  }

  /** The `change_theme` branch of `replan_route`. */
  method ReplanChangeTheme(route: Route, action: Option<string>, query: Option<string>, location: Coord, budget: int,
                     themeSearchResults: seq<SearchPlace>, allPois: seq<PoiRecord>, dist: Distance)
    returns (result: ReplanResult, ghost segment: seq<PoiStop>)
    requires route.Valid()
    modifies route`stops
    ensures route.Valid()
    ensures segment == ThemeWalk(location, query.GetOr(""), budget, themeSearchResults, allPois, dist)
    ensures ChangeThemeOutcome(old(route.stops), route.stops, route.currentStopIndex, action, query,
                               location, budget, segment, result, dist)
  {
    var newStops := ThemeSegment(location, query.GetOr(""), budget, themeSearchResults, allPois, dist);
    segment := newStops;
    result := ApplyThemeSegment(route, action, query, location, budget, newStops, dist);
  }

  /** The edit a theme change makes once its segment is known: a non-empty one replaces the stops after the current one. */
  method ApplyThemeSegment(route: Route, action: Option<string>, query: Option<string>, location: Coord, budget: int,
                           newStops: seq<PoiStop>, dist: Distance)
    returns (result: ReplanResult)
    requires route.Valid()
    requires |newStops| <= ThemeMaxStops && DistinctIds(newStops)
    requires newStops != [] ==> RouteMinutes(location, newStops, dist) <= budget as real
    modifies route`stops
    ensures route.Valid()
    ensures ChangeThemeOutcome(old(route.stops), route.stops, route.currentStopIndex, action, query,
                               location, budget, newStops, result, dist)
  {
    if newStops != [] {
      route.stops := PrefixTo(route.stops, route.currentStopIndex + 1) + newStops;
      result := ReplanResult(true, action, Rerouted(query, NamesOf(PrefixTo(newStops, 3))), SegmentStops(newStops), false, true);
    } else {
      result := ReplanResult(false, action, NoSegment(query), [], false, false);
    }
  }

  /** The stop cap of the route a theme change generates. */
  const ThemeMaxStops: int := 5

  /**
   * The segment a theme change asks for: the greedy walk from the current
   * location, with at most five stops, over the theme's search results (the
   * curated list when they keep none).
   */
  ghost function ThemeWalk(location: Coord, theme: string, budget: int, themeSearchResults: seq<SearchPlace>,
                           allPois: seq<PoiRecord>, dist: Distance): seq<PoiStop>
  {
    GreedyRun(location, RouteCandidates(true, themeSearchResults, allPois, theme, ThemeMaxStops),
              budget, ThemeMaxStops, dist).stops
  }

  /** The new segment of a theme change: the stops of a fresh route of at most five stops from the current location. */
  method ThemeSegment(location: Coord, theme: string, budget: int, themeSearchResults: seq<SearchPlace>,
                      allPois: seq<PoiRecord>, dist: Distance)
    returns (segment: seq<PoiStop>)
    ensures segment == ThemeWalk(location, theme, budget, themeSearchResults, allPois, dist)
    ensures |segment| <= ThemeMaxStops && DistinctIds(segment)
    ensures segment != [] ==> RouteMinutes(location, segment, dist) <= budget as real
  {
    var newRoute := GenerateRoute(location, theme, budget, ThemeMaxStops, None, true, themeSearchResults, allPois, dist);
    segment := newRoute.stops;
  }

  /** The `find_place` branch of `replan_route`, over the search results already filtered. */
  method ReplanFindPlace(route: Route, action: Option<string>, query: Option<string>, autoAdd: bool, places: seq<Place>,
                   newStopId: string, dist: Distance)
    returns (result: ReplanResult, ghost ranked: seq<Ranked>, ghost unsorted: seq<Ranked>)
    requires route.Valid()
    modifies route`stops
    ensures route.Valid()
    ensures FindPlaceOutcome(old(route.stops), route.stops, route.currentStopIndex, action, query, autoAdd,
                             places, newStopId, ranked, unsorted, result, dist)
  {
    ranked, unsorted := [], [];
    if places == [] {
      result := ReplanResult(false, action, NothingOpen(query), [], false, false);
      return;
    }
    var rankedPlaces, u := RankCandidates(route, places, dist);
    ranked, unsorted := rankedPlaces, u;
    if rankedPlaces == [] {
      result := ReplanResult(false, action, CouldNotFit, [], false, false);
    } else if autoAdd {
      var best := rankedPlaces[0];
      BestIsRanked(route.stops, route.currentStopIndex + 1, places, rankedPlaces, u, dist);
      route.stops := route.stops[..best.index] + [DetourStop(newStopId, best.place)] + route.stops[best.index..];
      result := ReplanResult(true, action, Added(best.place.name, best.place.rating,
                                                 PlacementOf(route.stops, route.currentStopIndex, best.index)),
                             [FoundPlace(best.place)], false, true);
    } else {
      result := ReplanResult(true, action, Options(query, BrowseOptions(PrefixTo(rankedPlaces, 3))), [], false, false);
    }
  }

  /**
   * `replan_route` after the intent is read. The place search, the search of a
   * theme change, the curated list, the elapsed time and the id of an added
   * stop are parameters. Only a theme change and a place request can edit the
   * stops; skipping, ending and an unclear request leave them as they were.
   */
  method ReplanRoute(tour: TourSession, userRequest: string, intent: ReplanIntent, elapsedSeconds: nat,
                     themeSearchResults: seq<SearchPlace>, allPois: seq<PoiRecord>,
                     searchResults: seq<Place>, newStopId: string, dist: Distance)
    returns (result: ReplanResult, ghost segment: seq<PoiStop>, ghost ranked: seq<Ranked>, ghost unsorted: seq<Ranked>)
    requires tour.route.Valid()
    modifies tour.route`stops
    ensures tour.route.Valid() && result.action == ActionOf(intent)
    ensures CaseOf(intent, userRequest) == ChangeTheme ==>
      segment == ThemeWalk(tour.currentLocation.GetOr(DefaultStart), QueryOf(intent, userRequest).GetOr(""),
                           RemainingBudget(tour.preferences.tourLength, elapsedSeconds), themeSearchResults, allPois, dist)
    ensures CaseOf(intent, userRequest) == ChangeTheme ==>
      ChangeThemeOutcome(old(tour.route.stops), tour.route.stops, tour.route.currentStopIndex, ActionOf(intent),
                         QueryOf(intent, userRequest), tour.currentLocation.GetOr(DefaultStart),
                         RemainingBudget(tour.preferences.tourLength, elapsedSeconds), segment, result, dist)
    ensures CaseOf(intent, userRequest) == FindPlace ==>
      FindPlaceOutcome(old(tour.route.stops), tour.route.stops, tour.route.currentStopIndex, ActionOf(intent),
                       QueryOf(intent, userRequest), intent.autoAdd, FindNearbyPlaces(searchResults), newStopId,
                       ranked, unsorted, result, dist)
    ensures CaseOf(intent, userRequest) == SkipStop ==>
      tour.route.stops == old(tour.route.stops) && result == ReplanResult(true, ActionOf(intent), Skipping, [], true, false)
    ensures CaseOf(intent, userRequest) == EndTour ==>
      tour.route.stops == old(tour.route.stops) && result == ReplanResult(true, ActionOf(intent), WrappingUp, [], false, false)
    ensures CaseOf(intent, userRequest) == NotUnderstood ==>
      tour.route.stops == old(tour.route.stops) && result == ReplanResult(false, ActionOf(intent), Unclear, [], false, false)
  {
    var action := ActionOf(intent);
    var query := QueryOf(intent, userRequest);
    segment, ranked, unsorted := [], [], [];
    match CaseOf(intent, userRequest)
    case ChangeTheme =>
      var location := tour.currentLocation.GetOr(DefaultStart);
      var budget := RemainingBudget(tour.preferences.tourLength, elapsedSeconds);
      result, segment := ReplanChangeTheme(tour.route, action, query, location, budget, themeSearchResults, allPois, dist);
    case FindPlace =>
      result, ranked, unsorted := ReplanFindPlace(tour.route, action, query, intent.autoAdd, FindNearbyPlaces(searchResults), newStopId, dist);
    case SkipStop =>
      result := ReplanResult(true, action, Skipping, [], true, false);
    case EndTour =>
      result := ReplanResult(true, action, WrappingUp, [], false, false);
    case NotUnderstood =>
      result := ReplanResult(false, action, Unclear, [], false, false);
  }

  /**
   * The `TypeError` keyword a `replan_route` call raises as written, if any:
   * a theme change reaches the dynamic search of `generate_route`, a place
   * request reaches `find_nearby_places`, and both searches pass `open_now`.
   */
  function ReplanErrorAsWritten(intent: ReplanIntent, userRequest: string, themeSearchResults: seq<SearchPlace>,
                                allPois: seq<PoiRecord>, searchResults: seq<Place>): Option<string>
  {
    match CaseOf(intent, userRequest)
    case ChangeTheme =>
      (match RouteCandidatesAsWritten(true, themeSearchResults, allPois, QueryOf(intent, userRequest).GetOr(""), ThemeMaxStops)
       case RaisedTypeError(k) => Some(k)
       case Returned(_) => None)
    case FindPlace =>
      (match FindNearbyPlacesAsWritten(searchResults)
       case RaisedTypeError(k) => Some(k)
       case Returned(_) => None)
    case _ => None
  }

  /** As written, exactly the requests that would edit the route raise: a theme change and a place request with a query. */
  lemma ReplanRaisesAsWritten(intent: ReplanIntent, userRequest: string, themeSearchResults: seq<SearchPlace>,
                              allPois: seq<PoiRecord>, searchResults: seq<Place>)
    ensures ReplanErrorAsWritten(intent, userRequest, themeSearchResults, allPois, searchResults).Some? <==>
      CaseOf(intent, userRequest) == ChangeTheme || CaseOf(intent, userRequest) == FindPlace
    ensures ReplanErrorAsWritten(intent, userRequest, themeSearchResults, allPois, searchResults).Some? ==>
      ReplanErrorAsWritten(intent, userRequest, themeSearchResults, allPois, searchResults) == Some("open_now")
  {
    DynamicSearchRaises(true, themeSearchResults, allPois, QueryOf(intent, userRequest).GetOr(""), ThemeMaxStops);
    NearbySearchRaises(searchResults);
  }

  /** As written, a request whose action is `null` gets the unclear reply and raises nothing. */
  lemma NullActionRaisesNothing(intent: ReplanIntent, userRequest: string, themeSearchResults: seq<SearchPlace>,
                                allPois: seq<PoiRecord>, searchResults: seq<Place>)
    requires intent.action == ActionNull
    ensures CaseOf(intent, userRequest) == NotUnderstood
    ensures ReplanErrorAsWritten(intent, userRequest, themeSearchResults, allPois, searchResults) == None
  {
  }

  /** The best-ranked entry of a non-empty ranking names a position after `from` and a globally cheapest insertion. */
  lemma BestIsRanked(stops: seq<PoiStop>, from: int, candidates: seq<Place>, ranked: seq<Ranked>, unsorted: seq<Ranked>, dist: Distance)
    requires from >= 1 && ranked != [] && IsRanking(stops, from, candidates, ranked, unsorted, dist)
    ensures from <= ranked[0].index <= |stops|
    ensures forall k, j :: 0 <= k < |candidates| && from <= j <= |stops| ==>
      ranked[0].cost <= InsertionCost(stops, j, candidates[k].coordinates, dist)
  {
    SortBySorted(unsorted, ByCost());
    SortByPermutation(unsorted, ByCost());
    assert ranked[0] in multiset(unsorted);
    FirstRankedIsCheapest(stops, from, candidates, ranked, unsorted, dist);
  }
}
