/**
 * Route construction: theme filtering and scoring of the curated POIs, the
 * choice of candidates, and the greedy nearest-neighbour walk that turns them
 * into an ordered list of stops within a stop cap and a time budget.
 */
module Routing {
  import opened Wrappers
  import opened Geo
  import opened State
  import opened Sequences
  import opened Knowledge

  /** A candidate POI as the curated list presents it; absent keys are empty lists or `None`. */
  datatype PoiRecord = PoiRecord(
    id: string,
    name: string,
    coordinates: Coord,
    address: string,
    poiType: string,
    themes: seq<string>,
    estimatedDuration: Option<int>,
    facts: seq<string>,
    interactiveQuestions: seq<string>)

  /** `filter_pois_by_theme`: the POIs tagged with `theme`, in their original order. */
  function FilterByTheme(pois: seq<PoiRecord>, theme: string): (r: seq<PoiRecord>)
    ensures forall p :: p in r <==> p in pois && theme in p.themes
    ensures IsSubsequence(r, pois)
    ensures |r| <= |pois|
  {
    if pois == [] then []
    else
      var rest := FilterByTheme(pois[1..], theme);
      assert pois == [pois[0]] + pois[1..];
      if theme in pois[0].themes then
        assert ([pois[0]] + rest)[1..] == rest;
        [pois[0]] + rest
      else rest
  }

  /** Filtering a list with one more POI at the end adds that POI at the end exactly when it carries the theme. */
  lemma {:induction false} FilterByThemeAppend(pois: seq<PoiRecord>, p: PoiRecord, theme: string)
    ensures FilterByTheme(pois + [p], theme) == FilterByTheme(pois, theme) + (if theme in p.themes then [p] else [])
  {
    if pois == [] {
      assert [] + [p] == [p] && [p][1..] == [];
    } else {
      assert (pois + [p])[0] == pois[0] && (pois + [p])[1..] == pois[1..] + [p];
      FilterByThemeAppend(pois[1..], p, theme);
    }
  }

  /** The theme is the POI's first (primary) theme. */
  predicate IsPrimaryTheme(poi: PoiRecord, theme: string) {
    |poi.themes| > 0 && poi.themes[0] == theme
  }

  /**
   * `score_poi`, counted in tenths of a point so that it is exact: 1 to start,
   * 1 more when the theme is primary, 0.1 per fact and 0.2 per question.
   */
  function ScoreTenths(poi: PoiRecord, theme: string): (r: int)
    ensures r >= 10
    ensures r - |poi.facts| - 2 * |poi.interactiveQuestions| == if IsPrimaryTheme(poi, theme) then 20 else 10
  {
    var score := 10;
    var score := if IsPrimaryTheme(poi, theme) then score + 10 else score;
    var score := score + |poi.facts|;
    score + 2 * |poi.interactiveQuestions|
  }

  /** A POI whose primary theme is the requested one outranks the same POI without it by a full point. */
  lemma PrimaryThemeBoost(poi: PoiRecord, theme: string, other: string)
    requires |poi.themes| > 0 && poi.themes[0] == theme && other != theme
    ensures ScoreTenths(poi, theme) == ScoreTenths(poi, other) + 10
  {
  }

  /** Walking speed, 5 km/h, in meters per minute. */
  const WalkingMetersPerMinute: real := 5000.0 / 60.0

  /** `estimate_walking_time`: minutes to walk a distance at 5 km/h. */
  function EstimateWalkingTime(distanceMeters: real): (minutes: real)
    ensures minutes * 5000.0 == distanceMeters * 60.0
    ensures distanceMeters >= 0.0 ==> minutes >= 0.0
  {
    distanceMeters / WalkingMetersPerMinute
  }

  /** The sort key that puts higher scores first. */
  function ByScoreDescending(theme: string): PoiRecord -> real {
    p => -(ScoreTenths(p, theme) as real)
  }

  /** Python's `s[:k]`, where a negative `k` counts from the end. */
  function PrefixTo<T>(s: seq<T>, k: int): (r: seq<T>)
    ensures |r| == if k >= 0 then (if k < |s| then k else |s|) else (if |s| + k > 0 then |s| + k else 0)
    ensures r == s[..|r|]
  {
    if k >= 0 then (if k < |s| then s[..k] else s)
    else if |s| + k > 0 then s[..|s| + k] else []
  }

  /** The POIs the static branch ranks: those tagged with the theme, or all of them when none is. */
  function ThemedOrAll(allPois: seq<PoiRecord>, theme: string): seq<PoiRecord> {
    var themed := FilterByTheme(allPois, theme);
    if themed == [] then allPois else themed
  }

  /** The static branch of `generate_route`: the best `max_stops * 3` themed POIs by score. */
  function StaticCandidates(allPois: seq<PoiRecord>, theme: string, maxStops: int): seq<PoiRecord> {
    PrefixTo(SortBy(ThemedOrAll(allPois, theme), ByScoreDescending(theme)), maxStops * 3)
  }

  /**
   * The static candidates are at most `max_stops * 3` POIs from the list, all
   * tagged with the theme unless no POI is, highest score first, and POIs of
   * equal score keep the order they had in the list.
   */
  lemma StaticCandidatesSpec(allPois: seq<PoiRecord>, theme: string, maxStops: int)
    ensures var r := StaticCandidates(allPois, theme, maxStops);
      && |r| <= |allPois|
      && (maxStops >= 0 ==> |r| <= maxStops * 3)
      && (forall p :: p in r ==> p in allPois)
      && (FilterByTheme(allPois, theme) != [] ==> forall p :: p in r ==> theme in p.themes)
      && (forall i, j :: 0 <= i < j < |r| ==> ScoreTenths(r[i], theme) >= ScoreTenths(r[j], theme))
      && (forall v :: IsPrefix(WithKey(r, ByScoreDescending(theme), v), WithKey(ThemedOrAll(allPois, theme), ByScoreDescending(theme), v)))
  {
    var key := ByScoreDescending(theme);
    var pool := ThemedOrAll(allPois, theme);
    var sorted := SortBy(pool, key);
    var r := StaticCandidates(allPois, theme, maxStops);
    SortBySorted(pool, key);
    SortByPermutation(pool, key);
    assert r == sorted[..|r|];
    forall p | p in r ensures p in pool {
      assert p in multiset(sorted);
    }
    forall i, j | 0 <= i < j < |r| ensures ScoreTenths(r[i], theme) >= ScoreTenths(r[j], theme) {
      assert key(sorted[i]) <= key(sorted[j]);
    }
    forall v ensures IsPrefix(WithKey(r, key, v), WithKey(pool, key, v)) {
      SortByStable(pool, key, v);
      WithKeyPrefix(sorted, |r|, key, v);
    }
  }

  /**
   * The ranked pool is the themed POIs, or all of them when none is themed;
   * the static candidates are as many as `pool[:max_stops * 3]`, each taken no
   * more often than it is in the pool, and every POI of the pool left out
   * scores no higher than any that was kept.
   */
  lemma StaticCandidatesKeepsBest(allPois: seq<PoiRecord>, theme: string, maxStops: int)
    ensures FilterByTheme(allPois, theme) == [] ==> ThemedOrAll(allPois, theme) == allPois
    ensures FilterByTheme(allPois, theme) != [] ==> ThemedOrAll(allPois, theme) == FilterByTheme(allPois, theme)
    ensures var pool := ThemedOrAll(allPois, theme);
      var r := StaticCandidates(allPois, theme, maxStops);
      && |r| == |PrefixTo(pool, maxStops * 3)|
      && multiset(r) <= multiset(pool)
      && forall p, q :: p in multiset(pool) - multiset(r) && q in r ==> ScoreTenths(p, theme) <= ScoreTenths(q, theme)
  {
    var key := ByScoreDescending(theme);
    var pool := ThemedOrAll(allPois, theme);
    var r := StaticCandidates(allPois, theme, maxStops);
    assert r == SortBy(pool, key)[..|r|];
    SortedPrefixKeepsLeast(pool, key, |r|);
    forall p, q | p in multiset(pool) - multiset(r) && q in r ensures ScoreTenths(p, theme) <= ScoreTenths(q, theme) {
      assert key(q) <= key(p);
    }
  }

  /** The stop `generate_route` makes of a candidate; a missing duration counts as 8 minutes. */
  function StopFrom(p: PoiRecord): PoiStop {
    PoiStop(p.id, p.name, p.coordinates, p.address, p.poiType, p.estimatedDuration.GetOr(8), p.themes)
  }

  /** Where the walk stands after visiting `stops` from `start`. */
  function LastPosition(start: Coord, stops: seq<PoiStop>): Coord {
    if stops == [] then start else stops[|stops| - 1].coordinates
  }

  /** Walking to a stop, then spending its duration there. */
  function LegMinutes(from: Coord, stop: PoiStop, dist: Distance): real {
    EstimateWalkingTime(dist(from, stop.coordinates)) + stop.estimatedTime as real
  }

  /** Total minutes of a route: every leg's walk plus every stop's duration. */
  function RouteMinutes(start: Coord, stops: seq<PoiStop>, dist: Distance): real
    decreases |stops|
  {
    if stops == [] then 0.0
    else
      var prefix := stops[..|stops| - 1];
      RouteMinutes(start, prefix, dist) + LegMinutes(LastPosition(start, prefix), stops[|stops| - 1], dist)
  }

  lemma RouteMinutesAppend(start: Coord, stops: seq<PoiStop>, x: PoiStop, dist: Distance)
    ensures RouteMinutes(start, stops + [x], dist) == RouteMinutes(start, stops, dist) + LegMinutes(LastPosition(start, stops), x, dist)
  {
    assert (stops + [x])[..|stops|] == stops;
  }

  function IdsOf(stops: seq<PoiStop>): set<string> {
    set s | s in stops :: s.id
  }

  ghost predicate DistinctIds(stops: seq<PoiStop>) {
    forall i, j :: 0 <= i < j < |stops| ==> stops[i].id != stops[j].id
  }

  /** `pool[k]` is the first candidate, among those whose id is not yet used, at the least distance from `pos`. */
  ghost predicate IsNearestUnused(pos: Coord, pool: seq<PoiRecord>, used: set<string>, k: int, dist: Distance) {
    && 0 <= k < |pool| && pool[k].id !in used
    && (forall j :: 0 <= j < |pool| && pool[j].id !in used ==> dist(pos, pool[k].coordinates) <= dist(pos, pool[j].coordinates))
    && (forall j :: 0 <= j < k && pool[j].id !in used ==> dist(pos, pool[k].coordinates) < dist(pos, pool[j].coordinates))
  }

  /**
   * The scan of the first `n` candidates that `generate_route` runs for each
   * stop: a candidate becomes the best when its id is unused and it is
   * strictly nearer than the best so far.
   */
  function NearestAmong(pos: Coord, pool: seq<PoiRecord>, used: set<string>, n: nat, dist: Distance): (best: Option<nat>)
    requires n <= |pool|
    ensures best.None? <==> forall j :: 0 <= j < n ==> pool[j].id in used
    ensures best.Some? ==> best.value < n && pool[best.value].id !in used
    ensures best.Some? ==> forall j :: 0 <= j < n && pool[j].id !in used ==>
      dist(pos, pool[best.value].coordinates) <= dist(pos, pool[j].coordinates)
    ensures best.Some? ==> forall j :: 0 <= j < best.value && pool[j].id !in used ==>
      dist(pos, pool[best.value].coordinates) < dist(pos, pool[j].coordinates)
  {
    if n == 0 then None
    else
      var b := NearestAmong(pos, pool, used, n - 1, dist);
      if pool[n - 1].id in used then b
      else if b.None? || dist(pos, pool[n - 1].coordinates) < dist(pos, pool[b.value].coordinates) then Some(n - 1)
      else b
  }

  /** The nearest unused candidate, the first one on ties; none exactly when every id is used. */
  function Nearest(pos: Coord, pool: seq<PoiRecord>, used: set<string>, dist: Distance): (best: Option<nat>)
    ensures best.None? <==> forall j :: 0 <= j < |pool| ==> pool[j].id in used
    ensures best.Some? ==> IsNearestUnused(pos, pool, used, best.value, dist)
  {
    NearestAmong(pos, pool, used, |pool|, dist)
  }

  /** The inner loop of `generate_route`: the scan that `Nearest` describes, and the distance it found. */
  method NearestUnused(pos: Coord, pool: seq<PoiRecord>, used: set<string>, dist: Distance)
    returns (best: Option<nat>, bestDistance: real)
    ensures best == Nearest(pos, pool, used, dist)
    ensures best.Some? ==> bestDistance == dist(pos, pool[best.value].coordinates)
  {
    best, bestDistance := None, 0.0;
    var i := 0;
    while i < |pool|
      invariant 0 <= i <= |pool|
      invariant best == NearestAmong(pos, pool, used, i, dist)
      invariant best.Some? ==> bestDistance == dist(pos, pool[best.value].coordinates)
    {
      if pool[i].id !in used {
        var d := dist(pos, pool[i].coordinates);
        if best.None? || d < bestDistance {
          best, bestDistance := Some(i), d;
        }
      }
      i := i + 1;
    }
  }

  /** The nearest unused candidate is the first element equal to itself, so `list.remove` drops that very position. */
  lemma RemoveNearest(pos: Coord, pool: seq<PoiRecord>, used: set<string>, k: nat, dist: Distance)
    requires IsNearestUnused(pos, pool, used, k, dist)
    ensures RemoveFirst(pool, pool[k]) == pool[..k] + pool[k + 1..]
    ensures IsSubsequence(RemoveFirst(pool, pool[k]), pool)
  {
    forall j | 0 <= j < k ensures pool[j] != pool[k] {
      if pool[j].id !in used {
        assert dist(pos, pool[k].coordinates) < dist(pos, pool[j].coordinates);
      }
    }
    RemoveFirstAt(pool, k);
    SubsequenceRemoveAt(pool, k);
  }

  /** Minutes to walk from `pos` to a candidate and spend its duration there (8 when it names none). */
  function CandidateMinutes(pos: Coord, c: PoiRecord, dist: Distance): real {
    EstimateWalkingTime(dist(pos, c.coordinates)) + c.estimatedDuration.GetOr(8) as real
  }

  predicate Fits(pos: Coord, c: PoiRecord, remaining: real, dist: Distance) {
    CandidateMinutes(pos, c, dist) <= remaining
  }

  /** The variables of the greedy loop of `generate_route`. */
  datatype Walker = Walker(pos: Coord, cands: seq<PoiRecord>, remaining: real, stops: seq<PoiStop>, used: set<string>)

  /** The loop goes on while candidates are left, the cap is not reached, more than 10 minutes remain and an unused candidate exists. */
  predicate Running(w: Walker, maxStops: int, dist: Distance) {
    w.cands != [] && |w.stops| < maxStops && w.remaining > 10.0 && Nearest(w.pos, w.cands, w.used, dist).Some?
  }

  /**
   * One pass of the loop: the nearest unused candidate leaves the list; when it
   * does not fit in the time left it is only dropped, otherwise it becomes the
   * next stop and the walk moves there.
   */
  function Step(w: Walker, dist: Distance): (r: Walker)
    requires Nearest(w.pos, w.cands, w.used, dist).Some?
    ensures |r.cands| < |w.cands|
  {
    var poi := w.cands[Nearest(w.pos, w.cands, w.used, dist).value];
    var rest := RemoveFirst(w.cands, poi);
    if !Fits(w.pos, poi, w.remaining, dist) then w.(cands := rest)
    else Walker(poi.coordinates, rest, w.remaining - CandidateMinutes(w.pos, poi, dist),
                w.stops + [StopFrom(poi)], w.used + {poi.id})
  }

  /** The loop run to its end from `w`. */
  function Run(w: Walker, maxStops: int, dist: Distance): Walker
    decreases |w.cands|
  {
    if Running(w, maxStops, dist) then Run(Step(w, dist), maxStops, dist) else w
  }

  /** The whole greedy walk from `start` with the full time budget and nothing visited. */
  function GreedyRun(start: Coord, candidates: seq<PoiRecord>, timeBudget: int, maxStops: int, dist: Distance): Walker {
    Run(Walker(start, candidates, timeBudget as real, [], {}), maxStops, dist)
  }

  /** What the loop keeps true of its variables. */
  ghost predicate Walking(w: Walker, start: Coord, candidates: seq<PoiRecord>, timeBudget: int, maxStops: int, dist: Distance) {
    && w.pos == LastPosition(start, w.stops)
    && w.remaining == timeBudget as real - RouteMinutes(start, w.stops, dist)
    && (w.stops != [] ==> w.remaining >= 0.0)
    && w.used == IdsOf(w.stops)
    && DistinctIds(w.stops)
    && |w.stops| <= (if maxStops > 0 then maxStops else 0)
    && IsSubsequence(w.cands, candidates)
  }

  lemma StepKeeps(w: Walker, start: Coord, candidates: seq<PoiRecord>, timeBudget: int, maxStops: int, dist: Distance)
    requires Walking(w, start, candidates, timeBudget, maxStops, dist) && Running(w, maxStops, dist)
    ensures Walking(Step(w, dist), start, candidates, timeBudget, maxStops, dist)
  {
    var k := Nearest(w.pos, w.cands, w.used, dist).value;
    var poi := w.cands[k];
    RemoveNearest(w.pos, w.cands, w.used, k, dist);
    SubsequenceTrans(RemoveFirst(w.cands, poi), w.cands, candidates);
    if Fits(w.pos, poi, w.remaining, dist) {
      AppendFreshId(w.stops, StopFrom(poi));
      RouteMinutesAppend(start, w.stops, StopFrom(poi), dist);
    }
  }

  /** The loop keeps its invariant to the end, and it ends only when `Running` fails. */
  lemma {:induction false} RunKeeps(w: Walker, start: Coord, candidates: seq<PoiRecord>, timeBudget: int, maxStops: int,
                                    dist: Distance)
    requires Walking(w, start, candidates, timeBudget, maxStops, dist)
    ensures Walking(Run(w, maxStops, dist), start, candidates, timeBudget, maxStops, dist)
    ensures !Running(Run(w, maxStops, dist), maxStops, dist)
    decreases |w.cands|
  {
    if Running(w, maxStops, dist) {
      StepKeeps(w, start, candidates, timeBudget, maxStops, dist);
      RunKeeps(Step(w, dist), start, candidates, timeBudget, maxStops, dist);
    }
  }

  /** Stops are only ever appended. */
  lemma {:induction false} RunExtends(w: Walker, maxStops: int, dist: Distance)
    ensures w.stops <= Run(w, maxStops, dist).stops
    decreases |w.cands|
  {
    if Running(w, maxStops, dist) {
      RunExtends(Step(w, dist), maxStops, dist);
    }
  }

  /**
   * `c` is an unused candidate that fits in the time left, and every unused
   * candidate strictly nearer to `pos` does not.
   */
  ghost predicate NearestThatFits(pos: Coord, cands: seq<PoiRecord>, used: set<string>, remaining: real, c: PoiRecord,
                                  dist: Distance)
  {
    && c in cands && c.id !in used && Fits(pos, c, remaining, dist)
    && forall d :: d in cands && d.id !in used && dist(pos, d.coordinates) < dist(pos, c.coordinates) ==>
         !Fits(pos, d, remaining, dist)
  }

  /** The next stop the walk adds is the nearest candidate that fits: every nearer one is skipped for want of time. */
  lemma {:induction false} NextStopNearest(w: Walker, maxStops: int, dist: Distance)
    requires |Run(w, maxStops, dist).stops| > |w.stops|
    ensures exists c :: NearestThatFits(w.pos, w.cands, w.used, w.remaining, c, dist)
                        && Run(w, maxStops, dist).stops[|w.stops|] == StopFrom(c)
    decreases |w.cands|
  {
    var k := Nearest(w.pos, w.cands, w.used, dist).value;
    var poi := w.cands[k];
    var w' := Step(w, dist);
    RunExtends(w', maxStops, dist);
    if Fits(w.pos, poi, w.remaining, dist) {
      assert w'.stops[|w.stops|] == StopFrom(poi);
      NearestFitting(w.pos, w.cands, w.used, w.remaining, k, dist);
    } else {
      NextStopNearest(w', maxStops, dist);
      var c :| NearestThatFits(w.pos, w'.cands, w.used, w.remaining, c, dist)
               && Run(w', maxStops, dist).stops[|w.stops|] == StopFrom(c);
      SkippedNearest(w.pos, w.cands, w.used, w.remaining, k, c, dist);
    }
  }

  /** The nearest unused candidate, when it fits, is the nearest that fits. */
  lemma NearestFitting(pos: Coord, cands: seq<PoiRecord>, used: set<string>, remaining: real, k: nat, dist: Distance)
    requires IsNearestUnused(pos, cands, used, k, dist) && Fits(pos, cands[k], remaining, dist)
    ensures NearestThatFits(pos, cands, used, remaining, cands[k], dist)
  {
    forall d | d in cands && d.id !in used ensures dist(pos, cands[k].coordinates) <= dist(pos, d.coordinates) {
      var j :| 0 <= j < |cands| && cands[j] == d;
    }
  }

  /** Dropping the nearest unused candidate because it does not fit keeps the nearest that fits among the rest. */
  lemma SkippedNearest(pos: Coord, cands: seq<PoiRecord>, used: set<string>, remaining: real, k: nat, c: PoiRecord,
                       dist: Distance)
    requires IsNearestUnused(pos, cands, used, k, dist) && !Fits(pos, cands[k], remaining, dist)
    requires NearestThatFits(pos, RemoveFirst(cands, cands[k]), used, remaining, c, dist)
    ensures NearestThatFits(pos, cands, used, remaining, c, dist)
  {
    RemoveNearest(pos, cands, used, k, dist);
    var rest := RemoveFirst(cands, cands[k]);
    RemoveAtMembers(cands, k);
    forall d | d in cands && d.id !in used && dist(pos, d.coordinates) < dist(pos, c.coordinates)
      ensures !Fits(pos, d, remaining, dist)
    {
      if d != cands[k] {
        assert d in rest;
      }
    }
  }

  /** While the cap and the time allow, the walk adds a stop whenever some unused candidate fits. */
  lemma {:induction false} RunAddsWhenOneFits(w: Walker, maxStops: int, dist: Distance, c: PoiRecord)
    requires |w.stops| < maxStops && w.remaining > 10.0
    requires c in w.cands && c.id !in w.used && Fits(w.pos, c, w.remaining, dist)
    ensures |Run(w, maxStops, dist).stops| > |w.stops|
    decreases |w.cands|
  {
    var j :| 0 <= j < |w.cands| && w.cands[j] == c;
    var k := Nearest(w.pos, w.cands, w.used, dist).value;
    var poi := w.cands[k];
    RemoveNearest(w.pos, w.cands, w.used, k, dist);
    var w' := Step(w, dist);
    RunExtends(w', maxStops, dist);
    if !Fits(w.pos, poi, w.remaining, dist) {
      if j < k { assert w'.cands[j] == c; } else { assert w'.cands[j - 1] == c; }
      RunAddsWhenOneFits(w', maxStops, dist, c);
    }
  }

  /**
   * The greedy walk ends with at most `max_stops` stops, distinct ids and
   * within the budget; the candidates left are a sublist of the input; and it
   * ends only with the cap reached, at most 10 minutes left, or every
   * remaining candidate already used.
   */
  lemma GreedyRunEnds(start: Coord, candidates: seq<PoiRecord>, timeBudget: int, maxStops: int, dist: Distance)
    ensures var r := GreedyRun(start, candidates, timeBudget, maxStops, dist);
      && |r.stops| <= (if maxStops > 0 then maxStops else 0)
      && DistinctIds(r.stops)
      && (r.stops != [] ==> RouteMinutes(start, r.stops, dist) <= timeBudget as real)
      && IsSubsequence(r.cands, candidates)
      && (|| |r.stops| >= maxStops
          || timeBudget as real - RouteMinutes(start, r.stops, dist) <= 10.0
          || forall c :: c in r.cands ==> c.id in IdsOf(r.stops))
  {
    SubsequenceRefl(candidates);
    RunKeeps(Walker(start, candidates, timeBudget as real, [], {}), start, candidates, timeBudget, maxStops, dist);
  }

  /** The walk yields a stop exactly when the cap is positive, more than 10 minutes are given and some candidate fits from the start. */
  lemma GreedyRunNonEmpty(start: Coord, candidates: seq<PoiRecord>, timeBudget: int, maxStops: int, dist: Distance)
    ensures GreedyRun(start, candidates, timeBudget, maxStops, dist).stops != [] <==>
      maxStops > 0 && timeBudget > 10 && exists c :: c in candidates && Fits(start, c, timeBudget as real, dist)
  {
    var w := Walker(start, candidates, timeBudget as real, [], {});
    if maxStops > 0 && timeBudget > 10 && exists c :: c in candidates && Fits(start, c, timeBudget as real, dist) {
      var c :| c in candidates && Fits(start, c, timeBudget as real, dist);
      RunAddsWhenOneFits(w, maxStops, dist, c);
    }
    if Run(w, maxStops, dist).stops != [] {
      NextStopNearest(w, maxStops, dist);
      assert Running(w, maxStops, dist);
    }
  }

  /** The first stop is the nearest candidate to the start that fits the whole budget. */
  lemma GreedyRunFirstStop(start: Coord, candidates: seq<PoiRecord>, timeBudget: int, maxStops: int, dist: Distance)
    requires GreedyRun(start, candidates, timeBudget, maxStops, dist).stops != []
    ensures exists c :: NearestThatFits(start, candidates, {}, timeBudget as real, c, dist)
                        && GreedyRun(start, candidates, timeBudget, maxStops, dist).stops[0] == StopFrom(c)
  {
    NextStopNearest(Walker(start, candidates, timeBudget as real, [], {}), maxStops, dist);
  }

  /**
   * The greedy loop of `generate_route`: the stops of `GreedyRun`, at most
   * `max_stops` of them, with distinct ids and within the time budget.
   */
  method GreedyRoute(start: Coord, candidates: seq<PoiRecord>, timeBudget: int, maxStops: int, dist: Distance)
    returns (stops: seq<PoiStop>)
    ensures stops == GreedyRun(start, candidates, timeBudget, maxStops, dist).stops
    ensures |stops| <= if maxStops > 0 then maxStops else 0
    ensures DistinctIds(stops)
    ensures stops != [] ==> RouteMinutes(start, stops, dist) <= timeBudget as real
  {
    var cands := candidates;
    stops := [];
    var pos := start;
    var remaining: real := timeBudget as real;
    var used: set<string> := {};
    while cands != [] && |stops| < maxStops && remaining > 10.0
      invariant Run(Walker(pos, cands, remaining, stops, used), maxStops, dist)
             == GreedyRun(start, candidates, timeBudget, maxStops, dist)
      decreases |cands|
    {
      var best, bestDistance := NearestUnused(pos, cands, used, dist);
      if best.None? {
        break;
      }
      var k := best.value;
      var poi := cands[k];
      var travelTime := EstimateWalkingTime(bestDistance);
      var stopDuration := poi.estimatedDuration.GetOr(8);
      if travelTime + stopDuration as real > remaining {
        // Skip this POI; a closer one may still fit.
        cands := RemoveFirst(cands, poi);
        continue;
      }
      stops := stops + [StopFrom(poi)];
      used := used + {poi.id};
      pos := poi.coordinates;
      remaining := remaining - (travelTime + stopDuration as real);
      cands := RemoveFirst(cands, poi);
    }
    GreedyRunEnds(start, candidates, timeBudget, maxStops, dist);
  }

  /** Appending a stop whose id is not yet used keeps ids distinct and adds exactly that id. */
  lemma AppendFreshId(stops: seq<PoiStop>, stop: PoiStop)
    requires DistinctIds(stops) && stop.id !in IdsOf(stops)
    ensures DistinctIds(stops + [stop])
    ensures IdsOf(stops + [stop]) == IdsOf(stops) + {stop.id}
  {
    var s' := stops + [stop];
    forall i | 0 <= i < |stops| ensures stops[i].id != stop.id {
      assert stops[i] in stops;
    }
    forall id | id in IdsOf(s') ensures id in IdsOf(stops) + {stop.id} {
      var t :| t in s' && t.id == id;
      if t != stop {
        assert t in stops;
      }
    }
    assert stop in s';
  }

  /** A result of the place search the dynamic branch runs. */
  datatype SearchPlace = SearchPlace(
    placeId: string,
    name: string,
    coordinates: Coord,
    address: string,
    types: seq<string>,
    rating: Option<real>)

  /** A rating that is missing or zero is falsy and never filters a place out. */
  predicate RatedHighEnough(p: SearchPlace) {
    p.rating.None? || p.rating.value == 0.0 || p.rating.value >= 3.5
  }

  function CandidateFromSearch(p: SearchPlace, theme: string): PoiRecord {
    PoiRecord(p.placeId, p.name, p.coordinates, p.address,
              if p.types != [] then p.types[0] else "point_of_interest",
              [theme], Some(15), [], [])
  }

  /**
   * The candidates the dynamic branch of `generate_route` builds from search
   * results: one per place not rated below 3.5, in the search's order, tagged
   * with the theme only and lasting 15 minutes.
   */
  function CandidatesFromSearch(places: seq<SearchPlace>, theme: string): (r: seq<PoiRecord>)
    ensures |r| <= |places|
    ensures forall c :: c in r ==> c.themes == [theme] && c.estimatedDuration == Some(15) && c.facts == []
    ensures forall c :: c in r <==> exists p :: p in places && RatedHighEnough(p) && c == CandidateFromSearch(p, theme)
  {
    if places == [] then []
    else
      var rest := CandidatesFromSearch(places[1..], theme);
      assert places == [places[0]] + places[1..];
      if RatedHighEnough(places[0]) then [CandidateFromSearch(places[0], theme)] + rest else rest
  }

  /** Each further search result adds its candidate at the end exactly when it is not rated below 3.5. */
  lemma {:induction false} CandidatesFromSearchAppend(places: seq<SearchPlace>, p: SearchPlace, theme: string)
    ensures CandidatesFromSearch(places + [p], theme) ==
      CandidatesFromSearch(places, theme) + (if RatedHighEnough(p) then [CandidateFromSearch(p, theme)] else [])
    decreases |places|
  {
    if places == [] {
      assert ([] + [p])[1..] == [];
    } else {
      assert (places + [p])[1..] == places[1..] + [p];
      CandidatesFromSearchAppend(places[1..], p, theme);
    }
  }

  /** The candidates `generate_route` walks: the search's when it is used and keeps any, else the static ones. */
  function RouteCandidates(useDynamicSearch: bool, searchResults: seq<SearchPlace>,
                           allPois: seq<PoiRecord>, theme: string, maxStops: int): seq<PoiRecord>
  {
    var found := if useDynamicSearch then CandidatesFromSearch(searchResults, theme) else [];
    if found != [] then found else StaticCandidates(allPois, theme, maxStops)
  }

  /** The keyword arguments the dynamic branch of `generate_route` passes to the place search. */
  const DynamicSearchKeywords: seq<string> := ["query", "location", "radius_meters", "open_now"]

  /**
   * The candidates as the code is written: the dynamic branch passes
   * `open_now`, which `search_places` does not declare, so it raises before
   * any candidate is built; only the static branch returns.
   */
  function RouteCandidatesAsWritten(useDynamicSearch: bool, searchResults: seq<SearchPlace>,
                                    allPois: seq<PoiRecord>, theme: string, maxStops: int): CallOutcome<seq<PoiRecord>>
  {
    if !useDynamicSearch then Returned(RouteCandidates(false, searchResults, allPois, theme, maxStops))
    else match CallSearchPlaces(DynamicSearchKeywords, searchResults)
      case RaisedTypeError(k) => RaisedTypeError(k)
      case Returned(places) => Returned(RouteCandidates(true, places, allPois, theme, maxStops))
  }

  /** As written, `generate_route` raises on `open_now` exactly when the dynamic search is asked for. */
  lemma DynamicSearchRaises(useDynamicSearch: bool, searchResults: seq<SearchPlace>, allPois: seq<PoiRecord>,
                            theme: string, maxStops: int)
    ensures useDynamicSearch ==>
      RouteCandidatesAsWritten(useDynamicSearch, searchResults, allPois, theme, maxStops) == RaisedTypeError("open_now")
    ensures !useDynamicSearch ==>
      RouteCandidatesAsWritten(useDynamicSearch, searchResults, allPois, theme, maxStops)
        == Returned(RouteCandidates(false, [], allPois, theme, maxStops))
  {
    assert DynamicSearchKeywords == ["query", "location", "radius_meters"] + ["open_now"] + [];
    OpenNowRaises<seq<SearchPlace>>(["query", "location", "radius_meters"], [], searchResults);
  }

  /**
   * `generate_route`: the greedy walk over the candidates, as a fresh route at
   * its first stop. The place search (when used) and the curated list are
   * parameters.
   */
  method GenerateRoute(start: Coord, theme: string, timeBudget: int, maxStops: int, end: Option<Coord>,
                       useDynamicSearch: bool, searchResults: seq<SearchPlace>, allPois: seq<PoiRecord>,
                       dist: Distance)
    returns (route: Route)
    ensures fresh(route) && route.Valid()
    ensures route.currentStopIndex == 0 && route.destinationCoords == end
    ensures route.stops == GreedyRun(start, RouteCandidates(useDynamicSearch, searchResults, allPois, theme, maxStops),
                                     timeBudget, maxStops, dist).stops
    ensures |route.stops| <= if maxStops > 0 then maxStops else 0
    ensures DistinctIds(route.stops)
    ensures route.stops != [] ==> RouteMinutes(start, route.stops, dist) <= timeBudget as real
  {
    var candidates := RouteCandidates(useDynamicSearch, searchResults, allPois, theme, maxStops);
    var stops := GreedyRoute(start, candidates, timeBudget, maxStops, dist);
    route := new Route(stops, end);
  }

  /** `check_poi_proximity`: near exactly when the distance is at most the threshold, the boundary included. */
  function CheckPoiProximity(current: Coord, poi: Coord, thresholdMeters: real, dist: Distance): (near: bool)
    ensures near <==> dist(current, poi) <= thresholdMeters
  {
    dist(current, poi) <= thresholdMeters
  }

  /** Widening the threshold never loses a POI that was near. */
  lemma ProximityMonotone(current: Coord, poi: Coord, t1: real, t2: real, dist: Distance)
    requires t1 <= t2 && CheckPoiProximity(current, poi, t1, dist)
    ensures CheckPoiProximity(current, poi, t2, dist)
  {
  }
}
