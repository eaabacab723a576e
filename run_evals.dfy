/**
 * The evaluation script: the detour overhead of a suggested stop, the
 * replanning evaluation loop that only judges requests for a new stop, and
 * the figures of the summary report. The director's and the judge's replies,
 * the place search and the randomly drawn next stop are parameters.
 */
module RunEvals {
  import opened Wrappers
  import opened Geo
  import opened State
  import opened Director
  import opened Eval
  import opened Knowledge

  /** `calculate_overhead`: the extra distance of walking via the suggestion, never below 0. */
  function CalculateOverhead(current: Coord, nextStop: Coord, suggested: Coord, dist: Distance): (overhead: real)
    ensures overhead >= 0.0
    ensures dist(current, suggested) + dist(suggested, nextStop) - dist(current, nextStop) >= 0.0 ==>
      overhead == dist(current, suggested) + dist(suggested, nextStop) - dist(current, nextStop)
    ensures overhead == 0.0 || overhead == dist(current, suggested) + dist(suggested, nextStop) - dist(current, nextStop)
  {
    var detour := dist(current, suggested) + dist(suggested, nextStop) - dist(current, nextStop);
    if detour >= 0.0 then detour else 0.0
  }

  /** With a real distance the clamp never applies: the overhead is the detour itself. */
  lemma OverheadUnderMetric(current: Coord, nextStop: Coord, suggested: Coord, dist: Distance)
    requires IsMetric(dist)
    ensures CalculateOverhead(current, nextStop, suggested, dist)
      == dist(current, suggested) + dist(suggested, nextStop) - dist(current, nextStop)
  {
    assert dist(current, nextStop) <= dist(current, suggested) + dist(suggested, nextStop);
  }

  /** The overhead is the director's cost of inserting the suggestion between the two stops, clamped at 0. */
  lemma OverheadIsInsertionCost(stops: seq<PoiStop>, i: int, suggested: Coord, dist: Distance)
    requires 1 <= i < |stops|
    ensures var cost := InsertionCost(stops, i, suggested, dist);
      CalculateOverhead(stops[i - 1].coordinates, stops[i].coordinates, suggested, dist)
        == if cost >= 0.0 then cost else 0.0
  {
  }

  /** A replanning test case: the request, the action it should be read as, and where the walker is. */
  datatype ReplanTest = ReplanTest(query: string, expectedAction: string, currentLocation: Coord)

  /** One entry of the replanning results: `suggestion` and `overhead_meters` are set only when a place was suggested. */
  datatype ReplanRecord = ReplanRecord(
    test: ReplanTest,
    detectedAction: Option<string>,
    suggestion: Option<string>,
    overheadMeters: Option<real>,
    evaluation: Option<ReplanEvaluation>)

  /** The actions that ask for a new stop. */
  predicate AsksForStop(action: Option<string>) {
    action == Some("find_place") || action == Some("change_theme")
  }

  /** `intent.get("query") or query`: the intent's query when it is a non-empty string, else the test's request. */
  function SearchQuery(intent: ReplanIntent, testQuery: string): (q: string)
    ensures intent.query.Query? && intent.query.text != "" ==> q == intent.query.text
    ensures !(intent.query.Query? && intent.query.text != "") ==> q == testQuery
  {
    match intent.query
    case Query(text) => if text != "" then text else testQuery
    case _ => testQuery
  }

  /** The services one evaluation run talks to, as functions of what is sent to them. */
  datatype Services = Services(
    directorReply: string -> string,
    parseIntent: string -> Option<ReplanIntent>,
    search: (string, Coord) -> seq<Place>,
    judgeReply: (string, string) -> string,
    parseEvaluation: string -> Option<ReplanEvaluation>,
    nextStop: nat -> Coord)

  /** `intent.get("action")`: the action when it is a string, `None` when the key is absent or `null`. */
  function DetectedAction(intent: ReplanIntent): Option<string> {
    match intent.action
    case Action(text) => Some(text)
    case _ => None
  }

  /** The intent the director reads out of a test's request. */
  function IntentFor(test: ReplanTest, services: Services): ReplanIntent {
    ExtractReplanRequest(test.query, services.directorReply(test.query), services.parseIntent)
  }

  /**
   * The entry for the `i`-th test: the detected action is the intent's own
   * (no default), and only an action asking for a stop is evaluated, on the
   * first of the nearby places, or with satisfaction 0 when there is none.
   */
  function RecordFor(test: ReplanTest, i: nat, services: Services, dist: Distance): (r: ReplanRecord)
    ensures r.test == test && r.detectedAction == DetectedAction(IntentFor(test, services))
    ensures r.evaluation.Some? <==> AsksForStop(r.detectedAction)
    ensures r.suggestion.Some? <==> r.overheadMeters.Some?
    ensures r.overheadMeters.Some? ==> r.overheadMeters.value >= 0.0
    ensures AsksForStop(r.detectedAction) ==>
      var candidates := FindNearbyPlaces(services.search(SearchQuery(IntentFor(test, services), test.query), test.currentLocation));
      && (candidates == [] ==> r.suggestion.None? && r.evaluation == Some(ReplanEvaluation(0, NoCandidates)))
      && (candidates != [] ==>
        && r.suggestion == Some(candidates[0].name)
        && r.overheadMeters == Some(CalculateOverhead(test.currentLocation, services.nextStop(i), candidates[0].coordinates, dist))
        && r.evaluation == Some(EvaluateReplanning(services.judgeReply(test.query, candidates[0].name), services.parseEvaluation)))
    ensures !AsksForStop(r.detectedAction) ==> r.suggestion.None?
  {
    var intent := IntentFor(test, services);
    var action := DetectedAction(intent);
    if !AsksForStop(action) then ReplanRecord(test, action, None, None, None)
    else
      var candidates := FindNearbyPlaces(services.search(SearchQuery(intent, test.query), test.currentLocation));
      if candidates == [] then ReplanRecord(test, action, None, None, Some(ReplanEvaluation(0, NoCandidates)))
      else
        var suggested := candidates[0];
        var overhead := CalculateOverhead(test.currentLocation, services.nextStop(i), suggested.coordinates, dist);
        var evaluation := EvaluateReplanning(services.judgeReply(test.query, suggested.name), services.parseEvaluation);
        ReplanRecord(test, action, Some(suggested.name), Some(overhead), Some(evaluation))
  }

  /** A reply the director cannot parse falls back to a place search, so that test is always evaluated. */
  lemma UnparsedIntentIsEvaluated(test: ReplanTest, i: nat, services: Services, dist: Distance)
    requires services.parseIntent(FencePayload(services.directorReply(test.query))).None?
    ensures RecordFor(test, i, services, dist).evaluation.Some?
    ensures RecordFor(test, i, services, dist).detectedAction == Some("find_place")
  {
  }

  /** `run_replan_evals`: one entry per test, in test order. */
  method RunReplanEvals(tests: seq<ReplanTest>, services: Services, dist: Distance) returns (results: seq<ReplanRecord>)
    ensures |results| == |tests|
    ensures forall i :: 0 <= i < |tests| ==> results[i] == RecordFor(tests[i], i, services, dist)
  {
    results := EvaluateEach(tests, (test: ReplanTest, i: nat) => RecordFor(test, i, services, dist));
  }

  /** The loop of `run_replan_evals`: the `i`-th entry is the evaluation of the `i`-th test, appended in order. */
  method EvaluateEach(tests: seq<ReplanTest>, evaluate: (ReplanTest, nat) -> ReplanRecord) returns (results: seq<ReplanRecord>)
    ensures |results| == |tests|
    ensures forall i :: 0 <= i < |tests| ==> results[i] == evaluate(tests[i], i)
  {
    results := [];
    var i := 0;
    while i < |tests|
      invariant 0 <= i <= |tests| && |results| == i
      invariant forall k :: 0 <= k < i ==> results[k] == evaluate(tests[k], k)
    {
      results := results + [evaluate(tests[i], i)];
      i := i + 1;
    }
  }


  /**
   * The entry for the `i`-th test as the code is written: a test whose action
   * asks for a stop calls `find_nearby_places`, which raises on `open_now`;
   * any other test gets its entry.
   */
  function RecordForAsWritten(test: ReplanTest, i: nat, services: Services, dist: Distance): CallOutcome<ReplanRecord> {
    var intent := IntentFor(test, services);
    if !AsksForStop(DetectedAction(intent)) then Returned(RecordFor(test, i, services, dist))
    else match FindNearbyPlacesAsWritten(services.search(SearchQuery(intent, test.query), test.currentLocation))
      case RaisedTypeError(k) => RaisedTypeError(k)
      case Returned(_) => Returned(RecordFor(test, i, services, dist))
  }

  /** As written, a test raises exactly when its action asks for a stop, and one that does not gets an unevaluated entry. */
  lemma RecordRaisesAsWritten(test: ReplanTest, i: nat, services: Services, dist: Distance)
    ensures RecordForAsWritten(test, i, services, dist).RaisedTypeError? <==> AsksForStop(DetectedAction(IntentFor(test, services)))
    ensures RecordForAsWritten(test, i, services, dist).Returned? ==>
      && RecordForAsWritten(test, i, services, dist).value == RecordFor(test, i, services, dist)
      && RecordFor(test, i, services, dist).evaluation.None?
  {
    var intent := IntentFor(test, services);
    NearbySearchRaises(services.search(SearchQuery(intent, test.query), test.currentLocation));
  }

  /** As written, a reply the director cannot parse falls back to a place search, so that test always raises. */
  lemma UnparsedIntentRaisesAsWritten(test: ReplanTest, i: nat, services: Services, dist: Distance)
    requires services.parseIntent(FencePayload(services.directorReply(test.query))).None?
    ensures RecordForAsWritten(test, i, services, dist) == RaisedTypeError("open_now")
  {
    var intent := IntentFor(test, services);
    assert DetectedAction(intent) == Some("find_place");
    NearbySearchRaises(services.search(SearchQuery(intent, test.query), test.currentLocation));
  }

  /** The first `n` passes of a loop whose pass may raise: the first raising pass aborts the whole run. */
  function EvaluateEachRaising(tests: seq<ReplanTest>, n: nat, evaluate: (ReplanTest, nat) -> CallOutcome<ReplanRecord>)
    : CallOutcome<seq<ReplanRecord>>
    requires n <= |tests|
  {
    if n == 0 then Returned([])
    else match EvaluateEachRaising(tests, n - 1, evaluate)
      case RaisedTypeError(k) => RaisedTypeError(k)
      case Returned(records) =>
        (match evaluate(tests[n - 1], n - 1)
         case RaisedTypeError(k) => RaisedTypeError(k)
         case Returned(r) => Returned(records + [r]))
  }

  /** The run raises exactly when some pass raises; otherwise it holds every pass's entry, in order. */
  lemma {:induction false} EvaluateEachRaisingSpec(tests: seq<ReplanTest>, n: nat,
                                                   evaluate: (ReplanTest, nat) -> CallOutcome<ReplanRecord>)
    requires n <= |tests|
    ensures EvaluateEachRaising(tests, n, evaluate).RaisedTypeError? <==>
      exists i :: 0 <= i < n && evaluate(tests[i], i).RaisedTypeError?
    ensures EvaluateEachRaising(tests, n, evaluate).Returned? ==>
      && |EvaluateEachRaising(tests, n, evaluate).value| == n
      && forall i :: 0 <= i < n ==> EvaluateEachRaising(tests, n, evaluate).value[i] == evaluate(tests[i], i).value
  {
    if n > 0 {
      EvaluateEachRaisingSpec(tests, n - 1, evaluate);
    }
  }

  /** `run_replan_evals` as written, every entry computed by `RecordForAsWritten`. */
  function RunReplanEvalsAsWritten(tests: seq<ReplanTest>, services: Services, dist: Distance): CallOutcome<seq<ReplanRecord>> {
    EvaluateEachRaising(tests, |tests|, (test: ReplanTest, i: nat) => RecordForAsWritten(test, i, services, dist))
  }

  /**
   * As written, the run raises as soon as one test asks for a stop; otherwise
   * it returns every entry, none of them evaluated.
   */
  lemma ReplanEvalsRaiseAsWritten(tests: seq<ReplanTest>, services: Services, dist: Distance)
    ensures RunReplanEvalsAsWritten(tests, services, dist).RaisedTypeError? <==>
      exists i :: 0 <= i < |tests| && AsksForStop(DetectedAction(IntentFor(tests[i], services)))
    ensures RunReplanEvalsAsWritten(tests, services, dist).Returned? ==>
      var records := RunReplanEvalsAsWritten(tests, services, dist).value;
      && |records| == |tests|
      && forall i :: 0 <= i < |tests| ==> records[i] == RecordFor(tests[i], i, services, dist) && records[i].evaluation.None?
  {
    var evaluate := (test: ReplanTest, i: nat) => RecordForAsWritten(test, i, services, dist);
    EvaluateEachRaisingSpec(tests, |tests|, evaluate);
    forall i | 0 <= i < |tests| ensures evaluate(tests[i], i) == RecordForAsWritten(tests[i], i, services, dist) {
    }
    forall i | 0 <= i < |tests| {
      RecordRaisesAsWritten(tests[i], i, services, dist);
    }
  }

  function Sum(xs: seq<int>): int {
    if xs == [] then 0 else xs[0] + Sum(xs[1..])
  }

  /** `sum(xs) / len(xs)`, which has no value for an empty list (Python raises). */
  function Mean(xs: seq<int>): (m: Option<real>)
    ensures m.None? <==> xs == []
    ensures m.Some? ==> m.value * |xs| as real == Sum(xs) as real
  {
    if xs == [] then None else Some(Sum(xs) as real / |xs| as real)
  }

  /** A sum of scores in a range lies between the count times either end. */
  lemma {:induction false} SumBounds(xs: seq<int>, lo: int, hi: int)
    requires forall k :: 0 <= k < |xs| ==> lo <= xs[k] <= hi
    ensures lo as real * |xs| as real <= Sum(xs) as real <= hi as real * |xs| as real
  {
    if xs != [] {
      SumBounds(xs[1..], lo, hi);
      var n := |xs[1..]| as real;
      assert |xs| as real == n + 1.0;
      assert lo as real * (n + 1.0) == lo as real * n + lo as real;
      assert hi as real * (n + 1.0) == hi as real * n + hi as real;
    }
  }

  /** Dividing a total that lies between two multiples of a positive count by the count keeps it between them. */
  lemma DivideBounds(lo: real, total: real, hi: real, n: real)
    requires n > 0.0 && lo * n <= total <= hi * n
    ensures lo <= total / n <= hi
  {
  }

  /** The mean of scores in a range lies in that range. */
  lemma MeanBounds(xs: seq<int>, lo: int, hi: int)
    requires xs != [] && forall k :: 0 <= k < |xs| ==> lo <= xs[k] <= hi
    ensures lo as real <= Mean(xs).value <= hi as real
  {
    SumBounds(xs, lo, hi);
    DivideBounds(lo as real, Sum(xs) as real, hi as real, |xs| as real);
  }

  /** The per-question faithfulness and answer-relevance scores of the question-answering evaluations. */
  function Faithfulness(evaluations: seq<RagEvaluation>): (xs: seq<int>)
    ensures |xs| == |evaluations| && forall k :: 0 <= k < |xs| ==> xs[k] == evaluations[k].faithfulness
  {
    seq(|evaluations|, k requires 0 <= k < |evaluations| => evaluations[k].faithfulness)
  }

  function AnswerRelevance(evaluations: seq<RagEvaluation>): (xs: seq<int>)
    ensures |xs| == |evaluations| && forall k :: 0 <= k < |xs| ==> xs[k] == evaluations[k].answerRelevance
  {
    seq(|evaluations|, k requires 0 <= k < |evaluations| => evaluations[k].answerRelevance)
  }

  /** A test whose detected action is the expected one. */
  predicate Correct(r: ReplanRecord) {
    r.detectedAction == Some(r.test.expectedAction)
  }

  function CorrectCount(records: seq<ReplanRecord>): (n: nat)
    ensures n <= |records|
  {
    if records == [] then 0 else (if Correct(records[0]) then 1 else 0) + CorrectCount(records[1..])
  }

  /** `correct_intents / len(replan_results) * 100`, with no value when there are no tests. */
  function IntentAccuracy(records: seq<ReplanRecord>): (accuracy: Option<real>)
    ensures accuracy.None? <==> records == []
    ensures accuracy.Some? ==> 0.0 <= accuracy.value <= 100.0
    ensures accuracy.Some? ==> accuracy.value * |records| as real == 100.0 * CorrectCount(records) as real
  {
    if records == [] then None
    else
      var n := |records| as real;
      var c := CorrectCount(records) as real;
      assert c / n <= 1.0 by {
        assert c <= n;
      }
      Some(c / n * 100.0)
  }

  /** The satisfaction scores the report averages: those of evaluated entries whose action was read correctly. */
  function ReplanScores(records: seq<ReplanRecord>): (scores: seq<int>)
    ensures |scores| <= |records|
    ensures forall s :: s in scores <==> exists r :: r in records && r.evaluation.Some? && Correct(r) && r.evaluation.value.constraintSatisfaction == s
  {
    if records == [] then []
    else
      var r := records[0];
      var rest := ReplanScores(records[1..]);
      assert records == [r] + records[1..];
      if r.evaluation.Some? && Correct(r) then [r.evaluation.value.constraintSatisfaction] + rest else rest
  }

  /** `avg_replan`: the mean of those scores, 0 when there are none. */
  function AverageReplan(records: seq<ReplanRecord>): (average: real)
    ensures ReplanScores(records) == [] ==> average == 0.0
    ensures ReplanScores(records) != [] ==> average * |ReplanScores(records)| as real == Sum(ReplanScores(records)) as real
  {
    Mean(ReplanScores(records)).GetOr(0.0)
  }

  /** An entry appended to the results adds its score exactly when it is evaluated and its action was read correctly. */
  lemma {:induction false} ReplanScoresAppend(records: seq<ReplanRecord>, r: ReplanRecord)
    ensures ReplanScores(records + [r]) ==
      ReplanScores(records) + (if r.evaluation.Some? && Correct(r) then [r.evaluation.value.constraintSatisfaction] else [])
    decreases |records|
  {
    if records == [] {
      assert ([] + [r])[1..] == [];
    } else {
      assert (records + [r])[1..] == records[1..] + [r];
      ReplanScoresAppend(records[1..], r);
    }
  }

  lemma AverageReplanBounds(records: seq<ReplanRecord>)
    requires forall r :: r in records && r.evaluation.Some? ==> 0 <= r.evaluation.value.constraintSatisfaction <= 5
    ensures 0.0 <= AverageReplan(records) <= 5.0
  {
    var scores := ReplanScores(records);
    if scores != [] {
      forall k | 0 <= k < |scores| ensures 0 <= scores[k] <= 5 {
        assert scores[k] in scores;
      }
      MeanBounds(scores, 0, 5);
    }
  }
}
