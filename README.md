# Walking-tour backend, modelled in Dafny

This project models the backend of an AI-guided walking tour of Providence. It covers:

- **Tour sessions.** A session has preferences, a route of stops, a status and a location. The status moves along a fixed table: `initial → traveling → poi/complete`, `poi → traveling/complete`.
- **Session manager.** Creates, looks up, moves and deletes sessions.
- **HTTP tour endpoints.** The handlers built on the sessions and the manager.
- **Route builder.** It ranks the curated points of interest (POIs) by theme or takes them from a place search. It then chains them, nearest unvisited one first, while the walking time plus each stop's visit time fits the budget. The walk is defined once as a recursive reference (`GreedyRun`), and the loop is proved to compute it.
- **Director.** It reads the walker's replanning intent from the model's reply. It then reroutes on a theme change; on a place request it inserts the cheapest detour or lists the three cheapest. It can also skip a stop or end the tour.
- **Voice choice and narration clean-up.** The choice of voice and the removal of `[SFX: ...]` cues from narration text.
- **Persona prompts.** The narrator's persona lookup.
- **Question-answering agent.** Its label normalisation and its history window.
- **Evaluation.** The evaluation agent's reply clean-up and score fallback. The evaluation script's loop, its detour overhead and its summary figures.

Outside effects are parameters of the model:

- the language model's replies;
- JSON parsing, as `string -> Option<T>`;
- the place search and Wikipedia results;
- uuids, elapsed time and the random "next stop" of the evaluation script;
- the haversine distance, as an uninterpreted `Distance`. Where a property needs it, the lemma assumes `IsMetric`: non-negative plus the triangle inequality.

Files and modules:

- `wrappers.dfy`: `Option`.
- `knowledge.dfy`: the keyword arguments the place search accepts.
- `geo.dfy`: coordinates, distance and the default start.
- `strings.dfy`: the Python string operations the code relies on: `strip`, `lower`, `upper`, `in`, `split`, `join`, `replace`.
- `sequences.dfy`: stable sorting by key and subsequences.
- `state.dfy`: statuses, stops, `Route`, `TourSession`, `TourManager`.
- `routing.dfy`: route generation.
- `director.dfy`: replanning.
- `tour_api.dfy`: the endpoints.
- `voice.dfy`: voices and cues.
- `narrator.dfy`: persona prompts.
- `qa.dfy`: the question-answering agent's label and history.
- `eval.dfy`: the evaluation agent.
- `run_evals.dfy`: the evaluation script.

## Model

| member | source | states |
|---|---|---|
| State.ParseStatus | backend/models/state.py:27-31 | the parsed status's string is the input, and parsing fails exactly when no status has that string |
| State.ParsePersonality | backend/models/state.py:20-24 | the parsed personality's string is the input, and parsing fails exactly when no personality has that string |
| State.ParseValueRoundTrip | backend/models/state.py:20-31 | parsing a status's or a personality's own string gives it back |
| State.Route.constructor | backend/models/state.py:56-61 | a new route holds the given stops and destination at index 0 |
| State.Route.CurrentStop | backend/models/state.py:63-67 | there is a current stop exactly when the index is inside the stops, and it is the stop at that index |
| State.Route.NextStop | backend/models/state.py:69-74 | there is a next stop exactly when index+1 is inside the stops, and it is the stop at index+1 |
| State.Route.Advance | backend/models/state.py:76-81 | advances exactly when the index is before the last stop; the index then grows by one and otherwise stays; validity is kept |
| State.AdvancedTimesClosedForm | backend/models/state.py:76-81 | k calls of advance move the index to min(i+k, n-1), or leave it when it is already at or past the last stop |
| State.AdvanceKeepsIndexValid | backend/models/state.py:76-81 | any number of advances keeps a valid index valid, and an empty route stays at 0 |
| State.TransitionTable | backend/models/state.py:155-160 | the allowed moves are exactly initial→traveling, traveling→poi/complete and poi→traveling/complete; none stays put, none returns to initial, none leaves complete |
| State.RunTransitionsMonotone | backend/models/state.py:153-165 | over any sequence of requested moves, a started tour never returns to initial and a complete tour stays complete |
| State.TourSession.constructor | backend/models/state.py:93-119 | a new session has the given id and preferences, an empty route at index 0, status initial and no location |
| State.TourSession.ToDict | backend/models/state.py:121-151 | the view carries id, preferences, status string, location and route; it has a current stop name exactly when the route has a current stop |
| State.TourSession.TransitionTo | backend/models/state.py:153-165 | the move succeeds exactly when the table allows it, setting the new status; otherwise it reports the invalid pair and the status is unchanged |
| State.PreferencesFrom | backend/models/state.py:174-182 | missing fields take the defaults 60, "historical", true, "friendly", true; it fails exactly when the personality string is no personality |
| State.TourManager.constructor | backend/models/state.py:171-172 | the table starts empty |
| State.TourManager.CreateTour | backend/models/state.py:174-186 | on success, files a fresh initial session with the parsed preferences under the id; fails without change exactly when the personality is unknown |
| State.TourManager.GetTour | backend/models/state.py:188-190 | finds a session exactly when its id is filed, and returns the filed one |
| State.TourManager.UpdateLocation | backend/models/state.py:192-197 | a filed session gets the new location; an unknown id gives null; the table is unchanged |
| State.TourManager.DeleteTour | backend/models/state.py:199-204 | removes the id; reports true exactly when it was filed |
| Routing.FilterByTheme | backend/services/routing.py:37-39 | keeps exactly the POIs tagged with the theme, in their order |
| Routing.FilterByThemeAppend | backend/services/routing.py:37-39 | a POI appended to the list is appended to the result exactly when it carries the theme, so each POI is kept as often as it occurs |
| Routing.ScoreTenths | backend/services/routing.py:42-56 | the score in tenths is 10, plus 10 when the theme is the POI's first, plus one per fact and two per interactive question |
| Routing.PrimaryThemeBoost | backend/services/routing.py:46-48 | a POI whose first theme is the tour's scores exactly one point more than under another theme |
| Routing.EstimateWalkingTime | backend/services/routing.py:59-62 | minutes are distance over 5000/60 m per minute, and never negative for a non-negative distance |
| Routing.PrefixTo | backend/services/routing.py:135 | Python slicing `s[:k]`, negative k included: the first k elements, or all but the last -k |
| Routing.StaticCandidatesSpec | backend/services/routing.py:117-135 | the curated candidates are the themed POIs, or all POIs when none has the theme; they are sorted by score, highest first, stably, and cut to 3·max_stops |
| Routing.StaticCandidatesKeepsBest | backend/services/routing.py:117-135 | the ranked pool is the themed POIs, or every POI when none is themed; the candidates are as many as `pool[:max_stops*3]`, a sub-multiset of the pool, and every pool POI left out scores no higher than every one kept |
| Routing.RouteMinutesAppend | backend/services/routing.py:165-188 | appending a stop adds the walk from the last position plus the stop's visit time |
| Routing.NearestAmong | backend/services/routing.py:147-159 | over the first n candidates: none exactly when all of them are used; otherwise an unused one no farther than any unused one and strictly nearer than every unused one before it |
| Routing.Nearest | backend/services/routing.py:147-162 | none exactly when every candidate is used; otherwise the first strictly nearest unused candidate |
| Routing.NearestUnused | backend/services/routing.py:147-162 | the scan picks exactly the candidate `Nearest` names, and reports its distance |
| Routing.RemoveNearest | backend/services/routing.py:170 | `list.remove` of the chosen candidate removes exactly its position, and the pool shrinks to a subsequence |
| Routing.AppendFreshId | backend/services/routing.py:183-186 | adding a stop whose id is unused keeps the ids distinct and adds that id |
| Routing.Step | backend/services/routing.py:164-189 | every pass of the loop removes one candidate from the list |
| Routing.StepKeeps | backend/services/routing.py:164-189 | one pass keeps the loop's invariant: position at the last stop, time left equal to the budget minus the route's minutes and never negative, used ids equal to the stops' ids, distinct ids, the cap, and the list a sublist of the candidates |
| Routing.RunKeeps | backend/services/routing.py:138-189 | the invariant holds when the loop ends, and it ends only when its condition or the search for an unused candidate fails |
| Routing.RunExtends | backend/services/routing.py:182 | the loop only appends stops |
| Routing.NextStopNearest | backend/services/routing.py:147-189 | the next stop added is an unused candidate that fits the time left, and every unused candidate strictly nearer does not fit |
| Routing.NearestFitting | backend/services/routing.py:164-182 | the nearest unused candidate, when it fits, is the nearest that fits |
| Routing.SkippedNearest | backend/services/routing.py:168-171 | dropping the nearest unused candidate that does not fit keeps the nearest fitting candidate of the shorter list |
| Routing.RunAddsWhenOneFits | backend/services/routing.py:138-189 | with the cap and more than 10 minutes left, the loop adds a stop whenever some unused candidate fits |
| Routing.GreedyRunEnds | backend/services/routing.py:138-191 | at most max_stops stops with distinct ids within the budget; the candidates left are a sublist of the input; the walk ends only with the cap reached, at most 10 minutes left, or every remaining candidate used |
| Routing.GreedyRunNonEmpty | backend/services/routing.py:138-191 | the route has a stop exactly when max_stops is positive, the budget exceeds 10 minutes and some candidate fits from the start |
| Routing.GreedyRunFirstStop | backend/services/routing.py:147-182 | the first stop is a candidate that fits the whole budget, with no strictly nearer candidate that fits |
| Routing.GreedyRoute | backend/services/routing.py:138-191 | the loop's stops are exactly those of the reference walk `GreedyRun`; at most max_stops, distinct ids, within the budget |
| Routing.CandidatesFromSearch | backend/services/routing.py:100-115 | the dynamic candidates are exactly the results not rated below 3.5, each tagged with the theme, lasting 15 minutes and carrying no facts |
| Routing.CandidatesFromSearchAppend | backend/services/routing.py:100-115 | one more search result appends its candidate at the end exactly when it is not rated below 3.5, so the search's order is kept |
| Routing.DynamicSearchRaises | backend/services/routing.py:97 | as written, asking for the dynamic search raises a TypeError on `open_now`; the static branch returns the curated candidates |
| Routing.GenerateRoute | backend/services/routing.py:65-191 | a fresh valid route at index 0 with the destination; its stops are those of `GreedyRun` over the dynamic candidates, or the curated ones when those are empty; the stop cap, distinct ids and budget hold |
| Routing.CheckPoiProximity | backend/services/routing.py:248-255 | near exactly when the distance is at most the threshold |
| Routing.ProximityMonotone | backend/services/routing.py:248-255 | a point near under a threshold is near under any larger one |
| Sequences.SortBySorted | backend/services/routing.py:132 | sorting by key gives a sequence ordered by that key |
| Sequences.SortByPermutation | backend/services/routing.py:132 | sorting keeps exactly the same elements with their multiplicities |
| Sequences.SortByStable | backend/services/routing.py:132 | elements of equal key keep their relative order (Python's sort is stable) |
| Sequences.RemoveFirstAt | backend/services/routing.py:170 | removing the first occurrence of an element found first at k removes position k |
| Sequences.SubsequenceTrans | backend/services/routing.py:170 | a subsequence of a subsequence is a subsequence |
| Sequences.RemoveAtMembers | backend/services/routing.py:170 | dropping one position keeps every other element and adds none |
| Knowledge.CallSearchPlaces | backend/services/knowledge.py:71 | the call returns the results exactly when every keyword names a parameter of `search_places`; otherwise it raises on a keyword it does not declare |
| Knowledge.OpenNowRaises | backend/services/knowledge.py:71 | a call passing `open_now` after declared keywords raises on `open_now` |
| Director.FencePayload | backend/agents/director.py:49-53 | an unfenced reply is used stripped; a fenced one yields the text between the first two fences, minus a leading "json", containing no fence |
| Director.FencedJsonPayload | backend/agents/director.py:49-53 | a reply opening with a ```` ```json ```` fence yields exactly the JSON body |
| Director.ExtractReplanRequest | backend/agents/director.py:43-56 | the parsed intent when the payload parses, otherwise find_place with the message as query |
| Director.HighQualityOnly | backend/agents/director.py:65 | keeps exactly the places rated at least 2.0, in order |
| Director.HighQualityOnlyAppend | backend/agents/director.py:65 | a place appended to the results is appended to the filtered list exactly when it is rated at least 2.0, so each place is kept as often as it occurs |
| Director.FindNearbyPlaces | backend/agents/director.py:58-70 | the high-quality filter of the results when any place is rated at least 2.0, otherwise all results; empty exactly when the search is |
| Director.NearbySearchRaises | backend/agents/director.py:62 | as written, every call raises a TypeError on `open_now` |
| Director.InsertionCostNonNegative | backend/agents/director.py:104-112 | under a metric, the detour's cost is never negative |
| Director.CheapestInsertion | backend/agents/director.py:87-119 | no position exactly when none lies after the current stop; otherwise the first position of least added distance, with that cost |
| Director.CheapestInsertionUnique | backend/agents/director.py:117-119 | the first cheapest position is unique |
| Director.RankCandidates | backend/agents/director.py:72-126 | each candidate's cheapest insertion is ranked; the ranking is sorted by cost, ascending, a permutation of the unsorted one and stable |
| Director.FirstRankedIsCheapest | backend/agents/director.py:121-125 | the first ranked entry costs no more than any candidate at any allowed position |
| Director.BestIsRanked | backend/agents/director.py:204 | the best entry's position lies after the current stop and is globally cheapest |
| Director.Truncate | backend/agents/director.py:157 | `int()` rounds toward zero |
| Director.RemainingBudget | backend/agents/director.py:156-157 | at least 20; the tour length minus the whole minutes of `timedelta.seconds`, which drops whole days |
| Director.WholeMinutes | backend/agents/director.py:156-157 | truncating seconds/60 is the whole number of minutes |
| Director.BudgetIgnoresWholeDays | backend/agents/director.py:156 | adding whole days of elapsed time does not change the budget |
| Director.PlacementWording | backend/agents/director.py:220-228 | an added stop is "your next stop" exactly when inserted right after the current one, otherwise "after" the stop before it; "up ahead" never happens |
| Director.BrowseOptions | backend/agents/director.py:237-243 | one option per ranked entry: its name, rating and whole added meters |
| Director.ReplanChangeTheme | backend/agents/director.py:150-186 | the segment is the greedy walk of at most five stops over the theme's candidates from the current location; a non-empty segment replaces every stop after the current one, and an empty one changes nothing |
| Director.ApplyThemeSegment | backend/agents/director.py:168-186 | a non-empty segment replaces every stop after the current one and the answer lists it; an empty one changes nothing |
| Director.ThemeSegment | backend/agents/director.py:160-166 | the segment is the walk `GreedyRun` over the dynamic candidates (curated when none) with at most five stops and the remaining time, so its ids are distinct and it fits the time |
| Director.ReplanFindPlace | backend/agents/director.py:188-252 | no places or no placement changes nothing; auto-add inserts one 15-minute detour at the globally cheapest position; browsing lists the top three and changes nothing |
| Director.MissingAndNullActions | backend/agents/director.py:136-264 | an absent action reads as find_place and is a place request exactly when the query is truthy; a `null` action reads as None and gets the unclear reply |
| Director.ReplanRoute | backend/agents/director.py:128-266 | dispatches on the action, `null` kept apart from absent (and a truthy query for find_place); the result echoes the action read; a theme change takes the greedy segment; skip, end and unclear requests leave the stops and give their fixed results |
| Director.ReplanRaisesAsWritten | backend/agents/director.py:150-191 | as written, a call raises a TypeError on `open_now` exactly for a theme change or a place request with a query |
| Director.NullActionRaisesNothing | backend/agents/director.py:136-264 | as written, a request whose action is `null` gets the unclear reply and raises nothing |
| TourApi.ProximityCheck | backend/routes/tour.py:42-61 | near exactly when within the threshold, 50 m unless given; echoes the threshold |
| TourApi.CreateTour | backend/routes/tour.py:64-91 | 500 without change for an unknown personality; otherwise files a fresh session at the given start or Providence's centre, whose route is the greedy walk over the curated list: at most 8 distinct stops within the tour length |
| TourApi.CuratedRoute | backend/routes/tour.py:80-84 | a fresh valid route at its first stop whose stops are `GreedyRun` over the curated candidates with at most 8 stops and the tour length |
| TourApi.GetTour | backend/routes/tour.py:94-101 | 404 exactly for an unknown id, otherwise the session's view |
| TourApi.CreatedTourIsFound | backend/routes/tour.py:94-101 | a filed session is found, with its location and current stop |
| TourApi.UpdateLocation | backend/routes/tour.py:104-135 | 404 for an unknown id; otherwise records the location and, at a current stop, reports arrival within 50 m, with should_transition exactly when traveling, or directions, never both; no status changes |
| TourApi.TransitionState | backend/routes/tour.py:138-155 | 404 for an unknown id; 400 with the status unchanged for an unknown status or a forbidden move; on success the status moves, and the reported previous status equals the new one |
| TourApi.ReportedPreviousIsNotPrevious | backend/routes/tour.py:147-150 | every allowed move changes the status, so the reported previous status is never the real one |
| TourApi.TransitionStateReportingPrevious | backend/routes/tour.py:138-155 | as TransitionState, but a successful answer reports the status before the move, which differs from the new one |
| TourApi.AdvanceStop | backend/routes/tour.py:158-177 | 404 for an unknown id; "already at last stop" exactly when the index is at or past the last stop; otherwise the index grows by one and the answer names the stop and whether it is the last |
| TourApi.GetPois | backend/routes/tour.py:180-194 | a missing file gives an empty list and the error; an empty or missing theme gives every POI; otherwise the theme filter of the file's POIs; the count is the list's length |
| TourApi.DeleteTour | backend/routes/tour.py:197-202 | removes the id; success exactly when it was filed, otherwise 404; afterwards the id is not found |
| Voice.OfGender | backend/services/voice.py:37 | exactly the voices of the gender, in their order |
| Voice.OfGenderAppend | backend/services/voice.py:37 | a voice appended to the list is appended to the result exactly when it has the gender, so each voice is kept as often as it occurs |
| Voice.Candidates | backend/services/voice.py:37-39 | exactly the library voices of the gender, in library order, when one has it; the whole library when none has it; never empty |
| Voice.ToneScore | backend/services/voice.py:46-50 | 2 for the tone in the style, 2 for a tag, 1 for each special pairing; between 0 and 5 |
| Voice.FirstBest | backend/services/voice.py:42-54 | the first candidate with the highest score |
| Voice.SelectVoiceId | backend/services/voice.py:31-56 | the id of the first best-scoring candidate for the lower-cased, stripped gender and tone; always a library id |
| Voice.FallbackPicksAutumn | backend/services/voice.py:105-115 | for every style the fallback asks for, the female voice chosen is autumn |
| Voice.AudioVoiceId | backend/services/voice.py:104-115 | a given non-empty voice id is kept; otherwise the voice is autumn's, whatever the personality |
| Voice.CloseBracket | backend/services/voice.py:96 | the first `]` with no line break before it, or none when every `]` follows a line break |
| Voice.RemoveCuesDropsCue | backend/services/voice.py:96 | a `[SFX:…]` cue at the front is removed whole |
| Voice.NoCueOnlyStripped | backend/services/voice.py:96 | text in which no cue opens reaches speech only stripped |
| Narrator.PersonaPrompt | backend/agents/narrator.py:21-23 | the character persona of the lower-cased value, otherwise the generic sentence with the value as given |
| Narrator.PersonaCaseInsensitive | backend/agents/narrator.py:23 | values equal up to case get the same character persona |
| Narrator.CharacterNames | backend/agents/narrator.py:14-19 | each character's name, in any case, selects that character's persona |
| Narrator.GuidePersonalitiesAreGeneric | backend/agents/narrator.py:35 | no guide personality names a character, so the tour's personality always gets the generic sentence |
| Qa.ClassifyIntent | backend/agents/qa.py:27-28 | the label has no lower-case letter, no surrounding whitespace and is no longer than the reply |
| Qa.NormalLabel | backend/agents/qa.py:28 | the capitalised strip of a reply has no lower-case letter, no whitespace at either end and is no longer than the reply |
| Qa.ClassifyIdempotent | backend/agents/qa.py:28 | normalising a normal label changes nothing |
| Qa.ClassifyPadded | backend/agents/qa.py:28 | whitespace around a word is ignored: the label is the word in capitals |
| Qa.RecentHistory | backend/agents/qa.py:45 | the last six messages, or all when fewer |
| Qa.HistoryText | backend/agents/qa.py:45-46 | empty exactly when there is no history |
| Qa.HistoryTextLines | backend/agents/qa.py:46 | with no line breaks in roles or contents, the text splits back into one "role: content" line per recent message |
| Qa.PoiContext | backend/agents/qa.py:48 | "At: name" at a stop, "Walking" otherwise |
| Qa.KnowledgeQuery | backend/agents/qa.py:42 | the search is about the stop's name at a stop, otherwise the question |
| Eval.RagPayload | backend/agents/eval.py:47-51 | an unfenced reply is parsed stripped; a fenced one gives fence-free content |
| Eval.JsonFencedRag | backend/agents/eval.py:48-49 | a reply holding a ```` ```json ```` block gives that block's body, stripped |
| Eval.PlainFencedRag | backend/agents/eval.py:50-51 | a reply holding only plain fences gives the first fenced body, stripped |
| Eval.SearchScore | backend/agents/eval.py:60-62 | the leftmost key followed by whitespace and a digit gives a score from 0 to 9 |
| Eval.SearchScoreFirst | backend/agents/eval.py:60-62 | the score is the digit after the first match |
| Eval.SearchScoreMissing | backend/agents/eval.py:60-62 | no key, no score |
| Eval.EvaluateRag | backend/agents/eval.py:44-68 | the parsed evaluation, or regex-extracted scores from 0 to 9 (0 when missing) marked as extracted |
| Eval.RagScoresZero | backend/agents/eval.py:63-68 | an unparsable reply without score keys scores zero everywhere |
| Eval.ReplanPayload | backend/agents/eval.py:98 | the cleaned text holds no fence, and an unfenced reply is only stripped |
| Eval.ReplanFenced | backend/agents/eval.py:98 | a ```` ```json ````-fenced reply gives its body, stripped |
| Eval.EvaluateReplanning | backend/agents/eval.py:96-105 | the parsed evaluation, or satisfaction 0 with "failed to parse" |
| RunEvals.CalculateOverhead | backend/scripts/run_evals.py:18-26 | non-negative; the detour's added distance when that is non-negative |
| RunEvals.OverheadUnderMetric | backend/scripts/run_evals.py:18-26 | under a metric the clamp never applies |
| RunEvals.OverheadIsInsertionCost | backend/scripts/run_evals.py:18-26 | the overhead is the director's insertion cost between two stops, clamped at zero |
| RunEvals.SearchQuery | backend/scripts/run_evals.py:86 | the intent's non-empty query, otherwise the test's query |
| RunEvals.RecordFor | backend/scripts/run_evals.py:69-117 | the detected action is the string action, None when it is absent or `null`; evaluation exactly for find_place or change_theme; no candidates gives satisfaction 0; otherwise the first candidate with its overhead and judged score |
| RunEvals.UnparsedIntentIsEvaluated | backend/scripts/run_evals.py:74-84 | with the search call corrected, an unparsable director reply falls back to find_place, which is evaluated |
| RunEvals.RecordRaisesAsWritten | backend/scripts/run_evals.py:83-86 | as written, a test raises exactly when its action asks for a stop; any other test gets its unevaluated entry |
| RunEvals.UnparsedIntentRaisesAsWritten | backend/scripts/run_evals.py:74-86 | as written, an unparsable director reply falls back to find_place, so that test raises on `open_now` |
| RunEvals.RunReplanEvals | backend/scripts/run_evals.py:62-119 | one record per test, in order, each the record of that test |
| RunEvals.EvaluateEachRaisingSpec | backend/scripts/run_evals.py:68-119 | a loop whose passes may raise raises exactly when some pass does; otherwise it holds each pass's entry in order |
| RunEvals.ReplanEvalsRaiseAsWritten | backend/scripts/run_evals.py:62-119 | as written, the run raises as soon as one test asks for a stop; otherwise it returns every test's entry, none evaluated |
| RunEvals.EvaluateEach | backend/scripts/run_evals.py:68-119 | one entry per test, each the evaluation of that test at its position, appended in test order |
| RunEvals.Mean | backend/scripts/run_evals.py:146-147 | none exactly for an empty list; otherwise the mean times the count is the sum |
| RunEvals.MeanBounds | backend/scripts/run_evals.py:146-147 | the mean of scores within bounds lies within them |
| RunEvals.IntentAccuracy | backend/scripts/run_evals.py:153-154 | none for no records; otherwise a percentage in 0..100 equal to 100·correct/total |
| RunEvals.ReplanScores | backend/scripts/run_evals.py:158-162 | exactly the satisfaction scores of evaluated, correctly detected records |
| RunEvals.AverageReplan | backend/scripts/run_evals.py:163-165 | 0 when no scores, otherwise their mean |
| RunEvals.ReplanScoresAppend | backend/scripts/run_evals.py:158-162 | an appended record adds its satisfaction score at the end exactly when it is evaluated and correctly detected, and adds nothing otherwise |
| RunEvals.AverageReplanBounds | backend/scripts/run_evals.py:163-165 | with judge scores in 0..5, the average is in 0..5 |
| Strings.Strip | backend/agents/qa.py:28 | a contiguous slice of the input with no whitespace at either end; text without whitespace is unchanged |
| Strings.StripIdempotent | backend/agents/qa.py:28 | stripping twice is stripping once |
| Strings.StripPadded | backend/agents/qa.py:28 | stripping whitespace padding around a word gives the word |
| Strings.Split | backend/agents/director.py:51 | at least one piece; two or more exactly when the separator occurs |
| Strings.SplitJoin | backend/agents/director.py:51 | joining the pieces of a split with the separator gives the text back |
| Strings.JoinSplit | backend/agents/qa.py:46 | splitting a join of separator-free pieces gives the pieces back |
| Strings.Before | backend/agents/eval.py:49 | the prefix up to the first occurrence of the separator, or the whole text when it does not occur |
| Strings.ReplaceAbsent | backend/agents/eval.py:98 | replacing an absent pattern changes nothing |
| Strings.LowerIdempotent | backend/agents/narrator.py:23 | lower-casing twice is lower-casing once |

## Findings

| source | as written | input that shows it | evidently intended | confidence | as-written member | corrected member |
|---|---|---|---|---|---|---|
| backend/services/routing.py:97 | the dynamic search passes `open_now=True`, a keyword `search_places` (backend/services/knowledge.py:71) does not declare | `generate_route` with `use_dynamic_search=True`, e.g. any "change_theme" replan: Python raises TypeError before a candidate is built | the search without `open_now`, or a `search_places` that takes it | high; not executed | Routing.RouteCandidatesAsWritten, Routing.DynamicSearchRaises | Routing.GenerateRoute |
| backend/agents/director.py:62 | `find_nearby_places` passes `open_now=True` to the same search | a "find_place" replan with query "coffee": TypeError, so no place is found or added | as above | high; not executed | Director.FindNearbyPlacesAsWritten, Director.ReplanRaisesAsWritten | Director.ReplanRoute |
| backend/scripts/run_evals.py:86 | the replanning evaluation calls `find_nearby_places` for every test asking for a stop, with no `except` around it | any test set with one test read as "find_place" or "change_theme": the TypeError ends the whole run | one evaluated entry per such test | high; not executed | RunEvals.RunReplanEvalsAsWritten, RunEvals.ReplanEvalsRaiseAsWritten | RunEvals.RunReplanEvals |
| backend/routes/tour.py:147-150 | `previous_status` is read from `tour.status` after `transition_to` has set it | a tour in status "initial" asked to move to "traveling" answers previous "traveling", new "traveling" | the status the tour had before the move, "initial" | high; not executed | TourApi.TransitionState, TourApi.ReportedPreviousIsNotPrevious | TourApi.TransitionStateReportingPrevious |

## Left out

- Haversine distance and bearing math: the distance is an uninterpreted function. Properties that need it assume a metric (non-negative, triangle inequality).
- Floating-point rounding: POI scores are kept in tenths, walking times and costs are reals, and `round(overhead, 1)` is not modelled. RunEvals.CalculateOverhead states the unrounded value.
- The language model, HTTP, the Google Places and Wikipedia searches, ElevenLabs, JSON parsing and file loading are not modelled. Their results are parameters.
- uuids, `datetime.now()` and `random.choice` are parameters. The evaluation script's `random.choice` over an empty POI list, which raises, is not modelled.
- Concurrency, the websocket manager, the admin config and startup are not modelled. The replanning default start is the fixed Providence centre; an updated config is not modelled.
- The narration, intro, filler and outro prompts, and the sound-effect generation request, are not modelled.
- The remaining reply wording is not modelled: replanning messages are a datatype naming their case and contents, not their text.
- Strings: `str.lower`/`str.upper` are modelled on ASCII letters and `\d` on ASCII digits. Whitespace is the full set `str.isspace` accepts: the ASCII blanks, U+001C–U+001F, U+0085, U+00A0 and the Unicode space separators.
- Routing.NearestUnused: the `float('inf')` starting distance is modelled as "no pick yet".
- Routing.GenerateRoute: with `use_dynamic_search=True` it is modelled as if `search_places` accepted `open_now`; as written that call raises (see Findings and Routing.DynamicSearchRaises).
- Routing.CandidatesFromSearch: as written it is never reached, because the search call before it raises; it states the intended conversion.
- Knowledge: only the signature of `search_places` is modelled; its key check, its top-five cut and its HTTP request are not, and its results are parameters.
- Routing.GreedyRoute: a candidate's missing `estimated_duration` defaults to 8, as in the source; candidates with malformed coordinates are not modelled.
- Director.RankCandidates: the `i == 0` branch that measures from the walker's location is unreachable, because the scan starts after the current stop, so it is not modelled.
- Director.ReplanIntent: `action` and `query` are modelled as absent, `null` or a string; another JSON value in them (a number, a list) is not modelled, and `auto_add` is read as a boolean, `null` counting as false.
- Director.ReplanChangeTheme: a `null` query is passed to route generation as the empty theme. As written this branch always raises on `open_now` (see Findings); the contract describes the corrected search.
- Director.ThemeSegment: as written the dynamic search raises; the contract describes the walk once the search call is corrected.
- Director.FindNearbyPlaces: the search is modelled as if it accepted `open_now`; as written every call raises a TypeError (Director.NearbySearchRaises).
- Director.ReplanFindPlace: reached only after `find_nearby_places`, which raises as written; the contract describes the corrected search.
- Director.ReplanRoute: as written the theme-change branch and the place-request branch with a query raise (Director.ReplanRaisesAsWritten); the contract for those branches describes the corrected search.
- TourApi.CreateTour: a start location that is not a pair is not modelled; a missing or empty one uses the default.
- The run_qa_evals loop is not modelled: it unpacks the single string from `answer_question` into two names, which fails for any answer that is not exactly two characters long. Its averages are modelled through RunEvals.Mean.
- RunEvals.Mean: where the source divides by zero for no QA results, the model answers none.
- RunEvals.RecordFor: describes a test once the search call is corrected; as written a test asking for a stop raises (RunEvals.RecordRaisesAsWritten).
- RunEvals.UnparsedIntentIsEvaluated: holds for the corrected search only; as written such a test raises (RunEvals.UnparsedIntentRaisesAsWritten).
- RunEvals.RunReplanEvals: describes the run once the search call is corrected; as written it aborts at the first test asking for a stop (RunEvals.ReplanEvalsRaiseAsWritten).
- RunEvals.RecordFor: an evaluation the judge returns is taken as well-formed. The case of an empty dictionary counting as "no evaluation" in the summary is not modelled.
- Eval.EvaluateRag: the inner `except` giving all zeros cannot be reached, because the regex searches do not raise; zeros come from missing keys instead.
- Qa: the unused combined `query` string is not modelled; the knowledge query is the stop's name or the question.
- Conversation history storage, the audio cache and narration progress of a session are not modelled; only the history window and its text are.
