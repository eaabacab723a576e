/**
 * The one fact about the knowledge service the core depends on: which
 * keyword arguments `KnowledgeService.search_places` accepts. Its lookups
 * themselves are parameters of the model.
 */
module Knowledge {
  /** The parameters of `search_places(self, query, location, radius_meters=2000)` after `self`. */
  const SearchPlacesParameters: seq<string> := ["query", "location", "radius_meters"]

  /** What a call gives back: its value, or the `TypeError` Python raises for an unexpected keyword argument. */
  datatype CallOutcome<T> = Returned(value: T) | RaisedTypeError(keyword: string)

  /**
   * Calling `search_places` with the given keyword arguments, in the order
   * written: the first keyword that names no parameter raises before the
   * search runs; otherwise the call returns the search's results.
   */
  function CallSearchPlaces<T>(keywords: seq<string>, results: T): (r: CallOutcome<T>)
    ensures r.Returned? <==> forall k :: k in keywords ==> k in SearchPlacesParameters
    ensures r.Returned? ==> r.value == results
    ensures r.RaisedTypeError? ==> r.keyword in keywords && r.keyword !in SearchPlacesParameters
  {
    if keywords == [] then Returned(results)
    else if keywords[0] !in SearchPlacesParameters then RaisedTypeError(keywords[0])
    else CallSearchPlaces(keywords[1..], results)
  }

  /** A call naming only declared parameters returns; one naming `open_now` raises on it, whatever else it names first. */
  lemma {:induction false} OpenNowRaises<T>(before: seq<string>, after: seq<string>, results: T)
    requires forall k :: k in before ==> k in SearchPlacesParameters
    ensures CallSearchPlaces(before + ["open_now"] + after, results) == RaisedTypeError("open_now")
    decreases |before|
  {
    if before == [] {
      assert (before + ["open_now"] + after)[0] == "open_now";
    } else {
      assert (before + ["open_now"] + after)[1..] == before[1..] + ["open_now"] + after;
      OpenNowRaises(before[1..], after, results);
    }
  }
}
