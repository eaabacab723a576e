/**
 * Tour state: the ordered route with its progress index, the four-state tour
 * status machine, and the table of live sessions.
 */
module State {
  import opened Wrappers
  import opened Geo

  datatype TourStatus = Initial | Traveling | Poi | Complete {
    function Value(): string {
      match this
      case Initial => "initial"
      case Traveling => "traveling"
      case Poi => "poi"
      case Complete => "complete"
    }
  }

  /** `TourStatus(s)`: the status whose value is exactly `s`; Python raises `ValueError` for any other string. */
  function ParseStatus(s: string): (r: Option<TourStatus>)
    ensures r.Some? ==> r.value.Value() == s
    ensures r.None? <==> forall t: TourStatus :: t.Value() != s
  {
    if s == "initial" then Some(Initial)
    else if s == "traveling" then Some(Traveling)
    else if s == "poi" then Some(Poi)
    else if s == "complete" then Some(Complete)
    else None
  }

  datatype GuidePersonality = Funny | Serious | Dramatic | Friendly {
    function Value(): string {
      match this
      case Funny => "funny"
      case Serious => "serious"
      case Dramatic => "dramatic"
      case Friendly => "friendly"
    }
  }

  /** `GuidePersonality(s)`: the personality whose value is exactly `s`; any other string raises `ValueError`. */
  function ParsePersonality(s: string): (r: Option<GuidePersonality>)
    ensures r.Some? ==> r.value.Value() == s
    ensures r.None? <==> forall g: GuidePersonality :: g.Value() != s
  {
    if s == "funny" then Some(Funny)
    else if s == "serious" then Some(Serious)
    else if s == "dramatic" then Some(Dramatic)
    else if s == "friendly" then Some(Friendly)
    else None
  }

  lemma ParseValueRoundTrip(t: TourStatus, g: GuidePersonality)
    ensures ParseStatus(t.Value()) == Some(t)
    ensures ParsePersonality(g.Value()) == Some(g)
  {
  }

  datatype Preferences = Preferences(
    tourLength: int,
    theme: string,
    soundEffects: bool,
    guidePersonality: GuidePersonality,
    interactive: bool)

  /** A stop on the route. */
  datatype PoiStop = PoiStop(
    id: string,
    name: string,
    coordinates: Coord,
    address: string,
    poiType: string,
    estimatedTime: int,
    themes: seq<string>)

  /** The index after one `advance` on a route of `n` stops: one further while a later stop exists, else unchanged. */
  function AdvancedIndex(n: int, i: int): int {
    if i < n - 1 then i + 1 else i
  }

  /** The index after `k` calls of `advance`. */
  function AdvancedTimes(n: int, i: int, k: nat): int
    decreases k
  {
    if k == 0 then i else AdvancedTimes(n, AdvancedIndex(n, i), k - 1)
  }

  /**
   * Repeated advancing moves one stop at a time and stops at the last stop:
   * it never passes `n - 1`, and an index already there (or past it) stays put.
   */
  lemma {:induction false} AdvancedTimesClosedForm(n: int, i: int, k: nat)
    ensures AdvancedTimes(n, i, k) == if i + k < n - 1 then i + k else if i < n - 1 then n - 1 else i
    decreases k
  {
    if k > 0 {
      AdvancedTimesClosedForm(n, AdvancedIndex(n, i), k - 1);
    }
  }

  /** From a valid index, any number of advances keeps the index valid. */
  lemma AdvanceKeepsIndexValid(n: nat, i: int, k: nat)
    requires 0 <= i && (i < n || i == 0)
    ensures 0 <= AdvancedTimes(n, i, k) && (AdvancedTimes(n, i, k) < n || AdvancedTimes(n, i, k) == 0)
    ensures n == 0 ==> AdvancedTimes(n, i, k) == 0
  {
    AdvancedTimesClosedForm(n, i, k);
  }

  /** `Route`: the ordered stops and the index of the stop being visited. */
  class Route {
    var stops: seq<PoiStop>
    var currentStopIndex: int
    var destinationCoords: Option<Coord>

    /**
     * What every operation of the backend maintains: the index is never
     * negative and names a stop, except on an empty route where it is 0.
     */
    ghost predicate Valid()
      reads this
    {
      0 <= currentStopIndex && (currentStopIndex < |stops| || currentStopIndex == 0)
    }

    constructor (stops: seq<PoiStop>, destination: Option<Coord>)
      ensures this.stops == stops && currentStopIndex == 0 && destinationCoords == destination
      ensures Valid()
    {
      this.stops := stops;
      currentStopIndex := 0;
      destinationCoords := destination;
    }

    /** `current_stop`: the stop at the index when the index is in range, otherwise none. */
    function CurrentStop(): (r: Option<PoiStop>)
      reads this
      ensures r.Some? <==> 0 <= currentStopIndex < |stops|
      ensures r.Some? ==> r.value == stops[currentStopIndex]
    {
      if 0 <= currentStopIndex < |stops| then Some(stops[currentStopIndex]) else None
    }

    /**
     * `next_stop`: the stop after the current one, when there is one. (An index
     * below -1 would make Python index from the end; no operation produces one.)
     */
    function NextStop(): (r: Option<PoiStop>)
      requires currentStopIndex >= -1
      reads this
      ensures r.Some? <==> currentStopIndex + 1 < |stops|
      ensures r.Some? ==> r.value == stops[currentStopIndex + 1]
    {
      if currentStopIndex + 1 < |stops| then Some(stops[currentStopIndex + 1]) else None
    }

    /** `advance`: moves on by exactly one stop when a later stop exists; otherwise reports false and changes nothing. */
    method Advance() returns (advanced: bool)
      modifies this`currentStopIndex
      ensures advanced <==> old(currentStopIndex) < |stops| - 1
      ensures currentStopIndex == AdvancedIndex(|stops|, old(currentStopIndex))
      ensures advanced ==> currentStopIndex == old(currentStopIndex) + 1
      ensures old(Valid()) ==> Valid()
    {
      if currentStopIndex < |stops| - 1 {
        currentStopIndex := currentStopIndex + 1;
        return true;
      }
      return false;
    }
  }

  /** The table of allowed status changes. */
  function ValidTransitions(from: TourStatus): seq<TourStatus> {
    match from
    case Initial => [Traveling]
    case Traveling => [Poi, Complete]
    case Poi => [Traveling, Complete]
    case Complete => []
  }

  predicate CanTransition(from: TourStatus, to: TourStatus) {
    to in ValidTransitions(from)
  }

  /** The table holds exactly five moves: no self-moves, nothing returns to `Initial`, and `Complete` is terminal. */
  lemma TransitionTable(from: TourStatus, to: TourStatus)
    ensures CanTransition(from, to) <==>
      (from == Initial && to == Traveling) ||
      (from == Traveling && (to == Poi || to == Complete)) ||
      (from == Poi && (to == Traveling || to == Complete))
    ensures CanTransition(from, to) ==> from != to && to != Initial && from != Complete
  {
  }

  /** The status after a series of `transition_to` calls, each disallowed one leaving the status as it was. */
  function RunTransitions(from: TourStatus, requested: seq<TourStatus>): TourStatus
    decreases |requested|
  {
    if requested == [] then from
    else
      var next := if CanTransition(from, requested[0]) then requested[0] else from;
      RunTransitions(next, requested[1..])
  }

  /** Once a tour has started it never becomes `initial` again, and a complete tour stays complete. */
  lemma {:induction false} RunTransitionsMonotone(from: TourStatus, requested: seq<TourStatus>)
    ensures from != Initial ==> RunTransitions(from, requested) != Initial
    ensures from == Complete ==> RunTransitions(from, requested) == Complete
    decreases |requested|
  {
    if requested != [] {
      var next := if CanTransition(from, requested[0]) then requested[0] else from;
      RunTransitionsMonotone(next, requested[1..]);
    }
  }

  datatype TransitionError = InvalidTransition(from: TourStatus, to: TourStatus)

  /** The part of `to_dict` that describes the route and its progress. */
  datatype RouteView = RouteView(stops: seq<PoiStop>, currentStopIndex: int)

  datatype TourView = TourView(
    id: string,
    preferences: Preferences,
    route: RouteView,
    status: string,
    currentLocation: Option<Coord>,
    currentStop: Option<string>)

  /** `TourState`: one tour session. */
  class TourSession {
    const id: string
    var preferences: Preferences
    var route: Route
    var status: TourStatus
    var currentLocation: Option<Coord>

    constructor (id: string, preferences: Preferences)
      ensures this.id == id && this.preferences == preferences
      ensures fresh(route) && route.stops == [] && route.currentStopIndex == 0 && route.destinationCoords == None
      ensures status == Initial && currentLocation == None
    {
      this.id := id;
      this.preferences := preferences;
      route := new Route([], None);
      status := Initial;
      currentLocation := None;
    }

    /** `to_dict`: the stops and index as they are, the status value, and the current stop's name when there is one. */
    function ToDict(): (v: TourView)
      reads this, route
      ensures v.id == id && v.preferences == preferences && v.currentLocation == currentLocation
      ensures v.status == status.Value()
      ensures v.route == RouteView(route.stops, route.currentStopIndex)
      ensures v.currentStop.Some? <==> 0 <= route.currentStopIndex < |route.stops|
      ensures v.currentStop.Some? ==> v.currentStop.value == route.stops[route.currentStopIndex].name
    {
      var current := route.CurrentStop();
      TourView(id, preferences, RouteView(route.stops, route.currentStopIndex), status.Value(),
               currentLocation, if current.Some? then Some(current.value.name) else None)
    }

    /** `transition_to`: takes an allowed move; a disallowed one fails and leaves the status unchanged. */
    method TransitionTo(newStatus: TourStatus) returns (error: Option<TransitionError>)
      modifies this`status
      ensures error.None? <==> CanTransition(old(status), newStatus)
      ensures error.Some? ==> error.value == InvalidTransition(old(status), newStatus)
      ensures status == if error.None? then newStatus else old(status)
    {
      if newStatus in ValidTransitions(status) {
        status := newStatus;
        error := None;
      } else {
        error := Some(InvalidTransition(status, newStatus));
      }
    }
  }

  /** The preferences a caller may send; a missing entry takes its default. */
  datatype PreferenceRequest = PreferenceRequest(
    tourLength: Option<int>,
    theme: Option<string>,
    soundEffects: Option<bool>,
    guidePersonality: Option<string>,
    interactive: Option<bool>)

  /** The preferences `create_tour` builds, when the personality string names one. */
  function PreferencesFrom(request: PreferenceRequest): (r: Option<Preferences>)
    ensures r.Some? <==> ParsePersonality(request.guidePersonality.GetOr("friendly")).Some?
    ensures r.Some? ==> r.value.tourLength == request.tourLength.GetOr(60)
    ensures r.Some? ==> r.value.theme == request.theme.GetOr("historical")
    ensures r.Some? ==> r.value.soundEffects == request.soundEffects.GetOr(true)
    ensures r.Some? ==> r.value.interactive == request.interactive.GetOr(true)
    ensures r.Some? ==> r.value.guidePersonality.Value() == request.guidePersonality.GetOr("friendly")
  {
    match ParsePersonality(request.guidePersonality.GetOr("friendly"))
    case None => None
    case Some(g) =>
      Some(Preferences(request.tourLength.GetOr(60), request.theme.GetOr("historical"),
                       request.soundEffects.GetOr(true), g, request.interactive.GetOr(true)))
  }

  /** `TourManager`: the live sessions by id. Sessions are shared objects, as in the backend. */
  class TourManager {
    var tours: map<string, TourSession>

    /**
     * Each session is filed under its own id, its route's index is valid, and
     * no two sessions share a route object.
     */
    ghost predicate Valid()
      reads this, tours.Values, set t | t in tours.Values :: t.route
    {
      && (forall k :: k in tours ==> tours[k].id == k && tours[k].route.Valid())
      && (forall k1, k2 :: k1 in tours && k2 in tours && k1 != k2 ==> tours[k1].route != tours[k2].route)
    }

    constructor ()
      ensures tours == map[] && Valid()
    {
      tours := map[];
    }

    /**
     * `create_tour`: a fresh session under `id` (the uuid the backend draws),
     * filed in the table. An unknown personality raises, and nothing is filed.
     */
    method CreateTour(id: string, request: PreferenceRequest) returns (tour: TourSession?)
      requires Valid()
      modifies this`tours
      ensures Valid()
      ensures tour == null <==> PreferencesFrom(request).None?
      ensures tour == null ==> tours == old(tours)
      ensures tour != null ==> fresh(tour) && fresh(tour.route) && tours == old(tours)[id := tour]
      ensures tour != null ==> tour.id == id && tour.preferences == PreferencesFrom(request).value
      ensures tour != null ==> tour.status == Initial && tour.currentLocation == None
      ensures tour != null ==> tour.route.stops == [] && tour.route.currentStopIndex == 0
    {
      var prefs := PreferencesFrom(request);
      if prefs.None? {
        return null;
      }
      tour := new TourSession(id, prefs.value);
      tours := tours[id := tour];
    }

    /** Giving one filed session a new route of its own, and touching no other session, keeps the table valid. */
    twostate lemma RouteReplaced(id: string, new route: Route)
      requires old(Valid()) && tours == old(tours) && id in tours
      requires tours[id].route == route && route.Valid()
      requires forall k :: k in tours && k != id ==>
                 tours[k].route == old(tours[k].route) && tours[k].route != route
      requires forall k :: k in tours && k != id ==> unchanged(tours[k].route)
      ensures Valid()
    {
    }

    /** `get_tour`: the session filed under `id`, if any. */
    function GetTour(id: string): (t: Option<TourSession>)
      reads this
      ensures t.Some? <==> id in tours
      ensures t.Some? ==> t.value == tours[id]
    {
      if id in tours then Some(tours[id]) else None
    }

    /** `update_location`: sets that one session's location and nothing else; an unknown id yields none. */
    method UpdateLocation(id: string, lat: real, lng: real) returns (tour: TourSession?)
      requires Valid()
      modifies (if id in tours then {tours[id]} else {})`currentLocation
      ensures tours == old(tours) && Valid()
      ensures tour == null <==> id !in tours
      ensures tour != null ==> tour == tours[id] && tour.currentLocation == Some((lat, lng))
    {
      if id in tours {
        tour := tours[id];
        tour.currentLocation := Some((lat, lng));
      } else {
        tour := null;
      }
    }

    /** `delete_tour`: removes the session; true exactly when it was there. */
    method DeleteTour(id: string) returns (deleted: bool)
      requires Valid()
      modifies this`tours
      ensures Valid()
      ensures deleted <==> id in old(tours)
      ensures tours == old(tours) - {id}
    {
      deleted := id in tours;
      tours := tours - {id};
    }
  }
}
