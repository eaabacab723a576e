/**
 * The tour endpoints: what each handler does to the session table and which
 * answer it gives, with the HTTP status of every failure.
 */
module TourApi {
  import opened Wrappers
  import opened Geo
  import opened Sequences
  import opened State
  import opened Routing

  /** Why a handler fails. */
  datatype ErrorReason =
    | TourNotFound
    | NotAStatus(text: string)
    | DisallowedTransition(error: TransitionError)
    | NotAPersonality(text: string)

  /** An endpoint's answer: a body, or an HTTP error status and its reason. */
  datatype Response<T> = Ok(body: T) | Failure(status: int, reason: ErrorReason)

  datatype ProximityBody = ProximityBody(isNear: bool, thresholdMeters: real)

  const DefaultThresholdMeters: real := 50.0

  /** `proximity_check`: whether the two points are within the threshold (50 m unless given), and the threshold used. */
  function ProximityCheck(current: Coord, poi: Coord, threshold: Option<real>, dist: Distance): (b: ProximityBody)
    ensures b.thresholdMeters == threshold.GetOr(DefaultThresholdMeters)
    ensures b.isNear <==> dist(current, poi) <= threshold.GetOr(DefaultThresholdMeters)
  {
    var t := threshold.GetOr(DefaultThresholdMeters);
    ProximityBody(CheckPoiProximity(current, poi, t, dist), t)
  }

  /** The body of a tour creation; a start location that is missing or an empty list is `None`. */
  datatype CreateTourRequest = CreateTourRequest(preferences: PreferenceRequest, startLocation: Option<Coord>)

  datatype CreateBody = CreateBody(tourId: string, tour: TourView)

  /** The stop cap `create_tour` leaves at its default. */
  const CreateMaxStops: int := 8

  /**
   * `create_tour`: files a new session under `id` (the uuid the backend
   * draws), places it at the start (Providence's centre unless given) and
   * gives it a route from the curated POIs within the tour length. An unknown
   * personality raises before anything is filed, which the server answers
   * with 500.
   */
  method CreateTour(manager: TourManager, id: string, request: CreateTourRequest, allPois: seq<PoiRecord>, dist: Distance)
    returns (response: Response<CreateBody>, ghost tour: TourSession?)
    requires manager.Valid()
    modifies manager`tours
    ensures manager.Valid()
    ensures response.Failure? <==> PreferencesFrom(request.preferences).None?
    ensures response.Failure? ==>
      && response == Failure(500, NotAPersonality(request.preferences.guidePersonality.GetOr("friendly")))
      && manager.tours == old(manager.tours)
    ensures response.Ok? ==>
      && tour != null && fresh(tour) && manager.tours == old(manager.tours)[id := tour]
      && manager.GetTour(id) == Some(tour)
      && tour.preferences == PreferencesFrom(request.preferences).value
      && tour.currentLocation == Some(request.startLocation.GetOr(DefaultStart))
      && tour.status == Initial && tour.route.currentStopIndex == 0
      && tour.route.stops == CuratedWalk(request.startLocation.GetOr(DefaultStart), tour.preferences.theme,
                                         tour.preferences.tourLength, allPois, dist)
      && |tour.route.stops| <= CreateMaxStops && DistinctIds(tour.route.stops)
      && (tour.route.stops != [] ==>
            RouteMinutes(request.startLocation.GetOr(DefaultStart), tour.route.stops, dist) <= tour.preferences.tourLength as real)
      && response.body == CreateBody(id, tour.ToDict())
  {
    var t := manager.CreateTour(id, request.preferences);
    if t == null {
      response, tour := Failure(500, NotAPersonality(request.preferences.guidePersonality.GetOr("friendly"))), null;
      return;
    }
    label filed:
    var start := request.startLocation.GetOr(DefaultStart);
    t.currentLocation := Some(start);
    var route := CuratedRoute(start, t.preferences.theme, t.preferences.tourLength, allPois, dist);
    t.route := route;
    manager.RouteReplaced@filed(id, route);
    tour := t;
    response := Ok(CreateBody(t.id, t.ToDict()));
  }

  /**
   * The route `create_tour` asks for: the greedy walk from the start, with at
   * most eight stops, over the curated list, within the tour length.
   */
  ghost function CuratedWalk(start: Coord, theme: string, budget: int, allPois: seq<PoiRecord>, dist: Distance): seq<PoiStop> {
    GreedyRun(start, RouteCandidates(false, [], allPois, theme, CreateMaxStops), budget, CreateMaxStops, dist).stops
  }

  /** A new tour's route: the curated walk, at most eight stops from the start, within the tour length. */
  method CuratedRoute(start: Coord, theme: string, budget: int, allPois: seq<PoiRecord>, dist: Distance)
    returns (route: Route)
    ensures fresh(route) && route.Valid() && route.currentStopIndex == 0
    ensures route.stops == CuratedWalk(start, theme, budget, allPois, dist)
    ensures |route.stops| <= CreateMaxStops && DistinctIds(route.stops)
    ensures route.stops != [] ==> RouteMinutes(start, route.stops, dist) <= budget as real
  {
    route := GenerateRoute(start, theme, budget, CreateMaxStops, None, false, [], allPois, dist);
  }

  /** `get_tour`: the session's view, or 404 for an unknown id. */
  function GetTour(manager: TourManager, id: string): (r: Response<TourView>)
    reads manager, manager.tours.Values, set t | t in manager.tours.Values :: t.route
    ensures r.Failure? <==> id !in manager.tours
    ensures r.Failure? ==> r == Failure(404, TourNotFound)
    ensures r.Ok? ==> r.body == manager.tours[id].ToDict()
  {
    match manager.GetTour(id)
    case None => Failure(404, TourNotFound)
    case Some(tour) => Ok(tour.ToDict())
  }

  /** A newly created tour can be fetched, and shows its start and its first stop. */
  lemma CreatedTourIsFound(manager: TourManager, id: string, tour: TourSession)
    requires id in manager.tours && manager.tours[id] == tour
    ensures GetTour(manager, id).Ok?
    ensures GetTour(manager, id).body.currentLocation == tour.currentLocation
    ensures GetTour(manager, id).body.currentStop.Some? <==> 0 <= tour.route.currentStopIndex < |tour.route.stops|
  {
  }

  datatype ProximityInfo = ProximityInfo(nearPoi: bool, poiId: string, poiName: string, shouldTransition: bool)

  /** That walking directions between these two points were asked for; their content is not modelled. */
  datatype Directions = DirectionsFor(origin: Coord, destination: Coord)

  datatype LocationBody = LocationBody(currentLocation: Coord, proximity: Option<ProximityInfo>, directions: Option<Directions>)

  /** The radius within which an update counts as arrival. */
  const ArrivalMeters: real := 50.0

  /**
   * `update_location`: records the position, then, when the route has a
   * current stop, reports either arrival there (within 50 m, with whether the
   * tour should move on from `traveling`) or directions to it; never both.
   */
  method UpdateLocation(manager: TourManager, id: string, lat: real, lng: real, dist: Distance)
    returns (response: Response<LocationBody>)
    requires manager.Valid()
    modifies (if id in manager.tours then {manager.tours[id]} else {})`currentLocation
    ensures manager.tours == old(manager.tours) && manager.Valid()
    ensures response.Failure? <==> id !in manager.tours
    ensures response.Failure? ==> response == Failure(404, TourNotFound)
    ensures response.Ok? ==>
      var tour, here, body := manager.tours[id], (lat, lng), response.body;
      && tour.currentLocation == Some(here) && body.currentLocation == here
      && (tour.route.CurrentStop().None? ==> body.proximity.None? && body.directions.None?)
      && (tour.route.CurrentStop().Some? ==>
            var stop := tour.route.CurrentStop().value;
            && (body.proximity.Some? <==> dist(here, stop.coordinates) <= ArrivalMeters)
            && (body.proximity.Some? <==> body.directions.None?)
            && (body.proximity.Some? ==>
                  body.proximity.value == ProximityInfo(true, stop.id, stop.name, tour.status == Traveling))
            && (body.directions.Some? ==> body.directions.value == DirectionsFor(here, stop.coordinates)))
  {
    var tour := manager.UpdateLocation(id, lat, lng);
    if tour == null {
      return Failure(404, TourNotFound);
    }
    var here := (lat, lng);
    var proximity: Option<ProximityInfo> := None;
    var directions: Option<Directions> := None;
    var current := tour.route.CurrentStop();
    if current.Some? {
      var stop := current.value;
      if CheckPoiProximity(here, stop.coordinates, ArrivalMeters, dist) {
        proximity := Some(ProximityInfo(true, stop.id, stop.name, tour.status.Value() == "traveling"));
      } else {
        directions := Some(DirectionsFor(here, stop.coordinates));
      }
    }
    response := Ok(LocationBody(here, proximity, directions));
  }

  datatype TransitionBody = TransitionBody(previousStatus: string, newStatus: string, tour: TourView)

  /**
   * `transition_state`: 404 for an unknown id, 400 for a string that is no
   * status or a move the table forbids (status unchanged). On success the
   * reported previous status is read after the move, so it always equals the
   * new one.
   */
  method TransitionState(manager: TourManager, id: string, newStatus: string)
    returns (response: Response<TransitionBody>)
    requires manager.Valid()
    modifies (if id in manager.tours then {manager.tours[id]} else {})`status
    ensures manager.tours == old(manager.tours) && manager.Valid()
    ensures id !in manager.tours ==> response == Failure(404, TourNotFound)
    ensures id in manager.tours ==>
      var tour, target := manager.tours[id], ParseStatus(newStatus);
      && (target.None? ==>
            tour.status == old(tour.status) && response == Failure(400, NotAStatus(newStatus)))
      && (target.Some? && !CanTransition(old(tour.status), target.value) ==>
            && tour.status == old(tour.status)
            && response == Failure(400, DisallowedTransition(InvalidTransition(old(tour.status), target.value))))
      && (target.Some? && CanTransition(old(tour.status), target.value) ==>
            && tour.status == target.value
            && response == Ok(TransitionBody(target.value.Value(), target.value.Value(), tour.ToDict())))
    ensures response.Ok? ==> response.body.previousStatus == response.body.newStatus
  {
    match manager.GetTour(id)
    case None =>
      response := Failure(404, TourNotFound);
    case Some(tour) =>
      match ParseStatus(newStatus)
      case None =>
        response := Failure(400, NotAStatus(newStatus));
      case Some(target) =>
        var error := tour.TransitionTo(target);
        if error.Some? {
          response := Failure(400, DisallowedTransition(error.value));
        } else {
          response := Ok(TransitionBody(tour.status.Value(), target.Value(), tour.ToDict()));
        }
  }

  /**
   * Every move the table allows changes the status, so the previous status
   * `transition_state` reports after a move is never the one the tour had:
   * starting a tour (initial to traveling) reports "traveling" as previous.
   */
  lemma ReportedPreviousIsNotPrevious(from: TourStatus, to: TourStatus)
    requires CanTransition(from, to)
    ensures to.Value() != from.Value()
    ensures from == Initial ==> to.Value() == "traveling"
  {
    TransitionTable(from, to);
  }

  /**
   * `transition_state` with the previous status read before the move, as its
   * answer's field name promises; otherwise the same as `TransitionState`.
   */
  method TransitionStateReportingPrevious(manager: TourManager, id: string, newStatus: string)
    returns (response: Response<TransitionBody>)
    requires manager.Valid()
    modifies (if id in manager.tours then {manager.tours[id]} else {})`status
    ensures manager.tours == old(manager.tours) && manager.Valid()
    ensures id !in manager.tours ==> response == Failure(404, TourNotFound)
    ensures id in manager.tours ==>
      var tour, target := manager.tours[id], ParseStatus(newStatus);
      && (target.None? ==>
            tour.status == old(tour.status) && response == Failure(400, NotAStatus(newStatus)))
      && (target.Some? && !CanTransition(old(tour.status), target.value) ==>
            && tour.status == old(tour.status)
            && response == Failure(400, DisallowedTransition(InvalidTransition(old(tour.status), target.value))))
      && (target.Some? && CanTransition(old(tour.status), target.value) ==>
            && tour.status == target.value
            && response == Ok(TransitionBody(old(tour.status).Value(), target.value.Value(), tour.ToDict())))
    ensures response.Ok? ==> response.body.previousStatus != response.body.newStatus
  {
    match manager.GetTour(id)
    case None =>
      response := Failure(404, TourNotFound);
    case Some(tour) =>
      match ParseStatus(newStatus)
      case None =>
        response := Failure(400, NotAStatus(newStatus));
      case Some(target) =>
        var previous := tour.status;
        var error := tour.TransitionTo(target);
        if error.Some? {
          response := Failure(400, DisallowedTransition(error.value));
        } else {
          ReportedPreviousIsNotPrevious(previous, target);
          response := Ok(TransitionBody(previous.Value(), target.Value(), tour.ToDict()));
        }
  }

  datatype AdvanceBody =
    | Advanced(currentStopIndex: int, currentStop: Option<string>, isLastStop: bool)
    | AlreadyAtLastStop

  /**
   * `advance_stop`: 404 for an unknown id; otherwise it moves to the next
   * stop when there is one and reports it, with whether it is the last, or
   * reports that the tour is already at its last stop and changes nothing.
   */
  method AdvanceStop(manager: TourManager, id: string) returns (response: Response<AdvanceBody>)
    requires manager.Valid()
    modifies (if id in manager.tours then {manager.tours[id].route} else {})`currentStopIndex
    ensures manager.tours == old(manager.tours) && manager.Valid()
    ensures id !in manager.tours ==> response == Failure(404, TourNotFound)
    ensures id in manager.tours ==>
      var route := manager.tours[id].route;
      && response.Ok?
      && (response.body == AlreadyAtLastStop <==> old(route.currentStopIndex) >= |route.stops| - 1)
      && (response.body == AlreadyAtLastStop ==> route.currentStopIndex == old(route.currentStopIndex))
      && (response.body.Advanced? ==>
            && route.currentStopIndex == old(route.currentStopIndex) + 1
            && response.body == Advanced(route.currentStopIndex, Some(route.stops[route.currentStopIndex].name),
                                         route.currentStopIndex == |route.stops| - 1))
  {
    match manager.GetTour(id)
    case None =>
      response := Failure(404, TourNotFound);
    case Some(tour) =>
      var route := tour.route;
      var advanced := route.Advance();
      if advanced {
        var current := route.CurrentStop();
        var name := if current.Some? then Some(current.value.name) else None;
        response := Ok(Advanced(route.currentStopIndex, name, route.NextStop().None?));
      } else {
        response := Ok(AlreadyAtLastStop);
      }
  }

  /** The POI listing; `missing` marks the answer given when the POI file is absent. */
  datatype PoisBody = PoisBody(pois: seq<PoiRecord>, count: int, missing: bool)

  /**
   * `get_pois` over the POI file's contents (`None` when the file is absent):
   * the POIs tagged with the theme when a non-empty theme is given, all of
   * them otherwise, with their count.
   */
  function GetPois(theme: Option<string>, file: Option<seq<PoiRecord>>): (b: PoisBody)
    ensures b.count == |b.pois|
    ensures file.None? ==> b == PoisBody([], 0, true)
    ensures file.Some? ==> !b.missing
    ensures file.Some? && (theme.None? || theme.value == "") ==> b.pois == file.value
    ensures file.Some? && theme.Some? && theme.value != "" ==>
      && b.pois == FilterByTheme(file.value, theme.value)
      && IsSubsequence(b.pois, file.value)
      && forall p :: p in b.pois <==> p in file.value && theme.value in p.themes
  {
    match file
    case None => PoisBody([], 0, true)
    case Some(pois) =>
      var shown := if theme.Some? && theme.value != "" then FilterByTheme(pois, theme.value) else pois;
      PoisBody(shown, |shown|, false)
  }

  datatype DeleteBody = Deleted

  /** `delete_tour`: removes the session, or answers 404 when there was none; other sessions stay. */
  method DeleteTour(manager: TourManager, id: string) returns (response: Response<DeleteBody>)
    requires manager.Valid()
    modifies manager`tours
    ensures manager.Valid()
    ensures manager.tours == old(manager.tours) - {id}
    ensures response.Ok? <==> id in old(manager.tours)
    ensures response.Failure? ==> response == Failure(404, TourNotFound)
    ensures GetTour(manager, id) == Failure(404, TourNotFound)
  {
    var deleted := manager.DeleteTour(id);
    response := if deleted then Ok(Deleted) else Failure(404, TourNotFound);
  }
}
