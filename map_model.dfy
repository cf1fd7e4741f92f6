/**
 * The flight map of the cockpit panel (crates/cockpit/assets/map.js) as values.
 *
 * Leaflet is an abstract drawing surface: every marker or polyline Leaflet
 * creates gets a fresh `Handle` from a counter, `layers` remembers where each
 * handle is drawn, and `attached` is the set of handles currently added to the
 * map. A `Session` is one Leaflet map object together with the `flightMarkers`
 * table that map.js stores on it. The functions below give the effect of one
 * call on that state; the classes in FlightMapJs perform the same steps in place
 * and are proved to end in exactly these states.
 */
module MapModel {
  import opened Wrappers

  /** A `[lat, lon]` pair as Leaflet receives it. */
  datatype Coord = Coord(lat: real, lon: real)

  /** `{code, position}` of a departure or arrival airport. */
  datatype Endpoint = Endpoint(code: string, position: Coord)

  /**
   * One element of `mapData.flights`, already parsed. A flight object lacking
   * its `departure` or `arrival` member has `None` there; reading that
   * member's `position` throws a TypeError in map.js.
   */
  datatype FlightData = FlightData(
    flightNumber: string,
    departure: Option<Endpoint>,
    arrival: Option<Endpoint>,
    position: Option<Coord>)

  /** The parsed payload; `flights` is `None` when the JSON has no `flights` array. */
  datatype MapData = MapData(flights: Option<seq<FlightData>>)

  type Handle = nat

  /** What a Leaflet layer draws: a marker at a point, or a polyline through points. */
  datatype Layer = Marker(latLng: Coord) | Polyline(latLngs: seq<Coord>)

  /** The object map.js stores per flight number. */
  datatype MarkerSet = MarkerSet(
    departureMarker: Handle,
    arrivalMarker: Handle,
    flightPath: Handle,
    aircraftMarker: Option<Handle>)

  /** One Leaflet map object (the surface) and its `flightMarkers` table. */
  datatype Session = Session(
    layers: map<Handle, Layer>,
    attached: set<Handle>,
    nextHandle: nat,
    flightMarkers: map<string, MarkerSet>)

  /** How the body of the `forEach` ended: normally, or by an exception caught outside the loop. */
  datatype Outcome = Completed(session: Session) | Aborted(session: Session)

  /** The exception that the `catch` block of `initialize` logs. */
  datatype InitError = InvalidJson | LeafletNotLoaded | ContainerNotFound | FlightsMissing | MalformedFlight

  /** `FlightMap.maps`: container id to map session. */
  type Registry = map<string, Session>

  /** A map as `L.map` creates it, with an empty `flightMarkers` table. */
  const EmptySession: Session := Session(map[], {}, 0, map[])

  // ---------------------------------------------------------------------------
  // The drawing surface

  /** `L.marker(...)` / `L.polyline(...)`: a new, not yet attached layer. */
  function Alloc(s: Session, layer: Layer): (Session, Handle)
  {
    (s.(layers := s.layers[s.nextHandle := layer], nextHandle := s.nextHandle + 1), s.nextHandle)
  }

  /** `setLatLng` / `setLatLngs` on an existing layer. */
  function Redraw(s: Session, h: Handle, layer: Layer): Session
  {
    s.(layers := s.layers[h := layer])
  }

  /** `layer.addTo(map)`. */
  function Attach(s: Session, h: Handle): Session
  {
    s.(attached := s.attached + {h})
  }

  /** `map.removeLayer(layer)`. */
  function Detach(s: Session, h: Handle): Session
  {
    s.(attached := s.attached - {h})
  }

  /** Every handle a marker set refers to. */
  function Handles(ms: MarkerSet): set<Handle>
  {
    {ms.departureMarker, ms.arrivalMarker, ms.flightPath} +
    (if ms.aircraftMarker.Some? then {ms.aircraftMarker.value} else {})
  }

  // ---------------------------------------------------------------------------
  // Route lines

  /** The line `createFlightMarker` draws: through the aircraft when there is a position. */
  function CreatedPath(dep: Coord, position: Option<Coord>, arr: Coord): (r: seq<Coord>)
    ensures |r| == if position.Some? then 3 else 2
    ensures r[0] == dep && r[|r| - 1] == arr
    ensures position.Some? ==> r[1] == position.value
  {
    if position.Some? then [dep, position.value, arr] else [dep, arr]
  }

  /**
   * The line the update branch leaves behind (map.js:144-147): from the
   * departure to the aircraft, or to the arrival when there is no position.
   */
  function UpdatedPath(dep: Coord, position: Option<Coord>, arr: Coord): (r: seq<Coord>)
    ensures |r| == 2 && r[0] == dep
    ensures r[1] == if position.Some? then position.value else arr
  {
    [dep, if position.Some? then position.value else arr]
  }

  // ---------------------------------------------------------------------------
  // One flight

  /**
   * `createFlightMarker(flight)`: the departure marker, the arrival marker, the
   * aircraft marker when there is a position, then the route line, none of them
   * attached. A missing departure throws before anything is created; a missing
   * arrival throws after the departure marker was created.
   */
  function CreateFlightMarker(s: Session, f: FlightData): (Session, Option<MarkerSet>)
  {
    if f.departure.None? then (s, None)
    else
      var d := f.departure.value.position;
      var (s1, departureMarker) := Alloc(s, Marker(d));
      if f.arrival.None? then (s1, None)
      else
        var a := f.arrival.value.position;
        var (s2, arrivalMarker) := Alloc(s1, Marker(a));
        match f.position
        case Some(p) =>
          var (s3, aircraftMarker) := Alloc(s2, Marker(p));
          var (s4, flightPath) := Alloc(s3, Polyline(CreatedPath(d, f.position, a)));
          (s4, Some(MarkerSet(departureMarker, arrivalMarker, flightPath, Some(aircraftMarker))))
        case None =>
          var (s3, flightPath) := Alloc(s2, Polyline(CreatedPath(d, f.position, a)));
          (s3, Some(MarkerSet(departureMarker, arrivalMarker, flightPath, None)))
  }

  /** The new-flight branch (map.js:148-166): create, attach every layer, store the set. */
  function AddFlight(s: Session, f: FlightData): Outcome
  {
    var (s1, created) := CreateFlightMarker(s, f);
    match created
    case None => Aborted(s1)
    case Some(ms) =>
      var s2 := s1.(attached := s1.attached + Handles(ms));
      Completed(s2.(flightMarkers := s2.flightMarkers[f.flightNumber := ms]))
  }

  /** The four aircraft-marker cases of map.js:114-142, returning the new `aircraftMarker`. */
  function UpdateAircraft(s: Session, dep: Coord, arr: Coord, position: Option<Coord>, ms: MarkerSet): (Session, Option<Handle>)
  {
    match (position, ms.aircraftMarker)
    case (Some(p), Some(h)) =>
      var s1 := Redraw(Redraw(s, h, Marker(p)), ms.flightPath, Polyline([dep, p, arr]));
      (if h in s1.attached then s1 else Attach(s1, h), Some(h))
    case (Some(p), None) =>
      var (s1, h) := Alloc(s, Marker(p));
      (Attach(s1, h), Some(h))
    case (None, Some(h)) =>
      (Detach(s, h), None)
    case (None, None) =>
      (s, None)
  }

  /**
   * The update branch (map.js:108-147): move both endpoint markers, settle the
   * aircraft marker, rewrite the route line. A missing departure throws before
   * anything changes; a missing arrival throws after the departure marker moved.
   */
  function UpdateFlight(s: Session, f: FlightData, ms: MarkerSet): Outcome
  {
    if f.departure.None? then Aborted(s)
    else
      var d := f.departure.value.position;
      var s1 := Redraw(s, ms.departureMarker, Marker(d));
      if f.arrival.None? then Aborted(s1)
      else
        var a := f.arrival.value.position;
        var s2 := Redraw(s1, ms.arrivalMarker, Marker(a));
        var (s3, aircraftMarker) := UpdateAircraft(s2, d, a, f.position, ms);
        var s4 := Redraw(s3, ms.flightPath, Polyline(UpdatedPath(d, f.position, a)));
        Completed(s4.(flightMarkers := s4.flightMarkers[f.flightNumber := ms.(aircraftMarker := aircraftMarker)]))
  }

  /** The body of the `forEach` for one flight. */
  function Step(s: Session, f: FlightData): Outcome
  {
    if f.flightNumber in s.flightMarkers then UpdateFlight(s, f, s.flightMarkers[f.flightNumber])
    else AddFlight(s, f)
  }

  /** `mapData.flights.forEach(...)` inside one `try`: the first exception skips the rest. */
  function Apply(s: Session, flights: seq<FlightData>): Outcome
    decreases |flights|
  {
    if flights == [] then Completed(s)
    else
      match Apply(s, flights[..|flights| - 1])
      case Aborted(t) => Aborted(t)
      case Completed(t) => Step(t, flights[|flights| - 1])
  }

  // ---------------------------------------------------------------------------
  // The registry

  /**
   * `FlightMap.initialize(containerId, mapDataString)` with the JSON already
   * parsed (`None` when `JSON.parse` throws), whether Leaflet is loaded and
   * whether the container element exists. Returns the new registry and the
   * error the `catch` block logs, if any.
   */
  function Initialize(reg: Registry, containerId: string, payload: Option<MapData>,
                      leafletLoaded: bool, containerFound: bool): (Registry, Option<InitError>)
  {
    if payload.None? then (reg, Some(InvalidJson))
    else if !leafletLoaded then (reg, Some(LeafletNotLoaded))
    else if !containerFound then (reg, Some(ContainerNotFound))
    else
      var session := if containerId in reg then reg[containerId] else EmptySession;
      match payload.value.flights
      case None => (reg[containerId := session], Some(FlightsMissing))
      case Some(flights) =>
        match Apply(session, flights)
        case Completed(t) => (reg[containerId := t], None)
        case Aborted(t) => (reg[containerId := t], Some(MalformedFlight))
  }

  /**
   * `FlightMap.cleanup(containerId)`: the registry afterwards, and the map that
   * was dropped from it with every marker and polyline removed.
   */
  function Cleanup(reg: Registry, containerId: string): (Registry, Option<Session>)
  {
    if containerId in reg then (reg - {containerId}, Some(reg[containerId].(attached := {})))
    else (reg, None)
  }

  // ---------------------------------------------------------------------------
  // Well-formedness

  /** The handles of one marker set are pairwise different. */
  ghost predicate Distinct(ms: MarkerSet)
  {
    && ms.departureMarker != ms.arrivalMarker
    && ms.departureMarker != ms.flightPath
    && ms.arrivalMarker != ms.flightPath
    && (ms.aircraftMarker.Some? ==>
          ms.aircraftMarker.value !in {ms.departureMarker, ms.arrivalMarker, ms.flightPath})
  }

  /** Some stored marker set refers to `h`. */
  ghost predicate Owned(fm: map<string, MarkerSet>, h: Handle)
  {
    exists n :: n in fm && h in Handles(fm[n])
  }

  /** Handles come from the counter. */
  ghost predicate HandlesIssued(s: Session)
  {
    forall h :: h in s.layers ==> h < s.nextHandle
  }

  /** Each stored marker set has its own handles, all created and attached. */
  ghost predicate SetsDrawn(s: Session)
  {
    forall n :: n in s.flightMarkers ==>
      Distinct(s.flightMarkers[n]) &&
      Handles(s.flightMarkers[n]) <= s.layers.Keys &&
      Handles(s.flightMarkers[n]) <= s.attached
  }

  /** No two stored marker sets share a handle. */
  ghost predicate SetsDisjoint(s: Session)
  {
    forall n, m :: n in s.flightMarkers && m in s.flightMarkers && n != m ==>
      Handles(s.flightMarkers[n]) !! Handles(s.flightMarkers[m])
  }

  /** Nothing is attached that no stored marker set refers to. */
  ghost predicate NoStrayLayers(s: Session)
  {
    forall h :: h in s.attached ==> Owned(s.flightMarkers, h)
  }

  /** What every call preserves. */
  ghost predicate WF(s: Session)
  {
    HandlesIssued(s) && SetsDrawn(s) && SetsDisjoint(s) && NoStrayLayers(s)
  }
}
