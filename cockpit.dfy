/** The cockpit front end's flight and airport records (crates/cockpit/src/models/mod.rs). */
module CockpitModels {
  import opened Wrappers

  /** A `(latitude, longitude)` pair. */
  datatype Position = Position(lat: real, lon: real)

  datatype Airport = Airport(code: string, position: Position)

  datatype Flight = Flight(flightNumber: string, departure: Airport, arrival: Airport, position: Option<Position>)

  /** `Airport::new`. */
  function NewAirport(code: string, position: Position): (r: Airport)
    ensures r.code == code && r.position == position
  {
    Airport(code, position)
  }

  /** `Flight::new`. */
  function NewFlight(flightNumber: string, departure: Airport, arrival: Airport, position: Option<Position>): (r: Flight)
    ensures r.flightNumber == flightNumber && r.departure == departure && r.arrival == arrival
    ensures r.position == position
  {
    Flight(flightNumber, departure, arrival, position)
  }

  /** `Flight::with_position`: the builder that sets the position. */
  function WithPosition(f: Flight, position: Position): (r: Flight)
    ensures r.position == Some(position)
    ensures r.flightNumber == f.flightNumber && r.departure == f.departure && r.arrival == f.arrival
  {
    f.(position := Some(position))
  }

  /** Of two `with_position` calls the last one wins, and a flight built without a position gets exactly that one. */
  lemma WithPositionLastWins(f: Flight, p: Position, q: Position)
    ensures WithPosition(WithPosition(f, p), q) == WithPosition(f, q)
    ensures WithPosition(NewFlight(f.flightNumber, f.departure, f.arrival, None), q) ==
            NewFlight(f.flightNumber, f.departure, f.arrival, Some(q))
  {
  }
}

/**
 * The cockpit's data services (crates/cockpit/src/services/mod.rs): how the
 * replies of the flight-controller and airport services are classified, and
 * the join that builds the snapshot the flight map draws. Every HTTP call is a
 * parameter: a function from its argument to the reply it gets.
 */
module CockpitServices {
  import opened Wrappers
  import opened Http
  import opened CockpitModels

  /** The fields of `FlightResponse` the cockpit reads. */
  datatype FlightResponse = FlightResponse(flightNumber: string, departure: string, arrival: string)

  /** `FlightPositionResponse` (its latitude and longitude). */
  datatype PositionBody = PositionBody(latitude: real, longitude: real)

  /** One entry of `SearchAirportsResponse.airports`. */
  datatype AirportHit = AirportHit(code: string, latitude: real, longitude: real)

  // ---------------------------------------------------------------------------
  // Reply classification

  /**
   * `FlightService::get_flight_position`: a decoded 2xx reply gives the
   * position; a body that does not decode, any other status and a network
   * failure all give `Ok(None)`.
   */
  function PositionResult(reply: Reply<PositionBody>): (r: Result<Option<Position>, string>)
    ensures r.Ok?
    ensures r.value.Some? <==> reply.Received? && Success(reply.status) && reply.decoded.Ok?
    ensures r.value.Some? ==>
              r.value.value == Position(reply.decoded.value.latitude, reply.decoded.value.longitude)
  {
    match reply
    case Failed(_) => Ok(None)
    case Received(status, _, decoded) =>
      if !Success(status) then Ok(None)
      else if decoded.Err? then Ok(None)
      else Ok(Some(Position(decoded.value.latitude, decoded.value.longitude)))
  }

  /**
   * `AirportService::search_by_code`: the first hit of a decoded 2xx reply, or
   * `Ok(None)` for no hits or any other status; a body that does not decode
   * and a network failure are errors.
   */
  function SearchResult(code: string, reply: Reply<seq<AirportHit>>): (r: Result<Option<Airport>, string>)
    ensures r.Err? <==> reply.Failed? || (Success(reply.status) && reply.decoded.Err?)
    ensures r.Ok? && r.value.Some? <==> reply.Received? && Success(reply.status) && reply.decoded.Ok? && |reply.decoded.value| > 0
    ensures r.Ok? && r.value.Some? ==>
              var hit := reply.decoded.value[0];
              r.value.value == Airport(hit.code, Position(hit.latitude, hit.longitude))
  {
    match reply
    case Failed(e) => Err("Network error searching for airport " + code + ": " + e)
    case Received(status, _, decoded) =>
      if !Success(status) then Ok(None)
      else match decoded
        case Err(e) => Err("Failed to parse airport search: " + e)
        case Ok(airports) =>
          if |airports| > 0 then
            Ok(Some(NewAirport(airports[0].code, Position(airports[0].latitude, airports[0].longitude))))
          else Ok(None)
  }

  // ---------------------------------------------------------------------------
  // The join

  /** Every departure and arrival code mentioned by the responses. */
  function AirportCodes(responses: seq<FlightResponse>): (codes: set<string>)
    ensures forall c :: c in codes <==>
              exists i :: 0 <= i < |responses| && (responses[i].departure == c || responses[i].arrival == c)
  {
    (set r | r in responses :: r.departure) + (set r | r in responses :: r.arrival)
  }

  /** The airport map after the fetch loop: the codes whose search gave `Ok(Some(_))`. */
  function Resolved(codes: set<string>, search: string -> Result<Option<Airport>, string>): (airports: map<string, Airport>)
    ensures forall c :: c in airports <==> c in codes && search(c).Ok? && search(c).value.Some?
    ensures forall c :: c in airports ==> search(c) == Ok(Some(airports[c]))
  {
    map c | c in codes && search(c).Ok? && search(c).value.Some? :: search(c).value.value
  }

  /** Both airports of the response were resolved. */
  predicate BothResolved(r: FlightResponse, airports: map<string, Airport>)
  {
    r.departure in airports && r.arrival in airports
  }

  /** The flight built for a response whose airports are resolved, with the position when its lookup gave one. */
  function ToFlight(r: FlightResponse, airports: map<string, Airport>,
                    position: string -> Result<Option<Position>, string>): Flight
    requires BothResolved(r, airports)
  {
    var f := NewFlight(r.flightNumber, airports[r.departure], airports[r.arrival], None);
    if position(r.flightNumber).Ok? && position(r.flightNumber).value.Some? then
      f.(position := position(r.flightNumber).value)
    else f
  }

  /** The flights loop of `get_flights_with_data`, as a function of the responses seen so far. */
  function JoinFlights(responses: seq<FlightResponse>, airports: map<string, Airport>,
                       position: string -> Result<Option<Position>, string>): seq<Flight>
    decreases |responses|
  {
    if responses == [] then []
    else
      var last := responses[|responses| - 1];
      JoinFlights(responses[..|responses| - 1], airports, position) +
      (if BothResolved(last, airports) then [ToFlight(last, airports, position)] else [])
  }

  /** The indices of the responses whose airports are both resolved, in order. */
  function KeptIndices(responses: seq<FlightResponse>, airports: map<string, Airport>): seq<nat>
    decreases |responses|
  {
    if responses == [] then []
    else
      var k := |responses| - 1;
      KeptIndices(responses[..k], airports) + (if BothResolved(responses[k], airports) then [k] else [])
  }

  /**
   * The output flights are exactly the responses whose departure and arrival
   * both resolved, in response order: the k-th output is built from the
   * response at the k-th kept index, the kept indices increase, and an index
   * is kept iff both its airports resolved.
   */
  lemma {:induction false} JoinFlightsKeepsResolved(responses: seq<FlightResponse>, airports: map<string, Airport>,
                                                    position: string -> Result<Option<Position>, string>)
    ensures var out, idx := JoinFlights(responses, airports, position), KeptIndices(responses, airports);
      && |out| == |idx|
      && (forall k :: 0 <= k < |idx| ==>
            idx[k] < |responses| && BothResolved(responses[idx[k]], airports) &&
            out[k] == ToFlight(responses[idx[k]], airports, position))
      && (forall k, l :: 0 <= k < l < |idx| ==> idx[k] < idx[l])
      && (forall i :: 0 <= i < |responses| && BothResolved(responses[i], airports) ==> i in idx)
    decreases |responses|
  {
    if responses != [] {
      var k := |responses| - 1;
      var prefix := responses[..k];
      JoinFlightsKeepsResolved(prefix, airports, position);
      var out, idx := JoinFlights(responses, airports, position), KeptIndices(responses, airports);
      var pout, pidx := JoinFlights(prefix, airports, position), KeptIndices(prefix, airports);
      var kept := BothResolved(responses[k], airports);
      assert out == pout + (if kept then [ToFlight(responses[k], airports, position)] else []);
      assert idx == pidx + (if kept then [k] else []);
      assert forall j :: 0 <= j < |pidx| ==> pidx[j] < k;
      forall j | 0 <= j < |idx|
        ensures idx[j] < |responses| && BothResolved(responses[idx[j]], airports)
        ensures out[j] == ToFlight(responses[idx[j]], airports, position)
      {
        if j < |pidx| {
          assert idx[j] == pidx[j] && out[j] == pout[j];
          assert prefix[pidx[j]] == responses[pidx[j]];
        }
      }
      forall i | 0 <= i < |responses| && BothResolved(responses[i], airports) ensures i in idx
      {
        if i < k {
          assert prefix[i] == responses[i];
          assert i in pidx;
        }
      }
    }
  }

  /**
   * Each output flight carries its response's flight number and resolved
   * airports, and has a position exactly when the position lookup gave one.
   */
  lemma ToFlightFields(r: FlightResponse, airports: map<string, Airport>,
                       position: string -> Result<Option<Position>, string>)
    requires BothResolved(r, airports)
    ensures var f := ToFlight(r, airports, position);
      && f.flightNumber == r.flightNumber
      && f.departure == airports[r.departure]
      && f.arrival == airports[r.arrival]
      && (f.position.Some? <==> position(r.flightNumber).Ok? && position(r.flightNumber).value.Some?)
      && (f.position.Some? ==> position(r.flightNumber) == Ok(f.position))
  {
  }

  /** The fetch loop (services/mod.rs:156-160): walks the code set in any order. */
  method FetchAirports(codes: set<string>, search: string -> Result<Option<Airport>, string>)
    returns (airportMap: map<string, Airport>)
    ensures airportMap == Resolved(codes, search)
  {
    airportMap := map[];
    var remaining := codes;
    while remaining != {}
      invariant remaining <= codes
      invariant airportMap == Resolved(codes - remaining, search)
      decreases |remaining|
    {
      var code :| code in remaining;
      var found := search(code);
      if found.Ok? && found.value.Some? {
        airportMap := airportMap[code := found.value.value];
      }
      remaining := remaining - {code};
    }
    assert codes - remaining == codes;
  }

  /** The flights loop (services/mod.rs:163-185). */
  method BuildFlights(responses: seq<FlightResponse>, airportMap: map<string, Airport>,
                      position: string -> Result<Option<Position>, string>)
    returns (out: seq<Flight>)
    ensures out == JoinFlights(responses, airportMap, position)
  {
    out := [];
    var i := 0;
    while i < |responses|
      invariant 0 <= i <= |responses|
      invariant out == JoinFlights(responses[..i], airportMap, position)
    {
      var response := responses[i];
      assert responses[..i + 1][..i] == responses[..i];
      if response.departure in airportMap && response.arrival in airportMap {
        var flight := NewFlight(response.flightNumber, airportMap[response.departure], airportMap[response.arrival], None);
        var found := position(response.flightNumber);
        if found.Ok? && found.value.Some? {
          flight := flight.(position := found.value);
        }
        out := out + [flight];
      }
      i := i + 1;
    }
    assert responses[..i] == responses;
  }

  /** `airport_map.into_values().collect()`: every value once, in hash-map order. */
  method Values(airportMap: map<string, Airport>) returns (airports: seq<Airport>)
    ensures |airports| == |airportMap|
    ensures forall a :: a in airports <==> a in airportMap.Values
  {
    airports := [];
    var left := airportMap.Keys;
    ghost var taken: set<string> := {};
    while left != {}
      invariant left <= airportMap.Keys && taken == airportMap.Keys - left
      invariant |airports| == |taken|
      invariant forall a :: a in airports <==> exists c :: c in taken && airportMap[c] == a
      decreases |left|
    {
      var code :| code in left;
      airports := airports + [airportMap[code]];
      left := left - {code};
      taken := taken + {code};
    }
    assert taken == airportMap.Keys;
  }

  /**
   * `DataService::get_flights_with_data`: `flights` is what `get_flights`
   * returned, `search` and `position` are `search_by_code` and
   * `get_flight_position`. A failed flight list is returned as is; otherwise
   * the flights of the join and every resolved airport once.
   */
  method GetFlightsWithData(flights: Result<seq<FlightResponse>, string>,
                            search: string -> Result<Option<Airport>, string>,
                            position: string -> Result<Option<Position>, string>)
    returns (r: Result<(seq<Flight>, seq<Airport>), string>)
    ensures flights.Err? ==> r == Err(flights.error)
    ensures flights.Ok? ==> r.Ok?
    ensures flights.Ok? ==>
              var resolved := Resolved(AirportCodes(flights.value), search);
              && r.value.0 == JoinFlights(flights.value, resolved, position)
              && |r.value.1| == |resolved|
              && (forall a :: a in r.value.1 <==> a in resolved.Values)
  {
    if flights.Err? {
      return Err(flights.error);
    }
    var codes := AirportCodes(flights.value);
    var airportMap := FetchAirports(codes, search);
    var out := BuildFlights(flights.value, airportMap, position);
    var airports := Values(airportMap);
    r := Ok((out, airports));
  }
}
