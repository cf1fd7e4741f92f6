/**
 * The wire types and API paths shared by the services, and the URLs built by
 * substituting a flight number or an airport code into a path template.
 */
module Protocol {
  import opened Wrappers
  import opened Text

  /** `FlightResponse`: times are UTC seconds; the arrival time may be unknown. */
  datatype FlightResponse = FlightResponse(
    flightNumber: string,
    aircraftNumber: string,
    departure: string,
    arrival: string,
    departureTime: int,
    arrivalTime: Option<int>)

  /** `FlightPositionResponse`. */
  datatype FlightPositionResponse = FlightPositionResponse(
    flightNumber: string,
    latitude: real,
    longitude: real,
    timestamp: int)

  /** The protocol's route templates, each written as prefix, slot and suffix. */
  const FlightNumberSlot: string := "{flight_number}"
  const AirportCodeSlot: string := "{airport_code}"
  const PositionSuffix: string := "/position"
  const FlightsApiPath: string := "/api/v1/flights"
  const FlightsPositionApiPath: string := FlightsApiPath + "/" + FlightNumberSlot + PositionSuffix
  const BabelApiPath: string := "/api/v1/babel"
  const BabelAirportApiPath: string := BabelApiPath + "/" + AirportCodeSlot
  const BabelPositionApiPath: string := BabelApiPath + "/" + FlightNumberSlot + PositionSuffix

  /** The flight-controller position URL: the number fills the `{flight_number}` slot, whatever it contains. */
  function FlightPositionUrl(base: string, flightNumber: string): (url: string)
    ensures url == base + FlightsApiPath + "/" + flightNumber + PositionSuffix
  {
    ReplaceOnce(FlightsApiPath + "/", FlightNumberSlot, PositionSuffix, flightNumber);
    base + Replace(FlightsPositionApiPath, FlightNumberSlot, flightNumber)
  }

  /** The babel airport URL: the code fills the `{airport_code}` slot. */
  function BabelAirportUrl(base: string, airportCode: string): (url: string)
    ensures url == base + BabelApiPath + "/" + airportCode
  {
    assert BabelAirportApiPath + [] == BabelAirportApiPath;
    ReplaceOnce(BabelApiPath + "/", AirportCodeSlot, [], airportCode);
    base + Replace(BabelAirportApiPath, AirportCodeSlot, airportCode)
  }

  /** The babel position URL: the number fills the `{flight_number}` slot. */
  function BabelPositionUrl(base: string, flightNumber: string): (url: string)
    ensures url == base + BabelApiPath + "/" + flightNumber + PositionSuffix
  {
    ReplaceOnce(BabelApiPath + "/", FlightNumberSlot, PositionSuffix, flightNumber);
    base + Replace(BabelPositionApiPath, FlightNumberSlot, flightNumber)
  }

  /** Different flight numbers give different position URLs on the same base. */
  lemma FlightPositionUrlInjective(base: string, m: string, n: string)
    requires FlightPositionUrl(base, m) == FlightPositionUrl(base, n)
    ensures m == n
  {
    var u := FlightPositionUrl(base, m);
    var k := |base| + |FlightsApiPath + "/"|;
    assert |m| == |n|;
    assert u[k..k + |m|] == m;
    assert FlightPositionUrl(base, n)[k..k + |n|] == n;
  }
}

/**
 * tower-of-babel's `BabelService`: it asks the flight controller for an
 * airport's departures, keeps the flights that have not yet arrived and
 * classifies the reply, and it forwards position lookups.
 */
module TowerOfBabel {
  import opened Wrappers
  import opened Lists
  import opened Http
  import opened Protocol

  datatype BabelServiceError =
    | HttpError(message: string)
    | ParseError(message: string)
    | ServiceUnavailable(message: string)
    | NotFound(message: string)
    | NoFutureFlights(airportCode: string)

  /** A flight is still to come when its arrival time is unknown or strictly after `now`. */
  predicate Upcoming(f: FlightResponse, now: int)
  {
    f.arrivalTime.None? || f.arrivalTime.value > now
  }

  /** The `filter` over the decoded flights: the upcoming ones, in their order. */
  function FutureFlights(flights: seq<FlightResponse>, now: int): (r: seq<FlightResponse>)
    ensures |r| <= |flights|
    ensures forall f :: f in r <==> f in flights && Upcoming(f, now)
  {
    Filter(flights, f => Upcoming(f, now))
  }

  /** When every flight is still to come, nothing is dropped. */
  lemma FutureFlightsKeepsAll(flights: seq<FlightResponse>, now: int)
    requires forall f :: f in flights ==> Upcoming(f, now)
    ensures FutureFlights(flights, now) == flights
  {
    FilterKeepsAll(flights, f => Upcoming(f, now));
  }

  /** A later clock keeps no more flights, and keeps only flights kept before. */
  lemma FutureFlightsLater(flights: seq<FlightResponse>, now: int, later: int)
    requires now <= later
    ensures |FutureFlights(flights, later)| <= |FutureFlights(flights, now)|
    ensures forall f :: f in FutureFlights(flights, later) ==> f in FutureFlights(flights, now)
  {
    FilterStricter(flights, f => Upcoming(f, later), f => Upcoming(f, now));
  }

  /**
   * `list_flights_by_airport`, given the flight controller's reply to
   * `?departure=<code>` and the clock read after it arrived.
   */
  function ListFlightsByAirport(airportCode: string, now: int, reply: Reply<seq<FlightResponse>>)
    : (r: Result<seq<FlightResponse>, BabelServiceError>)
    ensures reply.Failed? ==> r == Err(HttpError(reply.message))
    ensures r.Ok? <==>
              reply.Received? && Success(reply.status) && reply.decoded.Ok? &&
              exists f :: f in reply.decoded.value && Upcoming(f, now)
    ensures r.Ok? ==> r.value == FutureFlights(reply.decoded.value, now) && r.value != []
    ensures r == Err(NoFutureFlights(airportCode)) <==>
              reply.Received? && Success(reply.status) && reply.decoded.Ok? &&
              forall f :: f in reply.decoded.value ==> !Upcoming(f, now)
    ensures reply.Received? && Success(reply.status) && reply.decoded.Err? ==>
              r == Err(ParseError(reply.decoded.error))
    ensures reply.Received? && reply.status == 404 ==>
              r == Err(NotFound("No flights found for airport " + airportCode))
    ensures reply.Received? && !Success(reply.status) && reply.status != 404 ==>
              r == Err(ServiceUnavailable("Flight controller returned an error: " + reply.text))
  {
    match reply
    case Failed(e) => Err(HttpError(e))
    case Received(status, text, decoded) =>
      if Success(status) then
        match decoded
        case Err(e) => Err(ParseError(e))
        case Ok(all) =>
          var future := FutureFlights(all, now);
          assert forall f :: f in all && Upcoming(f, now) ==> f in future;
          assert future != [] ==> future[0] in future;
          if future == [] then Err(NoFutureFlights(airportCode)) else Ok(future)
      else if status == 404 then Err(NotFound("No flights found for airport " + airportCode))
      else Err(ServiceUnavailable("Flight controller returned an error: " + text))
  }

  /** `get_flight_position`, given the reply from the position URL. */
  function GetFlightPosition(flightNumber: string, reply: Reply<FlightPositionResponse>)
    : (r: Result<FlightPositionResponse, BabelServiceError>)
    ensures reply.Failed? ==> r == Err(HttpError(reply.message))
    ensures r.Ok? <==> reply.Received? && Success(reply.status) && reply.decoded.Ok?
    ensures r.Ok? ==> r.value == reply.decoded.value
    ensures reply.Received? && Success(reply.status) && reply.decoded.Err? ==>
              r == Err(ParseError(reply.decoded.error))
    ensures reply.Received? && reply.status == 404 ==>
              r == Err(NotFound("Flight not found: " + flightNumber))
    ensures reply.Received? && !Success(reply.status) && reply.status != 404 ==>
              r == Err(ServiceUnavailable("Flight controller returned an error: " + reply.text))
  {
    match reply
    case Failed(e) => Err(HttpError(e))
    case Received(status, text, decoded) =>
      if Success(status) then
        match decoded
        case Err(e) => Err(ParseError(e))
        case Ok(p) => Ok(p)
      else if status == 404 then Err(NotFound("Flight not found: " + flightNumber))
      else Err(ServiceUnavailable("Flight controller returned an error: " + text))
  }

  /** The error kind tells the reply apart: each kind comes from exactly one class of reply. */
  lemma ListFlightsErrorKinds(airportCode: string, now: int, reply: Reply<seq<FlightResponse>>)
    ensures var r := ListFlightsByAirport(airportCode, now, reply);
            (r.Err? && r.error.HttpError? <==> reply.Failed?) &&
            (r.Err? && r.error.NotFound? <==> reply.Received? && reply.status == 404) &&
            (r.Err? && r.error.ServiceUnavailable? <==>
               reply.Received? && !Success(reply.status) && reply.status != 404) &&
            (r.Err? && (r.error.ParseError? || r.error.NoFutureFlights?) ==>
               reply.Received? && Success(reply.status))
  {
  }
}

/**
 * sky-nexus's client of tower-of-babel: the reply to an airport or position
 * request is classified by its exact status and, for a 404, by its body.
 */
module NexusBabel {
  import opened Wrappers
  import opened Http
  import opened Text
  import opened Protocol

  /** Why `Network` was raised: the request failed, or the reply carried an error status. */
  datatype NetworkFailure = SendFailed(message: string) | StatusFailed(status: int)

  datatype BabelServiceError =
    | Network(failure: NetworkFailure)
    | NotFound(message: string)
    | NoFutureFlights(airportCode: string)
    | ParseError(message: string)

  /**
   * What a call does: return a result, or panic. `unwrap_err` on the
   * `error_for_status` of a reply whose status is not an error status panics.
   */
  datatype Outcome<T> = Returned(result: Result<T, BabelServiceError>) | Panicked

  /** `StatusCode::is_client_error() || is_server_error()`: the statuses `error_for_status` turns into an error. */
  predicate ErrorStatus(status: int)
  {
    400 <= status < 600
  }

  /** `BABEL_SERVICE_BASE_URL`, or the local default when it is unset. */
  function BaseUrl(env: Option<string>): (url: string)
    ensures env.Some? ==> url == env.value
    ensures env.None? ==> url == "http://localhost:3003"
  {
    match env
    case Some(v) => v
    case None => "http://localhost:3003"
  }

  /** The 404 body says that the airport has no future flights, in prose or as the error code. */
  predicate SaysNoFutureFlights(body: string)
  {
    Contains(body, "No future flights") || Contains(body, "NO_FUTURE_FLIGHTS")
  }

  /** `fetch_flights_by_airport` exactly as written, including the panic of the catch-all arm. */
  function FetchFlightsByAirportAsWritten(airportCode: string, reply: Reply<seq<FlightResponse>>)
    : (r: Outcome<seq<FlightResponse>>)
    ensures r.Panicked? <==> reply.Received? && reply.status != 200 && reply.status != 404 && !ErrorStatus(reply.status)
  {
    match reply
    case Failed(e) => Returned(Err(Network(SendFailed(e))))
    case Received(status, text, decoded) =>
      if status == 200 then
        match decoded
        case Err(e) => Returned(Err(ParseError("JSON parse error: " + e)))
        case Ok(flights) => Returned(Ok(flights))
      else if status == 404 then
        if SaysNoFutureFlights(text) then Returned(Err(NoFutureFlights(airportCode)))
        else Returned(Err(NotFound("Airport " + airportCode + " not found or no data available")))
      else if ErrorStatus(status) then Returned(Err(Network(StatusFailed(status))))
      else Panicked
  }

  /** A 204 reply makes the as-written client panic instead of reporting an error. */
  lemma NoContentPanics(airportCode: string, text: string, decoded: Result<seq<FlightResponse>, string>)
    ensures FetchFlightsByAirportAsWritten(airportCode, Received(204, text, decoded)) == Panicked
  {
  }

  /**
   * `fetch_flights_by_airport` with the catch-all arm reporting `Network` for
   * every status other than 200 and 404, which is what the arm is for.
   */
  function FetchFlightsByAirport(airportCode: string, reply: Reply<seq<FlightResponse>>)
    : (r: Result<seq<FlightResponse>, BabelServiceError>)
    ensures reply.Failed? ==> r == Err(Network(SendFailed(reply.message)))
    ensures r.Ok? <==> reply.Received? && reply.status == 200 && reply.decoded.Ok?
    ensures r.Ok? ==> r.value == reply.decoded.value
    ensures reply.Received? && reply.status == 200 && reply.decoded.Err? ==>
              r == Err(ParseError("JSON parse error: " + reply.decoded.error))
    ensures r == Err(NoFutureFlights(airportCode)) <==>
              reply.Received? && reply.status == 404 && SaysNoFutureFlights(reply.text)
    ensures reply.Received? && reply.status == 404 && !SaysNoFutureFlights(reply.text) ==>
              r == Err(NotFound("Airport " + airportCode + " not found or no data available"))
    ensures reply.Received? && reply.status != 200 && reply.status != 404 ==>
              r == Err(Network(StatusFailed(reply.status)))
  {
    match reply
    case Failed(e) => Err(Network(SendFailed(e)))
    case Received(status, text, decoded) =>
      if status == 200 then
        match decoded
        case Err(e) => Err(ParseError("JSON parse error: " + e))
        case Ok(flights) => Ok(flights)
      else if status == 404 then
        if SaysNoFutureFlights(text) then Err(NoFutureFlights(airportCode))
        else Err(NotFound("Airport " + airportCode + " not found or no data available"))
      else Err(Network(StatusFailed(status)))
  }

  /** Wherever the as-written client does not panic, the corrected one returns the same result. */
  lemma FetchFlightsAgrees(airportCode: string, reply: Reply<seq<FlightResponse>>)
    requires FetchFlightsByAirportAsWritten(airportCode, reply).Returned?
    ensures FetchFlightsByAirportAsWritten(airportCode, reply).result == FetchFlightsByAirport(airportCode, reply)
  {
  }

  /** A 2xx status other than 200 is not a success here: the flights are not read. */
  lemma OnlyExactOkSucceeds(airportCode: string, reply: Reply<seq<FlightResponse>>)
    requires reply.Received? && Success(reply.status) && reply.status != 200
    ensures FetchFlightsByAirport(airportCode, reply).Err?
  {
  }

  /** `fetch_flight_position` exactly as written. */
  function FetchFlightPositionAsWritten(flightNumber: string, reply: Reply<FlightPositionResponse>)
    : (r: Outcome<FlightPositionResponse>)
    ensures r.Panicked? <==> reply.Received? && reply.status != 200 && reply.status != 404 && !ErrorStatus(reply.status)
  {
    match reply
    case Failed(e) => Returned(Err(Network(SendFailed(e))))
    case Received(status, _, decoded) =>
      if status == 200 then
        match decoded
        case Err(e) => Returned(Err(ParseError("JSON parse error: " + e)))
        case Ok(p) => Returned(Ok(p))
      else if status == 404 then
        Returned(Err(NotFound("Flight " + flightNumber + " not found or not currently in flight")))
      else if ErrorStatus(status) then Returned(Err(Network(StatusFailed(status))))
      else Panicked
  }

  /** `fetch_flight_position` with `Network` for every status other than 200 and 404. */
  function FetchFlightPosition(flightNumber: string, reply: Reply<FlightPositionResponse>)
    : (r: Result<FlightPositionResponse, BabelServiceError>)
    ensures reply.Failed? ==> r == Err(Network(SendFailed(reply.message)))
    ensures r.Ok? <==> reply.Received? && reply.status == 200 && reply.decoded.Ok?
    ensures r.Ok? ==> r.value == reply.decoded.value
    ensures reply.Received? && reply.status == 200 && reply.decoded.Err? ==>
              r == Err(ParseError("JSON parse error: " + reply.decoded.error))
    ensures reply.Received? && reply.status == 404 ==>
              r == Err(NotFound("Flight " + flightNumber + " not found or not currently in flight"))
    ensures reply.Received? && reply.status != 200 && reply.status != 404 ==>
              r == Err(Network(StatusFailed(reply.status)))
  {
    match reply
    case Failed(e) => Err(Network(SendFailed(e)))
    case Received(status, _, decoded) =>
      if status == 200 then
        match decoded
        case Err(e) => Err(ParseError("JSON parse error: " + e))
        case Ok(p) => Ok(p)
      else if status == 404 then
        Err(NotFound("Flight " + flightNumber + " not found or not currently in flight"))
      else Err(Network(StatusFailed(status)))
  }

  /** Wherever the as-written position client does not panic, the corrected one returns the same result. */
  lemma FetchPositionAgrees(flightNumber: string, reply: Reply<FlightPositionResponse>)
    requires FetchFlightPositionAsWritten(flightNumber, reply).Returned?
    ensures FetchFlightPositionAsWritten(flightNumber, reply).result == FetchFlightPosition(flightNumber, reply)
  {
  }

  /** The body written for tower-of-babel's no-future-flights 404 carries its error code, so it is recognised. */
  lemma ErrorCodeBodyIsRecognised(before: string, after: string)
    ensures SaysNoFutureFlights(before + "NO_FUTURE_FLIGHTS" + after)
  {
    var s := before + "NO_FUTURE_FLIGHTS" + after;
    assert s[|before|..|before| + 17] == "NO_FUTURE_FLIGHTS";
    assert OccursAt(s, "NO_FUTURE_FLIGHTS", |before|);
  }
}
