/**
 * delay-orama's `DelayService`: it fetches an airport's flights from
 * tower-of-babel, pairs each with its position, looks up the airport's own
 * position, and merges the outcomes into what the delay page shows, with at
 * most one error message.
 */
module DelayService {
  import opened Wrappers
  import opened Http
  import opened Text
  import opened Protocol

  datatype DelayServiceError =
    | HttpError(message: string)
    | ParseError(message: string)
    | ServiceUnavailable(message: string)
    | AirportNotFound(airportCode: string)

  /** The part of an `AirportResponse` the delay service reads. */
  datatype AirportEntry = AirportEntry(name: string, latitude: real, longitude: real)

  /** A flight with what its position lookup gave. */
  type FlightWithPosition = (FlightResponse, Option<FlightPositionResponse>)

  /** The flights URL is tower-of-babel's airport route. */
  lemma FlightsUrlIsBabelRoute(base: string, airportCode: string)
    ensures base + BabelApiPath + "/" + airportCode == BabelAirportUrl(base, airportCode)
  {
  }

  /** The position URL is tower-of-babel's position route. */
  lemma PositionUrlIsBabelRoute(base: string, flightNumber: string)
    ensures base + BabelApiPath + "/" + flightNumber + "/position" == BabelPositionUrl(base, flightNumber)
  {
  }

  // ---------------------------------------------------------------------------
  // The three fetchers, given the replies

  /**
   * `get_airport_position`: the first search hit's coordinates, `None` for no
   * hit, and `AirportNotFound` for any non-success status.
   */
  function GetAirportPosition(airportCode: string, reply: Reply<seq<AirportEntry>>)
    : (r: Result<Option<(real, real)>, DelayServiceError>)
    ensures reply.Failed? ==> r == Err(HttpError(reply.message))
    ensures r == Ok(None) <==> reply.Received? && Success(reply.status) && reply.decoded == Ok([])
    ensures r.Ok? && r.value.Some? <==>
              reply.Received? && Success(reply.status) && reply.decoded.Ok? && reply.decoded.value != []
    ensures r.Ok? && r.value.Some? ==>
              r.value.value == (reply.decoded.value[0].latitude, reply.decoded.value[0].longitude)
    ensures reply.Received? && Success(reply.status) && reply.decoded.Err? ==> r == Err(ParseError(reply.decoded.error))
    ensures r == Err(AirportNotFound(airportCode)) <==> reply.Received? && !Success(reply.status)
  {
    match reply
    case Failed(e) => Err(HttpError(e))
    case Received(status, _, decoded) =>
      if Success(status) then
        match decoded
        case Err(e) => Err(ParseError(e))
        case Ok(airports) =>
          if airports == [] then Ok(None) else Ok(Some((airports[0].latitude, airports[0].longitude)))
      else Err(AirportNotFound(airportCode))
  }

  /** `get_flights_by_airport`: a non-success status is no flights, not an error. */
  function GetFlightsByAirport(reply: Reply<seq<FlightResponse>>): (r: Result<seq<FlightResponse>, DelayServiceError>)
    ensures reply.Failed? ==> r == Err(HttpError(reply.message))
    ensures reply.Received? && !Success(reply.status) ==> r == Ok([])
    ensures reply.Received? && Success(reply.status) && reply.decoded.Ok? ==> r == Ok(reply.decoded.value)
    ensures r.Err? <==> reply.Failed? || (Success(reply.status) && reply.decoded.Err?)
  {
    match reply
    case Failed(e) => Err(HttpError(e))
    case Received(status, _, decoded) =>
      if Success(status) then
        match decoded
        case Err(e) => Err(ParseError(e))
        case Ok(flights) => Ok(flights)
      else Ok([])
  }

  /** `get_flight_position`: a non-success status is no position, not an error. */
  function GetFlightPosition(reply: Reply<FlightPositionResponse>)
    : (r: Result<Option<FlightPositionResponse>, DelayServiceError>)
    ensures reply.Failed? ==> r == Err(HttpError(reply.message))
    ensures reply.Received? && !Success(reply.status) ==> r == Ok(None)
    ensures r.Ok? && r.value.Some? <==> reply.Received? && Success(reply.status) && reply.decoded.Ok?
    ensures r.Ok? && r.value.Some? ==> r.value.value == reply.decoded.value
    ensures r.Err? <==> reply.Failed? || (Success(reply.status) && reply.decoded.Err?)
  {
    match reply
    case Failed(e) => Err(HttpError(e))
    case Received(status, _, decoded) =>
      if Success(status) then
        match decoded
        case Err(e) => Err(ParseError(e))
        case Ok(p) => Ok(Some(p))
      else Ok(None)
  }

  // ---------------------------------------------------------------------------
  // Pairing flights with positions

  /** Every position lookup of the first `n` flights succeeded. */
  predicate LookupsSucceed(flights: seq<FlightResponse>, n: int, positions: string -> Reply<FlightPositionResponse>)
    requires 0 <= n <= |flights|
  {
    forall i :: 0 <= i < n ==> GetFlightPosition(positions(flights[i].flightNumber)).Ok?
  }

  /**
   * `get_flights_with_positions`: the flights fetch, then one position lookup
   * per flight in order; the first failure of either ends the call with that
   * failure. `positions` is the reply for each flight number.
   */
  method GetFlightsWithPositions(flightsReply: Reply<seq<FlightResponse>>,
                                 positions: string -> Reply<FlightPositionResponse>)
    returns (r: Result<seq<FlightWithPosition>, DelayServiceError>)
    ensures GetFlightsByAirport(flightsReply).Err? ==> r == Err(GetFlightsByAirport(flightsReply).error)
    ensures GetFlightsByAirport(flightsReply).Ok? ==>
              var flights := GetFlightsByAirport(flightsReply).value;
              (r.Ok? <==> LookupsSucceed(flights, |flights|, positions)) &&
              (r.Ok? ==> |r.value| == |flights| &&
                         forall i :: 0 <= i < |flights| ==>
                           r.value[i] == (flights[i], GetFlightPosition(positions(flights[i].flightNumber)).value)) &&
              (r.Err? ==> exists k :: 0 <= k < |flights| && LookupsSucceed(flights, k, positions) &&
                                      GetFlightPosition(positions(flights[k].flightNumber)) == Err(r.error))
  {
    var fetched := GetFlightsByAirport(flightsReply);
    if fetched.Err? {
      return Err(fetched.error);
    }
    var flights := fetched.value;
    var paired: seq<FlightWithPosition> := [];
    var i := 0;
    while i < |flights|
      invariant 0 <= i <= |flights|
      invariant LookupsSucceed(flights, i, positions)
      invariant |paired| == i
      invariant forall j :: 0 <= j < i ==>
                  paired[j] == (flights[j], GetFlightPosition(positions(flights[j].flightNumber)).value)
    {
      var position := GetFlightPosition(positions(flights[i].flightNumber));
      if position.Err? {
        return Err(position.error);
      }
      paired := paired + [(flights[i], position.value)];
      i := i + 1;
    }
    return Ok(paired);
  }

  // ---------------------------------------------------------------------------
  // Merging

  /**
   * `get_airport_delays_with_errors`, once both fetches are done: a flights
   * failure empties the list and sets the flight message; an unknown airport
   * sets the airport message only if no message is set yet; every position
   * failure leaves the position out. `describe` renders an error with `{:?}`.
   */
  method MergeDelays(airportCode: string,
                     flightsResult: Result<seq<FlightWithPosition>, DelayServiceError>,
                     positionResult: Result<Option<(real, real)>, DelayServiceError>,
                     describe: DelayServiceError -> string)
    returns (flights: seq<FlightWithPosition>, position: Option<(real, real)>, errorMessage: Option<string>)
    ensures flightsResult.Ok? ==> flights == flightsResult.value
    ensures flightsResult.Err? ==>
              flights == [] &&
              errorMessage == Some("Failed to fetch flight information: " + describe(flightsResult.error))
    ensures position == (if positionResult.Ok? then positionResult.value else None)
    ensures errorMessage.None? <==>
              flightsResult.Ok? && !(positionResult.Err? && positionResult.error.AirportNotFound?)
    ensures flightsResult.Ok? && positionResult.Err? && positionResult.error.AirportNotFound? ==>
              errorMessage == Some("Airport '" + airportCode + "' not found. Please check the airport code.")
  {
    errorMessage := None;
    match flightsResult {
      case Ok(fs) =>
        flights := fs;
      case Err(e) =>
        errorMessage := Some("Failed to fetch flight information: " + describe(e));
        flights := [];
    }
    match positionResult {
      case Ok(pos) =>
        position := pos;
      case Err(AirportNotFound(_)) =>
        if errorMessage.None? {
          errorMessage := Some("Airport '" + airportCode + "' not found. Please check the airport code.");
        }
        position := None;
      case Err(_) =>
        position := None;
    }
  }

  /** The flights fetch and every position lookup after it succeed. */
  predicate PairingSucceeds(flightsReply: Reply<seq<FlightResponse>>, positions: string -> Reply<FlightPositionResponse>)
  {
    var fetched := GetFlightsByAirport(flightsReply);
    fetched.Ok? && LookupsSucceed(fetched.value, |fetched.value|, positions)
  }

  /**
   * The whole of `get_airport_delays_with_errors`: both fetches, then the
   * merge. The flights are the fetched flights paired with their positions,
   * or nothing with the flight message naming the first failure; a failed
   * airport lookup never hides the flights; the airport message appears only
   * for a non-success status and only without a flight message; an HTTP or
   * parse failure of the airport search never produces a message.
   */
  method GetAirportDelaysWithErrors(airportCode: string,
                                    flightsReply: Reply<seq<FlightResponse>>,
                                    positions: string -> Reply<FlightPositionResponse>,
                                    airportReply: Reply<seq<AirportEntry>>,
                                    describe: DelayServiceError -> string)
    returns (flights: seq<FlightWithPosition>, position: Option<(real, real)>, errorMessage: Option<string>)
    ensures PairingSucceeds(flightsReply, positions) ==>
              var fetched := GetFlightsByAirport(flightsReply).value;
              && |flights| == |fetched|
              && forall i :: 0 <= i < |flights| ==>
                   flights[i] == (fetched[i], GetFlightPosition(positions(fetched[i].flightNumber)).value)
    ensures GetFlightsByAirport(flightsReply).Err? ==>
              && flights == []
              && errorMessage == Some("Failed to fetch flight information: " + describe(GetFlightsByAirport(flightsReply).error))
    ensures GetFlightsByAirport(flightsReply).Ok? && !PairingSucceeds(flightsReply, positions) ==>
              var fetched := GetFlightsByAirport(flightsReply).value;
              && flights == []
              && exists k :: 0 <= k < |fetched| && LookupsSucceed(fetched, k, positions) &&
                   var lookup := GetFlightPosition(positions(fetched[k].flightNumber));
                   lookup.Err? && errorMessage == Some("Failed to fetch flight information: " + describe(lookup.error))
    ensures position.Some? <==>
              airportReply.Received? && Success(airportReply.status) &&
              airportReply.decoded.Ok? && airportReply.decoded.value != []
    ensures position.Some? ==>
              position.value == (airportReply.decoded.value[0].latitude, airportReply.decoded.value[0].longitude)
    ensures errorMessage == Some("Airport '" + airportCode + "' not found. Please check the airport code.") <==>
              PairingSucceeds(flightsReply, positions) && airportReply.Received? && !Success(airportReply.status)
    ensures errorMessage.None? <==>
              PairingSucceeds(flightsReply, positions) && !(airportReply.Received? && !Success(airportReply.status))
  {
    var flightsResult := GetFlightsWithPositions(flightsReply, positions);
    var positionResult := GetAirportPosition(airportCode, airportReply);
    flights, position, errorMessage := MergeDelays(airportCode, flightsResult, positionResult, describe);
    if flightsResult.Err? {
      var flightMessage := "Failed to fetch flight information: " + describe(flightsResult.error);
      assert flightMessage[0] == 'F';
      assert flightMessage != "Airport '" + airportCode + "' not found. Please check the airport code.";
    }
  }

  // ---------------------------------------------------------------------------
  // The delay status of the table

  /** `(now - departure).num_minutes()` for a departure in the past: the whole minutes elapsed. */
  function MinutesSince(departure: int, now: int): (n: nat)
    requires now > departure
    ensures 60 * n <= now - departure < 60 * (n + 1)
  {
    (now - departure) / 60
  }

  /** `calculate_delay_status`: the label and the CSS class of a flight's row at time `now`. */
  function DelayStatus(flight: FlightResponse, now: int): (r: (string, string))
    ensures r.1 == "delay-status delayed" <==> now > flight.departureTime
    ensures r.1 == "delay-status on-time" <==> now <= flight.departureTime
    ensures r.0 == "On Time" <==> now <= flight.departureTime
    ensures now > flight.departureTime ==>
              r.0 == "Delayed (" + Decimal(MinutesSince(flight.departureTime, now)) + " min)"
  {
    if now > flight.departureTime then
      ("Delayed (" + Decimal(MinutesSince(flight.departureTime, now)) + " min)", "delay-status delayed")
    else ("On Time", "delay-status on-time")
  }

  /** The minutes shown never go down as the clock advances. */
  lemma DelayGrows(flight: FlightResponse, now: int, later: int)
    requires flight.departureTime < now <= later
    ensures MinutesSince(flight.departureTime, now) <= MinutesSince(flight.departureTime, later)
  {
  }
}
