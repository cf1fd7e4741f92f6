/**
 * The flight record of the flight-controller service
 * (crates/flight-controller/src/models/mod.rs): the arrival-time default and
 * the filter that `list_flights` applies. Times are whole seconds since the
 * Unix epoch, in UTC.
 */
module FlightControllerModels {
  import opened Wrappers
  import opened Text
  import opened CivilDate

  datatype Flight = Flight(
    flightNumber: string,
    aircraftNumber: string,
    departure: string,
    arrival: string,
    departureTime: int,
    arrivalTime: Option<int>)

  /** Two hours, the flight time assumed when no arrival is scheduled. */
  const DefaultFlightTime: int := 2 * 60 * 60

  /** `Flight::get_arrival_time`: the scheduled arrival, or two hours after departure. */
  function ArrivalTime(f: Flight): (t: int)
    ensures f.arrivalTime.Some? ==> t == f.arrivalTime.value
    ensures f.arrivalTime.None? ==> t == f.departureTime + 7200
  {
    match f.arrivalTime
    case Some(a) => a
    case None => f.departureTime + DefaultFlightTime
  }

  /**
   * `Flight::matches_filters` (models/mod.rs:47-60): each filter that is present
   * must hold; airport codes are compared ignoring ASCII case, and the date
   * compares UTC calendar days.
   */
  predicate MatchesFilters(f: Flight, departure: Option<string>, arrival: Option<string>, date: Option<int>)
  {
    var matchesDeparture := departure.None? || EqIgnoreAsciiCase(f.departure, departure.value);
    var matchesArrival := arrival.None? || EqIgnoreAsciiCase(f.arrival, arrival.value);
    var matchesDate := date.None? || UtcDay(f.departureTime) == UtcDay(date.value);
    matchesDeparture && matchesArrival && matchesDate
  }

  /**
   * The filter in terms of lowercased codes: a flight passes iff each present
   * code filter equals its code after ASCII lowercasing of both, and a present
   * date falls on its departure day. With no filters every flight passes.
   */
  lemma MatchesFiltersMeaning(f: Flight, departure: Option<string>, arrival: Option<string>, date: Option<int>)
    ensures MatchesFilters(f, departure, arrival, date) <==>
      && (departure.Some? ==> AsciiLower(f.departure) == AsciiLower(departure.value))
      && (arrival.Some? ==> AsciiLower(f.arrival) == AsciiLower(arrival.value))
      && (date.Some? ==> UtcDay(f.departureTime) == UtcDay(date.value))
  {
    if departure.Some? {
      EqIgnoreAsciiCaseIff(f.departure, departure.value);
    }
    if arrival.Some? {
      EqIgnoreAsciiCaseIff(f.arrival, arrival.value);
    }
  }

  /** Adding a filter never lets a flight through that was filtered out before. */
  lemma FiltersOnlyNarrow(f: Flight, departure: Option<string>, arrival: Option<string>, date: Option<int>)
    ensures MatchesFilters(f, departure, arrival, date) ==> MatchesFilters(f, None, arrival, date)
    ensures MatchesFilters(f, departure, arrival, date) ==> MatchesFilters(f, departure, None, date)
    ensures MatchesFilters(f, departure, arrival, date) ==> MatchesFilters(f, departure, arrival, None)
    ensures MatchesFilters(f, None, None, None)
  {
  }

  /** A flight from "FRA" passes the departure filter "fra" and fails "CDG". */
  lemma DepartureFilterIgnoresCase(f: Flight)
    requires f.departure == "FRA"
    ensures MatchesFilters(f, Some("fra"), None, None)
    ensures !MatchesFilters(f, Some("CDG"), None, None)
  {
    assert AsciiLowerChar('F') == 'f' && AsciiLowerChar('R') == 'r' && AsciiLowerChar('A') == 'a';
    assert AsciiLowerChar(f.departure[0]) != AsciiLowerChar("CDG"[0]);
  }
}

/**
 * The in-memory flight registries of the flight-controller service: the
 * current one (crates/flight-controller/src/services/mod.rs) and the older one
 * (crates/flight-controller/src/flight_service.rs). Both number a new flight
 * after the departure code and the count of stored flights; the current one
 * uppercases the code and compares filter codes ignoring case, the older one
 * keeps the code as given and compares exactly.
 */
module FlightControllerServices {
  import opened Wrappers
  import opened Text
  import opened FlightControllerModels
  import opened Tables
  import opened CivilDate

  /** `CreateFlightRequest`: everything of a flight except its number. */
  datatype CreateFlightRequest = CreateFlightRequest(
    aircraftNumber: string,
    departure: string,
    arrival: string,
    departureTime: int,
    arrivalTime: Option<int>)

  /** The flight a request describes, under the given number. */
  function FromRequest(number: string, request: CreateFlightRequest): (f: Flight)
    ensures f.flightNumber == number && f.aircraftNumber == request.aircraftNumber
    ensures f.departure == request.departure && f.arrival == request.arrival
    ensures f.departureTime == request.departureTime && f.arrivalTime == request.arrivalTime
  {
    Flight(number, request.aircraftNumber, request.departure, request.arrival,
           request.departureTime, request.arrivalTime)
  }

  /** A fifth digit appears with the 10000th flight; until then serials 1..count are four digits. */
  const SerialDigitsLimit: nat := 9999

  /** The serial a number ends with: the value of its last four characters when they are digits, else -1. */
  function SerialOf(number: string): (v: int)
    ensures v >= -1
  {
    if |number| < 4 then -1
    else
      var tail := number[|number| - 4..];
      if forall i :: 0 <= i < |tail| ==> '0' <= tail[i] <= '9' then DigitsValue(tail) else -1
  }

  /** A number generated for serial `n` below 10000 carries `n` as its serial, whatever its prefix. */
  lemma SerialOfGenerated(prefix: string, n: nat)
    requires n < 10_000
    ensures SerialOf(prefix + Pad4(n)) == n
  {
    var number := prefix + Pad4(n);
    assert number[|number| - 4..] == Pad4(n);
  }

  /**
   * How numbers come about: every stored number ends with the four-digit
   * serial it was given, between 1 and the number of stored flights, and
   * holds the flight under its own number.
   */
  ghost predicate Numbered(flights: map<string, Flight>)
  {
    forall k :: k in flights ==> 1 <= SerialOf(k) <= |flights| && flights[k].flightNumber == k
  }

  /** The registry invariant: the numbering holds until a fifth serial digit could appear. */
  ghost predicate Registered(flights: map<string, Flight>)
  {
    |flights| >= SerialDigitsLimit || Numbered(flights)
  }

  /**
   * While fewer than 9999 flights are stored, the next number (any prefix
   * followed by the padded count + 1) is not yet taken.
   */
  lemma NextNumberIsFresh(flights: map<string, Flight>, prefix: string)
    requires Numbered(flights)
    requires |flights| < SerialDigitsLimit
    ensures prefix + Pad4(|flights| + 1) !in flights
  {
    SerialOfGenerated(prefix, |flights| + 1);
  }

  /** Storing the next flight under a fresh next number keeps the numbering intact. */
  lemma NumberedAfterInsert(flights: map<string, Flight>, prefix: string, f: Flight)
    requires Numbered(flights) && |flights| < SerialDigitsLimit
    requires prefix + Pad4(|flights| + 1) !in flights
    requires f.flightNumber == prefix + Pad4(|flights| + 1)
    ensures Numbered(flights[f.flightNumber := f])
  {
    var flights' := flights[f.flightNumber := f];
    assert |flights'| == |flights| + 1;
    SerialOfGenerated(prefix, |flights| + 1);
    forall k | k in flights'
      ensures 1 <= SerialOf(k) <= |flights'| && flights'[k].flightNumber == k
    {
      if k != f.flightNumber {
        assert k in flights;
      }
    }
  }

  /**
   * A `create_flight` step on the numbering: the next number is fresh while
   * fewer than 9999 flights are stored, and the registry invariant survives.
   */
  lemma CreateKeepsNumbering(flights: map<string, Flight>, prefix: string, f: Flight)
    requires Registered(flights)
    requires f.flightNumber == prefix + Pad4(|flights| + 1)
    ensures |flights| < SerialDigitsLimit ==> f.flightNumber !in flights && |flights[f.flightNumber := f]| == |flights| + 1
    ensures Registered(flights[f.flightNumber := f])
  {
    if |flights| < SerialDigitsLimit {
      NextNumberIsFresh(flights, prefix);
      NumberedAfterInsert(flights, prefix, f);
    } else {
      assert flights.Keys <= flights[f.flightNumber := f].Keys;
      assert |flights.Keys| <= |flights[f.flightNumber := f].Keys| by {
        SubsetCardinality(flights.Keys, flights[f.flightNumber := f].Keys);
      }
    }
  }

  lemma SubsetCardinality(a: set<string>, b: set<string>)
    requires a <= b
    ensures |a| <= |b|
  {
    assert b == a + (b - a);
  }

  /** `FlightService` of services/mod.rs: the flight table behind a lock. */
  class FlightService {
    var flights: map<string, Flight>

    ghost predicate Valid()
      reads this
    {
      Registered(flights)
    }

    /** `FlightService::new` (services/mod.rs:20-29): no flights. */
    constructor ()
      ensures Valid() && flights == map[]
    {
      flights := map[];
    }

    /**
     * `generate_flight_number` (services/mod.rs:211-216): the departure code in
     * upper case followed by the number of stored flights plus one, padded to
     * four digits.
     */
    method GenerateFlightNumber(departure: string) returns (number: string)
      ensures number == AsciiUpper(departure) + Pad4(|flights| + 1)
    {
      number := AsciiUpper(departure) + Pad4(|flights| + 1);
    }

    /**
     * `create_flight` (services/mod.rs:37-58): always `Ok`, with the request's
     * fields under the generated number, which is stored. While fewer than
     * 9999 flights are stored the number is new, so the table grows by one.
     */
    method CreateFlight(request: CreateFlightRequest) returns (r: Result<Flight, string>)
      requires Valid()
      modifies this
      ensures Valid()
      ensures r.Ok?
      ensures r.value == FromRequest(AsciiUpper(request.departure) + Pad4(old(|flights|) + 1), request)
      ensures flights == old(flights)[r.value.flightNumber := r.value]
      ensures old(|flights|) < SerialDigitsLimit ==>
                r.value.flightNumber !in old(flights) && |flights| == old(|flights|) + 1
    {
      var number := GenerateFlightNumber(request.departure);
      var flight := FromRequest(number, request);
      CreateKeepsNumbering(flights, AsciiUpper(request.departure), flight);
      flights := flights[flight.flightNumber := flight];
      r := Ok(flight);
    }

    /** `get_flight` (services/mod.rs:63-74): the stored flight, or `None` for an unknown number. */
    method GetFlight(flightNumber: string) returns (r: Option<Flight>)
      ensures flightNumber in flights ==> r == Some(flights[flightNumber])
      ensures flightNumber !in flights ==> r == None
    {
      r := if flightNumber in flights then Some(flights[flightNumber]) else None;
    }

    /**
     * `list_flights` (services/mod.rs:82-103): exactly the stored flights that
     * pass `matches_filters`, each once.
     */
    method ListFlights(departure: Option<string>, arrival: Option<string>, date: Option<int>)
      returns (out: seq<Flight>)
      ensures forall f :: f in out ==> f in flights.Values && MatchesFilters(f, departure, arrival, date)
      ensures forall k :: k in flights && MatchesFilters(flights[k], departure, arrival, date) ==> flights[k] in out
      ensures |out| == |set k | k in flights && MatchesFilters(flights[k], departure, arrival, date)|
    {
      var keep := f => MatchesFilters(f, departure, arrival, date);
      ghost var keys;
      out, keys := Select(flights, keep);
      assert Kept(flights, keep, flights.Keys) ==
             set k | k in flights && MatchesFilters(flights[k], departure, arrival, date);
    }
  }

  /**
   * The filter of the older `list_flights` (flight_service.rs:53-63): codes
   * must be equal exactly, the date must fall on the departure's UTC day.
   */
  predicate ExactMatch(f: Flight, departure: Option<string>, arrival: Option<string>, date: Option<int>)
  {
    && (departure.None? || f.departure == departure.value)
    && (arrival.None? || f.arrival == arrival.value)
    && (date.None? || UtcDay(f.departureTime) == UtcDay(date.value))
  }

  /**
   * The older filter is the case-sensitive restriction of `matches_filters`:
   * whatever it keeps the current filter keeps, and the two agree when the
   * codes are already in one letter case.
   */
  lemma ExactMatchIsStricter(f: Flight, departure: Option<string>, arrival: Option<string>, date: Option<int>)
    ensures ExactMatch(f, departure, arrival, date) ==> MatchesFilters(f, departure, arrival, date)
    ensures departure.Some? && f.departure != departure.value && AsciiUpper(f.departure) == AsciiUpper(departure.value) ==>
              !ExactMatch(f, departure, arrival, date)
  {
  }

  /** "fra" does not select a flight from "FRA" in the older registry. */
  lemma ExactMatchIsCaseSensitive(f: Flight)
    requires f.departure == "FRA"
    ensures ExactMatch(f, Some("FRA"), None, None)
    ensures !ExactMatch(f, Some("fra"), None, None)
  {
    assert f.departure[0] != "fra"[0];
  }

  /** `FlightService` of flight_service.rs, the older registry. */
  class LegacyFlightService {
    var flights: map<string, Flight>

    ghost predicate Valid()
      reads this
    {
      Registered(flights)
    }

    /** `FlightService::new` (flight_service.rs:14-18). */
    constructor ()
      ensures Valid() && flights == map[]
    {
      flights := map[];
    }

    /**
     * `generate_flight_number` (flight_service.rs:68-72): the departure code
     * as given, then the count of stored flights plus one, padded to four digits.
     */
    method GenerateFlightNumber(departure: string) returns (number: string)
      ensures number == departure + Pad4(|flights| + 1)
    {
      number := departure + Pad4(|flights| + 1);
    }

    /** `create_flight` (flight_service.rs:20-36). */
    method CreateFlight(request: CreateFlightRequest) returns (r: Result<Flight, string>)
      requires Valid()
      modifies this
      ensures Valid()
      ensures r.Ok?
      ensures r.value == FromRequest(request.departure + Pad4(old(|flights|) + 1), request)
      ensures flights == old(flights)[r.value.flightNumber := r.value]
      ensures old(|flights|) < SerialDigitsLimit ==>
                r.value.flightNumber !in old(flights) && |flights| == old(|flights|) + 1
    {
      var number := GenerateFlightNumber(request.departure);
      var flight := FromRequest(number, request);
      CreateKeepsNumbering(flights, request.departure, flight);
      flights := flights[flight.flightNumber := flight];
      r := Ok(flight);
    }

    /** `get_flight` (flight_service.rs:38-41). */
    method GetFlight(flightNumber: string) returns (r: Option<Flight>)
      ensures flightNumber in flights ==> r == Some(flights[flightNumber])
      ensures flightNumber !in flights ==> r == None
    {
      r := if flightNumber in flights then Some(flights[flightNumber]) else None;
    }

    /** `list_flights` (flight_service.rs:43-66): exactly the stored flights passing `ExactMatch`, each once. */
    method ListFlights(departure: Option<string>, arrival: Option<string>, date: Option<int>)
      returns (out: seq<Flight>)
      ensures forall f :: f in out ==> f in flights.Values && ExactMatch(f, departure, arrival, date)
      ensures forall k :: k in flights && ExactMatch(flights[k], departure, arrival, date) ==> flights[k] in out
      ensures |out| == |set k | k in flights && ExactMatch(flights[k], departure, arrival, date)|
    {
      var keep := f => ExactMatch(f, departure, arrival, date);
      ghost var keys;
      out, keys := Select(flights, keep);
      assert Kept(flights, keep, flights.Keys) ==
             set k | k in flights && ExactMatch(flights[k], departure, arrival, date);
    }
  }

  /** The first flight from "fra" in an empty registry is numbered "FRA0001" by the current service. */
  lemma FirstNumberFromFrankfurt()
    ensures AsciiUpper("fra") + Pad4(0 + 1) == "FRA0001"
  {
    assert Decimal(1) == "1";
    assert AsciiUpper("fra") == "FRA";
  }
}
