/**
 * How sky-nexus's MCP tools render flights: a date-time as
 * `%Y-%m-%d %H:%M UTC`, and a missing arrival as "TBD".
 */
module McpText {
  import opened Wrappers
  import opened Text
  import opened CivilDate

  /** The error a tool call fails with: `McpError::internal_error(message, data)`, the data as key/value pairs. */
  datatype McpError = InternalError(message: string, data: seq<(string, string)>)

  /** The ` %H:%M UTC` part: the hour and minute of the instant's UTC day. */
  function TimeOfDayText(t: int): string
  {
    var secondOfDay := t % SecondsPerDay;
    " " + Pad2(secondOfDay / 3600) + ":" + Pad2(secondOfDay % 3600 / 60) + " UTC"
  }

  /** `format("%Y-%m-%d %H:%M UTC")` of an instant. */
  function DateTimeText(t: int): (s: string)
    ensures FormatDate(t) <= s
  {
    var date := FormatDate(t);
    var time := TimeOfDayText(t);
    assert (date + time)[..|date|] == date;
    date + time
  }

  /** An arrival time rendered, or "TBD" when there is none. */
  function ArrivalText(arrival: Option<int>): (s: string)
    ensures arrival.None? <==> s == "TBD"
  {
    match arrival
    case Some(t) => DateTimeText(t)
    case None => "TBD"
  }
}

/**
 * The flight tools of sky-nexus's MCP server: `list_flights` filters the
 * flights fetched from tower-of-babel by case-blind substrings of the airport
 * codes and by the departure date, and `search_flights_by_route` is the same
 * call.
 */
module McpFlightTools {
  import opened Wrappers
  import opened Text
  import opened Lists
  import opened CivilDate
  import opened Protocol
  import opened McpText

  datatype ListFlightsToolRequest = ListFlightsToolRequest(
    departure: Option<string>,
    arrival: Option<string>,
    date: Option<string>)

  const NoFlightsText: string := "No flights found matching the criteria."

  /** `a.to_lowercase().contains(&b.to_lowercase())`. */
  predicate ContainsIgnoringCase(a: string, b: string)
  {
    Contains(AsciiLower(a), AsciiLower(b))
  }

  /** The filter closure: every filter that is given holds. */
  predicate MatchesRequest(req: ListFlightsToolRequest, f: FlightResponse)
  {
    && (req.departure.None? || ContainsIgnoringCase(f.departure, req.departure.value))
    && (req.arrival.None? || ContainsIgnoringCase(f.arrival, req.arrival.value))
    && (req.date.None? || FormatDate(f.departureTime) == req.date.value)
  }

  /** A code always matches a filter naming it, in any case. */
  lemma OwnCodeMatches(code: string, filter: string)
    requires EqIgnoreAsciiCase(code, filter)
    ensures ContainsIgnoringCase(code, filter)
  {
    EqIgnoreAsciiCaseIff(code, filter);
    assert OccursAt(AsciiLower(code), AsciiLower(filter), 0);
  }

  /** Filters that agree up to ASCII case select the same flights. */
  lemma FilterCaseIrrelevant(a: string, filter: string, filter2: string)
    requires EqIgnoreAsciiCase(filter, filter2)
    ensures ContainsIgnoringCase(a, filter) <==> ContainsIgnoringCase(a, filter2)
  {
    EqIgnoreAsciiCaseIff(filter, filter2);
  }

  /** A part of a code matches it: "FR" finds "FRA", unlike the flight controller's equality filter. */
  lemma PrefixMatches(code: string, n: nat)
    requires n <= |code|
    ensures ContainsIgnoringCase(code, code[..n])
  {
    assert AsciiLower(code[..n]) == AsciiLower(code)[..n];
    assert OccursAt(AsciiLower(code), AsciiLower(code[..n]), 0);
  }

  /** The date filter written as the date of an instant keeps exactly the flights departing on that UTC day. */
  lemma DateFilterIsSameDay(req: ListFlightsToolRequest, f: FlightResponse, t: int)
    requires req.departure.None? && req.arrival.None? && req.date == Some(FormatDate(t))
    requires 0 <= CivilFromDays(UtcDay(t)).year <= 9999
    requires 0 <= CivilFromDays(UtcDay(f.departureTime)).year <= 9999
    ensures MatchesRequest(req, f) <==> UtcDay(f.departureTime) == UtcDay(t)
  {
    FormatDateIffSameDay(f.departureTime, t);
  }

  /** The text block of one flight. */
  function FlightBlock(f: FlightResponse): string
  {
    "Flight: " + f.flightNumber + "\nAircraft: " + f.aircraftNumber +
    "\nRoute: " + f.departure + " \U{2192} " + f.arrival +
    "\nDeparture: " + DateTimeText(f.departureTime) +
    "\nArrival: " + ArrivalText(f.arrivalTime) + "\n\n"
  }

  /** The blocks of several flights, in order. */
  function FlightBlocks(fs: seq<FlightResponse>): string
  {
    Joined(fs, FlightBlock)
  }

  /**
   * `list_flights`, given what fetching the flights gave: a fetch error is an
   * internal error; otherwise the matching flights are counted and listed,
   * or the fixed no-match text is returned.
   */
  function ListFlights(req: ListFlightsToolRequest, fetched: Result<seq<FlightResponse>, string>)
    : (r: Result<string, McpError>)
    ensures fetched.Err? ==> r == Err(InternalError("Failed to fetch flights", [("error", fetched.error)]))
    ensures fetched.Ok? ==> r.Ok?
    ensures fetched.Ok? ==>
              (r.value == NoFlightsText <==> forall f :: f in fetched.value ==> !MatchesRequest(req, f))
    ensures fetched.Ok? && r.value != NoFlightsText ==>
              var kept := Filter(fetched.value, f => MatchesRequest(req, f));
              r.value == "Found " + Decimal(|kept|) + " flights:\n\n" + FlightBlocks(kept)
  {
    match fetched
    case Err(e) => Err(InternalError("Failed to fetch flights", [("error", e)]))
    case Ok(flights) =>
      var kept := Filter(flights, f => MatchesRequest(req, f));
      assert kept != [] ==> kept[0] in kept;
      if kept == [] then Ok(NoFlightsText)
      else
        assert ("Found " + Decimal(|kept|) + " flights:\n\n" + FlightBlocks(kept))[0] == 'F';
        Ok("Found " + Decimal(|kept|) + " flights:\n\n" + FlightBlocks(kept))
  }

  /** With no filter every fetched flight is listed. */
  lemma NoFilterListsAll(flights: seq<FlightResponse>)
    ensures Filter(flights, f => MatchesRequest(ListFlightsToolRequest(None, None, None), f)) == flights
  {
    FilterKeepsAll(flights, f => MatchesRequest(ListFlightsToolRequest(None, None, None), f));
  }

  /** `search_flights_by_route`: `list_flights` with the same request. */
  function SearchFlightsByRoute(req: ListFlightsToolRequest, fetched: Result<seq<FlightResponse>, string>)
    : (r: Result<string, McpError>)
    ensures r == ListFlights(req, fetched)
  {
    ListFlights(req, fetched)
  }
}

/**
 * The babel tools of sky-nexus's MCP server: the reply of tower-of-babel is
 * classified by the client in `NexusBabel` and rendered as tool text; the
 * pattern search fetches only for a pattern of IATA or ICAO length and lists
 * at most ten flights.
 */
module McpBabelTools {
  import opened Wrappers
  import opened Text
  import opened Protocol
  import opened Http
  import opened McpText
  import opened NexusBabel

  /** At most this many flights are listed by the pattern search. */
  const ListLimit: nat := 10

  /**
   * What a tool call comes to: an answer, or none at all because the babel
   * client it calls panicked on the reply (see `FetchFlightsByAirportAsWritten`).
   */
  datatype ToolOutcome = Answered(result: Result<string, McpError>) | ToolPanicked

  /** A reply status the babel client's catch-all arm panics on: neither 200, 404, nor an error status. */
  predicate PanicStatus<T>(reply: Reply<T>)
  {
    reply.Received? && reply.status != 200 && reply.status != 404 && !ErrorStatus(reply.status)
  }

  const NoFutureFlightsListHint: string :=
    "\nThis could mean:\n- No flights are currently scheduled\n- All scheduled flights have already departed\n- The airport code may be incorrect"

  function NoFutureFlightsListText(code: string): string
  {
    "No future flights found for airport: " + code + NoFutureFlightsListHint
  }

  const AirportNotFoundHint: string :=
    "\nPlease check the airport code and try again.\nExamples of valid codes: JFK, LAX, LHR, CDG, NRT"

  function AirportNotFoundText(message: string): string
  {
    "Airport not found: " + message + AirportNotFoundHint
  }

  const NoFutureFlightsErrorHint: string :=
    "\nAll scheduled flights may have already departed or \nno flights are currently scheduled from this airport."

  function NoFutureFlightsErrorText(airport: string): string
  {
    "No future flights found for airport: " + airport + NoFutureFlightsErrorHint
  }

  const FlightNotFoundHint: string :=
    "\nPlease check the flight number and try again.\nExamples of valid flight numbers: AA123, BA456, LH789"

  function FlightNotFoundText(message: string): string
  {
    "Flight not found: " + message + FlightNotFoundHint
  }

  /** The block of one future flight. */
  function FutureFlightBlock(f: FlightResponse): string
  {
    "Flight: " + f.flightNumber + "\nAircraft: " + f.aircraftNumber +
    "\nRoute: " + f.departure + " \U{2192} " + f.arrival +
    "\nDeparture: " + DateTimeText(f.departureTime) +
    "\nArrival: " + ArrivalText(f.arrivalTime) + "\nStatus: Future Flight\n\n"
  }

  function FutureFlightBlocks(fs: seq<FlightResponse>): string
  {
    Joined(fs, FutureFlightBlock)
  }

  function FutureFlightsHeader(code: string, count: nat): string
  {
    "Found " + Decimal(count) + " future flights for airport " + code + ":\n\n"
  }

  /** The listing `get_flights_by_airport` gives for a non-empty list. */
  function FutureFlightsListing(code: string, flights: seq<FlightResponse>): string
  {
    FutureFlightsHeader(code, |flights|) + FutureFlightBlocks(flights)
  }

  /** The loop of `get_flights_by_airport` that appends one block per flight to the header. */
  method ListFutureFlights(code: string, flights: seq<FlightResponse>) returns (result: string)
    ensures result == FutureFlightsListing(code, flights)
  {
    result := AppendEach(FutureFlightsHeader(code, |flights|), flights, FutureFlightBlock);
  }

  /**
   * `get_flights_by_airport` over the babel client as written: a reply the
   * client panics on leaves the call without an answer. Otherwise the flights
   * are listed; an unknown airport and no future flights are answers, not
   * failures; any other error fails the call. `describe` renders an error
   * with `Display`.
   */
  method GetFlightsByAirport(code: string, reply: Reply<seq<FlightResponse>>,
                             describe: BabelServiceError -> string)
    returns (r: ToolOutcome)
    ensures r.ToolPanicked? <==> PanicStatus(reply)
    ensures r.Answered? ==>
              var fetched := FetchFlightsByAirport(code, reply);
              && (fetched == Ok([]) ==> r.result == Ok(NoFutureFlightsListText(code)))
              && (fetched.Ok? && fetched.value != [] ==> r.result == Ok(FutureFlightsListing(code, fetched.value)))
              && (fetched.Err? && fetched.error.NotFound? ==> r.result == Ok(AirportNotFoundText(fetched.error.message)))
              && (fetched.Err? && fetched.error.NoFutureFlights? ==>
                    r.result == Ok(NoFutureFlightsErrorText(fetched.error.airportCode)))
    ensures r.Answered? ==>
              var fetched := FetchFlightsByAirport(code, reply);
              && (r.result.Err? <==> fetched.Err? && (fetched.error.Network? || fetched.error.ParseError?))
              && (r.result.Err? ==> r.result.error == InternalError("Failed to fetch flights",
                                                                    [("error", describe(fetched.error)), ("airport_code", code)]))
  {
    var outcome := FetchFlightsByAirportAsWritten(code, reply);
    if outcome.Panicked? {
      return ToolPanicked;
    }
    FetchFlightsAgrees(code, reply);
    match outcome.result {
      case Ok(flights) =>
        if flights == [] {
          return Answered(Ok(NoFutureFlightsListText(code)));
        }
        var listing := ListFutureFlights(code, flights);
        return Answered(Ok(listing));
      case Err(NotFound(message)) =>
        return Answered(Ok(AirportNotFoundText(message)));
      case Err(NoFutureFlights(airport)) =>
        return Answered(Ok(NoFutureFlightsErrorText(airport)));
      case Err(e) =>
        return Answered(Err(InternalError("Failed to fetch flights", [("error", describe(e)), ("airport_code", code)])));
    }
  }

  /**
   * `get_flight_position` over the babel client as written: no answer when
   * the client panics; otherwise the rendered position, an unknown flight as
   * an answer, and any other error failing the call. `render` writes the
   * position text, whose floating-point formatting is not modelled.
   */
  function GetFlightPosition(flightNumber: string, reply: Reply<FlightPositionResponse>,
                             render: FlightPositionResponse -> string,
                             describe: BabelServiceError -> string)
    : (r: ToolOutcome)
    ensures r.ToolPanicked? <==> PanicStatus(reply)
    ensures r.Answered? ==>
              var fetched := FetchFlightPosition(flightNumber, reply);
              && (fetched.Ok? ==> r.result == Ok(render(fetched.value)))
              && (fetched.Err? && fetched.error.NotFound? ==> r.result == Ok(FlightNotFoundText(fetched.error.message)))
              && (r.result.Err? <==> fetched.Err? && !fetched.error.NotFound?)
              && (r.result.Err? ==> r.result.error == InternalError("Failed to fetch flight position",
                                                                    [("error", describe(fetched.error)), ("flight_number", flightNumber)]))
  {
    match FetchFlightPositionAsWritten(flightNumber, reply)
    case Panicked => ToolPanicked
    case Returned(Ok(position)) => Answered(Ok(render(position)))
    case Returned(Err(NotFound(message))) => Answered(Ok(FlightNotFoundText(message)))
    case Returned(Err(e)) => Answered(Err(InternalError("Failed to fetch flight position",
                                                        [("error", describe(e)), ("flight_number", flightNumber)])))
  }

  // ---------------------------------------------------------------------------
  // Pattern search

  /** The pattern has the byte length of an IATA (3) or ICAO (4) code. */
  predicate CodeLength(pattern: string)
  {
    Utf8Len(pattern) == 3 || Utf8Len(pattern) == 4
  }

  const InvalidPatternHint: string :=
    "\nAirport codes should be 3 letters (IATA) or 4 letters (ICAO).\nExamples: JFK, LAX, LHR, KJFK, KLAX, EGLL"

  function InvalidPatternText(pattern: string): string
  {
    "Invalid airport code pattern: " + pattern + InvalidPatternHint
  }

  const NoPatternFlightsHint: string :=
    "\nTry using a complete 3-letter IATA code (e.g., JFK, LAX) \nor 4-letter ICAO code (e.g., KJFK, KLAX)"

  function NoPatternFlightsText(pattern: string): string
  {
    "No flights found for airport pattern: " + pattern + NoPatternFlightsHint
  }

  const PatternFetchFailedHint: string := "\nPlease try a valid airport code (e.g., JFK, LAX, LHR)"

  function PatternFetchFailedText(pattern: string): string
  {
    "No flights found for pattern: " + pattern + PatternFetchFailedHint
  }

  /** One line of the pattern listing. */
  function PatternLine(f: FlightResponse): string
  {
    f.flightNumber + ": " + f.departure + " \U{2192} " + f.arrival +
    " (Departs: " + DateTimeText(f.departureTime) + ")\n"
  }

  function PatternLines(fs: seq<FlightResponse>): string
  {
    Joined(fs, PatternLine)
  }

  /** The note on the flights left out of the listing: empty up to the limit. */
  function MoreNote(n: nat): (s: string)
    ensures s == "" <==> n <= ListLimit
  {
    if n > ListLimit then "\n... and " + Decimal(n - ListLimit) + " more flights" else ""
  }

  /** The first `ListLimit` flights, or all of them when there are fewer. */
  function Shown(flights: seq<FlightResponse>): (s: seq<FlightResponse>)
    ensures |s| <= ListLimit && |s| <= |flights|
    ensures s == flights[..|s|]
    ensures |flights| <= ListLimit ==> s == flights
  {
    if |flights| <= ListLimit then flights else flights[..ListLimit]
  }

  function PatternHeader(pattern: string, count: nat): string
  {
    "Found " + Decimal(count) + " flights matching pattern '" + pattern + "':\n\n"
  }

  /** The listing for a non-empty fetch result. */
  function PatternListing(pattern: string, flights: seq<FlightResponse>): string
  {
    PatternHeader(pattern, |flights|) + PatternLines(Shown(flights)) + MoreNote(|flights|)
  }

  /** Shown and hidden flights add up to the number found. */
  lemma ShownPlusHidden(flights: seq<FlightResponse>)
    ensures |flights| > ListLimit ==> |Shown(flights)| + (|flights| - ListLimit) == |flights|
    ensures |flights| <= ListLimit ==> |Shown(flights)| == |flights|
  {
  }

  /**
   * The listing loop of `search_flights_by_airport_pattern`: one line per
   * flight up to the limit, then the note on the rest.
   */
  method ListMatchingFlights(pattern: string, flights: seq<FlightResponse>) returns (result: string)
    ensures result == PatternListing(pattern, flights)
  {
    result := AppendEach(PatternHeader(pattern, |flights|), Shown(flights), PatternLine);
    if |flights| > ListLimit {
      result := result + MoreNote(|flights|);
    }
  }

  /**
   * `search_flights_by_airport_pattern` over the babel client as written:
   * `replies` gives the reply tower-of-babel sends for a code, and `queried`
   * is the code that was asked for, `None` when nothing was fetched. The call
   * answers every time, except when it looks a code up and the client panics
   * on the reply.
   */
  method SearchFlightsByAirportPattern(pattern: string, replies: string -> Reply<seq<FlightResponse>>)
    returns (r: ToolOutcome, queried: Option<string>)
    ensures queried == (if CodeLength(pattern) then Some(AsciiUpper(pattern)) else None)
    ensures r.ToolPanicked? <==> CodeLength(pattern) && PanicStatus(replies(AsciiUpper(pattern)))
    ensures r.Answered? ==> r.result.Ok?
    ensures !CodeLength(pattern) ==> r == Answered(Ok(InvalidPatternText(pattern)))
    ensures CodeLength(pattern) && r.Answered? ==>
              var fetched := FetchFlightsByAirport(AsciiUpper(pattern), replies(AsciiUpper(pattern)));
              && (fetched.Err? ==> r.result.value == PatternFetchFailedText(pattern))
              && (fetched == Ok([]) ==> r.result.value == NoPatternFlightsText(pattern))
              && (fetched.Ok? && fetched.value != [] ==> r.result.value == PatternListing(pattern, fetched.value))
  {
    if !CodeLength(pattern) {
      return Answered(Ok(InvalidPatternText(pattern))), None;
    }
    var code := AsciiUpper(pattern);
    queried := Some(code);
    var outcome := FetchFlightsByAirportAsWritten(code, replies(code));
    if outcome.Panicked? {
      return ToolPanicked, queried;
    }
    FetchFlightsAgrees(code, replies(code));
    if outcome.result.Err? {
      return Answered(Ok(PatternFetchFailedText(pattern))), queried;
    }
    var flights := outcome.result.value;
    if flights == [] {
      return Answered(Ok(NoPatternFlightsText(pattern))), queried;
    }
    var listing := ListMatchingFlights(pattern, flights);
    return Answered(Ok(listing)), queried;
  }

  /** A pattern of three or four ASCII characters is always looked up, in upper case. */
  lemma AsciiCodesAreLookedUp(pattern: string)
    requires |pattern| == 3 || |pattern| == 4
    requires forall i :: 0 <= i < |pattern| ==> pattern[i] as int < 0x80
    ensures CodeLength(pattern)
  {
    Utf8LenAscii(pattern);
  }

  /** A pattern of fewer than three characters, or of more than four, is never looked up. */
  lemma ShortOrLongPatternsAreNot(pattern: string)
    requires |pattern| < 3 || |pattern| > 4
    requires forall i :: 0 <= i < |pattern| ==> pattern[i] as int < 0x80
    ensures !CodeLength(pattern)
  {
    Utf8LenAscii(pattern);
  }

  /** The listing shows a line per flight up to the limit, and the note counts exactly the rest. */
  lemma PatternListingShape(pattern: string, flights: seq<FlightResponse>)
    requires |flights| > ListLimit
    ensures PatternListing(pattern, flights) ==
              PatternHeader(pattern, |flights|) + PatternLines(flights[..10]) +
              ("\n... and " + Decimal(|flights| - 10) + " more flights")
  {
    assert Shown(flights) == flights[..10];
    assert MoreNote(|flights|) == "\n... and " + Decimal(|flights| - 10) + " more flights";
  }
}
