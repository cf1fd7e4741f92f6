/**
 * The airport index of the airport-anywhere service: loading airports from
 * CSV records (crates/airport-anywhere/src/data_loader.rs), indexing them by
 * code and looking them up (crates/airport-anywhere/src/airports_service.rs),
 * and the search entry points (crates/airport-anywhere/src/services.rs).
 *
 * The CSV reader is not modelled: its output is a sequence of rows, each
 * either the fields of one record or the reader's error. A field is either
 * text or bytes that are not UTF-8. Number parsing (`str::parse` for the id
 * and the coordinates) is given as functions.
 */
module AirportIndex {
  import opened Wrappers
  import opened Text
  import opened Tables

  datatype Airport = Airport(id: int, name: string, code: string, latitude: real, longitude: real)

  /** `AirportError`. */
  datatype AirportError =
    | NotFound(code: string)
    | CsvError(message: string)
    | MissingField(field: string)
    | InvalidUtf8(field: string, message: string)
    | InvalidValue(field: string, value: string)

  /** One field of a byte record: valid UTF-8 text, or bytes `String::from_utf8` rejects. */
  datatype RawField = Utf8(text: string) | NotUtf8(message: string)

  /** What `read_byte_record` yields: a record, or the reader's error. */
  datatype CsvRow = Record(fields: seq<RawField>) | Malformed(message: string)

  /** `str::parse` for the id and for the coordinates. */
  datatype Parsers = Parsers(id: string -> Option<int>, coordinate: string -> Option<real>)

  // ---------------------------------------------------------------------------
  // data_loader.rs

  /** `parse_utf8` (data_loader.rs:34-40): the field's text, or which field is missing or not UTF-8. */
  function ParseUtf8(record: seq<RawField>, index: nat, field: string): (r: Result<string, AirportError>)
    ensures index >= |record| <==> r == Err(MissingField(field))
    ensures index < |record| && record[index].NotUtf8? ==> r == Err(InvalidUtf8(field, record[index].message))
    ensures index < |record| && record[index].Utf8? ==> r == Ok(record[index].text)
  {
    if index >= |record| then Err(MissingField(field))
    else match record[index]
      case NotUtf8(message) => Err(InvalidUtf8(field, message))
      case Utf8(text) => Ok(text)
  }

  /** `parse_field` (data_loader.rs:42-51): the field's text parsed, or `InvalidValue` with that text. */
  function ParseField<T>(record: seq<RawField>, index: nat, field: string, parse: string -> Option<T>)
    : (r: Result<T, AirportError>)
    ensures ParseUtf8(record, index, field).Err? ==> r == Err(ParseUtf8(record, index, field).error)
    ensures ParseUtf8(record, index, field).Ok? ==>
              var text := ParseUtf8(record, index, field).value;
              if parse(text).Some? then r == Ok(parse(text).value) else r == Err(InvalidValue(field, text))
  {
    match ParseUtf8(record, index, field)
    case Err(e) => Err(e)
    case Ok(text) =>
      match parse(text)
      case Some(v) => Ok(v)
      case None => Err(InvalidValue(field, text))
  }

  /** The airport code: the trimmed IATA field, or the trimmed ICAO field when that is empty. */
  function CodeOf(iata: string, icao: string): (code: string)
    ensures Trim(iata) != [] ==> code == Trim(iata)
    ensures Trim(iata) == [] ==> code == Trim(icao)
  {
    if Trim(iata) != [] then Trim(iata) else Trim(icao)
  }

  /** An IATA code padded with whitespace of any kind is indexed bare. */
  lemma PaddedCodeIsTrimmed(before: string, code: string, after: string, icao: string)
    requires forall i :: 0 <= i < |before| ==> IsSpace(before[i])
    requires forall i :: 0 <= i < |after| ==> IsSpace(after[i])
    requires code != [] && !IsSpace(code[0]) && !IsSpace(code[|code| - 1])
    ensures CodeOf(before + code + after, icao) == code
  {
    TrimStripsPadding(before, code, after);
  }

  /**
   * The body of the loop in `load_airports_from_csv` (data_loader.rs:16-27):
   * id, name, IATA, ICAO, latitude and longitude from fields 0, 1, 4, 5, 6 and
   * 7, read in that order so that the first bad field is the one reported.
   */
  function LoadRecord(row: CsvRow, parsers: Parsers): Result<Airport, AirportError>
  {
    match row
    case Malformed(message) => Err(CsvError(message))
    case Record(record) =>
      var id :- ParseField(record, 0, "id", parsers.id);
      var name :- ParseUtf8(record, 1, "name");
      var iata :- ParseUtf8(record, 4, "iata");
      var icao :- ParseUtf8(record, 5, "icao");
      var latitude :- ParseField(record, 6, "latitude", parsers.coordinate);
      var longitude :- ParseField(record, 7, "longitude", parsers.coordinate);
      Ok(Airport(id, name, CodeOf(iata, icao), latitude, longitude))
  }

  /** Which fields a loaded airport comes from. */
  lemma LoadRecordFields(record: seq<RawField>, parsers: Parsers)
    requires LoadRecord(Record(record), parsers).Ok?
    ensures |record| >= 8
    ensures forall i :: i in {0, 1, 4, 5, 6, 7} ==> record[i].Utf8?
    ensures var a := LoadRecord(Record(record), parsers).value;
            && Some(a.id) == parsers.id(record[0].text)
            && a.name == record[1].text
            && a.code == CodeOf(record[4].text, record[5].text)
            && Some(a.latitude) == parsers.coordinate(record[6].text)
            && Some(a.longitude) == parsers.coordinate(record[7].text)
  {
  }

  /** A record with fewer than eight fields fails on its first missing field, unless an earlier one is bad. */
  lemma ShortRecordFails(record: seq<RawField>, parsers: Parsers)
    requires |record| < 8
    ensures LoadRecord(Record(record), parsers).Err?
    ensures LoadRecord(Record(record), parsers).error.MissingField? ||
            LoadRecord(Record(record), parsers).error.InvalidUtf8? ||
            LoadRecord(Record(record), parsers).error.InvalidValue?
  {
  }

  /** The index of the first row that does not load, if any. */
  function FirstFailure(rows: seq<CsvRow>, parsers: Parsers): (i: Option<nat>)
    ensures i.None? <==> forall j :: 0 <= j < |rows| ==> LoadRecord(rows[j], parsers).Ok?
    ensures i.Some? ==>
              && i.value < |rows| && LoadRecord(rows[i.value], parsers).Err?
              && forall j :: 0 <= j < i.value ==> LoadRecord(rows[j], parsers).Ok?
  {
    if rows == [] then None
    else if LoadRecord(rows[0], parsers).Err? then Some(0)
    else match FirstFailure(rows[1..], parsers)
      case None => None
      case Some(k) => Some(k + 1)
  }

  /** A failing row after rows that all load is the first failure. */
  lemma FirstFailureIs(rows: seq<CsvRow>, parsers: Parsers, i: nat)
    requires i < |rows| && LoadRecord(rows[i], parsers).Err?
    requires forall j :: 0 <= j < i ==> LoadRecord(rows[j], parsers).Ok?
    ensures FirstFailure(rows, parsers) == Some(i)
  {
    var k := FirstFailure(rows, parsers);
    assert k.Some?;
    assert !(k.value < i) && !(k.value > i);
  }

  /**
   * The loop of `load_airports_from_csv` for any row loader: every row is
   * loaded in order, and the first row that fails ends the loop with its
   * error; `failed` is that row.
   */
  method LoadAll<R, A, E>(rows: seq<R>, load: R -> Result<A, E>) returns (r: Result<seq<A>, E>, ghost failed: nat)
    ensures r.Ok? ==> |r.value| == |rows| && forall j :: 0 <= j < |rows| ==> load(rows[j]) == Ok(r.value[j])
    ensures r.Err? ==>
              && failed < |rows| && load(rows[failed]) == Err(r.error)
              && forall j :: 0 <= j < failed ==> load(rows[j]).Ok?
  {
    var loaded: seq<A> := [];
    var i := 0;
    while i < |rows|
      invariant 0 <= i <= |rows| && |loaded| == i
      invariant forall j :: 0 <= j < i ==> load(rows[j]) == Ok(loaded[j])
    {
      var row := load(rows[i]);
      if row.Err? {
        return Err(row.error), i;
      }
      loaded := loaded + [row.value];
      i := i + 1;
    }
    r, failed := Ok(loaded), 0;
  }

  /**
   * `load_airports_from_csv` (data_loader.rs:6-32): one airport per row, in row
   * order; the first row that fails ends the load with its error and no
   * airports.
   */
  method LoadAirportsFromCsv(rows: seq<CsvRow>, parsers: Parsers) returns (r: Result<seq<Airport>, AirportError>)
    ensures FirstFailure(rows, parsers).None? ==>
              && r.Ok? && |r.value| == |rows|
              && forall i :: 0 <= i < |rows| ==> Ok(r.value[i]) == LoadRecord(rows[i], parsers)
    ensures FirstFailure(rows, parsers).Some? ==>
              r == Err(LoadRecord(rows[FirstFailure(rows, parsers).value], parsers).error)
  {
    ghost var failed;
    r, failed := LoadAll(rows, row => LoadRecord(row, parsers));
    if r.Err? {
      FirstFailureIs(rows, parsers, failed);
    }
  }

  // ---------------------------------------------------------------------------
  // airports_service.rs

  /** The index `from_csv_str` builds: each non-empty code to the last airport carrying it. */
  function IndexOf(airports: seq<Airport>): map<string, Airport>
  {
    if airports == [] then map[]
    else
      var airport := airports[|airports| - 1];
      var index := IndexOf(airports[..|airports| - 1]);
      if airport.code != [] then index[airport.code := airport] else index
  }

  /** The index holds exactly the non-empty codes, and each under its last airport in load order. */
  lemma {:induction false} IndexOfLastWins(airports: seq<Airport>, code: string)
    ensures code in IndexOf(airports) <==> code != [] && exists i :: 0 <= i < |airports| && airports[i].code == code
    ensures forall i :: 0 <= i < |airports| && airports[i].code == code && code != [] &&
                        (forall j :: i < j < |airports| ==> airports[j].code != code) ==>
              code in IndexOf(airports) && IndexOf(airports)[code] == airports[i]
  {
    IndexOfMembers(airports, code);
    forall i | 0 <= i < |airports| && airports[i].code == code && code != [] &&
               (forall j :: i < j < |airports| ==> airports[j].code != code)
      ensures code in IndexOf(airports) && IndexOf(airports)[code] == airports[i]
    {
      IndexOfLastEntry(airports, code, i);
    }
  }

  /** The indexed codes are the non-empty codes of the airports. */
  lemma {:induction false} IndexOfMembers(airports: seq<Airport>, code: string)
    ensures code in IndexOf(airports) <==> code != [] && exists i :: 0 <= i < |airports| && airports[i].code == code
  {
    if airports != [] {
      var n := |airports| - 1;
      var prefix := airports[..n];
      IndexOfMembers(prefix, code);
      if code in IndexOf(prefix) {
        var i :| 0 <= i < |prefix| && prefix[i].code == code;
        assert airports[i].code == code;
      }
      if code != [] && exists i :: 0 <= i < |airports| && airports[i].code == code {
        var i :| 0 <= i < |airports| && airports[i].code == code;
        if i < n {
          assert prefix[i].code == code;
        }
      }
    }
  }

  /** An airport that no later airport shares its code with is the one indexed under that code. */
  lemma {:induction false} IndexOfLastEntry(airports: seq<Airport>, code: string, i: nat)
    requires i < |airports| && airports[i].code == code && code != []
    requires forall j :: i < j < |airports| ==> airports[j].code != code
    ensures code in IndexOf(airports) && IndexOf(airports)[code] == airports[i]
    decreases |airports|
  {
    var n := |airports| - 1;
    if i < n {
      var prefix := airports[..n];
      assert prefix[i] == airports[i];
      forall j | i < j < |prefix|
        ensures prefix[j].code != code
      {
        assert prefix[j] == airports[j];
      }
      IndexOfLastEntry(prefix, code, i);
    }
  }

  /** Every indexed airport sits under its own code. */
  lemma {:induction false} IndexOfKeys(airports: seq<Airport>)
    ensures forall code :: code in IndexOf(airports) ==> IndexOf(airports)[code].code == code
  {
    if airports != [] {
      IndexOfKeys(airports[..|airports| - 1]);
    }
  }

  /** `AirportsService`: the airports by code, fixed once built. */
  datatype AirportsService = AirportsService(airportsByCode: map<string, Airport>)
  {
    /**
     * `find_by_code` (airports_service.rs:34-51): the airport under exactly
     * `code` if there is one; otherwise some airport whose code starts with
     * `code`, whichever the table visits first; otherwise `NotFound(code)`.
     */
    method FindByCode(code: string) returns (r: Result<Airport, AirportError>)
      ensures code in airportsByCode ==> r == Ok(airportsByCode[code])
      ensures code !in airportsByCode && r.Ok? ==> r.value in airportsByCode.Values && StartsWith(r.value.code, code)
      ensures r.Err? <==>
                code !in airportsByCode && forall k :: k in airportsByCode ==> !StartsWith(airportsByCode[k].code, code)
      ensures r.Err? ==> r.error == NotFound(code)
    {
      if code in airportsByCode {
        return Ok(airportsByCode[code]);
      }
      var remaining := airportsByCode.Keys;
      while remaining != {}
        invariant remaining <= airportsByCode.Keys
        invariant forall k :: k in airportsByCode && k !in remaining ==> !StartsWith(airportsByCode[k].code, code)
        decreases |remaining|
      {
        var k :| k in remaining;
        if StartsWith(airportsByCode[k].code, code) {
          return Ok(airportsByCode[k]);
        }
        remaining := remaining - {k};
      }
      r := Err(NotFound(code));
    }

    /** `all` (airports_service.rs:54-56): every indexed airport once. */
    method All() returns (airports: seq<Airport>)
      ensures forall a :: a in airports <==> a in airportsByCode.Values
      ensures |airports| == |airportsByCode|
    {
      airports := AllValues(airportsByCode);
    }

    /**
     * `search_by_name` (airports_service.rs:59-66): exactly the indexed airports
     * whose lowercased name contains the lowercased query, each once.
     */
    method SearchByName(query: string) returns (airports: seq<Airport>)
      ensures forall a :: a in airports ==> a in airportsByCode.Values && NameMatches(a, query)
      ensures forall k :: k in airportsByCode && NameMatches(airportsByCode[k], query) ==> airportsByCode[k] in airports
      ensures |airports| == |Kept(airportsByCode, a => NameMatches(a, query), airportsByCode.Keys)|
    {
      ghost var keys;
      airports, keys := Select(airportsByCode, a => NameMatches(a, query));
    }
  }

  /** The name test of `search_by_name`. */
  predicate NameMatches(a: Airport, query: string)
  {
    Contains(AsciiLower(a.name), AsciiLower(query))
  }

  /** The name test ignores the letter case of the query. */
  lemma NameMatchIgnoresQueryCase(a: Airport, q1: string, q2: string)
    requires AsciiLower(q1) == AsciiLower(q2)
    ensures NameMatches(a, q1) <==> NameMatches(a, q2)
  {
  }

  /** An empty query matches every airport. */
  lemma EmptyQueryMatchesAll(a: Airport)
    ensures NameMatches(a, "")
  {
    assert OccursAt(AsciiLower(a.name), AsciiLower(""), 0);
  }

  /** The loop of `from_csv_str` (airports_service.rs:19-23): insert every airport with a non-empty code, in order. */
  method IndexAirports(airports: seq<Airport>) returns (index: map<string, Airport>)
    ensures index == IndexOf(airports)
  {
    index := map[];
    var i := 0;
    while i < |airports|
      invariant 0 <= i <= |airports|
      invariant index == IndexOf(airports[..i])
    {
      assert airports[..i + 1][..i] == airports[..i];
      if airports[i].code != [] {
        index := index[airports[i].code := airports[i]];
      }
      i := i + 1;
    }
    assert airports[..i] == airports;
  }

  /**
   * `from_csv_str` (airports_service.rs:15-26): load, then index every airport
   * with a non-empty code under that code, a later airport replacing an earlier
   * one with the same code.
   */
  method FromCsvStr(rows: seq<CsvRow>, parsers: Parsers) returns (r: Result<AirportsService, AirportError>)
    ensures FirstFailure(rows, parsers).Some? ==>
              r == Err(LoadRecord(rows[FirstFailure(rows, parsers).value], parsers).error)
    ensures FirstFailure(rows, parsers).None? ==>
              r.Ok? && r.value.airportsByCode == IndexOf(seq(|rows|, i requires 0 <= i < |rows| => LoadRecord(rows[i], parsers).value))
  {
    var loaded := LoadAirportsFromCsv(rows, parsers);
    if loaded.Err? {
      return Err(loaded.error);
    }
    var airports := loaded.value;
    var index := IndexAirports(airports);
    forall i | 0 <= i < |rows| ensures airports[i] == LoadRecord(rows[i], parsers).value
    {
      assert Ok(airports[i]) == LoadRecord(rows[i], parsers);
    }
    assert airports == seq(|rows|, i requires 0 <= i < |rows| => LoadRecord(rows[i], parsers).value);
    r := Ok(AirportsService(index));
  }

  // ---------------------------------------------------------------------------
  // services.rs: each entry point loads the embedded data first

  /** What a code search may answer on a loaded index. */
  ghost predicate CodeSearchAnswer(service: AirportsService, code: string, r: Result<seq<Airport>, AirportError>)
  {
    var index := service.airportsByCode;
    && (code in index ==> r == Ok([index[code]]))
    && (code !in index ==>
          r.Ok? && |r.value| <= 1 &&
          (r.value == [] <==> forall k :: k in index ==> !StartsWith(index[k].code, code)) &&
          (forall a :: a in r.value ==> a in index.Values && StartsWith(a.code, code)))
  }

  /**
   * `AirportService::search_by_code` (services.rs:25-42): a found airport as a
   * one-element list, `NotFound` as an empty list, a load failure propagated.
   */
  method SearchByCode(instance: Result<AirportsService, AirportError>, code: string)
    returns (r: Result<seq<Airport>, AirportError>)
    ensures instance.Err? ==> r == Err(instance.error)
    ensures instance.Ok? ==> CodeSearchAnswer(instance.value, code, r)
  {
    if instance.Err? {
      return Err(instance.error);
    }
    var found := instance.value.FindByCode(code);
    match found
    case Ok(airport) =>
      r := Ok([airport]);
    case Err(NotFound(_)) =>
      r := Ok([]);
    case Err(e) =>
      r := Err(e);
  }

  /** What a name search may answer on a loaded index. */
  ghost predicate NameSearchAnswer(service: AirportsService, query: string, r: Result<seq<Airport>, AirportError>)
  {
    var index := service.airportsByCode;
    && r.Ok?
    && (forall a :: a in r.value ==> a in index.Values && NameMatches(a, query))
    && (forall k :: k in index && NameMatches(index[k], query) ==> index[k] in r.value)
  }

  /** `AirportService::search_by_name` (services.rs:46-57). */
  method SearchByName(instance: Result<AirportsService, AirportError>, query: string)
    returns (r: Result<seq<Airport>, AirportError>)
    ensures instance.Err? ==> r == Err(instance.error)
    ensures instance.Ok? ==> NameSearchAnswer(instance.value, query, r)
  {
    if instance.Err? {
      return Err(instance.error);
    }
    var airports := instance.value.SearchByName(query);
    r := Ok(airports);
  }

  /** What listing every airport may answer on a loaded index. */
  ghost predicate AllAnswer(service: AirportsService, r: Result<seq<Airport>, AirportError>)
  {
    r.Ok? && |r.value| == |service.airportsByCode| &&
    forall a :: a in r.value <==> a in service.airportsByCode.Values
  }

  /** `AirportService::get_all_airports` (services.rs:12-22). */
  method GetAllAirports(instance: Result<AirportsService, AirportError>)
    returns (r: Result<seq<Airport>, AirportError>)
    ensures instance.Err? ==> r == Err(instance.error)
    ensures instance.Ok? ==> AllAnswer(instance.value, r)
  {
    if instance.Err? {
      return Err(instance.error);
    }
    var airports := instance.value.All();
    r := Ok(airports);
  }

  /**
   * `AirportService::search` (services.rs:60-72): by code whenever a code is
   * given, else by name when a name is given, else every airport.
   */
  method Search(instance: Result<AirportsService, AirportError>, code: Option<string>, name: Option<string>)
    returns (r: Result<seq<Airport>, AirportError>)
    ensures instance.Err? ==> r == Err(instance.error)
    ensures instance.Ok? && code.Some? ==> CodeSearchAnswer(instance.value, code.value, r)
    ensures instance.Ok? && code.None? && name.Some? ==> NameSearchAnswer(instance.value, name.value, r)
    ensures instance.Ok? && code.None? && name.None? ==> AllAnswer(instance.value, r)
  {
    if code.Some? {
      r := SearchByCode(instance, code.value);
    } else if name.Some? {
      r := SearchByName(instance, name.value);
    } else {
      r := GetAllAirports(instance);
    }
  }
}
