# sky-tracer demo — a Dafny model of its core logic

sky-tracer is a set of small flight-tracking microservices written in Rust, with one JavaScript map
script in the cockpit front end. This project models their core logic and proves properties of it:

- **cockpit**
  - `assets/map.js` keeps one Leaflet map per container. On each snapshot of flights, every flight's
    markers and route line are created or updated in place. Modules `MapModel` (specification),
    `MapProperties` (lemmas) and `FlightMapJs` (classes `MapSession` and `FlightMap`).
  - The data service joins flights, airports and positions into that snapshot. Modules
    `CockpitModels` and `CockpitServices`.
- **flight-controller**: the flight registry (numbering, lookup, filtering), in its current and its
  older form. Modules `FlightControllerModels` and `FlightControllerServices`.
- **orbital-beacon**: the satellite registry, flight progress, the active-satellite gate of position
  calculation, and the position form's default times. Modules `Satellites`, `BeaconModels`,
  `BeaconServices` and `PositionForm`.
- **airport-anywhere**: CSV records to airports, the code index, and code and name search. Module
  `AirportIndex`.
- **tower-of-babel**: the future-flight filter and reply classification. Modules `Protocol` and
  `TowerOfBabel`.
- **sky-nexus**
  - The babel client's reply classification. Module `NexusBabel`.
  - The MCP tools' filters and listings. Modules `McpText`, `McpFlightTools` and `McpBabelTools`.
  - `DateTimeConfig`. Module `DateTimeConfigs`.
- **delay-orama**: flight/position pairing, the merge of the results into one page with at most one
  error message, and the delay status of a table row. Module `DelayService`.
- **flightmare-tracker**: the delay reasons `Grund`. Module `Grunds`.

Shared modules:

- `Wrappers`: `Option` and `Result`.
- `Http`: an HTTP reply as the model's input. A reply is either a failed send or a status with a body
  and its decoded value.
- `Text`: ASCII case mapping, trimming of Unicode whitespace, decimal and zero-padded numbers.
- `CivilDate`: UTC days and `%Y-%m-%d` dates.
- `Tables`: a map's values collected with a loop.
- `Lists`: an order-keeping filter.

Conventions:

- Times are whole seconds since the Unix epoch. The UTC day of `t` is `t / 86400`, rounding down.
- Flight progress is a `real`. Where the Rust code can produce `NaN`, a `Ratio` datatype spells it out.
- HTTP replies, the clock, new ids, CSV tokenising, number parsing and error renderings are all
  parameters of the functions and methods that use them.

Behaviour of the code worth knowing:

- After an update, a flight's route line has two points: `[departure, position]`, or
  `[departure, arrival]` when there is no position (map.js:144-147). The three-point line written
  just before is overwritten, so only a newly created line has three points. Delivering the same
  snapshot twice is therefore not idempotent (`RedeliveryShortensRoute`). From the second delivery
  on it is (`SecondDeliveryIsFixed`).
- One `try` surrounds the whole loop over a snapshot. The first flight that throws ends the loop for
  every later flight. Flights missing from a snapshot are never removed from the map.
- airport-anywhere indexes an airport under its trimmed IATA code, or its ICAO code when the IATA
  field is empty, never under both. Code lookups follow that.
- The sky-nexus babel client panics on a reply status that is neither 200, 404 nor 4xx/5xx (see
  "## Findings"). The MCP babel tools call that client, so they are modelled over it as written: such
  a reply leaves the tool call without an answer (`ToolPanicked`).
- The MCP `list_flights` filter is a case-blind substring test. The flight controller's own filter is
  case-blind equality, and the older registry's filter is case-sensitive equality.

## Model

| member | source | states |
|---|---|---|
| MapModel.CreatedPath | crates/cockpit/assets/map.js:32-62 | A new route line is `[dep, pos, arr]` when there is a position and `[dep, arr]` otherwise |
| MapModel.UpdatedPath | crates/cockpit/assets/map.js:144-147 | An updated route line has two points, from the departure to the position, or to the arrival when there is none |
| FlightMapJs.MapSession.constructor | crates/cockpit/assets/map.js:89-101 | A new map has no layers and an empty `flightMarkers` table |
| FlightMapJs.MapSession.NewLayer | crates/cockpit/assets/map.js:21-62 | `L.marker`/`L.polyline` allocates a fresh handle that is not yet attached |
| FlightMapJs.MapSession.SetLayer | crates/cockpit/assets/map.js:110-120 | `setLatLng(s)` redraws one layer and changes nothing else |
| FlightMapJs.MapSession.AddLayer | crates/cockpit/assets/map.js:153-157 | `addTo(map)` attaches one layer |
| FlightMapJs.MapSession.RemoveLayer | crates/cockpit/assets/map.js:140 | `removeLayer` detaches one layer |
| FlightMapJs.MapSession.HasLayer | crates/cockpit/assets/map.js:122 | `hasLayer` is true exactly for attached layers |
| FlightMapJs.MapSession.CreateFlightMarker | crates/cockpit/assets/map.js:20-70 | The imperative marker creation leaves the map and returns the set exactly as the specification function does |
| FlightMapJs.MapSession.Reconcile | crates/cockpit/assets/map.js:106-166 | The loop body for one flight (create or update) reaches the specification's state, and reports whether it threw |
| FlightMapJs.MapSession.ApplyFlights | crates/cockpit/assets/map.js:105-167 | The `forEach` over a snapshot ends in the specification's state, stopping at the first flight that throws |
| FlightMapJs.MapSession.RemoveAllLayers | crates/cockpit/assets/map.js:177-181 | Every marker and line is detached; nothing else changes |
| FlightMapJs.FlightMap.constructor | crates/cockpit/assets/map.js:2 | The registry starts empty |
| FlightMapJs.FlightMap.Resolve | crates/cockpit/assets/map.js:85-102 | A registered map is reused; otherwise a fresh empty map is registered; other entries are kept |
| FlightMapJs.FlightMap.Register | crates/cockpit/assets/map.js:89-101 | An unregistered container gets a new empty map object, registered under its id, and the registry stays well formed |
| FlightMapJs.FlightMap.Deliver | crates/cockpit/assets/map.js:105-167 | A snapshot changes only that container's map, exactly as the value model's `Apply` does, and succeeds iff no flight throws |
| FlightMapJs.FlightMap.Initialize | crates/cockpit/assets/map.js:72-172 | The whole call matches the specification, registry and error included; other maps are untouched |
| FlightMapJs.FlightMap.Cleanup | crates/cockpit/assets/map.js:174-184 | The map's layers are removed and its entry dropped; an unknown id changes nothing |
| MapProperties.CreateFlightMarkerFresh | crates/cockpit/assets/map.js:20-70 | A created marker set uses only fresh, distinct handles; the aircraft marker exists iff there is a position |
| MapProperties.AddFlightEffect | crates/cockpit/assets/map.js:148-166 | A new readable flight is stored with departure, arrival and route line attached, and an aircraft marker iff it has a position |
| MapProperties.AddFlightWithoutDeparture | crates/cockpit/assets/map.js:21 | A new flight without departure throws before changing anything |
| MapProperties.AddFlightWithoutArrival | crates/cockpit/assets/map.js:21-25 | A new flight without arrival throws after allocating a departure marker that is never attached or stored |
| MapProperties.AddFlightWF | crates/cockpit/assets/map.js:148-166 | Adding a flight keeps the map well formed: handles issued, sets drawn and disjoint, no stray layers |
| MapProperties.UpdateFlightEffect | crates/cockpit/assets/map.js:108-147 | An update moves the existing endpoint markers instead of recreating them, sets the aircraft marker by the position, and draws the two-point line |
| MapProperties.UpdateFlightWithoutDeparture | crates/cockpit/assets/map.js:110 | An update without departure throws before changing anything |
| MapProperties.UpdateFlightWithoutArrival | crates/cockpit/assets/map.js:110-111 | An update without arrival has moved only the departure marker when it throws |
| MapProperties.UpdateAircraftShape | crates/cockpit/assets/map.js:114-142 | The four aircraft-marker cases: move and re-attach, create and attach, detach and clear, or no-op |
| MapProperties.UpdateFlightShape | crates/cockpit/assets/map.js:108-147 | After an update the stored set keeps its endpoint and line handles, and has an attached aircraft marker iff there is a position |
| MapProperties.ReplaceIssued | crates/cockpit/assets/map.js:108-147 | Storing a set built from issued handles keeps every stored handle issued |
| MapProperties.ReplaceDrawn | crates/cockpit/assets/map.js:108-147 | Storing a drawn set keeps every stored set drawn and attached |
| MapProperties.ReplaceDisjoint | crates/cockpit/assets/map.js:108-147 | Storing a set with handles no other set uses keeps the stored sets disjoint |
| MapProperties.ReplaceNoStray | crates/cockpit/assets/map.js:108-147 | Storing a set keeps every attached layer owned by a stored set |
| MapProperties.UpdateFlightWF | crates/cockpit/assets/map.js:108-147 | Updating a flight keeps the map well formed |
| MapProperties.StepWF | crates/cockpit/assets/map.js:106-166 | The loop body keeps the map well formed, whether it completes or throws |
| MapProperties.StepAbortsIffUnreadable | crates/cockpit/assets/map.js:106-166 | The loop body throws exactly for a flight missing its departure or arrival |
| MapProperties.StepShows | crates/cockpit/assets/map.js:106-166 | A readable flight is shown afterwards, with a three-point line exactly when it was new |
| MapProperties.StepFrame | crates/cockpit/assets/map.js:105-167 | The loop body leaves every other flight's marker set as it was, and stores only its own flight |
| MapProperties.KeepsShows | crates/cockpit/assets/map.js:105-167 | A flight whose marker set is kept stays shown |
| MapProperties.KeepsTransitive | crates/cockpit/assets/map.js:105-167 | Keeping a flight's marker set across two calls keeps it across both |
| MapProperties.ApplyWF | crates/cockpit/assets/map.js:105-167 | A whole snapshot keeps the map well formed |
| MapProperties.AbortIsFinal | crates/cockpit/assets/map.js:105-171 | Once a flight throws, later flights of the snapshot are not looked at |
| MapProperties.ApplyAbortsIffUnreadable | crates/cockpit/assets/map.js:105-171 | A snapshot is cut short iff one of its flights is unreadable |
| MapProperties.FirstUnreadableAborts | crates/cockpit/assets/map.js:105-171 | The first unreadable flight ends the loop; the stored sets and attached layers are those after the flights before it |
| MapProperties.ReflectsStep | crates/cockpit/assets/map.js:105-167 | One more readable flight extends "the map reflects the snapshot" by that flight |
| MapProperties.ApplyReflects | crates/cockpit/assets/map.js:105-167 | A fully readable snapshot shows every flight (aircraft marker iff position, the right line shape) and keeps every flight not in it |
| MapProperties.StepIdle | crates/cockpit/assets/map.js:108-147 | A flight already shown as updated leaves the map unchanged |
| MapProperties.ApplyIdle | crates/cockpit/assets/map.js:105-167 | A snapshot whose flights are all already shown as updated changes nothing |
| MapProperties.SecondDeliveryIsFixed | crates/cockpit/assets/map.js:105-167 | From the second delivery of the same readable snapshot on, the map no longer changes |
| MapProperties.RedeliveryShortensRoute | crates/cockpit/assets/map.js:116-120 | Delivering a flight with a position twice turns its three-point line into `[dep, pos]` |
| MapProperties.InitializeEffect | crates/cockpit/assets/map.js:72-172 | Bad JSON, missing Leaflet or a missing container registers nothing; otherwise the map is resolved and the snapshot applied |
| MapProperties.InitializeWF | crates/cockpit/assets/map.js:72-172 | Every registered map stays well formed |
| MapProperties.CleanupEffect | crates/cockpit/assets/map.js:174-184 | Cleanup drops the entry and releases the map with nothing attached; an unknown id and a repeated cleanup change nothing |
| MapProperties.ReinitializeAfterCleanup | crates/cockpit/assets/map.js:174-184 | After cleanup, a new snapshot for a re-created container element starts from an empty map and shows every readable flight as newly created |
| CockpitModels.NewAirport | crates/cockpit/src/models/mod.rs:17-21 | Code and position are stored unchanged |
| CockpitModels.NewFlight | crates/cockpit/src/models/mod.rs:24-36 | All four fields are stored unchanged |
| CockpitModels.WithPosition | crates/cockpit/src/models/mod.rs:38-41 | The position becomes `Some(p)` and nothing else changes |
| CockpitModels.WithPositionLastWins | crates/cockpit/src/models/mod.rs:38-41 | The last `with_position` wins; a flight built without a position gets exactly that one |
| CockpitServices.PositionResult | crates/cockpit/src/services/mod.rs:68-94 | Never an error: `Some` exactly for a decoded success reply, `None` otherwise |
| CockpitServices.SearchResult | crates/cockpit/src/services/mod.rs:101-138 | The first hit on success, `None` for no hits or a non-success status, and an error for send and decode failures |
| CockpitServices.AirportCodes | crates/cockpit/src/services/mod.rs:149-153 | The set of every departure and arrival code of the responses |
| CockpitServices.Resolved | crates/cockpit/src/services/mod.rs:155-160 | The airport map holds exactly the codes whose search gave `Ok(Some(a))`, each with that `a` |
| CockpitServices.JoinFlightsKeepsResolved | crates/cockpit/src/services/mod.rs:163-185 | The output holds exactly the responses whose two airports resolved, in response order |
| CockpitServices.ToFlightFields | crates/cockpit/src/services/mod.rs:169-181 | A built flight has the response's number, the resolved airports, and a position iff its lookup gave `Ok(Some(p))` |
| CockpitServices.FetchAirports | crates/cockpit/src/services/mod.rs:156-160 | The loop over the code set, in any order, builds the resolved airport map |
| CockpitServices.BuildFlights | crates/cockpit/src/services/mod.rs:163-185 | The loop over the responses builds the joined flights |
| CockpitServices.Values | crates/cockpit/src/services/mod.rs:187 | Every airport of the map once, in some order |
| CockpitServices.GetFlightsWithData | crates/cockpit/src/services/mod.rs:145-195 | A flights failure is passed on unchanged; otherwise the joined flights and the resolved airports |
| FlightControllerModels.ArrivalTime | crates/flight-controller/src/models/mod.rs:41-44 | The scheduled arrival, or departure plus two hours |
| FlightControllerModels.MatchesFiltersMeaning | crates/flight-controller/src/models/mod.rs:47-60 | Each given filter holds: case-blind equality of the codes, and the same UTC day |
| FlightControllerModels.FiltersOnlyNarrow | crates/flight-controller/src/models/mod.rs:59 | Dropping a filter never rejects a flight; with no filter every flight matches |
| FlightControllerModels.DepartureFilterIgnoresCase | crates/flight-controller/src/models/mod.rs:53-54 | A flight from "FRA" passes "fra" and fails "CDG" |
| FlightControllerServices.FromRequest | crates/flight-controller/src/services/mod.rs:40-47 | The created flight copies every request field under the given number |
| FlightControllerServices.SerialOfGenerated | crates/flight-controller/src/services/mod.rs:211-216 | A generated number below serial 10000 ends with the four digits of its serial, whatever the departure prefix |
| FlightControllerServices.NextNumberIsFresh | crates/flight-controller/src/services/mod.rs:211-216 | Below 9999 flights, the next generated number is not yet stored |
| FlightControllerServices.NumberedAfterInsert | crates/flight-controller/src/services/mod.rs:49-50 | Storing under the next number keeps the numbering invariant |
| FlightControllerServices.CreateKeepsNumbering | crates/flight-controller/src/services/mod.rs:37-58 | Below 9999 flights a creation adds exactly one flight; the numbering invariant holds afterwards |
| FlightControllerServices.FlightService.constructor | crates/flight-controller/src/services/mod.rs:20-29 | An empty registry |
| FlightControllerServices.FlightService.GenerateFlightNumber | crates/flight-controller/src/services/mod.rs:211-216 | Upper-cased departure plus the stored count + 1, zero-padded to four digits |
| FlightControllerServices.FlightService.CreateFlight | crates/flight-controller/src/services/mod.rs:37-58 | Always `Ok`; the new flight is stored under its number, other entries unchanged |
| FlightControllerServices.FlightService.GetFlight | crates/flight-controller/src/services/mod.rs:63-74 | The stored flight, or `None` for an unknown number |
| FlightControllerServices.FlightService.ListFlights | crates/flight-controller/src/services/mod.rs:82-103 | Exactly the stored flights passing the filters, each once |
| FlightControllerServices.ExactMatchIsStricter | crates/flight-controller/src/flight_service.rs:53-63 | The older filter implies the current one, and rejects a code differing only in case |
| FlightControllerServices.ExactMatchIsCaseSensitive | crates/flight-controller/src/flight_service.rs:54-57 | "FRA" passes only the filter "FRA", not "fra" |
| FlightControllerServices.LegacyFlightService.constructor | crates/flight-controller/src/flight_service.rs:14-18 | An empty registry |
| FlightControllerServices.LegacyFlightService.GenerateFlightNumber | crates/flight-controller/src/flight_service.rs:68-72 | Departure as given, not upper-cased, plus count + 1 zero-padded |
| FlightControllerServices.LegacyFlightService.CreateFlight | crates/flight-controller/src/flight_service.rs:20-36 | Always `Ok`; the flight is stored under its number |
| FlightControllerServices.LegacyFlightService.GetFlight | crates/flight-controller/src/flight_service.rs:38-41 | The stored flight or `None` |
| FlightControllerServices.LegacyFlightService.ListFlights | crates/flight-controller/src/flight_service.rs:43-66 | Exactly the stored flights passing the case-sensitive filters, each once |
| FlightControllerServices.FirstNumberFromFrankfurt | crates/flight-controller/src/services/mod.rs:211-216 | The first flight from "fra" is "FRA0001" |
| Satellites.NewSatellite | crates/sky-tracer/src/model/satellite.rs:19-26 | Given id and name, status `Inactive`, so not active |
| BeaconModels.NewRequest | crates/orbital-beacon/src/models/mod.rs:23-36 | Codes and times stored, no current time |
| BeaconModels.WithCurrentTime | crates/orbital-beacon/src/models/mod.rs:38-41 | Sets the current time only |
| BeaconModels.Progress | crates/orbital-beacon/src/models/mod.rs:44-58 | 0 before departure, 1 past the duration, else elapsed / duration, `NaN` for 0/0 |
| BeaconModels.ProgressHalfway | crates/orbital-beacon/src/models/mod.rs:57 | Halfway through a flight the progress is 0.5 |
| BeaconModels.InProgressIff | crates/orbital-beacon/src/models/mod.rs:61-64 | In progress iff strictly between departure and arrival |
| PositionForm.DefaultTimes | crates/orbital-beacon/src/ui/components/position_form.rs:8-12 | Departure one minute ago, arrival four minutes ahead: a 300 s window containing now |
| BeaconServices.Lerp | crates/orbital-beacon/src/services/mod.rs:161-167 | `NaN` iff the progress is; the endpoints at progress 0 and 1 |
| BeaconServices.PositionsFor | crates/orbital-beacon/src/services/mod.rs:168-197 | One position per active satellite, in order, tagged with its id |
| BeaconServices.SatelliteService.constructor | crates/orbital-beacon/src/services/mod.rs:32-42 | No satellites |
| BeaconServices.SatelliteService.CreateSatellite | crates/orbital-beacon/src/services/mod.rs:46-53 | Stores and returns a new inactive satellite; the count grows by one |
| BeaconServices.SatelliteService.UpdateSatelliteStatus | crates/orbital-beacon/src/services/mod.rs:57-76 | A known id changes only its status, and joins the active satellites iff the status is `Active`; an unknown id gives `InvalidSatelliteId` and no change |
| BeaconServices.StatusDecidesActivity | crates/sky-tracer/src/model/satellite.rs:28-30 | After a satellite's status is set, it is among the active ones iff the status is `Active` (`Inactive` and `Maintenance` both take it out), and every other satellite stays as active as it was |
| BeaconServices.SatelliteService.GetSatellite | crates/orbital-beacon/src/services/mod.rs:80-92 | The stored satellite or `None` |
| BeaconServices.SatelliteService.ListSatellites | crates/orbital-beacon/src/services/mod.rs:96-109 | Every stored satellite once |
| BeaconServices.SatelliteService.CalculateFlightPosition | crates/orbital-beacon/src/services/mod.rs:113-198 | `NoActiveSatellites` iff none is active, before any lookup; departure looked up before arrival; one position per active satellite when in progress, none otherwise |
| BeaconServices.LegacyProgress | crates/orbital-beacon/src/satellite_service.rs:74 | Elapsed over scheduled seconds, in `[0, 1]`; `NaN` exactly when the duration is zero |
| BeaconServices.LegacyPositions | crates/orbital-beacon/src/satellite_service.rs:47-84 | Nothing when no satellite is active or outside the flight window; inside it exactly one position per active satellite, in order, at the interpolated latitude and longitude and at 10000 |
| BeaconServices.LegacySatelliteService.constructor | crates/orbital-beacon/src/satellite_service.rs:14-18 | No satellites |
| BeaconServices.LegacySatelliteService.CreateSatellite | crates/orbital-beacon/src/satellite_service.rs:20-25 | Stores and returns the new satellite |
| BeaconServices.LegacySatelliteService.UpdateStatus | crates/orbital-beacon/src/satellite_service.rs:27-35 | `Some(updated)` with only the status changed, or `None` and no change |
| BeaconServices.LegacySatelliteService.GetSatellite | crates/orbital-beacon/src/satellite_service.rs:37-40 | The stored satellite or `None` |
| BeaconServices.LegacySatelliteService.ListSatellites | crates/orbital-beacon/src/satellite_service.rs:42-45 | Every stored satellite once |
| BeaconServices.LegacySatelliteService.CalculatePosition | crates/orbital-beacon/src/satellite_service.rs:47-84 | Empty with no active satellite or outside the window (the request time, else the clock); inside it exactly one position for each active satellite, ids pairwise distinct, all at the interpolated point and at 10000 |
| AirportIndex.ParseUtf8 | crates/airport-anywhere/src/data_loader.rs:34-40 | The field's text; `MissingField` iff the index is past the record; `InvalidUtf8` for bad bytes |
| AirportIndex.ParseField | crates/airport-anywhere/src/data_loader.rs:42-51 | The parsed value, the field error, or `InvalidValue` with the text |
| AirportIndex.CodeOf | crates/airport-anywhere/src/data_loader.rs:18-24 | The IATA code with every Unicode White_Space character stripped from both ends (as `str::trim` does), or the trimmed ICAO code when that is empty; neither end of a non-empty code is whitespace |
| AirportIndex.PaddedCodeIsTrimmed | crates/airport-anywhere/src/data_loader.rs:18-19 | An IATA field made of a code padded with whitespace of any kind is indexed under the bare code |
| Text.TrimStripsPadding | crates/airport-anywhere/src/data_loader.rs:18-19 | `str::trim` takes off exactly the whitespace around a text that neither starts nor ends with whitespace |
| Text.IsSpaceIff | crates/airport-anywhere/src/data_loader.rs:18-19 | The whitespace `str::trim` strips is exactly the 25 Unicode White_Space characters listed in `WhiteSpace` |
| Text.UnicodeWhiteSpace | crates/airport-anywhere/src/data_loader.rs:18-19 | The vertical tab, U+0085, the no-break space U+00A0 and the ideographic space U+3000 are whitespace to `str::trim`, as `char::is_whitespace` says |
| AirportIndex.LoadRecordFields | crates/airport-anywhere/src/data_loader.rs:16-27 | A loaded airport takes id, name, latitude and longitude from fields 0, 1, 6 and 7 |
| AirportIndex.ShortRecordFails | crates/airport-anywhere/src/data_loader.rs:34-37 | A record of fewer than eight fields fails, on a missing field unless an earlier one is bad |
| AirportIndex.FirstFailure | crates/airport-anywhere/src/data_loader.rs:15-28 | The first record that does not load, or none iff all load |
| AirportIndex.LoadAll | crates/airport-anywhere/src/data_loader.rs:15-28 | The record loop: every record loaded in order; stops at the first failure with its error, all earlier records having loaded |
| AirportIndex.LoadAirportsFromCsv | crates/airport-anywhere/src/data_loader.rs:6-32 | One airport per record in order, or the first record's error and no partial list |
| AirportIndex.IndexOfLastWins | crates/airport-anywhere/src/airports_service.rs:19-23 | Exactly the non-empty codes are indexed, each under its last airport |
| AirportIndex.IndexOfKeys | crates/airport-anywhere/src/airports_service.rs:19-23 | Every indexed airport sits under its own code |
| AirportIndex.AirportsService.FindByCode | crates/airport-anywhere/src/airports_service.rs:34-51 | The exact match, else some airport whose code has the query as prefix, else `NotFound(code)` iff there is none |
| AirportIndex.AirportsService.All | crates/airport-anywhere/src/airports_service.rs:54-56 | Every indexed airport once |
| AirportIndex.AirportsService.SearchByName | crates/airport-anywhere/src/airports_service.rs:59-66 | Exactly the airports whose lowercased name contains the lowercased query |
| AirportIndex.NameMatchIgnoresQueryCase | crates/airport-anywhere/src/airports_service.rs:59-66 | Queries that agree up to case match the same airports |
| AirportIndex.EmptyQueryMatchesAll | crates/airport-anywhere/src/airports_service.rs:59-66 | The empty query matches every airport |
| AirportIndex.FromCsvStr | crates/airport-anywhere/src/airports_service.rs:15-26 | A load error is passed on; otherwise the index of the loaded airports |
| AirportIndex.IndexAirports | crates/airport-anywhere/src/airports_service.rs:19-23 | The loop builds exactly `IndexOf` of the loaded airports: non-empty codes only, the last airport with a code winning |
| AirportIndex.SearchByCode | crates/airport-anywhere/src/services.rs:25-42 | A singleton for a found airport, `Ok([])` for `NotFound`, other errors passed on |
| AirportIndex.SearchByName | crates/airport-anywhere/src/services.rs:46-57 | Every name match, mapped to the response |
| AirportIndex.GetAllAirports | crates/airport-anywhere/src/services.rs:12-22 | Every indexed airport |
| AirportIndex.Search | crates/airport-anywhere/src/services.rs:60-72 | A code search when a code is given, else a name search, else all |
| Protocol.FlightPositionUrl | crates/tower-of-babel/src/services/babel_service.rs:109-113 | The flight number fills the `{flight_number}` slot |
| Protocol.BabelAirportUrl | crates/sky-nexus/src/services/babel.rs:33-37 | The airport code fills the `{airport_code}` slot |
| Protocol.BabelPositionUrl | crates/sky-nexus/src/services/babel.rs:85-89 | The flight number fills the `{flight_number}` slot |
| Protocol.FlightPositionUrlInjective | crates/tower-of-babel/src/services/babel_service.rs:109-113 | Different flight numbers give different URLs |
| TowerOfBabel.FutureFlights | crates/tower-of-babel/src/services/babel_service.rs:59-68 | Exactly the flights with no arrival or an arrival after now, in order |
| TowerOfBabel.FutureFlightsKeepsAll | crates/tower-of-babel/src/services/babel_service.rs:59-68 | Nothing is dropped when every flight is upcoming |
| TowerOfBabel.FutureFlightsLater | crates/tower-of-babel/src/services/babel_service.rs:59-68 | A later clock keeps no more flights, and only ones kept before |
| TowerOfBabel.ListFlightsByAirport | crates/tower-of-babel/src/services/babel_service.rs:40-101 | `Ok` iff some decoded flight is upcoming; an empty filter gives `NoFutureFlights`; 404 gives `NotFound`, other failures `ServiceUnavailable` |
| TowerOfBabel.GetFlightPosition | crates/tower-of-babel/src/services/babel_service.rs:105-155 | The position on success, `NotFound` for 404, `ServiceUnavailable` otherwise |
| TowerOfBabel.ListFlightsErrorKinds | crates/tower-of-babel/src/services/babel_service.rs:82-100 | Each error kind comes from exactly one class of reply |
| NexusBabel.BaseUrl | crates/sky-nexus/src/services/babel.rs:22-24 | The environment value, or `http://localhost:3003` |
| NexusBabel.FetchFlightsByAirportAsWritten | crates/sky-nexus/src/services/babel.rs:27-76 | Panics exactly for a status that is not 200, not 404 and not an error status |
| NexusBabel.NoContentPanics | crates/sky-nexus/src/services/babel.rs:69-74 | A 204 reply makes the client panic |
| NexusBabel.FetchFlightsByAirport | crates/sky-nexus/src/services/babel.rs:27-76 | 200 gives the flights; a 404 naming no future flights gives `NoFutureFlights`; other 404s `NotFound`; everything else `Network` |
| NexusBabel.FetchFlightsAgrees | crates/sky-nexus/src/services/babel.rs:27-76 | Wherever the code as written does not panic, the corrected client gives the same result |
| NexusBabel.OnlyExactOkSucceeds | crates/sky-nexus/src/services/babel.rs:42-51 | A 2xx status other than 200 is an error |
| NexusBabel.FetchFlightPositionAsWritten | crates/sky-nexus/src/services/babel.rs:79-120 | Panics exactly for a status that is not 200, not 404 and not an error status |
| NexusBabel.FetchFlightPosition | crates/sky-nexus/src/services/babel.rs:79-120 | 200 gives the position, 404 `NotFound`, anything else `Network` |
| NexusBabel.FetchPositionAgrees | crates/sky-nexus/src/services/babel.rs:79-120 | Wherever the code as written does not panic, the corrected client gives the same result |
| NexusBabel.ErrorCodeBodyIsRecognised | crates/sky-nexus/src/services/babel.rs:59 | A body carrying `NO_FUTURE_FLIGHTS` is recognised as no future flights |
| DelayService.FlightsUrlIsBabelRoute | crates/delay-orama/src/services/delay_service.rs:91-100 | delay-orama's flights URL is tower-of-babel's airport route |
| DelayService.PositionUrlIsBabelRoute | crates/delay-orama/src/services/delay_service.rs:120-128 | delay-orama's position URL is tower-of-babel's position route |
| DelayService.GetAirportPosition | crates/delay-orama/src/services/delay_service.rs:43-88 | The first hit's coordinates, `None` for no hit, `AirportNotFound` iff the status is not a success |
| DelayService.GetFlightsByAirport | crates/delay-orama/src/services/delay_service.rs:91-117 | A non-success status is an empty list; an error only for send or decode failure |
| DelayService.GetFlightPosition | crates/delay-orama/src/services/delay_service.rs:120-142 | A non-success status is no position; an error only for send or decode failure |
| DelayService.GetFlightsWithPositions | crates/delay-orama/src/services/delay_service.rs:145-159 | Each flight paired with its own lookup, in order and the same length, or the first failure |
| DelayService.MergeDelays | crates/delay-orama/src/services/delay_service.rs:182-209 | A flights failure empties the list and sets its message; `AirportNotFound` sets its message only if none is set; no message iff both succeeded |
| DelayService.GetAirportDelaysWithErrors | crates/delay-orama/src/services/delay_service.rs:163-220 | Both fetches, then the merge: every fetched flight paired with its own position lookup, or no flights and the flight message naming the flights failure or the first failed lookup; the first hit's coordinates iff the airport search hit; the unknown-airport message iff the flights succeeded and the search status failed; no message iff neither |
| DelayService.MinutesSince | crates/delay-orama/src/ui/components/delay_table.rs:53 | The whole minutes elapsed, never negative |
| DelayService.DelayStatus | crates/delay-orama/src/ui/components/delay_table.rs:47-60 | "Delayed (N min)" iff now is after departure, "On Time" otherwise, departure at now included |
| DelayService.DelayGrows | crates/delay-orama/src/ui/components/delay_table.rs:53 | The minutes shown never go down as time passes |
| Grunds.Upstream | crates/flightmare-tracker/src/grund.rs:24-39 | Each reason has a named upstream namesake |
| Grunds.FromDb | crates/flightmare-tracker/src/grund.rs:22-43 | Named variants to their namesakes with payloads kept; anything else to operational delays |
| Grunds.FromDbUpstream | crates/flightmare-tracker/src/grund.rs:22-43 | Every reason comes back from its namesake |
| Grunds.FromDbPreimage | crates/flightmare-tracker/src/grund.rs:22-43 | Only the namesake, or for operational delays an unnamed variant, gives a reason |
| Grunds.Display | crates/flightmare-tracker/src/grund.rs:45-67 | The payload texts and "Runway maintenance"; no text is empty |
| Grunds.FixedDisplayInjective | crates/flightmare-tracker/src/grund.rs:47-65 | The fixed texts are pairwise different |
| Grunds.FixedDisplayHasNoPrefix | crates/flightmare-tracker/src/grund.rs:47-65 | No fixed text can be mistaken for a payload text |
| Grunds.DisplayInjective | crates/flightmare-tracker/src/grund.rs:45-67 | The text determines the reason, payload included |
| DateTimeConfigs.DateTimeConfig.New | crates/sky-nexus/src/models/datetime.rs:102-107 | Nothing set |
| DateTimeConfigs.DateTimeConfig.Default | crates/sky-nexus/src/models/datetime.rs:128-132 | Nothing set |
| DateTimeConfigs.DateTimeConfig.FromQuery | crates/sky-nexus/src/models/datetime.rs:92-99 | Both fields copied |
| DateTimeConfigs.DateTimeConfig.WithTimezone | crates/sky-nexus/src/models/datetime.rs:109-112 | Sets only the timezone |
| DateTimeConfigs.DateTimeConfig.WithFormat | crates/sky-nexus/src/models/datetime.rs:114-117 | Sets only the format |
| DateTimeConfigs.DateTimeConfig.Timezone | crates/sky-nexus/src/models/datetime.rs:119-121 | The stored value, or "UTC" |
| DateTimeConfigs.DateTimeConfig.Format | crates/sky-nexus/src/models/datetime.rs:123-125 | The stored value, or "%Y-%m-%d %H:%M:%S UTC" |
| DateTimeConfigs.DefaultsReadBack | crates/sky-nexus/src/models/datetime.rs:119-132 | A default configuration reads back the two defaults |
| DateTimeConfigs.BuildersReadBack | crates/sky-nexus/src/models/datetime.rs:109-125 | A builder's value is read back, and the other accessor is unaffected |
| DateTimeConfigs.BuildersCommute | crates/sky-nexus/src/models/datetime.rs:109-117 | The two builders commute; the last call of one builder wins |
| DateTimeConfigs.QueryIsBuilders | crates/sky-nexus/src/models/datetime.rs:92-117 | A full query gives the same configuration as both builders |
| McpText.DateTimeText | crates/sky-nexus/src/mcp/tools/flights.rs:112 | The date-time text starts with the `%Y-%m-%d` date |
| McpText.ArrivalText | crates/sky-nexus/src/mcp/tools/babel.rs:77-80 | "TBD" exactly when there is no arrival time |
| McpFlightTools.OwnCodeMatches | crates/sky-nexus/src/mcp/tools/flights.rs:79-87 | A code matches a filter naming it in any case |
| McpFlightTools.FilterCaseIrrelevant | crates/sky-nexus/src/mcp/tools/flights.rs:79-87 | Filters equal up to case select the same flights |
| McpFlightTools.PrefixMatches | crates/sky-nexus/src/mcp/tools/flights.rs:79-87 | Part of a code matches it (a substring test, not equality) |
| McpFlightTools.DateFilterIsSameDay | crates/sky-nexus/src/mcp/tools/flights.rs:88-90 | The date filter keeps exactly the flights departing on that UTC day |
| McpFlightTools.ListFlights | crates/sky-nexus/src/mcp/tools/flights.rs:58-122 | A fetch error becomes `internal_error`; the kept flights are those passing all filters; no match gives the fixed text; the count is the number kept |
| McpFlightTools.NoFilterListsAll | crates/sky-nexus/src/mcp/tools/flights.rs:79-92 | With no filter every flight is listed |
| McpFlightTools.SearchFlightsByRoute | crates/sky-nexus/src/mcp/tools/flights.rs:241-252 | The same result as `list_flights` |
| McpBabelTools.ListFutureFlights | crates/sky-nexus/src/mcp/tools/babel.rs:58-83 | The append loop builds the header and one block per flight, in order |
| McpBabelTools.GetFlightsByAirport | crates/sky-nexus/src/mcp/tools/babel.rs:39-120 | Over the client as written: no answer exactly when the client panics on the reply status (neither 200, 404 nor 4xx/5xx); otherwise `NotFound` and `NoFutureFlights` become text results, the flights are listed, and network and parse errors become `internal_error` |
| McpBabelTools.GetFlightPosition | crates/sky-nexus/src/mcp/tools/babel.rs:123-172 | Over the client as written: no answer exactly when the client panics on the reply status; otherwise the rendered position, `NotFound` as text, and other errors as `internal_error` |
| McpBabelTools.MoreNote | crates/sky-nexus/src/mcp/tools/babel.rs:211-216 | The note is empty iff at most ten flights were found |
| McpBabelTools.Shown | crates/sky-nexus/src/mcp/tools/babel.rs:200 | The first ten flights, or all when fewer |
| McpBabelTools.ShownPlusHidden | crates/sky-nexus/src/mcp/tools/babel.rs:200-216 | Shown plus hidden flights add up to the number found |
| McpBabelTools.ListMatchingFlights | crates/sky-nexus/src/mcp/tools/babel.rs:194-218 | The append loop builds the header, the shown lines and the note |
| McpBabelTools.SearchFlightsByAirportPattern | crates/sky-nexus/src/mcp/tools/babel.rs:175-239 | Fetches the upper-cased pattern only for a byte length of 3 or 4, and then has no answer exactly when the client as written panics on the reply; every other call answers, with errors and empty lists as "No flights found" text |
| McpBabelTools.AsciiCodesAreLookedUp | crates/sky-nexus/src/mcp/tools/babel.rs:182 | Three or four ASCII characters are always looked up |
| McpBabelTools.ShortOrLongPatternsAreNot | crates/sky-nexus/src/mcp/tools/babel.rs:182 | Shorter or longer patterns are never looked up |
| McpBabelTools.PatternListingShape | crates/sky-nexus/src/mcp/tools/babel.rs:200-216 | Above ten flights: ten lines and "... and n-10 more flights" |
| CivilDate.UtcDayOf | crates/flight-controller/src/models/mod.rs:56-57 | Every instant of a day belongs to that UTC day |
| CivilDate.SameDayIsClose | crates/flight-controller/src/models/mod.rs:56-57 | Instants on the same UTC day are less than a day apart |
| CivilDate.FormatDateIffSameDay | crates/sky-nexus/src/mcp/tools/flights.rs:89 | Equal `%Y-%m-%d` texts iff the same UTC day, in four-digit years |
| Lists.FilterAppend | crates/tower-of-babel/src/services/babel_service.rs:60-68 | The filter keeps the relative order of the kept elements |

## Left out

- HTTP and server plumbing (axum handlers, routers, OpenAPI, `main`) is not modelled. The reqwest and
  gloo clients are not modelled either: each reply is an input, and a failed send is `Failed`.
- A reply body that cannot be read is not modelled. The body text is taken as given, so the
  "Unknown error" fallback of the 404 branches never arises.
- Leaflet itself, the tile layer (map.js:96-98), icons, popups and the "Map container is already
  initialized" check of a second `L.map` on the same container are not modelled. Layers are
  handles with a point or a point list.
- Floating point is not modelled: the latitude/longitude interpolation is over `real`, the
  `sqrt`-based duration of the older beacon is an input, and number formatting is left out. The MCP
  position text is a `render` parameter.
- Case mapping beyond ASCII is not modelled. `to_lowercase`/`to_uppercase` are modelled as their ASCII
  versions, which agree on airport codes and English names.
- Concurrency is not modelled: every registry is sequential, so the read-then-write race between
  numbering and insertion does not arise. `join_all` and `tokio::join` are modelled in sequence.
- What the MCP server does after a tool call panics (the request's task ends without a reply) is
  not modelled beyond `ToolPanicked`.
- UUID generation and the clock are inputs: a new satellite's id, `Utc::now()` and `Date.now()`.
- Hash-map iteration order is not modelled. Listings are "every element once, in some order".
- FlightControllerServices.FlightService.CreateFlight: the new number is proved fresh only while the
  registry holds fewer than 9999 flights, because five-digit serials can clash with other prefixes.
- u32 and usize overflow of counts is not modelled; integers are unbounded.
- CSV tokenising and the `str::parse` of numbers are a `Parsers` parameter, and records are field
  sequences.
- Error renderings (`Display`/`Debug` of reqwest and service errors) are a `describe` parameter.
- Sub-second precision of times is not modelled; times are whole seconds.
- The `?departure=` query that tower-of-babel adds when it asks the flight controller is not
  modelled; the reply is an input.
- `get_random_grund` is not modelled, because it is random.
- The other MCP tools are not modelled: `get_flight` and `create_flight` of flights.rs, and the
  airport, satellite and date-time tools.
- `calculate_flight_position` of the flight controller is not modelled.
- Timezone conversion and strftime formatting of sky-nexus's date-time service are not modelled.
  DateTimeConfigs models only the configuration record.

## Findings

| source | as written | input that shows it | evidently intended | confidence | as-written member | corrected member |
|---|---|---|---|---|---|---|
| crates/sky-nexus/src/services/babel.rs:69-74,113-118 | The catch-all status arm calls `resp.error_for_status().unwrap_err()`. For a status that is neither 200, 404, 4xx nor 5xx, `error_for_status` returns `Ok` and `unwrap_err` panics | A reply with status 204 (or 201, or a 3xx that was not followed) | Every status other than 200 and 404 becomes a `Network` error | not executed | NexusBabel.FetchFlightsByAirportAsWritten (NoContentPanics), NexusBabel.FetchFlightPositionAsWritten | NexusBabel.FetchFlightsByAirport (FetchFlightsAgrees), NexusBabel.FetchFlightPosition (FetchPositionAgrees) |
