/** The satellite record shared by the services (crates/sky-tracer/src/model/satellite.rs). */
module Satellites {

  /** `Uuid`, kept as its text form; new ids are drawn by the caller. */
  type Uuid = string

  datatype SatelliteStatus = Active | Inactive | Maintenance

  datatype Satellite = Satellite(id: Uuid, name: string, status: SatelliteStatus)

  /** `Satellite::new`: a satellite under the given id, with the given name, not yet active. */
  function NewSatellite(id: Uuid, name: string): (s: Satellite)
    ensures s.id == id && s.name == name && s.status == Inactive
    ensures !IsActive(s)
  {
    Satellite(id, name, Inactive)
  }

  /** `Satellite::is_active`. */
  predicate IsActive(s: Satellite)
  {
    s.status == Active
  }
}

/**
 * Flight progress (crates/orbital-beacon/src/models/mod.rs). Times are whole
 * seconds; the `f64` quotient is a `Ratio`, which keeps the one case where the
 * source divides zero by zero apart as `NaN`.
 */
module BeaconModels {
  import opened Wrappers

  /** An `f64` as the progress computation can produce it. */
  datatype Ratio = Finite(value: real) | NaN

  datatype FlightPositionRequest = FlightPositionRequest(
    departureCode: string,
    arrivalCode: string,
    departureTime: int,
    arrivalTime: int,
    currentTime: Option<int>)

  /** `FlightPositionRequest::new` (models/mod.rs:23-36): no current time yet. */
  function NewRequest(departureCode: string, arrivalCode: string, departureTime: int, arrivalTime: int)
    : (r: FlightPositionRequest)
    ensures r.departureCode == departureCode && r.arrivalCode == arrivalCode
    ensures r.departureTime == departureTime && r.arrivalTime == arrivalTime
    ensures r.currentTime.None?
  {
    FlightPositionRequest(departureCode, arrivalCode, departureTime, arrivalTime, None)
  }

  /** `with_current_time` (models/mod.rs:38-41): only the current time changes. */
  function WithCurrentTime(r: FlightPositionRequest, t: int): (r': FlightPositionRequest)
    ensures r'.currentTime == Some(t)
    ensures r'.departureCode == r.departureCode && r'.arrivalCode == r.arrivalCode
    ensures r'.departureTime == r.departureTime && r'.arrivalTime == r.arrivalTime
  {
    r.(currentTime := Some(t))
  }

  /** The instant progress is measured at: the request's own time, else the clock. */
  function Now(r: FlightPositionRequest, clock: int): int
  {
    if r.currentTime.Some? then r.currentTime.value else clock
  }

  /**
   * `calculate_progress` (models/mod.rs:44-58): 0 before departure, 1 past the
   * scheduled duration, otherwise elapsed / duration in seconds; a zero
   * duration at the departure instant gives 0 / 0.
   */
  function Progress(r: FlightPositionRequest, clock: int): (p: Ratio)
    ensures var elapsed := Now(r, clock) - r.departureTime;
            var total := r.arrivalTime - r.departureTime;
            && (elapsed < 0 ==> p == Finite(0.0))
            && (0 <= elapsed && total < elapsed ==> p == Finite(1.0))
            && (0 <= elapsed <= total && 0 < total ==>
                  p.Finite? && 0.0 <= p.value <= 1.0 && p.value * total as real == elapsed as real)
            && (elapsed == 0 == total <==> p.NaN?)
  {
    var total := r.arrivalTime - r.departureTime;
    var elapsed := Now(r, clock) - r.departureTime;
    if elapsed > total || elapsed < 0 then
      if elapsed < 0 then Finite(0.0) else Finite(1.0)
    else if total == 0 then NaN
    else Finite(elapsed as real / total as real)
  }

  /** Halfway through a flight the progress is one half. */
  lemma ProgressHalfway(r: FlightPositionRequest, clock: int)
    requires r.arrivalTime > r.departureTime
    requires 2 * (Now(r, clock) - r.departureTime) == r.arrivalTime - r.departureTime
    ensures Progress(r, clock) == Finite(0.5)
  {
    var total := r.arrivalTime - r.departureTime;
    var elapsed := Now(r, clock) - r.departureTime;
    assert elapsed as real / total as real == 0.5;
  }

  /** `is_in_progress` (models/mod.rs:61-64): `0 < progress < 1`, false for `NaN`. */
  predicate IsInProgress(r: FlightPositionRequest, clock: int)
  {
    var p := Progress(r, clock);
    p.Finite? && 0.0 < p.value < 1.0
  }

  /** A flight is in progress exactly strictly between its departure and arrival times. */
  lemma InProgressIff(r: FlightPositionRequest, clock: int)
    ensures IsInProgress(r, clock) <==> r.departureTime < Now(r, clock) < r.arrivalTime
  {
    var total := r.arrivalTime - r.departureTime;
    var elapsed := Now(r, clock) - r.departureTime;
    if 0 < elapsed < total {
      var p := Progress(r, clock).value;
      assert p * total as real == elapsed as real;
      assert 0.0 < p < 1.0;
    } else if 0 <= elapsed <= total && 0 < total {
      var p := Progress(r, clock).value;
      assert p * total as real == elapsed as real;
      if elapsed == 0 {
        assert p == 0.0;
      } else {
        assert p == 1.0;
      }
    }
  }
}

/** `calculate_default_times` of crates/orbital-beacon/src/ui/components/position_form.rs. */
module PositionForm {

  /** A departure one minute ago and an arrival four minutes from now. */
  function DefaultTimes(now: int): (times: (int, int))
    ensures times.0 == now - 60 && times.1 == now + 240
    ensures times.1 - times.0 == 300
    ensures times.0 < now < times.1
  {
    (now - 1 * 60, now + 4 * 60)
  }
}

/**
 * The satellite registries of the orbital-beacon service: the current one
 * (crates/orbital-beacon/src/services/mod.rs) with its error type and the
 * gated position calculation, and the older one
 * (crates/orbital-beacon/src/satellite_service.rs). The airport service and the
 * clock are parameters.
 */
module BeaconServices {
  import opened Wrappers
  import opened Satellites
  import opened BeaconModels
  import opened Tables

  /** `SatelliteServiceError`. */
  datatype SatelliteServiceError =
    | NoActiveSatellites
    | AirportFetchError(message: string)
    | AirportNotFound(code: string)
    | InvalidSatelliteId(id: string)

  /** The airport an airport-service search yields: its first hit. */
  datatype Airport = Airport(id: nat, name: string, code: string, latitude: real, longitude: real)

  /** `Position` as the beacon reports it for one satellite (its timestamp is not modelled). */
  datatype Position = Position(latitude: Ratio, longitude: Ratio, altitude: real, satelliteId: Uuid)

  datatype PositionCalculation = PositionCalculation(
    positions: seq<Position>,
    departureAirport: Option<Airport>,
    arrivalAirport: Option<Airport>)

  /** The cruising altitude every position carries. */
  const CruisingAltitude: real := 10000.0

  /** `from + (to - from) * progress`, `NaN` when the progress is. */
  function Lerp(from: real, to: real, progress: Ratio): (x: Ratio)
    ensures progress.NaN? <==> x.NaN?
    ensures progress == Finite(0.0) ==> x == Finite(from)
    ensures progress == Finite(1.0) ==> x == Finite(to)
  {
    match progress
    case NaN => NaN
    case Finite(t) => Finite(from + (to - from) * t)
  }

  /** One position per satellite, in the given order, all at the same point. */
  function PositionsFor(active: seq<Satellite>, latitude: Ratio, longitude: Ratio): (ps: seq<Position>)
    ensures |ps| == |active|
    ensures forall i :: 0 <= i < |ps| ==>
              ps[i] == Position(latitude, longitude, CruisingAltitude, active[i].id)
  {
    if active == [] then []
    else PositionsFor(active[..|active| - 1], latitude, longitude) +
         [Position(latitude, longitude, CruisingAltitude, active[|active| - 1].id)]
  }

  /** The stored satellites that are active. */
  ghost function ActiveIds(satellites: map<Uuid, Satellite>): set<Uuid>
  {
    Kept(satellites, IsActive, satellites.Keys)
  }

  /**
   * Setting a stored satellite's status puts it among the active ones exactly
   * when the status is `Active`, and no other satellite joins or leaves them.
   */
  lemma StatusDecidesActivity(satellites: map<Uuid, Satellite>, id: Uuid, status: SatelliteStatus)
    requires id in satellites
    ensures ActiveIds(satellites[id := satellites[id].(status := status)]) ==
              if status == Active then ActiveIds(satellites) + {id} else ActiveIds(satellites) - {id}
  {
    var updated := satellites[id := satellites[id].(status := status)];
    assert updated.Keys == satellites.Keys;
  }

  /** `SatelliteService` of services/mod.rs: satellites by id. */
  class SatelliteService {
    var satellites: map<Uuid, Satellite>

    /** Each satellite is stored under its own id. */
    ghost predicate Valid()
      reads this
    {
      forall id :: id in satellites ==> satellites[id].id == id
    }

    constructor ()
      ensures Valid() && satellites == map[]
    {
      satellites := map[];
    }

    /**
     * `create_satellite` (services/mod.rs:46-53): a new inactive satellite with
     * the given name under `id` (a fresh `Uuid::new_v4()`), stored and returned.
     */
    method CreateSatellite(id: Uuid, name: string) returns (r: Result<Satellite, SatelliteServiceError>)
      requires Valid()
      modifies this
      ensures Valid()
      ensures r == Ok(NewSatellite(id, name))
      ensures satellites == old(satellites)[id := r.value]
      ensures id !in old(satellites) ==> |satellites| == old(|satellites|) + 1
    {
      var satellite := NewSatellite(id, name);
      satellites := satellites[satellite.id := satellite];
      r := Ok(satellite);
    }

    /**
     * `update_satellite_status` (services/mod.rs:57-76): a known satellite
     * gets the new status and is returned; an unknown id is an error and
     * nothing changes.
     */
    method UpdateSatelliteStatus(id: Uuid, status: SatelliteStatus)
      returns (r: Result<Satellite, SatelliteServiceError>)
      requires Valid()
      modifies this
      ensures Valid()
      ensures id in old(satellites) ==>
                && r == Ok(old(satellites)[id].(status := status))
                && satellites == old(satellites)[id := r.value]
      ensures id !in old(satellites) ==>
                r == Err(InvalidSatelliteId(id)) && satellites == old(satellites)
      ensures id in old(satellites) ==>
                ActiveIds(satellites) ==
                  if status == Active then ActiveIds(old(satellites)) + {id} else ActiveIds(old(satellites)) - {id}
    {
      if id in satellites {
        StatusDecidesActivity(satellites, id, status);
        var satellite := satellites[id].(status := status);
        satellites := satellites[id := satellite];
        r := Ok(satellite);
      } else {
        r := Err(InvalidSatelliteId(id));
      }
    }

    /** `get_satellite` (services/mod.rs:80-92). */
    method GetSatellite(id: Uuid) returns (r: Option<Satellite>)
      ensures id in satellites ==> r == Some(satellites[id])
      ensures id !in satellites ==> r == None
    {
      r := if id in satellites then Some(satellites[id]) else None;
    }

    /** `list_satellites` (services/mod.rs:96-109): every stored satellite once. */
    method ListSatellites() returns (out: seq<Satellite>)
      ensures forall s :: s in out <==> s in satellites.Values
      ensures |out| == |satellites|
    {
      out := AllValues(satellites);
    }

    /**
     * `calculate_flight_position` (services/mod.rs:113-198). Without an active
     * satellite it fails before any airport is fetched; then the departure
     * airport is fetched and checked before the arrival airport. On success
     * both airports are returned, with one position per active satellite when
     * the flight is in progress and none otherwise.
     */
    method CalculateFlightPosition(request: FlightPositionRequest, clock: int,
                                   fetchAirport: string -> Result<Option<Airport>, string>)
      returns (r: Result<PositionCalculation, SatelliteServiceError>)
      requires Valid()
      ensures ActiveIds(satellites) == {} <==> r == Err(NoActiveSatellites)
      ensures ActiveIds(satellites) != {} ==>
                match fetchAirport(request.departureCode)
                case Err(e) => r == Err(AirportFetchError(e))
                case Ok(None) => r == Err(AirportNotFound(request.departureCode))
                case Ok(Some(dep)) =>
                  match fetchAirport(request.arrivalCode)
                  case Err(e) => r == Err(AirportFetchError(e))
                  case Ok(None) => r == Err(AirportNotFound(request.arrivalCode))
                  case Ok(Some(arr)) =>
                    && r.Ok?
                    && r.value.departureAirport == Some(dep)
                    && r.value.arrivalAirport == Some(arr)
                    && |r.value.positions| == (if IsInProgress(request, clock) then |ActiveIds(satellites)| else 0)
                    && (forall p :: p in r.value.positions ==>
                          && p.satelliteId in ActiveIds(satellites)
                          && p.latitude == Lerp(dep.latitude, arr.latitude, Progress(request, clock))
                          && p.longitude == Lerp(dep.longitude, arr.longitude, Progress(request, clock))
                          && p.altitude == CruisingAltitude)
                    && (IsInProgress(request, clock) ==>
                          forall id :: id in ActiveIds(satellites) ==>
                            exists p :: p in r.value.positions && p.satelliteId == id)
    {
      var active, keys := Select(satellites, IsActive);
      if |active| == 0 {
        return Err(NoActiveSatellites);
      }
      assert active[0] in satellites.Values;
      assert ActiveIds(satellites) != {} by {
        var id :| id in satellites && satellites[id] == active[0];
        assert id in ActiveIds(satellites);
      }
      var departure := fetchAirport(request.departureCode);
      if departure.Err? {
        return Err(AirportFetchError(departure.error));
      }
      if departure.value.None? {
        return Err(AirportNotFound(request.departureCode));
      }
      var arrival := fetchAirport(request.arrivalCode);
      if arrival.Err? {
        return Err(AirportFetchError(arrival.error));
      }
      if arrival.value.None? {
        return Err(AirportNotFound(request.arrivalCode));
      }
      var dep := departure.value.value;
      var arr := arrival.value.value;
      var positions: seq<Position> := [];
      if IsInProgress(request, clock) {
        var progress := Progress(request, clock);
        var latitude := Lerp(dep.latitude, arr.latitude, progress);
        var longitude := Lerp(dep.longitude, arr.longitude, progress);
        positions := PositionsFor(active, latitude, longitude);
        forall p | p in positions
          ensures p.satelliteId in ActiveIds(satellites)
        {
          var i :| 0 <= i < |positions| && positions[i] == p;
          assert active[i] in satellites.Values;
        }
        forall id | id in ActiveIds(satellites)
          ensures exists p :: p in positions && p.satelliteId == id
        {
          assert satellites[id] in active;
          var i :| 0 <= i < |active| && active[i] == satellites[id];
          assert positions[i] in positions;
        }
      }
      r := Ok(PositionCalculation(positions, Some(dep), Some(arr)));
    }
  }

  /**
   * The progress of the older `calculate_position` (satellite_service.rs:74):
   * elapsed over scheduled seconds as an `f64`, which is `0 / 0` when the
   * duration is zero.
   */
  function LegacyProgress(elapsed: int, durationSeconds: int): (p: Ratio)
    requires 0 <= elapsed <= durationSeconds
    ensures durationSeconds == 0 <==> p.NaN?
    ensures p.Finite? ==> 0.0 <= p.value <= 1.0 && p.value * durationSeconds as real == elapsed as real
  {
    if durationSeconds == 0 then NaN else Finite(elapsed as real / durationSeconds as real)
  }

  /**
   * The older `calculate_position` (satellite_service.rs:47-84) once the
   * active satellites are known: nothing without an active satellite or
   * outside the window `[departure, departure + duration]`; otherwise exactly
   * one position per active satellite, in order, all at the interpolated
   * point. The duration is whole hours derived from the coordinate distance
   * with a square root, and comes in as a parameter.
   */
  function LegacyPositions(active: seq<Satellite>, departure: (real, real), arrival: (real, real),
                           departureTime: int, now: int, durationSeconds: int): (ps: seq<Position>)
    ensures active == [] ==> ps == []
    ensures now < departureTime || now - departureTime > durationSeconds ==> ps == []
    ensures active != [] && 0 <= now - departureTime <= durationSeconds ==>
              var progress := LegacyProgress(now - departureTime, durationSeconds);
              && |ps| == |active|
              && forall i :: 0 <= i < |ps| ==>
                   ps[i] == Position(Lerp(departure.0, arrival.0, progress), Lerp(departure.1, arrival.1, progress),
                                     CruisingAltitude, active[i].id)
  {
    var elapsed := now - departureTime;
    if active == [] || elapsed > durationSeconds || elapsed < 0 then []
    else
      var progress := LegacyProgress(elapsed, durationSeconds);
      PositionsFor(active, Lerp(departure.0, arrival.0, progress), Lerp(departure.1, arrival.1, progress))
  }

  /** `SatelliteService` of satellite_service.rs, the older registry without error type. */
  class LegacySatelliteService {
    var satellites: map<Uuid, Satellite>

    ghost predicate Valid()
      reads this
    {
      forall id :: id in satellites ==> satellites[id].id == id
    }

    constructor ()
      ensures Valid() && satellites == map[]
    {
      satellites := map[];
    }

    /** `create_satellite` (satellite_service.rs:20-25). */
    method CreateSatellite(id: Uuid, name: string) returns (satellite: Satellite)
      requires Valid()
      modifies this
      ensures Valid()
      ensures satellite == NewSatellite(id, name)
      ensures satellites == old(satellites)[id := satellite]
    {
      satellite := NewSatellite(id, name);
      satellites := satellites[satellite.id := satellite];
    }

    /** `update_status` (satellite_service.rs:27-35): `None` and no change for an unknown id. */
    method UpdateStatus(id: Uuid, status: SatelliteStatus) returns (r: Option<Satellite>)
      requires Valid()
      modifies this
      ensures Valid()
      ensures id in old(satellites) ==>
                r == Some(old(satellites)[id].(status := status)) && satellites == old(satellites)[id := r.value]
      ensures id !in old(satellites) ==> r == None && satellites == old(satellites)
    {
      if id in satellites {
        var satellite := satellites[id].(status := status);
        satellites := satellites[id := satellite];
        r := Some(satellite);
      } else {
        r := None;
      }
    }

    /** `get_satellite` (satellite_service.rs:37-40). */
    method GetSatellite(id: Uuid) returns (r: Option<Satellite>)
      ensures id in satellites ==> r == Some(satellites[id])
      ensures id !in satellites ==> r == None
    {
      r := if id in satellites then Some(satellites[id]) else None;
    }

    /** `list_satellites` (satellite_service.rs:42-45). */
    method ListSatellites() returns (out: seq<Satellite>)
      ensures forall s :: s in out <==> s in satellites.Values
      ensures |out| == |satellites|
    {
      out := AllValues(satellites);
    }

    /**
     * `calculate_position` (satellite_service.rs:47-84), with `current_time`
     * falling back to the clock.
     */
    method CalculatePosition(departure: (real, real), arrival: (real, real), departureTime: int,
                             currentTime: Option<int>, clock: int, durationSeconds: int)
      returns (ps: seq<Position>)
      requires Valid()
      ensures ActiveIds(satellites) == {} ==> ps == []
      ensures var now := if currentTime.Some? then currentTime.value else clock;
              now < departureTime || now - departureTime > durationSeconds ==> ps == []
      ensures forall p :: p in ps ==> p.satelliteId in ActiveIds(satellites)
      ensures forall i, j :: 0 <= i < j < |ps| ==> ps[i].satelliteId != ps[j].satelliteId
      ensures var now := if currentTime.Some? then currentTime.value else clock;
              ActiveIds(satellites) != {} && 0 <= now - departureTime <= durationSeconds ==>
                var progress := LegacyProgress(now - departureTime, durationSeconds);
                && |ps| == |ActiveIds(satellites)|
                && (forall id :: id in ActiveIds(satellites) ==> exists p :: p in ps && p.satelliteId == id)
                && (forall p :: p in ps ==>
                      p.latitude == Lerp(departure.0, arrival.0, progress)
                      && p.longitude == Lerp(departure.1, arrival.1, progress)
                      && p.altitude == CruisingAltitude)
    {
      var active, keys := Select(satellites, IsActive);
      if |active| == 0 {
        return [];
      }
      var now := if currentTime.Some? then currentTime.value else clock;
      ps := LegacyPositions(active, departure, arrival, departureTime, now, durationSeconds);
      if ps == [] {
        return;
      }
      assert forall i :: 0 <= i < |ps| ==> ps[i].satelliteId == keys[i] by {
        forall i | 0 <= i < |ps|
          ensures ps[i].satelliteId == keys[i]
        {
          assert ps[i].satelliteId == active[i].id == satellites[keys[i]].id;
        }
      }
      forall p | p in ps
        ensures p.satelliteId in ActiveIds(satellites)
      {
        var i :| 0 <= i < |ps| && ps[i] == p;
        assert IsActive(satellites[keys[i]]);
      }
      forall id | id in ActiveIds(satellites)
        ensures exists p :: p in ps && p.satelliteId == id
      {
        assert satellites[id] in active;
        var i :| 0 <= i < |active| && active[i] == satellites[id];
        assert ps[i] in ps;
      }
    }
  }
}
