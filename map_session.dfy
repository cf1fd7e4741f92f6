/**
 * `FlightMap` of crates/cockpit/assets/map.js as it runs: a registry object
 * whose `maps` table is updated in place, and map objects whose layers are
 * created, moved, added and removed one call at a time. Each method is proved
 * to end in the state that the value model in MapModel gives.
 */
module FlightMapJs {
  import opened Wrappers
  import opened MapModel
  import MapProperties

  /** One Leaflet map with the `flightMarkers` table that map.js keeps on it. */
  class MapSession {
    var layers: map<Handle, Layer>
    var attached: set<Handle>
    var nextHandle: nat
    var flightMarkers: map<string, MarkerSet>

    /** The map as a value. */
    function State(): Session
      reads this
    {
      Session(layers, attached, nextHandle, flightMarkers)
    }

    /** `L.map(containerId, ...)` followed by `map.flightMarkers = new Map()` (map.js:89-101). */
    constructor ()
      ensures State() == EmptySession
    {
      layers := map[];
      attached := {};
      nextHandle := 0;
      flightMarkers := map[];
    }

    /** `L.marker(latLng)` / `L.polyline(latLngs)`: a new layer, not yet on the map. */
    method NewLayer(layer: Layer) returns (h: Handle)
      modifies this
      ensures (State(), h) == Alloc(old(State()), layer)
    {
      h := nextHandle;
      layers := layers[h := layer];
      nextHandle := nextHandle + 1;
    }

    /** `layer.setLatLng(...)` / `layer.setLatLngs(...)`. */
    method SetLayer(h: Handle, layer: Layer)
      modifies this
      ensures State() == Redraw(old(State()), h, layer)
    {
      layers := layers[h := layer];
    }

    /** `layer.addTo(map)`. */
    method AddLayer(h: Handle)
      modifies this
      ensures State() == Attach(old(State()), h)
    {
      attached := attached + {h};
    }

    /** `map.removeLayer(layer)`. */
    method RemoveLayer(h: Handle)
      modifies this
      ensures State() == Detach(old(State()), h)
    {
      attached := attached - {h};
    }

    /** `map.hasLayer(layer)`. */
    method HasLayer(h: Handle) returns (b: bool)
      ensures b <==> h in attached
    {
      b := h in attached;
    }

    /** `FlightMap.createFlightMarker(flight)` (map.js:20-70); `None` where it throws. */
    method CreateFlightMarker(f: FlightData) returns (created: Option<MarkerSet>)
      modifies this
      ensures (State(), created) == MapModel.CreateFlightMarker(old(State()), f)
    {
      if f.departure.None? {
        return None;
      }
      var d := f.departure.value.position;
      var departureMarker := NewLayer(Marker(d));
      if f.arrival.None? {
        return None;
      }
      var a := f.arrival.value.position;
      var arrivalMarker := NewLayer(Marker(a));
      var aircraftMarker: Option<Handle> := None;
      if f.position.Some? {
        var h := NewLayer(Marker(f.position.value));
        aircraftMarker := Some(h);
      }
      var flightPath := NewLayer(Polyline(CreatedPath(d, f.position, a)));
      created := Some(MarkerSet(departureMarker, arrivalMarker, flightPath, aircraftMarker));
    }

    /** The body of the `forEach` in `initialize` (map.js:106-166); `false` where it throws. */
    method Reconcile(f: FlightData) returns (ok: bool)
      modifies this
      ensures Step(old(State()), f) == if ok then Completed(State()) else Aborted(State())
    {
      if f.flightNumber in flightMarkers {
        var ms := flightMarkers[f.flightNumber];
        if f.departure.None? {
          return false;
        }
        var d := f.departure.value.position;
        SetLayer(ms.departureMarker, Marker(d));
        if f.arrival.None? {
          return false;
        }
        var a := f.arrival.value.position;
        SetLayer(ms.arrivalMarker, Marker(a));
        ghost var before := State();
        var aircraft := ms.aircraftMarker;
        if f.position.Some? && aircraft.Some? {
          SetLayer(aircraft.value, Marker(f.position.value));
          SetLayer(ms.flightPath, Polyline([d, f.position.value, a]));
          var shown := HasLayer(aircraft.value);
          if !shown {
            AddLayer(aircraft.value);
          }
        } else if f.position.Some? && aircraft.None? {
          var h := NewLayer(Marker(f.position.value));
          AddLayer(h);
          aircraft := Some(h);
        } else if f.position.None? && aircraft.Some? {
          RemoveLayer(aircraft.value);
          aircraft := None;
        }
        assert (State(), aircraft) == UpdateAircraft(before, d, a, f.position, ms);
        SetLayer(ms.flightPath, Polyline(UpdatedPath(d, f.position, a)));
        flightMarkers := flightMarkers[f.flightNumber := ms.(aircraftMarker := aircraft)];
        ok := true;
      } else {
        var created := CreateFlightMarker(f);
        if created.None? {
          return false;
        }
        var ms := created.value;
        AddLayer(ms.departureMarker);
        AddLayer(ms.arrivalMarker);
        AddLayer(ms.flightPath);
        if ms.aircraftMarker.Some? {
          AddLayer(ms.aircraftMarker.value);
        }
        assert attached == old(attached) + Handles(ms);
        flightMarkers := flightMarkers[f.flightNumber := ms];
        ok := true;
      }
    }

    /**
     * `mapData.flights.forEach(...)` inside the `try` of `initialize`
     * (map.js:105-167): the flights in order, stopping at the first that throws.
     */
    method ApplyFlights(flights: seq<FlightData>) returns (ok: bool)
      modifies this
      ensures Apply(old(State()), flights) == if ok then Completed(State()) else Aborted(State())
    {
      var i := 0;
      while i < |flights|
        invariant 0 <= i <= |flights|
        invariant Apply(old(State()), flights[..i]) == Completed(State())
      {
        assert flights[..i + 1][..i] == flights[..i];
        ok := Reconcile(flights[i]);
        if !ok {
          MapProperties.AbortIsFinal(old(State()), flights, i + 1);
          return;
        }
        i := i + 1;
      }
      assert flights[..i] == flights;
      ok := true;
    }

    /** `map.eachLayer(...)` removing every marker and polyline (map.js:177-181). */
    method RemoveAllLayers()
      modifies this
      ensures State() == old(State()).(attached := {})
    {
      while attached != {}
        invariant layers == old(layers) && nextHandle == old(nextHandle)
        invariant flightMarkers == old(flightMarkers)
        decreases |attached|
      {
        var h :| h in attached;
        RemoveLayer(h);
      }
    }
  }

  /** The static side of `FlightMap`: the `maps` registry and its two entry points. */
  class FlightMap {
    var maps: map<string, MapSession>

    /** Each container has its own map object, and every registered map is well formed. */
    ghost predicate Valid()
      reads this, maps.Values
    {
      && (forall a, b :: a in maps && b in maps && a != b ==> maps[a] != maps[b])
      && MapProperties.RegistryWF(Abstract())
    }

    /** The registry as a value. */
    function Abstract(): Registry
      reads this, maps.Values
    {
      map id | id in maps :: maps[id].State()
    }

    /** `static maps = new Map()` (map.js:2). */
    constructor ()
      ensures Valid() && Abstract() == map[]
    {
      maps := map[];
    }

    /**
     * The registry lookup of `initialize` (map.js:85-102): the registered map
     * of the container, or a new empty one that is registered first.
     */
    method Resolve(containerId: string) returns (session: MapSession)
      requires Valid()
      modifies this
      ensures Valid()
      ensures containerId in maps && maps[containerId] == session
      ensures forall id :: id in old(maps) ==> id in maps && maps[id] == old(maps)[id]
      ensures maps.Keys == old(maps).Keys + {containerId}
      ensures containerId !in old(maps) ==> fresh(session)
      ensures Abstract() == old(Abstract())[containerId :=
                if containerId in old(maps) then old(Abstract())[containerId] else EmptySession]
    {
      if containerId in maps {
        session := maps[containerId];
        assert Abstract() == old(Abstract())[containerId := old(Abstract())[containerId]];
      } else {
        session := Register(containerId);
      }
    }

    /** The unregistered case of the lookup (map.js:89-101): a new empty map object, registered under the id. */
    method Register(containerId: string) returns (session: MapSession)
      requires Valid() && containerId !in maps
      modifies this
      ensures Valid()
      ensures maps == old(maps)[containerId := session] && fresh(session)
      ensures Abstract() == old(Abstract())[containerId := EmptySession]
    {
      ghost var reg := Abstract();
      session := new MapSession();
      maps := maps[containerId := session];
      forall id | id in maps
        ensures Abstract()[id] == reg[containerId := EmptySession][id]
      {
        if id != containerId {
          assert maps[id] == old(maps)[id];
        }
      }
      assert Abstract().Keys == reg.Keys + {containerId};
      assert Abstract() == reg[containerId := EmptySession];
      forall a, b | a in maps && b in maps && a != b ensures maps[a] != maps[b]
      {
        if a != containerId && b != containerId {
          assert maps[a] == old(maps)[a] && maps[b] == old(maps)[b];
        }
      }
      assert WF(EmptySession);
      RegistryStore(reg, containerId, EmptySession);
    }

  /** The `forEach` of `initialize` run on the registered map of `containerId`. */
    method Deliver(containerId: string, flights: seq<FlightData>) returns (ok: bool)
      requires containerId in maps
      requires forall a, b :: a in maps && b in maps && a != b ==> maps[a] != maps[b]
      modifies maps[containerId]
      ensures maps == old(maps)
      ensures Abstract() == old(Abstract())[containerId := Apply(old(Abstract())[containerId], flights).session]
      ensures ok <==> Apply(old(Abstract())[containerId], flights).Completed?
    {
      var session := maps[containerId];
      ghost var reg := Abstract();
      ok := session.ApplyFlights(flights);
      forall id | id in maps
        ensures Abstract()[id] == reg[containerId := Apply(reg[containerId], flights).session][id]
      {
        if id != containerId {
          assert maps[id] != session;
        }
      }
      assert Abstract().Keys == reg.Keys;
    }

    /**
     * `FlightMap.initialize` (map.js:72-172) with the JSON already parsed
     * (`None` when `JSON.parse` throws); returns what the `catch` block logs.
     * A registered map object is reused, and an unregistered container gets a
     * new one.
     */
    method Initialize(containerId: string, payload: Option<MapData>, leafletLoaded: bool, containerFound: bool)
      returns (err: Option<InitError>)
      requires Valid()
      modifies this, maps.Values
      ensures Valid()
      ensures (Abstract(), err) == MapModel.Initialize(old(Abstract()), containerId, payload, leafletLoaded, containerFound)
      ensures forall id :: id in old(maps) ==> id in maps && maps[id] == old(maps)[id]
      ensures containerId in maps && containerId !in old(maps) ==> fresh(maps[containerId])
    {
      if payload.None? {
        return Some(InvalidJson);
      }
      if !leafletLoaded {
        return Some(LeafletNotLoaded);
      }
      if !containerFound {
        return Some(ContainerNotFound);
      }
      ghost var reg := Abstract();
      ghost var base := if containerId in reg then reg[containerId] else EmptySession;
      var session := Resolve(containerId);
      assert Abstract() == reg[containerId := base];
      if payload.value.flights.None? {
        err := Some(FlightsMissing);
      } else {
        var flights := payload.value.flights.value;
        ghost var resolved := Abstract();
        var ok := Deliver(containerId, flights);
        err := if ok then None else Some(MalformedFlight);
        ghost var outcome := Apply(base, flights);
        assert resolved[containerId] == base;
        assert Abstract() == resolved[containerId := outcome.session];
        UpdateTwice(reg, containerId, base, outcome.session);
        assert MapModel.Initialize(reg, containerId, payload, leafletLoaded, containerFound) ==
          (reg[containerId := outcome.session], if outcome.Completed? then None else Some(MalformedFlight));
      }
      MapProperties.InitializeWF(reg, containerId, payload, leafletLoaded, containerFound);
    }

    /**
     * `FlightMap.cleanup` (map.js:174-184): the map of a registered container
     * loses every layer and the entry is dropped; an unknown id is ignored.
     */
    method Cleanup(containerId: string)
      requires Valid()
      modifies this, maps.Values
      ensures Valid()
      ensures Abstract() == MapModel.Cleanup(old(Abstract()), containerId).0
      ensures containerId in old(maps) ==>
                MapModel.Cleanup(old(Abstract()), containerId).1 == Some(old(maps)[containerId].State())
    {
      if containerId in maps {
        ghost var reg := Abstract();
        var session := maps[containerId];
        session.RemoveAllLayers();
        maps := maps - {containerId};
        assert forall id :: id in maps ==> maps[id] != session && maps[id].State() == reg[id];
        assert Abstract() == reg - {containerId};
      }
    }
  }

  /** Registering a well-formed map keeps the registry well formed. */
  lemma RegistryStore(reg: Registry, id: string, s: Session)
    requires MapProperties.RegistryWF(reg) && WF(s)
    ensures MapProperties.RegistryWF(reg[id := s])
  {
  }

  /** Two updates of the same key: the second wins. */
  lemma UpdateTwice(reg: Registry, id: string, a: Session, b: Session)
    ensures reg[id := a][id := b] == reg[id := b]
  {
  }
}
