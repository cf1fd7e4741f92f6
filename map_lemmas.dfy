/**
 * What the flight map of crates/cockpit/assets/map.js guarantees, proved about
 * the value model in MapModel.
 */
module MapProperties {
  import opened Wrappers
  import opened MapModel

  /** A flight object whose `departure` and `arrival` can both be read. */
  predicate Readable(f: FlightData)
  {
    f.departure.Some? && f.arrival.Some?
  }

  /** `n` is the flight number of some entry of the snapshot. */
  ghost predicate Lists(flights: seq<FlightData>, n: string)
  {
    exists i :: 0 <= i < |flights| && flights[i].flightNumber == n
  }

  /** No flight number occurs twice in the snapshot. */
  ghost predicate UniqueNumbers(flights: seq<FlightData>)
  {
    forall i, j :: 0 <= i < j < |flights| ==> flights[i].flightNumber != flights[j].flightNumber
  }

  /**
   * The marker set stored under `n` in `s` is still stored in `t`, and its
   * layers are drawn and attached in `t` exactly as in `s`.
   */
  ghost predicate Keeps(s: Session, t: Session, n: string)
  {
    n in s.flightMarkers ==>
      && n in t.flightMarkers
      && t.flightMarkers[n] == s.flightMarkers[n]
      && (forall h :: h in Handles(s.flightMarkers[n]) && h in s.layers ==>
            h in t.layers && t.layers[h] == s.layers[h])
      && (forall h :: h in Handles(s.flightMarkers[n]) ==> (h in t.attached <==> h in s.attached))
  }

  /**
   * The map shows flight `f`: its marker set is stored, every layer of it is
   * drawn and attached, the endpoint markers sit on the airports, there is an
   * aircraft marker exactly when `f` has a position and it sits there, and
   * the route line is the one `createFlightMarker` draws (`created`) or the
   * one the update branch leaves behind.
   */
  ghost predicate Shows(t: Session, f: FlightData, created: bool)
  {
    && Readable(f)
    && f.flightNumber in t.flightMarkers
    && var ms := t.flightMarkers[f.flightNumber];
       var d, a := f.departure.value.position, f.arrival.value.position;
       && Handles(ms) <= t.layers.Keys
       && Handles(ms) <= t.attached
       && t.layers[ms.departureMarker] == Marker(d)
       && t.layers[ms.arrivalMarker] == Marker(a)
       && t.layers[ms.flightPath] ==
            Polyline(if created then CreatedPath(d, f.position, a) else UpdatedPath(d, f.position, a))
       && (ms.aircraftMarker.Some? <==> f.position.Some?)
       && (f.position.Some? ==> t.layers[ms.aircraftMarker.value] == Marker(f.position.value))
  }

  // ---------------------------------------------------------------------------
  // Creating a marker set

  /**
   * `createFlightMarker` only adds layers at fresh handles and attaches
   * nothing; a marker set it returns has pairwise different fresh handles.
   */
  lemma CreateFlightMarkerFresh(s: Session, f: FlightData)
    requires forall h :: h in s.layers ==> h < s.nextHandle
    ensures var (t, created) := CreateFlightMarker(s, f);
      && t.attached == s.attached
      && t.flightMarkers == s.flightMarkers
      && s.nextHandle <= t.nextHandle
      && (forall h :: h in s.layers ==> h in t.layers && t.layers[h] == s.layers[h])
      && (forall h :: h in t.layers ==> h < t.nextHandle)
      && (created.Some? ==>
            && Distinct(created.value)
            && (forall h :: h in Handles(created.value) ==> s.nextHandle <= h && h in t.layers))
  {
  }

  /**
   * The new-flight branch: for a readable flight whose number is not stored,
   * the marker set is created, attached and stored, with fresh handles, the
   * route line through the aircraft, and an aircraft marker exactly when the
   * flight has a position.
   */
  lemma {:induction false} AddFlightEffect(s: Session, f: FlightData)
    requires WF(s) && Readable(f) && f.flightNumber !in s.flightMarkers
    ensures AddFlight(s, f).Completed?
    ensures Shows(AddFlight(s, f).session, f, true)
    ensures forall h :: h in Handles(AddFlight(s, f).session.flightMarkers[f.flightNumber]) ==>
              h !in s.layers && h !in s.attached
  {
    CreateFlightMarkerFresh(s, f);
  }

  /** A flight without a departure throws before anything happens. */
  lemma AddFlightWithoutDeparture(s: Session, f: FlightData)
    requires f.departure.None?
    ensures AddFlight(s, f) == Aborted(s)
  {
  }

  /**
   * A flight without an arrival throws after its departure marker was
   * created: the table and the attached layers stay as they were.
   */
  lemma AddFlightWithoutArrival(s: Session, f: FlightData)
    requires f.departure.Some? && f.arrival.None?
    ensures var r := AddFlight(s, f);
      && r.Aborted?
      && r.session.flightMarkers == s.flightMarkers
      && r.session.attached == s.attached
      && r.session.nextHandle == s.nextHandle + 1
  {
  }

  /** The layers `createFlightMarker` adds leave the map well formed: none of them is attached yet. */
  lemma {:induction false} CreateFlightMarkerWF(s: Session, f: FlightData)
    requires WF(s)
    ensures WF(CreateFlightMarker(s, f).0)
  {
    CreateFlightMarkerFresh(s, f);
    var t := CreateFlightMarker(s, f).0;
    forall n | n in t.flightMarkers
      ensures Handles(t.flightMarkers[n]) <= t.layers.Keys
    {
      assert Handles(s.flightMarkers[n]) <= s.layers.Keys;
    }
  }

  /** StoreFreshWF, first part: the stored sets stay drawn and attached. */
  lemma {:induction false} StoreFreshDrawn(s: Session, fn: string, ms: MarkerSet)
    requires WF(s) && fn !in s.flightMarkers
    requires Distinct(ms) && Handles(ms) <= s.layers.Keys
    requires forall n :: n in s.flightMarkers ==> Handles(s.flightMarkers[n]) !! Handles(ms)
    ensures SetsDrawn(s.(attached := s.attached + Handles(ms), flightMarkers := s.flightMarkers[fn := ms]))
  {
    var t := s.(attached := s.attached + Handles(ms), flightMarkers := s.flightMarkers[fn := ms]);
    forall n | n in t.flightMarkers
      ensures Distinct(t.flightMarkers[n])
      ensures Handles(t.flightMarkers[n]) <= t.layers.Keys && Handles(t.flightMarkers[n]) <= t.attached
    {
      if n != fn {
        assert t.flightMarkers[n] == s.flightMarkers[n];
      }
    }
  }

  /** StoreFreshWF, second part: no two stored sets share a handle. */
  lemma {:induction false} StoreFreshDisjoint(s: Session, fn: string, ms: MarkerSet)
    requires WF(s) && fn !in s.flightMarkers
    requires Distinct(ms) && Handles(ms) <= s.layers.Keys
    requires forall n :: n in s.flightMarkers ==> Handles(s.flightMarkers[n]) !! Handles(ms)
    ensures SetsDisjoint(s.(attached := s.attached + Handles(ms), flightMarkers := s.flightMarkers[fn := ms]))
  {
    var t := s.(attached := s.attached + Handles(ms), flightMarkers := s.flightMarkers[fn := ms]);
    forall n, m | n in t.flightMarkers && m in t.flightMarkers && n != m
      ensures Handles(t.flightMarkers[n]) !! Handles(t.flightMarkers[m])
    {
      if n == fn {
        assert Handles(t.flightMarkers[m]) !! Handles(ms);
      } else if m == fn {
        assert Handles(t.flightMarkers[n]) !! Handles(ms);
      } else {
        assert t.flightMarkers[n] == s.flightMarkers[n] && t.flightMarkers[m] == s.flightMarkers[m];
      }
    }
  }

  /** StoreFreshWF, third part: every attached layer belongs to a stored set. */
  lemma {:induction false} StoreFreshNoStray(s: Session, fn: string, ms: MarkerSet)
    requires NoStrayLayers(s) && fn !in s.flightMarkers
    ensures NoStrayLayers(s.(attached := s.attached + Handles(ms), flightMarkers := s.flightMarkers[fn := ms]))
  {
    var t := s.(attached := s.attached + Handles(ms), flightMarkers := s.flightMarkers[fn := ms]);
    forall h | h in t.attached ensures Owned(t.flightMarkers, h)
    {
      if h in Handles(ms) {
        assert fn in t.flightMarkers && h in Handles(t.flightMarkers[fn]);
      } else {
        var n :| n in s.flightMarkers && h in Handles(s.flightMarkers[n]);
        assert n in t.flightMarkers && h in Handles(t.flightMarkers[n]);
      }
    }
  }

  /** Storing and attaching a marker set whose handles no stored set uses keeps the map well formed. */
  lemma StoreFreshWF(s: Session, fn: string, ms: MarkerSet)
    requires WF(s) && fn !in s.flightMarkers
    requires Distinct(ms) && Handles(ms) <= s.layers.Keys
    requires forall n :: n in s.flightMarkers ==> Handles(s.flightMarkers[n]) !! Handles(ms)
    ensures WF(s.(attached := s.attached + Handles(ms), flightMarkers := s.flightMarkers[fn := ms]))
  {
    StoreFreshDrawn(s, fn, ms);
    StoreFreshDisjoint(s, fn, ms);
    StoreFreshNoStray(s, fn, ms);
  }

  lemma {:induction false} AddFlightWF(s: Session, f: FlightData)
    requires WF(s) && f.flightNumber !in s.flightMarkers
    ensures WF(AddFlight(s, f).session)
  {
    CreateFlightMarkerFresh(s, f);
    CreateFlightMarkerWF(s, f);
    var (s1, created) := CreateFlightMarker(s, f);
    if created.Some? {
      var ms := created.value;
      forall n | n in s1.flightMarkers ensures Handles(s1.flightMarkers[n]) !! Handles(ms)
      {
        assert Handles(s.flightMarkers[n]) <= s.layers.Keys;
      }
      StoreFreshWF(s1, f.flightNumber, ms);
    }
  }

  // ---------------------------------------------------------------------------
  // Updating a marker set

  /** UpdateFlightEffect for a marker set given directly, drawn and attached in `s`. */
  lemma {:induction false} UpdateReadable(s: Session, f: FlightData, ms: MarkerSet)
    requires HandlesIssued(s) && Readable(f)
    requires Distinct(ms) && Handles(ms) <= s.layers.Keys && Handles(ms) <= s.attached
    ensures var r := UpdateFlight(s, f, ms);
      && r.Completed?
      && Shows(r.session, f, false)
      && var ms' := r.session.flightMarkers[f.flightNumber];
      && ms'.departureMarker == ms.departureMarker
      && ms'.arrivalMarker == ms.arrivalMarker
      && ms'.flightPath == ms.flightPath
      // position and marker: the same marker is moved
      && (f.position.Some? && ms.aircraftMarker.Some? ==> ms'.aircraftMarker == ms.aircraftMarker)
      // position, no marker: a new one is created and attached
      && (f.position.Some? && ms.aircraftMarker.None? ==>
            ms'.aircraftMarker == Some(s.nextHandle) && r.session.nextHandle == s.nextHandle + 1)
      // marker, no position: it is detached and forgotten
      && (f.position.None? && ms.aircraftMarker.Some? ==>
            ms'.aircraftMarker.None? && ms.aircraftMarker.value !in r.session.attached)
      // no new layer is created unless a new aircraft marker is
      && (!(f.position.Some? && ms.aircraftMarker.None?) ==> r.session.nextHandle == s.nextHandle)
  {
    var fn := f.flightNumber;
    var d, a := f.departure.value.position, f.arrival.value.position;
    var s2 := Redraw(Redraw(s, ms.departureMarker, Marker(d)), ms.arrivalMarker, Marker(a));
    assert s2.layers.Keys == s.layers.Keys;
    UpdateAircraftShape(s2, d, a, f.position, ms);
    var (s3, aircraft) := UpdateAircraft(s2, d, a, f.position, ms);
    var ms' := ms.(aircraftMarker := aircraft);
    var s4 := Redraw(s3, ms.flightPath, Polyline(UpdatedPath(d, f.position, a)));
    var t := s4.(flightMarkers := s4.flightMarkers[fn := ms']);
    assert UpdateFlight(s, f, ms) == Completed(t);
    assert t.layers[ms.departureMarker] == Marker(d);
    assert t.layers[ms.arrivalMarker] == Marker(a);
    assert t.layers[ms.flightPath] == Polyline(UpdatedPath(d, f.position, a));
    assert Handles(ms') <= t.layers.Keys && Handles(ms') <= t.attached;
  }

  /**
   * The update branch on a readable flight: the endpoint markers and the
   * route line keep their handles and are moved, the aircraft marker follows
   * the four cases of map.js, and the route line ends at the aircraft (or at
   * the arrival when there is no position).
   */
  lemma {:induction false} UpdateFlightEffect(s: Session, f: FlightData)
    requires WF(s) && Readable(f) && f.flightNumber in s.flightMarkers
    ensures var ms := s.flightMarkers[f.flightNumber];
      var r := UpdateFlight(s, f, ms);
      && r.Completed?
      && Shows(r.session, f, false)
      && var ms' := r.session.flightMarkers[f.flightNumber];
      && ms'.departureMarker == ms.departureMarker
      && ms'.arrivalMarker == ms.arrivalMarker
      && ms'.flightPath == ms.flightPath
      // position and marker: the same marker is moved
      && (f.position.Some? && ms.aircraftMarker.Some? ==> ms'.aircraftMarker == ms.aircraftMarker)
      // position, no marker: a new one is created and attached
      && (f.position.Some? && ms.aircraftMarker.None? ==>
            ms'.aircraftMarker == Some(s.nextHandle) && r.session.nextHandle == s.nextHandle + 1)
      // marker, no position: it is detached and forgotten
      && (f.position.None? && ms.aircraftMarker.Some? ==>
            ms'.aircraftMarker.None? && ms.aircraftMarker.value !in r.session.attached)
      // no new layer is created unless a new aircraft marker is
      && (!(f.position.Some? && ms.aircraftMarker.None?) ==> r.session.nextHandle == s.nextHandle)
  {
    var ms := s.flightMarkers[f.flightNumber];
    assert Distinct(ms) && Handles(ms) <= s.layers.Keys && Handles(ms) <= s.attached;
    UpdateReadable(s, f, ms);
  }

  /** A flight without a departure changes nothing on update. */
  lemma UpdateFlightWithoutDeparture(s: Session, f: FlightData, ms: MarkerSet)
    requires f.departure.None?
    ensures UpdateFlight(s, f, ms) == Aborted(s)
  {
  }

  /**
   * A flight without an arrival throws after its departure marker moved:
   * only that marker's position changed.
   */
  lemma UpdateFlightWithoutArrival(s: Session, f: FlightData, ms: MarkerSet)
    requires f.departure.Some? && f.arrival.None?
    ensures UpdateFlight(s, f, ms) ==
      Aborted(s.(layers := s.layers[ms.departureMarker := Marker(f.departure.value.position)]))
  {
  }

  /**
   * The aircraft-marker step of an update changes only the aircraft marker
   * and the route line, allocates at most one fresh handle, and attaches
   * exactly the handles of the resulting marker set.
   */
  lemma UpdateAircraftShape(s: Session, d: Coord, a: Coord, position: Option<Coord>, ms: MarkerSet)
    requires Distinct(ms) && Handles(ms) <= s.attached && Handles(ms) <= s.layers.Keys
    requires forall h :: h in s.layers ==> h < s.nextHandle
    ensures var (t, aircraft) := UpdateAircraft(s, d, a, position, ms);
      var ms' := ms.(aircraftMarker := aircraft);
      && t.flightMarkers == s.flightMarkers
      && (forall h :: h in t.layers <==> h in s.layers || (h == s.nextHandle && h in Handles(ms')))
      && t.nextHandle == (if s.nextHandle in Handles(ms') then s.nextHandle + 1 else s.nextHandle)
      && (forall h :: h in s.layers && h != ms.flightPath && Some(h) != ms.aircraftMarker ==>
            t.layers[h] == s.layers[h])
      && (forall h :: h in t.attached <==> (h in s.attached && h !in Handles(ms)) || h in Handles(ms'))
      && Distinct(ms')
      && Handles(ms') <= Handles(ms) + {s.nextHandle}
      && (aircraft.Some? <==> position.Some?)
      && (position.Some? ==> aircraft.value in t.layers && t.layers[aircraft.value] == Marker(position.value))
      && (position.Some? && ms.aircraftMarker.Some? ==> aircraft == ms.aircraftMarker)
      && (position.Some? && ms.aircraftMarker.None? ==> aircraft == Some(s.nextHandle))
      && (position.None? && ms.aircraftMarker.Some? ==> ms.aircraftMarker.value !in t.attached)
  {
    var (t, aircraft) := UpdateAircraft(s, d, a, position, ms);
    var ms' := ms.(aircraftMarker := aircraft);
    match (position, ms.aircraftMarker)
    case (Some(p), Some(h)) =>
      assert Handles(ms') == Handles(ms);
      assert forall x :: x in t.attached <==> x in s.attached;
    case (Some(p), None) =>
      assert Handles(ms') == Handles(ms) + {s.nextHandle};
      assert forall x :: x in t.attached <==> (x in s.attached && x !in Handles(ms)) || x in Handles(ms');
    case (None, Some(h)) =>
      assert Handles(ms) == Handles(ms') + {h};
      assert forall x :: x in t.attached <==> (x in s.attached && x !in Handles(ms)) || x in Handles(ms');
    case (None, None) =>
  }

  /**
   * The update branch as a whole: the same kind of change as
   * UpdateAircraftShape, plus the endpoint markers and the route line redrawn.
   */
  lemma {:induction false} UpdateFlightShape(s: Session, f: FlightData)
    requires HandlesIssued(s) && SetsDrawn(s) && f.flightNumber in s.flightMarkers
    ensures var ms := s.flightMarkers[f.flightNumber];
      var r := UpdateFlight(s, f, ms);
      var ms' := if r.Completed? then r.session.flightMarkers[f.flightNumber] else ms;
      && Replaces(s, r.session, f.flightNumber, ms')
      && (forall h :: h in s.layers && h !in Handles(ms) ==> r.session.layers[h] == s.layers[h])
  {
    var ms := s.flightMarkers[f.flightNumber];
    assert Distinct(ms) && Handles(ms) <= s.layers.Keys && Handles(ms) <= s.attached;
    if Readable(f) {
      UpdateReadableShape(s, f, ms);
    } else {
      UpdateUnreadableShape(s, f, ms);
    }
  }

  /** UpdateFlightShape for a readable flight, with its stored marker set given directly. */
  lemma {:induction false} UpdateReadableShape(s: Session, f: FlightData, ms: MarkerSet)
    requires HandlesIssued(s) && Readable(f)
    requires f.flightNumber in s.flightMarkers && s.flightMarkers[f.flightNumber] == ms
    requires Distinct(ms) && Handles(ms) <= s.layers.Keys && Handles(ms) <= s.attached
    ensures var r := UpdateFlight(s, f, ms);
      && r.Completed?
      && Replaces(s, r.session, f.flightNumber, r.session.flightMarkers[f.flightNumber])
      && (forall h :: h in s.layers && h !in Handles(ms) ==> r.session.layers[h] == s.layers[h])
  {
    var fn := f.flightNumber;
    var d, a := f.departure.value.position, f.arrival.value.position;
    var s2 := Redraw(Redraw(s, ms.departureMarker, Marker(d)), ms.arrivalMarker, Marker(a));
    assert s2.layers.Keys == s.layers.Keys;
    UpdateAircraftShape(s2, d, a, f.position, ms);
    var (s3, aircraft) := UpdateAircraft(s2, d, a, f.position, ms);
    var s4 := Redraw(s3, ms.flightPath, Polyline(UpdatedPath(d, f.position, a)));
    var ms' := ms.(aircraftMarker := aircraft);
    var t := s4.(flightMarkers := s4.flightMarkers[fn := ms']);
    assert UpdateFlight(s, f, ms) == Completed(t);
    assert t.flightMarkers[fn] == ms';
    assert Replaces(s, t, fn, ms');
  }

  /** UpdateFlightShape for an unreadable flight: only endpoint markers are redrawn. */
  lemma {:induction false} UpdateUnreadableShape(s: Session, f: FlightData, ms: MarkerSet)
    requires HandlesIssued(s) && !Readable(f)
    requires f.flightNumber in s.flightMarkers && s.flightMarkers[f.flightNumber] == ms
    requires Distinct(ms) && Handles(ms) <= s.layers.Keys && Handles(ms) <= s.attached
    ensures var r := UpdateFlight(s, f, ms);
      && r.Aborted?
      && Replaces(s, r.session, f.flightNumber, ms)
      && (forall h :: h in s.layers && h !in Handles(ms) ==> r.session.layers[h] == s.layers[h])
  {
    assert s.flightMarkers[f.flightNumber := ms] == s.flightMarkers;
    if f.departure.Some? {
      var t := Redraw(s, ms.departureMarker, Marker(f.departure.value.position));
      assert UpdateFlight(s, f, ms) == Aborted(t);
      assert t.layers.Keys == s.layers.Keys;
    }
  }

  /**
   * Replacing one stored marker set by one with the same handles, possibly
   * plus one fresh handle, keeps the map well formed when exactly the new
   * set's handles are attached in place of the old set's.
   */
  ghost predicate Replaces(s: Session, t: Session, fn: string, ms': MarkerSet)
  {
    && fn in s.flightMarkers
    && t.flightMarkers == s.flightMarkers[fn := ms']
    && (forall h :: h in t.layers <==> h in s.layers || (h == s.nextHandle && h in Handles(ms')))
    && t.nextHandle == (if s.nextHandle in Handles(ms') then s.nextHandle + 1 else s.nextHandle)
    && (forall h :: h in t.attached <==>
          (h in s.attached && h !in Handles(s.flightMarkers[fn])) || h in Handles(ms'))
    && Distinct(ms') && Handles(ms') <= Handles(s.flightMarkers[fn]) + {s.nextHandle}
  }

  lemma ReplaceIssued(s: Session, t: Session, fn: string, ms': MarkerSet)
    requires HandlesIssued(s) && Replaces(s, t, fn, ms')
    ensures HandlesIssued(t)
  {
  }

  lemma {:induction false} ReplaceDrawn(s: Session, t: Session, fn: string, ms': MarkerSet)
    requires SetsDrawn(s) && SetsDisjoint(s) && Replaces(s, t, fn, ms')
    ensures SetsDrawn(t)
  {
    var ms := s.flightMarkers[fn];
    forall n | n in t.flightMarkers
      ensures Handles(t.flightMarkers[n]) <= t.layers.Keys && Handles(t.flightMarkers[n]) <= t.attached
    {
      if n != fn {
        assert Handles(s.flightMarkers[n]) !! Handles(ms);
        assert Handles(s.flightMarkers[n]) <= s.layers.Keys;
      } else {
        assert Handles(ms) <= s.layers.Keys;
      }
    }
  }

  lemma {:induction false} ReplaceDisjoint(s: Session, t: Session, fn: string, ms': MarkerSet)
    requires HandlesIssued(s) && SetsDrawn(s) && SetsDisjoint(s) && Replaces(s, t, fn, ms')
    ensures SetsDisjoint(t)
  {
    var ms := s.flightMarkers[fn];
    forall n, m | n in t.flightMarkers && m in t.flightMarkers && n != m
      ensures Handles(t.flightMarkers[n]) !! Handles(t.flightMarkers[m])
    {
      if n == fn {
        assert Handles(s.flightMarkers[m]) <= s.layers.Keys;
        assert Handles(s.flightMarkers[m]) !! Handles(ms);
      } else if m == fn {
        assert Handles(s.flightMarkers[n]) <= s.layers.Keys;
        assert Handles(s.flightMarkers[n]) !! Handles(ms);
      }
    }
  }

  lemma {:induction false} ReplaceNoStray(s: Session, t: Session, fn: string, ms': MarkerSet)
    requires NoStrayLayers(s) && Replaces(s, t, fn, ms')
    ensures NoStrayLayers(t)
  {
    forall h | h in t.attached ensures Owned(t.flightMarkers, h)
    {
      if h in Handles(ms') {
        assert fn in t.flightMarkers && h in Handles(t.flightMarkers[fn]);
      } else {
        var n :| n in s.flightMarkers && h in Handles(s.flightMarkers[n]);
        assert n != fn;
        assert n in t.flightMarkers && h in Handles(t.flightMarkers[n]);
      }
    }
  }

  lemma {:induction false} UpdateFlightWF(s: Session, f: FlightData)
    requires WF(s) && f.flightNumber in s.flightMarkers
    ensures WF(UpdateFlight(s, f, s.flightMarkers[f.flightNumber]).session)
  {
    UpdateFlightShape(s, f);
    var r := UpdateFlight(s, f, s.flightMarkers[f.flightNumber]);
    var ms' := if r.Completed? then r.session.flightMarkers[f.flightNumber] else s.flightMarkers[f.flightNumber];
    assert Replaces(s, r.session, f.flightNumber, ms');
    ReplaceIssued(s, r.session, f.flightNumber, ms');
    ReplaceDrawn(s, r.session, f.flightNumber, ms');
    ReplaceDisjoint(s, r.session, f.flightNumber, ms');
    ReplaceNoStray(s, r.session, f.flightNumber, ms');
  }

  // ---------------------------------------------------------------------------
  // One flight, either branch

  lemma StepWF(s: Session, f: FlightData)
    requires WF(s)
    ensures WF(Step(s, f).session)
  {
    if f.flightNumber in s.flightMarkers {
      UpdateFlightWF(s, f);
    } else {
      AddFlightWF(s, f);
    }
  }

  /** The body of the loop throws exactly for a flight whose departure or arrival is missing. */
  lemma StepAbortsIffUnreadable(s: Session, f: FlightData)
    ensures Step(s, f).Aborted? <==> !Readable(f)
  {
  }

  /** A readable flight is shown afterwards, with a fresh route line exactly when it was new. */
  lemma StepShows(s: Session, f: FlightData)
    requires WF(s) && Readable(f)
    ensures Step(s, f).Completed?
    ensures Shows(Step(s, f).session, f, f.flightNumber !in s.flightMarkers)
  {
    if f.flightNumber in s.flightMarkers {
      UpdateFlightEffect(s, f);
    } else {
      AddFlightEffect(s, f);
    }
  }

  /** The loop body touches no other flight's marker set, and stores only its own. */
  lemma {:induction false} StepFrame(s: Session, f: FlightData, n: string)
    requires WF(s) && n != f.flightNumber
    ensures Keeps(s, Step(s, f).session, n)
    ensures n in Step(s, f).session.flightMarkers <==> n in s.flightMarkers
    ensures f.flightNumber in Step(s, f).session.flightMarkers <==>
              f.flightNumber in s.flightMarkers || Step(s, f).Completed?
  {
    if n in s.flightMarkers {
      var other := s.flightMarkers[n];
      assert Handles(other) <= s.layers.Keys;
      if f.flightNumber in s.flightMarkers {
        UpdateFlightShape(s, f);
        assert Handles(s.flightMarkers[f.flightNumber]) !! Handles(other);
      } else {
        CreateFlightMarkerFresh(s, f);
      }
    } else if f.flightNumber in s.flightMarkers {
      UpdateFlightShape(s, f);
    }
  }

  /** Keeping a flight's marker set keeps it shown. */
  lemma KeepsShows(s: Session, t: Session, f: FlightData, created: bool)
    requires Shows(s, f, created) && Keeps(s, t, f.flightNumber)
    ensures Shows(t, f, created)
  {
  }

  lemma KeepsTransitive(s: Session, t: Session, u: Session, n: string)
    requires Keeps(s, t, n) && Keeps(t, u, n)
    ensures Keeps(s, u, n)
  {
  }

  // ---------------------------------------------------------------------------
  // A whole snapshot

  lemma {:induction false} ApplyWF(s: Session, flights: seq<FlightData>)
    requires WF(s)
    ensures WF(Apply(s, flights).session)
    decreases |flights|
  {
    if flights != [] {
      var prefix := flights[..|flights| - 1];
      ApplyWF(s, prefix);
      if Apply(s, prefix).Completed? {
        StepWF(Apply(s, prefix).session, flights[|flights| - 1]);
      }
    }
  }

  /** Once the loop has thrown, later flights are not looked at. */
  lemma {:induction false} AbortIsFinal(s: Session, flights: seq<FlightData>, k: nat)
    requires k <= |flights| && Apply(s, flights[..k]).Aborted?
    ensures Apply(s, flights) == Apply(s, flights[..k])
    decreases |flights| - k
  {
    if k < |flights| {
      var prefix := flights[..|flights| - 1];
      assert prefix[..k] == flights[..k];
      AbortIsFinal(s, prefix, k);
    } else {
      assert flights[..k] == flights;
    }
  }

  /** A non-empty snapshot holds an unreadable flight exactly when its prefix or its last flight does. */
  lemma {:induction false} UnreadableSplit(flights: seq<FlightData>, prefix: seq<FlightData>)
    requires |flights| > 0 && prefix == flights[..|flights| - 1]
    ensures (exists i :: 0 <= i < |flights| && !Readable(flights[i])) <==>
            (exists i :: 0 <= i < |prefix| && !Readable(prefix[i])) || !Readable(flights[|flights| - 1])
  {
    var k := |flights| - 1;
    if exists i :: 0 <= i < |flights| && !Readable(flights[i]) {
      var i :| 0 <= i < |flights| && !Readable(flights[i]);
      if i < k {
        assert prefix[i] == flights[i];
      }
    }
    if exists i :: 0 <= i < |prefix| && !Readable(prefix[i]) {
      var i :| 0 <= i < |prefix| && !Readable(prefix[i]);
      assert prefix[i] == flights[i];
    }
  }

  /** The snapshot is rejected exactly when one of its flights cannot be read. */
  lemma {:induction false} ApplyAbortsIffUnreadable(s: Session, flights: seq<FlightData>)
    ensures Apply(s, flights).Aborted? <==> exists i :: 0 <= i < |flights| && !Readable(flights[i])
    decreases |flights|
  {
    if flights != [] {
      var k := |flights| - 1;
      var prefix := flights[..k];
      ApplyAbortsIffUnreadable(s, prefix);
      UnreadableSplit(flights, prefix);
      if Apply(s, prefix).Completed? {
        StepAbortsIffUnreadable(Apply(s, prefix).session, flights[k]);
        assert Apply(s, flights) == Step(Apply(s, prefix).session, flights[k]);
      } else {
        assert Apply(s, flights) == Apply(s, prefix);
      }
    }
  }

  /**
   * The first unreadable flight aborts the call: the flights before it are
   * reconciled, it adds no table entry and no visible layer, and the flights
   * after it are skipped.
   */
  lemma {:induction false} FirstUnreadableAborts(s: Session, flights: seq<FlightData>, i: nat)
    requires i < |flights| && !Readable(flights[i])
    requires forall j :: 0 <= j < i ==> Readable(flights[j])
    ensures Apply(s, flights[..i]).Completed?
    ensures Apply(s, flights).Aborted?
    ensures Apply(s, flights) == Apply(s, flights[..i + 1])
    ensures Apply(s, flights).session.flightMarkers == Apply(s, flights[..i]).session.flightMarkers
    ensures Apply(s, flights).session.attached == Apply(s, flights[..i]).session.attached
  {
    ApplyAbortsIffUnreadable(s, flights[..i]);
    var t := Apply(s, flights[..i]).session;
    assert flights[..i + 1][..i] == flights[..i];
    assert Apply(s, flights[..i + 1]) == Step(t, flights[i]);
    StepAbortsIffUnreadable(t, flights[i]);
    AbortIsFinal(s, flights, i + 1);
  }

  /** `t` reflects the snapshot `flights` delivered to `s` (see ApplyReflects). */
  ghost predicate Reflects(s: Session, flights: seq<FlightData>, t: Session)
  {
    && (forall i :: 0 <= i < |flights| ==> Shows(t, flights[i], flights[i].flightNumber !in s.flightMarkers))
    && (forall n :: !Lists(flights, n) ==> Keeps(s, t, n))
    && (forall n :: n in t.flightMarkers <==> n in s.flightMarkers || Lists(flights, n))
  }

  /** The flights of a snapshot before its last one do not list the last one's number. */
  lemma {:induction false} PrefixOmitsLast(flights: seq<FlightData>)
    requires |flights| > 0 && UniqueNumbers(flights)
    ensures !Lists(flights[..|flights| - 1], flights[|flights| - 1].flightNumber)
  {
    var k := |flights| - 1;
    forall i | 0 <= i < k ensures flights[..k][i].flightNumber != flights[k].flightNumber
    {
      assert flights[..k][i] == flights[i];
    }
  }

  /** A number is listed by a non-empty snapshot exactly when it is the last one's or its prefix lists it. */
  lemma {:induction false} ListsSplit(flights: seq<FlightData>, n: string)
    requires |flights| > 0
    ensures Lists(flights, n) <==> Lists(flights[..|flights| - 1], n) || flights[|flights| - 1].flightNumber == n
  {
    var k := |flights| - 1;
    if Lists(flights, n) && flights[k].flightNumber != n {
      var i :| 0 <= i < |flights| && flights[i].flightNumber == n;
      assert flights[..k][i].flightNumber == n;
    }
    if Lists(flights[..k], n) {
      var i :| 0 <= i < k && flights[..k][i].flightNumber == n;
      assert flights[i].flightNumber == n;
    }
    if flights[k].flightNumber == n {
      assert Lists(flights, n);
    }
  }

  /** One more flight, first part of Reflects: every flight of the snapshot is shown. */
  lemma {:induction false} ReflectsStepShows(s: Session, flights: seq<FlightData>, t: Session, u: Session)
    requires |flights| > 0
    requires forall i :: 0 <= i < |flights| - 1 ==>
               Shows(t, flights[i], flights[i].flightNumber !in s.flightMarkers)
    requires Shows(u, flights[|flights| - 1], flights[|flights| - 1].flightNumber !in s.flightMarkers)
    requires forall n :: n != flights[|flights| - 1].flightNumber ==> Keeps(t, u, n)
    requires !Lists(flights[..|flights| - 1], flights[|flights| - 1].flightNumber)
    ensures forall i :: 0 <= i < |flights| ==> Shows(u, flights[i], flights[i].flightNumber !in s.flightMarkers)
  {
    var k := |flights| - 1;
    forall i | 0 <= i < k
      ensures Shows(u, flights[i], flights[i].flightNumber !in s.flightMarkers)
    {
      assert flights[..k][i] == flights[i];
      KeepsShows(t, u, flights[i], flights[i].flightNumber !in s.flightMarkers);
    }
  }

  /** One more flight, second part of Reflects: a number the snapshot does not list keeps its marker set. */
  lemma {:induction false} ReflectsStepKeeps(s: Session, flights: seq<FlightData>, t: Session, u: Session)
    requires |flights| > 0
    requires forall n :: !Lists(flights[..|flights| - 1], n) ==> Keeps(s, t, n)
    requires forall n :: n != flights[|flights| - 1].flightNumber ==> Keeps(t, u, n)
    ensures forall n :: !Lists(flights, n) ==> Keeps(s, u, n)
  {
    forall n | !Lists(flights, n) ensures Keeps(s, u, n)
    {
      ListsSplit(flights, n);
      KeepsTransitive(s, t, u, n);
    }
  }

  /** One more flight, third part of Reflects: the table holds the old numbers and the listed ones. */
  lemma {:induction false} ReflectsStepTable(s: Session, flights: seq<FlightData>, t: Session, u: Session)
    requires |flights| > 0
    requires forall n :: n in t.flightMarkers <==> n in s.flightMarkers || Lists(flights[..|flights| - 1], n)
    requires forall n :: n != flights[|flights| - 1].flightNumber ==>
               (n in u.flightMarkers <==> n in t.flightMarkers)
    requires flights[|flights| - 1].flightNumber in u.flightMarkers
    ensures forall n :: n in u.flightMarkers <==> n in s.flightMarkers || Lists(flights, n)
  {
    forall n ensures n in u.flightMarkers <==> n in s.flightMarkers || Lists(flights, n)
    {
      ListsSplit(flights, n);
    }
  }

  /** One more flight: what the loop body does to the last flight extends Reflects to it. */
  lemma {:induction false} ReflectsStep(s: Session, flights: seq<FlightData>, t: Session, u: Session)
    requires |flights| > 0 && UniqueNumbers(flights)
    requires Reflects(s, flights[..|flights| - 1], t)
    requires Shows(u, flights[|flights| - 1], flights[|flights| - 1].flightNumber !in t.flightMarkers)
    requires forall n :: n != flights[|flights| - 1].flightNumber ==>
               Keeps(t, u, n) && (n in u.flightMarkers <==> n in t.flightMarkers)
    ensures Reflects(s, flights, u)
  {
    var k := |flights| - 1;
    var prefix := flights[..k];
    PrefixOmitsLast(flights);
    assert flights[k].flightNumber !in t.flightMarkers <==> flights[k].flightNumber !in s.flightMarkers;
    forall i | 0 <= i < k
      ensures Shows(t, flights[i], flights[i].flightNumber !in s.flightMarkers)
    {
      assert prefix[i] == flights[i];
    }
    ReflectsStepShows(s, flights, t, u);
    ReflectsStepKeeps(s, flights, t, u);
    ReflectsStepTable(s, flights, t, u);
  }

  /** The loop body for a readable flight, in the form ReflectsStep takes. */
  lemma {:induction false} StepFrameAll(t: Session, f: FlightData)
    requires WF(t)
    ensures forall n :: n != f.flightNumber ==>
              Keeps(t, Step(t, f).session, n) && (n in Step(t, f).session.flightMarkers <==> n in t.flightMarkers)
  {
    forall n | n != f.flightNumber
      ensures Keeps(t, Step(t, f).session, n) && (n in Step(t, f).session.flightMarkers <==> n in t.flightMarkers)
    {
      StepFrame(t, f, n);
    }
  }

  /**
   * A snapshot of readable flights with distinct numbers: every flight is
   * shown, with a fresh route line exactly when its number was not stored
   * before; stored flights outside the snapshot are kept as they were (nothing
   * is pruned); and the table holds the old numbers plus the snapshot's.
   */
  lemma {:induction false} ApplyReflects(s: Session, flights: seq<FlightData>)
    requires WF(s) && UniqueNumbers(flights)
    requires forall i :: 0 <= i < |flights| ==> Readable(flights[i])
    ensures Apply(s, flights).Completed?
    ensures WF(Apply(s, flights).session)
    ensures Reflects(s, flights, Apply(s, flights).session)
    decreases |flights|
  {
    ApplyWF(s, flights);
    if flights != [] {
      var prefix := flights[..|flights| - 1];
      assert UniqueNumbers(prefix) by {
        forall i, j | 0 <= i < j < |prefix| ensures prefix[i].flightNumber != prefix[j].flightNumber {
          assert prefix[i] == flights[i] && prefix[j] == flights[j];
        }
      }
      ApplyReflects(s, prefix);
      ApplyReflectsLast(s, flights);
    }
  }

  /** The inductive step of ApplyReflects: the loop body on the last flight of the snapshot. */
  lemma {:induction false} ApplyReflectsLast(s: Session, flights: seq<FlightData>)
    requires |flights| > 0 && UniqueNumbers(flights) && Readable(flights[|flights| - 1])
    requires Apply(s, flights[..|flights| - 1]).Completed?
    requires WF(Apply(s, flights[..|flights| - 1]).session)
    requires Reflects(s, flights[..|flights| - 1], Apply(s, flights[..|flights| - 1]).session)
    ensures Apply(s, flights).Completed?
    ensures Reflects(s, flights, Apply(s, flights).session)
  {
    var k := |flights| - 1;
    var t := Apply(s, flights[..k]).session;
    assert Apply(s, flights) == Step(t, flights[k]);
    StepShows(t, flights[k]);
    StepFrameAll(t, flights[k]);
    ReflectsStep(s, flights, t, Step(t, flights[k]).session);
  }

  // ---------------------------------------------------------------------------
  // Repeated snapshots

  /** A flight that the map already shows as updated leaves the map as it is. */
  lemma {:induction false} StepIdle(t: Session, f: FlightData)
    requires Shows(t, f, false)
    ensures Step(t, f) == Completed(t)
  {
    var fn := f.flightNumber;
    var ms := t.flightMarkers[fn];
    var d, a := f.departure.value.position, f.arrival.value.position;
    assert t.layers[ms.departureMarker := Marker(d)] == t.layers;
    assert Redraw(t, ms.departureMarker, Marker(d)) == t;
    assert t.layers[ms.arrivalMarker := Marker(a)] == t.layers;
    assert Redraw(t, ms.arrivalMarker, Marker(a)) == t;
    var (s3, aircraft) := UpdateAircraft(t, d, a, f.position, ms);
    var path := Polyline(UpdatedPath(d, f.position, a));
    assert t.layers[ms.flightPath := path] == t.layers;
    match f.position
    case Some(p) =>
      var h := ms.aircraftMarker.value;
      assert t.layers[h := Marker(p)] == t.layers;
      assert Redraw(t, h, Marker(p)) == t;
      assert aircraft == ms.aircraftMarker;
      assert s3 == Redraw(t, ms.flightPath, Polyline([d, p, a]));
      assert t.layers[ms.flightPath := Polyline([d, p, a])][ms.flightPath := path] == t.layers;
      assert Redraw(s3, ms.flightPath, path) == t;
    case None =>
      assert aircraft == None && s3 == t;
      assert Redraw(s3, ms.flightPath, path) == t;
    assert ms.(aircraftMarker := aircraft) == ms;
    assert t.flightMarkers[fn := ms] == t.flightMarkers;
  }

  /** A snapshot all of whose flights are already shown as updated changes nothing. */
  lemma {:induction false} ApplyIdle(t: Session, flights: seq<FlightData>)
    requires forall i :: 0 <= i < |flights| ==> Shows(t, flights[i], false)
    ensures Apply(t, flights) == Completed(t)
    decreases |flights|
  {
    if flights != [] {
      var k := |flights| - 1;
      ApplyIdle(t, flights[..k]);
      StepIdle(t, flights[k]);
    }
  }

  /**
   * Delivering the same snapshot repeatedly: the second delivery turns every
   * route line into its updated form, and from then on the map no longer
   * changes.
   */
  lemma {:induction false} SecondDeliveryIsFixed(s: Session, flights: seq<FlightData>)
    requires WF(s) && UniqueNumbers(flights)
    requires forall i :: 0 <= i < |flights| ==> Readable(flights[i])
    ensures var t2 := Apply(Apply(s, flights).session, flights).session;
      Apply(t2, flights) == Completed(t2)
  {
    ApplyReflects(s, flights);
    var t1 := Apply(s, flights).session;
    ApplyReflects(t1, flights);
    var t2 := Apply(t1, flights).session;
    forall i | 0 <= i < |flights| ensures Shows(t2, flights[i], false)
    {
      assert Lists(flights, flights[i].flightNumber);
    }
    ApplyIdle(t2, flights);
  }

  /**
   * Delivering the same snapshot twice is not idempotent: a new flight with a
   * position is drawn with a three-point route line, which the second delivery
   * shortens to departure and aircraft.
   */
  lemma RedeliveryShortensRoute(d: Coord, p: Coord, a: Coord)
    ensures var f := FlightData("LH100", Some(Endpoint("FRA", d)), Some(Endpoint("JFK", a)), Some(p));
      var t1 := Apply(EmptySession, [f]).session;
      var t2 := Apply(t1, [f]).session;
      && "LH100" in t1.flightMarkers && t1.flightMarkers["LH100"].flightPath in t1.layers
      && t1.layers[t1.flightMarkers["LH100"].flightPath] == Polyline([d, p, a])
      && "LH100" in t2.flightMarkers && t2.flightMarkers["LH100"].flightPath in t2.layers
      && t2.layers[t2.flightMarkers["LH100"].flightPath] == Polyline([d, p])
      && t1 != t2
  {
    var f := FlightData("LH100", Some(Endpoint("FRA", d)), Some(Endpoint("JFK", a)), Some(p));
    var fl := [f];
    ApplyReflects(EmptySession, fl);
    var t1 := Apply(EmptySession, fl).session;
    assert Shows(t1, fl[0], true);
    ApplyReflects(t1, fl);
    assert Lists(fl, "LH100") by { assert fl[0].flightNumber == "LH100"; }
    assert Shows(Apply(t1, fl).session, fl[0], false);
  }

  // ---------------------------------------------------------------------------
  // The registry

  /** Every registered map is well formed. */
  ghost predicate RegistryWF(reg: Registry)
  {
    forall id :: id in reg ==> WF(reg[id])
  }

  /**
   * `initialize` fails early (bad JSON, no Leaflet, no container) without
   * registering anything; otherwise it registers the container's map, reusing
   * the registered one or starting from an empty one, and touches no other
   * container's map. It reports no error exactly when all flights were
   * readable.
   */
  lemma {:induction false} InitializeEffect(reg: Registry, id: string, payload: Option<MapData>,
                                            leafletLoaded: bool, containerFound: bool)
    ensures var (reg', err) := Initialize(reg, id, payload, leafletLoaded, containerFound);
      var guarded := payload.Some? && leafletLoaded && containerFound;
      var base := if id in reg then reg[id] else EmptySession;
      && (!guarded ==> reg' == reg && err.Some?)
      && (guarded ==> reg'.Keys == reg.Keys + {id})
      && (forall other :: other != id && other in reg ==> reg'[other] == reg[other])
      && (guarded && payload.value.flights.None? ==> reg'[id] == base && err == Some(FlightsMissing))
      && (guarded && payload.value.flights.Some? ==>
            reg'[id] == Apply(base, payload.value.flights.value).session)
      && (err.None? <==>
            (guarded && payload.value.flights.Some? &&
             forall i :: 0 <= i < |payload.value.flights.value| ==> Readable(payload.value.flights.value[i])))
  {
    if payload.Some? && leafletLoaded && containerFound && payload.value.flights.Some? {
      var base := if id in reg then reg[id] else EmptySession;
      ApplyAbortsIffUnreadable(base, payload.value.flights.value);
    }
  }

  lemma {:induction false} InitializeWF(reg: Registry, id: string, payload: Option<MapData>,
                                        leafletLoaded: bool, containerFound: bool)
    requires RegistryWF(reg)
    ensures RegistryWF(Initialize(reg, id, payload, leafletLoaded, containerFound).0)
  {
    var base := if id in reg then reg[id] else EmptySession;
    if payload.Some? && leafletLoaded && containerFound && payload.value.flights.Some? {
      ApplyWF(base, payload.value.flights.value);
    }
  }

  /**
   * `cleanup` of an unregistered id changes nothing; of a registered one it
   * drops the entry and detaches every layer of the dropped map; a second
   * `cleanup` then does nothing.
   */
  lemma CleanupEffect(reg: Registry, id: string)
    ensures var (reg', released) := Cleanup(reg, id);
      && id !in reg'
      && (id !in reg ==> reg' == reg && released.None?)
      && (id in reg ==> reg' == reg - {id} && released.Some? && released.value.attached == {})
      && Cleanup(reg', id) == (reg', None)
  {
  }

  /**
   * After `cleanup`, a new `initialize` for the same container id, on a
   * re-created container element, starts from an empty map: every readable
   * flight of the snapshot gets a new marker set with the route line of a
   * newly created set (through the position when there is one). `cleanup`
   * never calls `map.remove()`, so on the very same element Leaflet would
   * refuse a second map; the model does not track that.
   */
  lemma {:induction false} ReinitializeAfterCleanup(reg: Registry, id: string, flights: seq<FlightData>)
    requires UniqueNumbers(flights)
    requires forall i :: 0 <= i < |flights| ==> Readable(flights[i])
    ensures var reg' := Initialize(Cleanup(reg, id).0, id, Some(MapData(Some(flights))), true, true).0;
      && id in reg'
      && forall i :: 0 <= i < |flights| ==> Shows(reg'[id], flights[i], true)
  {
    ApplyReflects(EmptySession, flights);
  }
}
