/**
  The GPS proximity trigger: each location fix is compared with the start
  marker and the sector markers, and a fix near one of them sends START_LAP
  (the first time), LAP (later) or SECTOR, unless an event fired less than
  5000 ms earlier. MapActivity keeps its own markers, placed by map clicks;
  LocationTrackingService reads the markers from its companion object.
 */
module Proximity {
  import opened KotlinText
  import opened Broadcasts

  /** A map coordinate. Only ever compared for nearness, through a Near test. */
  datatype LatLng = LatLng(latitude: real, longitude: real)

  /** `fix.distanceTo(marker) <= 20.0`, the 20 m test on Android's geodesic distance. */
  type Near = (LatLng, LatLng) -> bool

  /** One element of `locationResult.locations` with the clock reading its check takes. */
  datatype Fix = Fix(position: LatLng, time: Long)

  const COOLDOWN_MS: int := 5000

  /** The two fields a proximity check reads and writes. */
  datatype Trigger = Trigger(lastTriggerTime: Long, isStartLapTriggered: bool)

  /** Their values when the activity or the service is created. */
  const INITIAL_TRIGGER: Trigger := Trigger(0, false)

  /** What one check (or a run of checks) leaves behind: the new fields and the broadcasts, in order. */
  datatype Outcome = Outcome(trigger: Trigger, events: seq<Broadcast>)

  // ---------------------------------------------------------------------
  // One proximity check
  // ---------------------------------------------------------------------

  /** The SECTOR intent for the sector marker at `index`: 1-based sectorNumber extra, or none. */
  function SectorEvent(index: int, numbered: bool): Broadcast
  {
    Sector(if numbered then Some(index + 1) else None)
  }

  /** One SECTOR per sector marker near the fix, in marker order. */
  function SectorEvents(sectors: seq<LatLng>, fix: LatLng, near: Near, numbered: bool): (r: seq<Broadcast>)
    ensures |r| <= |sectors|
    ensures forall k :: 0 <= k < |r| ==> r[k].Sector?
  {
    if sectors == [] then []
    else
      var n := |sectors| - 1;
      SectorEvents(sectors[..n], fix, near, numbered) + if near(fix, sectors[n]) then [SectorEvent(n, numbered)] else []
  }

  /** SectorEvents grows one marker at a time. */
  lemma SectorEventsSnoc(sectors: seq<LatLng>, j: int, fix: LatLng, near: Near, numbered: bool)
    requires 0 <= j < |sectors|
    ensures SectorEvents(sectors[..j + 1], fix, near, numbered)
      == SectorEvents(sectors[..j], fix, near, numbered) + if near(fix, sectors[j]) then [SectorEvent(j, numbered)] else []
  {
    assert sectors[..j + 1][..j] == sectors[..j];
  }

  /** The start marker is set and the fix is near it. */
  predicate StartHit(start: Option<LatLng>, fix: LatLng, near: Near)
  {
    start.Some? && near(fix, start.value)
  }

  /** The start marker's intent: none on a miss, START_LAP on the first hit, LAP on every later one. */
  function LapEvents(isStartLapTriggered: bool, hit: bool): seq<Broadcast>
  {
    if !hit then [] else if isStartLapTriggered then [Lap] else [StartLap]
  }

  /**
    checkProximityToMarkers: nothing while less than COOLDOWN_MS has passed
    since the last event (Kotlin Long subtraction); otherwise the start
    marker's intent followed by the sectors', and lastTriggerTime set to now
    when anything fired.
   */
  function Check(st: Trigger, now: Long, fix: LatLng, start: Option<LatLng>, sectors: seq<LatLng>, near: Near, numbered: bool): Outcome
  {
    if LongSub(now, st.lastTriggerTime) < COOLDOWN_MS then Outcome(st, [])
    else
      var hit := StartHit(start, fix, near);
      var fired := LapEvents(st.isStartLapTriggered, hit) + SectorEvents(sectors, fix, near, numbered);
      Outcome(Trigger(if fired != [] then now else st.lastTriggerTime, st.isStartLapTriggered || hit), fired)
  }

  /** The checks of several fixes, one after another. */
  function Run(st: Trigger, fixes: seq<Fix>, start: Option<LatLng>, sectors: seq<LatLng>, near: Near, numbered: bool): Outcome
  {
    if fixes == [] then Outcome(st, [])
    else
      var last := fixes[|fixes| - 1];
      var prev := Run(st, fixes[..|fixes| - 1], start, sectors, near, numbered);
      var o := Check(prev.trigger, last.time, last.position, start, sectors, near, numbered);
      Outcome(o.trigger, prev.events + o.events)
  }

  // ---------------------------------------------------------------------
  // Properties of a check
  // ---------------------------------------------------------------------

  /** Every SECTOR sent names a sector marker near the fix. */
  lemma {:induction false} SectorEventsSound(sectors: seq<LatLng>, fix: LatLng, near: Near, numbered: bool, k: int)
    requires 0 <= k < |SectorEvents(sectors, fix, near, numbered)|
    ensures exists j :: 0 <= j < |sectors| && near(fix, sectors[j]) &&
                        SectorEvents(sectors, fix, near, numbered)[k] == SectorEvent(j, numbered)
  {
    var n := |sectors| - 1;
    var init := sectors[..n];
    var r0 := SectorEvents(init, fix, near, numbered);
    var r := SectorEvents(sectors, fix, near, numbered);
    if k < |r0| {
      SectorEventsSound(init, fix, near, numbered, k);
      var j :| 0 <= j < |init| && near(fix, init[j]) && r0[k] == SectorEvent(j, numbered);
      assert sectors[j] == init[j] && r[k] == r0[k];
    } else {
      assert near(fix, sectors[n]) && r[k] == SectorEvent(n, numbered);
    }
  }

  /** Every sector marker near the fix sends its SECTOR. */
  lemma {:induction false} SectorEventsComplete(sectors: seq<LatLng>, fix: LatLng, near: Near, numbered: bool, j: int)
    requires 0 <= j < |sectors| && near(fix, sectors[j])
    ensures SectorEvent(j, numbered) in SectorEvents(sectors, fix, near, numbered)
  {
    var n := |sectors| - 1;
    var init := sectors[..n];
    var r0 := SectorEvents(init, fix, near, numbered);
    var r := SectorEvents(sectors, fix, near, numbered);
    if j < n {
      assert init[j] == sectors[j];
      SectorEventsComplete(init, fix, near, numbered, j);
      var k :| 0 <= k < |r0| && r0[k] == SectorEvent(j, numbered);
      assert r[k] == r0[k];
    } else {
      assert r[|r| - 1] == SectorEvent(n, numbered);
    }
  }

  /** With no sector marker near the fix no SECTOR is sent, and with one near, at least one is. */
  lemma SectorEventsEmpty(sectors: seq<LatLng>, fix: LatLng, near: Near, numbered: bool)
    ensures SectorEvents(sectors, fix, near, numbered) == [] <==> forall j :: 0 <= j < |sectors| ==> !near(fix, sectors[j])
  {
    var r := SectorEvents(sectors, fix, near, numbered);
    if r != [] {
      SectorEventsSound(sectors, fix, near, numbered, 0);
    }
    forall j | 0 <= j < |sectors| && near(fix, sectors[j])
      ensures r != []
    {
      SectorEventsComplete(sectors, fix, near, numbered, j);
    }
  }

  /**
    A check fires exactly when at least COOLDOWN_MS (5000 ms included) has
    passed and some marker is near the fix, and lastTriggerTime moves to now
    exactly when it fires.
   */
  lemma CheckFiresIff(st: Trigger, now: Long, fix: LatLng, start: Option<LatLng>, sectors: seq<LatLng>, near: Near, numbered: bool)
    ensures var o := Check(st, now, fix, start, sectors, near, numbered);
      && (o.events != [] <==>
            LongSub(now, st.lastTriggerTime) >= COOLDOWN_MS
            && (StartHit(start, fix, near) || exists j :: 0 <= j < |sectors| && near(fix, sectors[j])))
      && o.trigger.lastTriggerTime == (if o.events != [] then now else st.lastTriggerTime)
  {
    SectorEventsEmpty(sectors, fix, near, numbered);
  }

  /** Inside the cooldown nothing is sent and nothing changes. */
  lemma CooldownSuppresses(st: Trigger, now: Long, fix: LatLng, start: Option<LatLng>, sectors: seq<LatLng>, near: Near, numbered: bool)
    requires now - st.lastTriggerTime < COOLDOWN_MS && LONG_MIN <= now - st.lastTriggerTime
    ensures Check(st, now, fix, start, sectors, near, numbered) == Outcome(st, [])
  {
  }

  /**
    The start marker: the first hit sends START_LAP and sets the flag, every
    hit after that sends LAP, and the start intent comes before any SECTOR.
   */
  lemma StartThenLap(st: Trigger, now: Long, fix: LatLng, start: Option<LatLng>, sectors: seq<LatLng>, near: Near, numbered: bool)
    requires LongSub(now, st.lastTriggerTime) >= COOLDOWN_MS && StartHit(start, fix, near)
    ensures var o := Check(st, now, fix, start, sectors, near, numbered);
      && o.events != [] && o.events[0] == (if st.isStartLapTriggered then Lap else StartLap)
      && o.trigger == Trigger(now, true)
      && forall k :: 1 <= k < |o.events| ==> o.events[k].Sector?
  {
  }

  /** No marker configured: nothing is ever sent and the fields never change. */
  lemma NoMarkersNoEvents(st: Trigger, fixes: seq<Fix>, near: Near, numbered: bool)
    ensures Run(st, fixes, None, [], near, numbered) == Outcome(st, [])
  {
  }

  /** Over any run of fixes, START_LAP is sent exactly once if the flag goes up, and never otherwise. */
  lemma {:induction false} StartLapOnce(st: Trigger, fixes: seq<Fix>, start: Option<LatLng>, sectors: seq<LatLng>, near: Near, numbered: bool)
    ensures var r := Run(st, fixes, start, sectors, near, numbered);
      && (st.isStartLapTriggered ==> r.trigger.isStartLapTriggered)
      && multiset(r.events)[StartLap] == if r.trigger.isStartLapTriggered && !st.isStartLapTriggered then 1 else 0
  {
    if fixes != [] {
      var last := fixes[|fixes| - 1];
      var prev := Run(st, fixes[..|fixes| - 1], start, sectors, near, numbered);
      StartLapOnce(st, fixes[..|fixes| - 1], start, sectors, near, numbered);
      var o := Check(prev.trigger, last.time, last.position, start, sectors, near, numbered);
      CheckStartLap(prev.trigger, last.time, last.position, start, sectors, near, numbered);
      assert multiset(prev.events + o.events) == multiset(prev.events) + multiset(o.events);
    }
  }

  /** One check sends START_LAP exactly when it raises the flag. */
  lemma CheckStartLap(st: Trigger, now: Long, fix: LatLng, start: Option<LatLng>, sectors: seq<LatLng>, near: Near, numbered: bool)
    ensures var o := Check(st, now, fix, start, sectors, near, numbered);
      && (st.isStartLapTriggered ==> o.trigger.isStartLapTriggered)
      && multiset(o.events)[StartLap] == if o.trigger.isStartLapTriggered && !st.isStartLapTriggered then 1 else 0
  {
    var o := Check(st, now, fix, start, sectors, near, numbered);
    if LongSub(now, st.lastTriggerTime) >= COOLDOWN_MS {
      var hit := StartHit(start, fix, near);
      var s := SectorEvents(sectors, fix, near, numbered);
      assert StartLap !in s;
      assert multiset(o.events) == multiset(LapEvents(st.isStartLapTriggered, hit)) + multiset(s);
    }
  }

  // ---------------------------------------------------------------------
  // MapActivity
  // ---------------------------------------------------------------------

  /** The map screen's marker and trigger state. */
  class MapActivity {
    var startLapPosition: Option<LatLng>
    var sectorPositions: seq<LatLng>
    var pathPoints: seq<LatLng>
    var lastTriggerTime: Long
    var isStartLapTriggered: bool

    function Fields(): Trigger
      reads this
    {
      Trigger(lastTriggerTime, isStartLapTriggered)
    }

    /** onCreate, with the markers restored from the saved state or the preferences. */
    constructor(savedStart: Option<LatLng>, savedSectors: seq<LatLng>)
      ensures startLapPosition == savedStart && sectorPositions == savedSectors && pathPoints == []
      ensures Fields() == INITIAL_TRIGGER
    {
      startLapPosition := savedStart;
      sectorPositions := savedSectors;
      pathPoints := [];
      lastTriggerTime := 0;
      isStartLapTriggered := false;
    }

    /** A map click: the first places the start marker, every later one adds a sector marker. */
    method OnMapClick(latLng: LatLng)
      modifies this`startLapPosition, this`sectorPositions
      ensures old(startLapPosition).None? ==> startLapPosition == Some(latLng) && sectorPositions == old(sectorPositions)
      ensures old(startLapPosition).Some? ==> startLapPosition == old(startLapPosition) && sectorPositions == old(sectorPositions) + [latLng]
    {
      if startLapPosition.None? {
        startLapPosition := Some(latLng);
      } else {
        sectorPositions := sectorPositions + [latLng];
      }
    }

    /** resetMarkers: markers and path cleared; the trigger fields are left as they are. */
    method ResetMarkers()
      modifies this`startLapPosition, this`sectorPositions, this`pathPoints
      ensures startLapPosition == None && sectorPositions == [] && pathPoints == []
      ensures Fields() == old(Fields())
    {
      startLapPosition := None;
      sectorPositions := [];
      pathPoints := [];
    }

    /** checkProximityToMarkers against this screen's markers; SECTOR carries its 1-based number. */
    method CheckProximityToMarkers(fix: LatLng, now: Long, near: Near) returns (events: seq<Broadcast>)
      modifies this`lastTriggerTime, this`isStartLapTriggered
      ensures Outcome(Fields(), events) == Check(old(Fields()), now, fix, startLapPosition, sectorPositions, near, true)
    {
      events := [];
      if LongSub(now, lastTriggerTime) < COOLDOWN_MS {
        return;
      }
      if startLapPosition.Some? && near(fix, startLapPosition.value) {
        lastTriggerTime := now;
        if !isStartLapTriggered {
          events := [StartLap];
          isStartLapTriggered := true;
        } else {
          events := [Lap];
        }
      }
      var fired := CheckSectorMarkers(fix, now, near);
      events := events + fired;
    }

    /** The forEachIndexed over the sector markers: a numbered SECTOR per marker near the fix. */
    method CheckSectorMarkers(fix: LatLng, now: Long, near: Near) returns (fired: seq<Broadcast>)
      modifies this`lastTriggerTime
      ensures fired == SectorEvents(sectorPositions, fix, near, true)
      ensures lastTriggerTime == if fired != [] then now else old(lastTriggerTime)
    {
      fired := [];
      var index := 0;
      while index < |sectorPositions|
        invariant 0 <= index <= |sectorPositions|
        invariant fired == SectorEvents(sectorPositions[..index], fix, near, true)
        invariant lastTriggerTime == if fired != [] then now else old(lastTriggerTime)
      {
        SectorEventsSnoc(sectorPositions, index, fix, near, true);
        if near(fix, sectorPositions[index]) {
          lastTriggerTime := now;
          fired := fired + [Sector(Some(index + 1))];
        } else {
          assert fired + [] == fired;
        }
        index := index + 1;
      }
      assert sectorPositions[..index] == sectorPositions;
    }

    /** onLocationResult: every fix adds one path point and is checked, in order. */
    method OnLocationResult(fixes: seq<Fix>, near: Near) returns (events: seq<Broadcast>)
      modifies this`pathPoints, this`lastTriggerTime, this`isStartLapTriggered
      ensures |pathPoints| == |old(pathPoints)| + |fixes|
      ensures pathPoints == old(pathPoints) + seq(|fixes|, i requires 0 <= i < |fixes| => fixes[i].position)
      ensures Outcome(Fields(), events) == Run(old(Fields()), fixes, startLapPosition, sectorPositions, near, true)
    {
      events := [];
      var i := 0;
      while i < |fixes|
        invariant 0 <= i <= |fixes|
        invariant pathPoints == old(pathPoints) + seq(i, k requires 0 <= k < i => fixes[k].position)
        invariant Outcome(Fields(), events) == Run(old(Fields()), fixes[..i], startLapPosition, sectorPositions, near, true)
      {
        assert fixes[..i + 1][..i] == fixes[..i];
        pathPoints := pathPoints + [fixes[i].position];
        var fired := CheckProximityToMarkers(fixes[i].position, fixes[i].time, near);
        events := events + fired;
        i := i + 1;
      }
      assert fixes[..i] == fixes;
    }
  }

  // ---------------------------------------------------------------------
  // LocationTrackingService
  // ---------------------------------------------------------------------

  /** The service's companion object: the markers it checks against. */
  class TrackedMarkers {
    var startLapLatLng: Option<LatLng>
    var sectorLatLongs: seq<LatLng>

    constructor()
      ensures startLapLatLng == None && sectorLatLongs == []
    {
      startLapLatLng := None;
      sectorLatLongs := [];
    }
  }

  /** The background tracking service. */
  class LocationTrackingService {
    var lastTriggerTime: Long
    var isStartLapTriggered: bool
    const markers: TrackedMarkers

    function Fields(): Trigger
      reads this
    {
      Trigger(lastTriggerTime, isStartLapTriggered)
    }

    constructor(markers: TrackedMarkers)
      ensures this.markers == markers && Fields() == INITIAL_TRIGGER
    {
      this.markers := markers;
      lastTriggerTime := 0;
      isStartLapTriggered := false;
    }

    /** checkProximityToMarkers against the companion's markers; SECTOR carries no number. */
    method CheckProximityToMarkers(fix: LatLng, now: Long, near: Near) returns (events: seq<Broadcast>)
      modifies this`lastTriggerTime, this`isStartLapTriggered
      ensures Outcome(Fields(), events) == Check(old(Fields()), now, fix, markers.startLapLatLng, markers.sectorLatLongs, near, false)
    {
      events := [];
      if LongSub(now, lastTriggerTime) < COOLDOWN_MS {
        return;
      }
      if markers.startLapLatLng.Some? && near(fix, markers.startLapLatLng.value) {
        lastTriggerTime := now;
        if !isStartLapTriggered {
          events := [StartLap];
          isStartLapTriggered := true;
        } else {
          events := [Lap];
        }
      }
      var fired := CheckSectorMarkers(fix, now, near);
      events := events + fired;
    }

    /** The forEach over the companion's sector markers: an unnumbered SECTOR per marker near the fix. */
    method CheckSectorMarkers(fix: LatLng, now: Long, near: Near) returns (fired: seq<Broadcast>)
      modifies this`lastTriggerTime
      ensures fired == SectorEvents(markers.sectorLatLongs, fix, near, false)
      ensures lastTriggerTime == if fired != [] then now else old(lastTriggerTime)
    {
      var sectors := markers.sectorLatLongs;
      fired := [];
      var index := 0;
      while index < |sectors|
        invariant 0 <= index <= |sectors|
        invariant fired == SectorEvents(sectors[..index], fix, near, false)
        invariant lastTriggerTime == if fired != [] then now else old(lastTriggerTime)
      {
        SectorEventsSnoc(sectors, index, fix, near, false);
        if near(fix, sectors[index]) {
          lastTriggerTime := now;
          fired := fired + [Sector(None)];
        } else {
          assert fired + [] == fired;
        }
        index := index + 1;
      }
      assert sectors[..index] == sectors;
    }

    /** onLocationResult: every fix checked, in order. */
    method OnLocationResult(fixes: seq<Fix>, near: Near) returns (events: seq<Broadcast>)
      modifies this`lastTriggerTime, this`isStartLapTriggered
      ensures Outcome(Fields(), events) == Run(old(Fields()), fixes, markers.startLapLatLng, markers.sectorLatLongs, near, false)
    {
      events := [];
      var i := 0;
      while i < |fixes|
        invariant 0 <= i <= |fixes|
        invariant Outcome(Fields(), events) == Run(old(Fields()), fixes[..i], markers.startLapLatLng, markers.sectorLatLongs, near, false)
      {
        assert fixes[..i + 1][..i] == fixes[..i];
        var fired := CheckProximityToMarkers(fixes[i].position, fixes[i].time, near);
        events := events + fired;
        i := i + 1;
      }
      assert fixes[..i] == fixes;
    }
  }
}
