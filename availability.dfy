/**
 * Per-resource availability over a snapshot of stored flights. Each
 * `is_available` of the source is a query "is there a live flight using
 * this resource that overlaps the half-open window [start, end)?"; the
 * query is the filter `Conflicting`, and each kind's function states the
 * source's condition outright in its postcondition.
 */
module Availability {
  import opened Wrappers
  import opened Airline

  /** The resource slot a query is about (one constructor per resource kind). */
  datatype ResourceRef = RunwayRef(id: int) | GateRef(id: int) | AircraftRef(id: int) | PersonRef(id: int)

  /** Does the stored flight use the resource? A person is used as pilot or as co-pilot. */
  predicate Occupies(g: StoredFlight, r: ResourceRef) {
    match r
    case RunwayRef(id) => g.runway == id
    case GateRef(id) => g.gate == id
    case AircraftRef(id) => g.aircraft == id
    case PersonRef(id) => g.pilot == id || id in g.copilots
  }

  /** The statuses that still hold a resource; aircraft also count completed flights. */
  predicate Live(r: ResourceRef, s: FlightStatus) {
    s == Scheduled || s == InProgress || (r.AircraftRef? && s == Completed)
  }

  /** How far the requested window is widened on each side. */
  function Buffer(r: ResourceRef): int {
    if r.AircraftRef? then MAINTENANCE_BUFFER else 0
  }

  /** `.exclude(id=exclude_flight_id)`, applied only when the id is truthy. */
  predicate Excluded(g: StoredFlight, ex: Option<int>) {
    ex.Some? && ex.value != 0 && g.id == ex.value
  }

  /** The filter condition of the query. */
  predicate Blocks(g: StoredFlight, r: ResourceRef, start: int, end: int, ex: Option<int>) {
    Occupies(g, r) && Live(r, g.status) && !Excluded(g, ex)
    && g.departure < end + Buffer(r) && g.arrival > start - Buffer(r)
  }

  /** The queryset of conflicting flights, in snapshot order. */
  function Conflicting(s: seq<StoredFlight>, r: ResourceRef, start: int, end: int, ex: Option<int>): (c: seq<StoredFlight>)
    ensures forall g :: g in c <==> g in s && Blocks(g, r, start, end, ex)
    ensures |c| <= |s|
  {
    if s == [] then []
    else (if Blocks(s[0], r, start, end, ex) then [s[0]] else []) + Conflicting(s[1..], r, start, end, ex)
  }

  /** `Runway.is_available`: no live flight on the runway overlaps the window. */
  function RunwayIsAvailable(s: seq<StoredFlight>, runway: Runway, start: int, end: int, ex: Option<int>): (free: bool)
    ensures s == [] ==> free
  {
    Conflicting(s, RunwayRef(runway.id), start, end, ex) == []
  }

  /** `Gate.is_available`: no live flight at the gate overlaps the window. */
  function GateIsAvailable(s: seq<StoredFlight>, gate: Gate, start: int, end: int, ex: Option<int>): (free: bool)
    ensures s == [] ==> free
  {
    Conflicting(s, GateRef(gate.id), start, end, ex) == []
  }

  /** `Personnel.is_available`: the person flies no overlapping live flight, as pilot or as co-pilot. */
  function PersonnelIsAvailable(s: seq<StoredFlight>, person: Personnel, start: int, end: int, ex: Option<int>): (free: bool)
    ensures s == [] ==> free
  {
    Conflicting(s, PersonRef(person.id), start, end, ex) == []
  }

  /**
   * `Aircraft.is_available`: the aircraft is operational and no live flight
   * on it comes within 24 hours of the window.
   */
  function AircraftIsAvailable(s: seq<StoredFlight>, aircraft: Aircraft, start: int, end: int, ex: Option<int>): (free: bool)
    ensures aircraft.status != Operational ==> !free
  {
    aircraft.status == Operational && Conflicting(s, AircraftRef(aircraft.id), start, end, ex) == []
  }

  /** An empty query result means no stored flight blocks. */
  lemma NoneConflicting(s: seq<StoredFlight>, r: ResourceRef, start: int, end: int, ex: Option<int>)
    ensures Conflicting(s, r, start, end, ex) == [] <==> !exists g :: g in s && Blocks(g, r, start, end, ex)
  {
    var c := Conflicting(s, r, start, end, ex);
    if c != [] {
      assert c[0] in c;
    }
  }

  /**
   * A runway is available over [start, end) iff no stored flight that uses
   * it, is scheduled or in progress and is not the excluded one has
   * departure < end and arrival > start.
   */
  lemma RunwayAvailability(s: seq<StoredFlight>, runway: Runway, start: int, end: int, ex: Option<int>)
    ensures RunwayIsAvailable(s, runway, start, end, ex)
            <==> !exists g :: g in s && g.runway == runway.id
                              && (g.status == Scheduled || g.status == InProgress)
                              && !Excluded(g, ex)
                              && g.departure < end && g.arrival > start
  {
    NoneConflicting(s, RunwayRef(runway.id), start, end, ex);
  }

  /** The same condition for a gate. */
  lemma GateAvailability(s: seq<StoredFlight>, gate: Gate, start: int, end: int, ex: Option<int>)
    ensures GateIsAvailable(s, gate, start, end, ex)
            <==> !exists g :: g in s && g.gate == gate.id
                              && (g.status == Scheduled || g.status == InProgress)
                              && !Excluded(g, ex)
                              && g.departure < end && g.arrival > start
  {
    NoneConflicting(s, GateRef(gate.id), start, end, ex);
  }

  /** A person is blocked by a flight they pilot and by one they co-pilot alike. */
  lemma PersonnelAvailability(s: seq<StoredFlight>, person: Personnel, start: int, end: int, ex: Option<int>)
    ensures PersonnelIsAvailable(s, person, start, end, ex)
            <==> !exists g :: g in s && (g.pilot == person.id || person.id in g.copilots)
                              && (g.status == Scheduled || g.status == InProgress)
                              && !Excluded(g, ex)
                              && g.departure < end && g.arrival > start
  {
    NoneConflicting(s, PersonRef(person.id), start, end, ex);
  }

  /**
   * An operational aircraft is available iff no stored flight on it that is
   * scheduled, in progress or completed, and not excluded, overlaps the
   * window widened by 24 hours on each side.
   */
  lemma AircraftAvailability(s: seq<StoredFlight>, aircraft: Aircraft, start: int, end: int, ex: Option<int>)
    requires aircraft.status == Operational
    ensures AircraftIsAvailable(s, aircraft, start, end, ex)
            <==> !exists g :: g in s && g.aircraft == aircraft.id
                              && (g.status == Scheduled || g.status == InProgress || g.status == Completed)
                              && !Excluded(g, ex)
                              && g.departure < end + MAINTENANCE_BUFFER
                              && g.arrival > start - MAINTENANCE_BUFFER
  {
    NoneConflicting(s, AircraftRef(aircraft.id), start, end, ex);
  }

  /** Splitting the snapshot splits the query result in the same order. */
  lemma {:induction false} ConflictingConcat(a: seq<StoredFlight>, b: seq<StoredFlight>, r: ResourceRef, start: int, end: int, ex: Option<int>)
    ensures Conflicting(a + b, r, start, end, ex) == Conflicting(a, r, start, end, ex) + Conflicting(b, r, start, end, ex)
  {
    if a != [] {
      var head := if Blocks(a[0], r, start, end, ex) then [a[0]] else [];
      assert (a + b)[0] == a[0];
      assert (a + b)[1..] == a[1..] + b;
      assert Conflicting(a + b, r, start, end, ex) == head + Conflicting(a[1..] + b, r, start, end, ex);
      ConflictingConcat(a[1..], b, r, start, end, ex);
    } else {
      assert a + b == b;
    }
  }

  /** A flight that does not block leaves every query over the snapshot unchanged. */
  lemma NonBlockingFlightIsInvisible(s1: seq<StoredFlight>, s2: seq<StoredFlight>, g: StoredFlight,
                                     r: ResourceRef, start: int, end: int, ex: Option<int>)
    requires !Blocks(g, r, start, end, ex)
    ensures Conflicting(s1 + [g] + s2, r, start, end, ex) == Conflicting(s1 + s2, r, start, end, ex)
  {
    ConflictingConcat(s1 + [g], s2, r, start, end, ex);
    ConflictingConcat(s1, [g], r, start, end, ex);
    ConflictingConcat(s1, s2, r, start, end, ex);
    assert [g][1..] == [];
  }

  /**
   * Cancelled and delayed flights never affect any resource's availability;
   * completed flights never affect runways, gates or personnel.
   */
  lemma NonLiveFlightNeverBlocks(s1: seq<StoredFlight>, s2: seq<StoredFlight>, g: StoredFlight,
                                 runway: Runway, gate: Gate, person: Personnel, aircraft: Aircraft,
                                 start: int, end: int, ex: Option<int>)
    requires g.status == Cancelled || g.status == Delayed || g.status == Completed
    ensures RunwayIsAvailable(s1 + [g] + s2, runway, start, end, ex) == RunwayIsAvailable(s1 + s2, runway, start, end, ex)
    ensures GateIsAvailable(s1 + [g] + s2, gate, start, end, ex) == GateIsAvailable(s1 + s2, gate, start, end, ex)
    ensures PersonnelIsAvailable(s1 + [g] + s2, person, start, end, ex) == PersonnelIsAvailable(s1 + s2, person, start, end, ex)
    ensures g.status != Completed ==>
              AircraftIsAvailable(s1 + [g] + s2, aircraft, start, end, ex) == AircraftIsAvailable(s1 + s2, aircraft, start, end, ex)
  {
    NonBlockingFlightIsInvisible(s1, s2, g, RunwayRef(runway.id), start, end, ex);
    NonBlockingFlightIsInvisible(s1, s2, g, GateRef(gate.id), start, end, ex);
    NonBlockingFlightIsInvisible(s1, s2, g, PersonRef(person.id), start, end, ex);
    if g.status != Completed {
      NonBlockingFlightIsInvisible(s1, s2, g, AircraftRef(aircraft.id), start, end, ex);
    }
  }

  /**
   * A completed flight still blocks its aircraft: it keeps the aircraft
   * unavailable across its buffered window.
   */
  lemma CompletedFlightBlocksAircraft(s: seq<StoredFlight>, g: StoredFlight, aircraft: Aircraft,
                                      start: int, end: int, ex: Option<int>)
    requires g in s && g.status == Completed && g.aircraft == aircraft.id && !Excluded(g, ex)
    requires g.departure < end + MAINTENANCE_BUFFER && g.arrival > start - MAINTENANCE_BUFFER
    ensures !AircraftIsAvailable(s, aircraft, start, end, ex)
  {
    assert g in Conflicting(s, AircraftRef(aircraft.id), start, end, ex);
  }

  /**
   * Touching endpoints never conflict: a flight that arrives no later than
   * the window starts, or departs no earlier than it ends, blocks no runway,
   * gate or person; for an aircraft the same holds 24 hours further out.
   */
  lemma TouchingFlightNeverBlocks(s1: seq<StoredFlight>, s2: seq<StoredFlight>, g: StoredFlight,
                                  runway: Runway, gate: Gate, person: Personnel, aircraft: Aircraft,
                                  start: int, end: int, ex: Option<int>)
    requires g.arrival <= start || g.departure >= end
    ensures RunwayIsAvailable(s1 + [g] + s2, runway, start, end, ex) == RunwayIsAvailable(s1 + s2, runway, start, end, ex)
    ensures GateIsAvailable(s1 + [g] + s2, gate, start, end, ex) == GateIsAvailable(s1 + s2, gate, start, end, ex)
    ensures PersonnelIsAvailable(s1 + [g] + s2, person, start, end, ex) == PersonnelIsAvailable(s1 + s2, person, start, end, ex)
    ensures (g.arrival <= start - MAINTENANCE_BUFFER || g.departure >= end + MAINTENANCE_BUFFER) ==>
              AircraftIsAvailable(s1 + [g] + s2, aircraft, start, end, ex) == AircraftIsAvailable(s1 + s2, aircraft, start, end, ex)
  {
    NonBlockingFlightIsInvisible(s1, s2, g, RunwayRef(runway.id), start, end, ex);
    NonBlockingFlightIsInvisible(s1, s2, g, GateRef(gate.id), start, end, ex);
    NonBlockingFlightIsInvisible(s1, s2, g, PersonRef(person.id), start, end, ex);
    if g.arrival <= start - MAINTENANCE_BUFFER || g.departure >= end + MAINTENANCE_BUFFER {
      NonBlockingFlightIsInvisible(s1, s2, g, AircraftRef(aircraft.id), start, end, ex);
    }
  }

  /**
   * The buffered aircraft check is stronger than plain overlap freedom: an
   * available aircraft is operational and has no live flight overlapping
   * [start, end) itself.
   */
  lemma AircraftAvailableImpliesNoOverlap(s: seq<StoredFlight>, aircraft: Aircraft, start: int, end: int, ex: Option<int>)
    requires AircraftIsAvailable(s, aircraft, start, end, ex)
    ensures aircraft.status == Operational
    ensures !exists g :: g in s && g.aircraft == aircraft.id
                         && (g.status == Scheduled || g.status == InProgress || g.status == Completed)
                         && !Excluded(g, ex)
                         && g.departure < end && g.arrival > start
  {
    AircraftAvailability(s, aircraft, start, end, ex);
  }

  /**
   * Worked turnaround case: one scheduled flight on an operational aircraft
   * from t0 to t0+3h. A window 10 hours after it lands is refused; a window
   * 25 hours after it lands is granted.
   */
  lemma AircraftTurnaroundScenario(t0: int, aircraft: Aircraft)
    requires aircraft.status == Operational
    ensures var f1 := StoredFlight(1, Scheduled, 1, 1, aircraft.id, 1, {}, t0, t0 + 3 * HOUR);
            !AircraftIsAvailable([f1], aircraft, t0 + 13 * HOUR, t0 + 15 * HOUR, None)
            && AircraftIsAvailable([f1], aircraft, t0 + 28 * HOUR, t0 + 30 * HOUR, None)
  {
    var f1 := StoredFlight(1, Scheduled, 1, 1, aircraft.id, 1, {}, t0, t0 + 3 * HOUR);
    assert f1 in Conflicting([f1], AircraftRef(aircraft.id), t0 + 13 * HOUR, t0 + 15 * HOUR, None);
    AircraftAvailability([f1], aircraft, t0 + 28 * HOUR, t0 + 30 * HOUR, None);
  }

  /** Excluding an id that no stored flight carries changes no answer. */
  lemma ExcludingUnknownIdChangesNothing(s: seq<StoredFlight>, x: int, r: ResourceRef, start: int, end: int)
    requires forall g :: g in s ==> g.id != x
    ensures Conflicting(s, r, start, end, Some(x)) == Conflicting(s, r, start, end, None)
  {
    ConflictingSameFilter(s, r, start, end, Some(x), None);
  }

  lemma {:induction false} ConflictingSameFilter(s: seq<StoredFlight>, r: ResourceRef, start: int, end: int, ex1: Option<int>, ex2: Option<int>)
    requires forall g :: g in s ==> (Excluded(g, ex1) <==> Excluded(g, ex2))
    ensures Conflicting(s, r, start, end, ex1) == Conflicting(s, r, start, end, ex2)
  {
    if s != [] {
      assert s[0] in s;
      assert forall g :: g in s[1..] ==> g in s;
      ConflictingSameFilter(s[1..], r, start, end, ex1, ex2);
    }
  }
}
