/**
 * The guarantee the availability checks exist for: no two distinct flights
 * ever hold the same resource at overlapping times (aircraft: within 24
 * hours of each other). Saving a flight whose every resource passed its
 * availability check keeps that invariant.
 */
module Booking {
  import opened Wrappers
  import opened Airline
  import opened Availability

  /** Flights g and h do not both hold r at overlapping (buffered) times. */
  predicate Separated(g: StoredFlight, h: StoredFlight, r: ResourceRef) {
    !(Occupies(g, r) && Occupies(h, r) && Live(r, g.status) && Live(r, h.status)
      && g.departure < h.arrival + Buffer(r) && h.departure < g.arrival + Buffer(r))
  }

  /** No resource is double-booked by two flights with different ids. */
  ghost predicate NoDoubleBooking(s: seq<StoredFlight>) {
    forall g, h, r :: g in s && h in s && g.id != h.id ==> Separated(g, h, r)
  }

  /** The snapshot without the rows whose id is `id`. */
  function Without(s: seq<StoredFlight>, id: int): (t: seq<StoredFlight>)
    ensures forall g :: g in t <==> g in s && g.id != id
  {
    if s == [] then []
    else (if s[0].id == id then [] else [s[0]]) + Without(s[1..], id)
  }

  /** The snapshot after saving `f`: its previous row, if any, is replaced. */
  function Rebook(s: seq<StoredFlight>, f: StoredFlight): (t: seq<StoredFlight>)
    ensures forall g :: g in t <==> g == f || (g in s && g.id != f.id)
  {
    Without(s, f.id) + [f]
  }

  /**
   * Saving a flight none of whose resources has a conflicting flight, with
   * the flight's own id excluded, keeps the schedule free of double bookings.
   */
  lemma RebookKeepsNoDoubleBooking(s: seq<StoredFlight>, f: StoredFlight)
    requires NoDoubleBooking(s)
    requires forall r :: Occupies(f, r) ==> Conflicting(s, r, f.departure, f.arrival, Some(f.id)) == []
    ensures NoDoubleBooking(Rebook(s, f))
  {
    var t := Rebook(s, f);
    forall g, h, r | g in t && h in t && g.id != h.id
      ensures Separated(g, h, r)
    {
      if g == f {
        SeparatedFromChecked(s, f, h, r);
      } else if h == f {
        SeparatedFromChecked(s, f, g, r);
      }
    }
  }

  lemma SeparatedFromChecked(s: seq<StoredFlight>, f: StoredFlight, g: StoredFlight, r: ResourceRef)
    requires g in s && g.id != f.id
    requires Occupies(f, r) ==> Conflicting(s, r, f.departure, f.arrival, Some(f.id)) == []
    ensures Separated(f, g, r) && Separated(g, f, r)
  {
    if Occupies(f, r) {
      assert g !in Conflicting(s, r, f.departure, f.arrival, Some(f.id));
      assert !Blocks(g, r, f.departure, f.arrival, Some(f.id));
    }
  }

  /**
   * The checks the validators make are enough: if the runway, gate,
   * aircraft and pilot pass `Flight.clean`'s availability checks and every
   * co-pilot passes `validate_copilots`' check, saving the flight keeps the
   * schedule free of double bookings.
   */
  lemma CheckedFlightKeepsNoDoubleBooking(s: seq<StoredFlight>, f: StoredFlight,
                                          runway: Runway, gate: Gate, aircraft: Aircraft,
                                          pilot: Personnel, copilots: seq<Personnel>)
    requires NoDoubleBooking(s)
    requires f.runway == runway.id && f.gate == gate.id && f.aircraft == aircraft.id && f.pilot == pilot.id
    requires f.copilots == set c | c in copilots :: c.id
    requires RunwayIsAvailable(s, runway, f.departure, f.arrival, Some(f.id))
    requires GateIsAvailable(s, gate, f.departure, f.arrival, Some(f.id))
    requires AircraftIsAvailable(s, aircraft, f.departure, f.arrival, Some(f.id))
    requires PersonnelIsAvailable(s, pilot, f.departure, f.arrival, Some(f.id))
    requires forall c :: c in copilots ==> PersonnelIsAvailable(s, c, f.departure, f.arrival, Some(f.id))
    ensures NoDoubleBooking(Rebook(s, f))
  {
    forall r | Occupies(f, r)
      ensures Conflicting(s, r, f.departure, f.arrival, Some(f.id)) == []
    {
      match r {
        case RunwayRef(id) =>
          assert r == RunwayRef(runway.id);
        case GateRef(id) =>
          assert r == GateRef(gate.id);
        case AircraftRef(id) =>
          assert r == AircraftRef(aircraft.id);
        case PersonRef(id) =>
          if id == f.pilot {
            assert r == PersonRef(pilot.id);
          } else {
            var p :| p in copilots && p.id == id;
            assert PersonnelIsAvailable(s, p, f.departure, f.arrival, Some(f.id));
            assert r == PersonRef(p.id);
          }
      }
    }
    RebookKeepsNoDoubleBooking(s, f);
  }
}
