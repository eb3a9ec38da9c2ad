/**
 * The entities of the airline scheduler, reduced to the fields that the
 * validators and availability checks read. Times are integer seconds on a
 * common clock; every reference between records is an integer id.
 */
module Airline {
  import opened Wrappers

  const HOUR: int := 3600

  /** The 24-hour maintenance turnaround an aircraft needs between flights. */
  const MAINTENANCE_BUFFER: int := 24 * HOUR

  datatype FlightStatus = Scheduled | InProgress | Completed | Cancelled | Delayed

  datatype AircraftStatus = Operational | Maintenance | OutOfService

  datatype PersonnelType = Pilot | Copilot

  datatype Runway = Runway(id: int, lengthMeters: nat)

  datatype Gate = Gate(id: int)

  datatype Personnel = Personnel(id: int, kind: PersonnelType, yearsOfExperience: nat)

  datatype Aircraft = Aircraft(id: int, capacity: nat, yearManufactured: nat, status: AircraftStatus)

  /**
   * A flight as the database holds it: the row that availability queries
   * run over. Its resources are foreign-key ids, its co-pilots the ids on
   * the many-to-many edge, and both times are present.
   */
  datatype StoredFlight = StoredFlight(
    id: int,
    status: FlightStatus,
    runway: int,
    gate: int,
    aircraft: int,
    pilot: int,
    copilots: set<int>,
    departure: int,
    arrival: int)

  /**
   * A flight instance being validated: its primary key (None before the
   * first save), the resolved resource records (each may be unset) and
   * times that may be missing.
   */
  datatype Flight = Flight(
    pk: Option<int>,
    origin: string,
    destination: string,
    departure: Option<int>,
    arrival: Option<int>,
    runway: Option<Runway>,
    gate: Option<Gate>,
    aircraft: Option<Aircraft>,
    pilot: Option<Personnel>,
    copilots: seq<Personnel>)

  predicate TimesGiven(f: Flight) {
    f.departure.Some? && f.arrival.Some?
  }

  /** The id passed as `exclude_flight_id`: the primary key when it is truthy. */
  function ExcludeId(pk: Option<int>): Option<int> {
    if pk.Some? && pk.value != 0 then pk else None
  }
}
