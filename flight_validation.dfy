/**
 * `Flight.clean` and `Flight.validate_copilots`: the two phases of flight
 * validation. Both collect every failure before raising, and raise exactly
 * when something was collected.
 */
module FlightValidation {
  import opened Wrappers
  import opened Airline
  import opened Availability
  import opened Crew

  /** The longest flight `Flight.clean` accepts. */
  const MAX_FLIGHT_SECONDS: int := 20 * HOUR

  /** One error per distinct message of `Flight.clean`. */
  datatype FlightError =
    | DepartureInPast
    | ArrivalInPast
    | FlightTooLong
    | ArrivalNotAfterDeparture
    | SameOriginAndDestination
    | NotAPilot
    | RunwayConflict
    | GateConflict
    | AircraftConflict
    | PilotConflict

  /** The machine-readable code each error carries; two messages share `invalid_time_range`. */
  function Code(e: FlightError): string {
    match e
    case DepartureInPast => "invalid_departure_time"
    case ArrivalInPast => "invalid_arrival_time"
    case FlightTooLong => "invalid_time_range"
    case ArrivalNotAfterDeparture => "invalid_time_range"
    case SameOriginAndDestination => "invalid_origin_destination"
    case NotAPilot => "invalid_pilot"
    case RunwayConflict => "runway_conflict"
    case GateConflict => "gate_conflict"
    case AircraftConflict => "aircraft_conflict"
    case PilotConflict => "pilot_conflict"
  }

  /** The keys of `Flight.clean`'s error dictionary. */
  datatype FieldKey = DepartureTimeKey | ArrivalTimeKey | OriginKey | PilotKey | RunwayKey | GateKey | AircraftKey

  /** The field name each key stands for in the source's dictionary. */
  function FieldName(k: FieldKey): string {
    match k
    case DepartureTimeKey => "departure_time"
    case ArrivalTimeKey => "arrival_time"
    case OriginKey => "origin"
    case PilotKey => "pilot"
    case RunwayKey => "runway"
    case GateKey => "gate"
    case AircraftKey => "aircraft"
  }

  /** An error of `validate_copilots`; co-pilots are named by id. */
  datatype CopilotError =
    | InsufficientCopilots(required: int, present: int)
    | InvalidCopilot(personnel: int)
    | CopilotConflict(personnel: int)

  /** The machine-readable code each co-pilot error carries. */
  function CopilotCode(e: CopilotError): string {
    match e
    case InsufficientCopilots(_, _) => "insufficient_copilots"
    case InvalidCopilot(_) => "invalid_copilot"
    case CopilotConflict(_) => "copilot_conflict"
  }

  function LowerChar(c: char): char {
    if 'A' <= c <= 'Z' then (c as int + 32) as char else c
  }

  /** `str.lower()`, on ASCII letters. */
  function Lower(s: string): (t: string)
    ensures |t| == |s| && forall i :: 0 <= i < |s| ==> t[i] == LowerChar(s[i])
  {
    seq(|s|, i requires 0 <= i < |s| => LowerChar(s[i]))
  }

  function ErrorMap<K, V>(v: Validation<map<K, V>>): map<K, V> {
    if v.Raised? then v.errors else map[]
  }

  function ErrorList<V>(v: Validation<seq<V>>): seq<V> {
    if v.Raised? then v.errors else []
  }

  /** Some resource whose availability `Flight.clean` queries is set. */
  predicate QueriesResources(f: Flight) {
    f.runway.Some? || f.gate.Some? || f.aircraft.Some? || f.pilot.Some?
  }

  /**
   * The time-range part of `Flight.clean`, run only when both times are
   * given. On the arrival key the ordering check overwrites the duration
   * check, which overwrites the arrival-in-the-past check.
   */
  method CheckTimes(f: Flight, now: int) returns (errors: map<FieldKey, FlightError>)
    ensures errors.Keys <= {DepartureTimeKey, ArrivalTimeKey}
    ensures DepartureTimeKey in errors <==> TimesGiven(f) && f.departure.value < now
    ensures DepartureTimeKey in errors ==> errors[DepartureTimeKey] == DepartureInPast
    ensures ArrivalTimeKey in errors <==>
              TimesGiven(f) && (f.arrival.value < now
                                || f.arrival.value - f.departure.value > MAX_FLIGHT_SECONDS
                                || f.arrival.value <= f.departure.value)
    ensures ArrivalTimeKey in errors ==>
              errors[ArrivalTimeKey] == (if f.arrival.value <= f.departure.value then ArrivalNotAfterDeparture
                                         else if f.arrival.value - f.departure.value > MAX_FLIGHT_SECONDS then FlightTooLong
                                         else ArrivalInPast)
  {
    errors := map[];
    var duration := DurationSeconds(f.departure, f.arrival);
    if f.departure.Some? && f.arrival.Some? {
      if f.departure.value < now {
        errors := errors[DepartureTimeKey := DepartureInPast];
      }
      if f.arrival.value < now {
        errors := errors[ArrivalTimeKey := ArrivalInPast];
      }
      if duration > MAX_FLIGHT_SECONDS {
        errors := errors[ArrivalTimeKey := FlightTooLong];
      }
      if f.arrival.value <= f.departure.value {
        errors := errors[ArrivalTimeKey := ArrivalNotAfterDeparture];
      }
    }
  }

  /**
   * The availability part of `Flight.clean`: each resource that is set and
   * busy over the flight's window records its conflict, the pilot's
   * overwriting any earlier pilot error. Other keys are left as they were.
   */
  method CheckResources(f: Flight, s: seq<StoredFlight>, errors: map<FieldKey, FlightError>)
    returns (out: map<FieldKey, FlightError>)
    requires QueriesResources(f) ==> TimesGiven(f)
    ensures forall k :: k !in {RunwayKey, GateKey, AircraftKey, PilotKey} ==>
              (k in out <==> k in errors) && (k in out ==> out[k] == errors[k])
    ensures RunwayKey in out <==>
              RunwayKey in errors
              || (f.runway.Some? && !RunwayIsAvailable(s, f.runway.value, f.departure.value, f.arrival.value, ExcludeId(f.pk)))
    ensures RunwayKey in out && RunwayKey !in errors ==> out[RunwayKey] == RunwayConflict
    ensures GateKey in out <==>
              GateKey in errors
              || (f.gate.Some? && !GateIsAvailable(s, f.gate.value, f.departure.value, f.arrival.value, ExcludeId(f.pk)))
    ensures GateKey in out && GateKey !in errors ==> out[GateKey] == GateConflict
    ensures AircraftKey in out <==>
              AircraftKey in errors
              || (f.aircraft.Some? && !AircraftIsAvailable(s, f.aircraft.value, f.departure.value, f.arrival.value, ExcludeId(f.pk)))
    ensures AircraftKey in out && AircraftKey !in errors ==> out[AircraftKey] == AircraftConflict
    ensures PilotKey in out <==>
              PilotKey in errors
              || (f.pilot.Some? && !PersonnelIsAvailable(s, f.pilot.value, f.departure.value, f.arrival.value, ExcludeId(f.pk)))
    ensures PilotKey in out ==>
              out[PilotKey] == (if f.pilot.Some? && !PersonnelIsAvailable(s, f.pilot.value, f.departure.value, f.arrival.value, ExcludeId(f.pk))
                                then PilotConflict else errors[PilotKey])
  {
    out := errors;
    var excludeId := ExcludeId(f.pk);
    if f.runway.Some? && !RunwayIsAvailable(s, f.runway.value, f.departure.value, f.arrival.value, excludeId) {
      out := out[RunwayKey := RunwayConflict];
    }
    if f.gate.Some? && !GateIsAvailable(s, f.gate.value, f.departure.value, f.arrival.value, excludeId) {
      out := out[GateKey := GateConflict];
    }
    if f.aircraft.Some? && !AircraftIsAvailable(s, f.aircraft.value, f.departure.value, f.arrival.value, excludeId) {
      out := out[AircraftKey := AircraftConflict];
    }
    if f.pilot.Some? && !PersonnelIsAvailable(s, f.pilot.value, f.departure.value, f.arrival.value, excludeId) {
      out := out[PilotKey := PilotConflict];
    }
  }

  /**
   * `Flight.clean`. The availability queries run with the flight's times
   * unguarded, so a set resource with a missing time is outside the method's
   * domain. Later checks on one key overwrite earlier ones.
   */
  method Clean(f: Flight, s: seq<StoredFlight>, now: int) returns (v: Validation<map<FieldKey, FlightError>>)
    requires QueriesResources(f) ==> TimesGiven(f)
    ensures v.Raised? ==> v.errors != map[]
    ensures ErrorMap(v).Keys <= {DepartureTimeKey, ArrivalTimeKey, OriginKey, PilotKey, RunwayKey, GateKey, AircraftKey}
    ensures var e := ErrorMap(v);
            (DepartureTimeKey in e <==> TimesGiven(f) && f.departure.value < now)
            && (DepartureTimeKey in e ==> e[DepartureTimeKey] == DepartureInPast)
    ensures var e := ErrorMap(v);
            (ArrivalTimeKey in e <==>
               TimesGiven(f) && (f.arrival.value < now
                                 || f.arrival.value - f.departure.value > MAX_FLIGHT_SECONDS
                                 || f.arrival.value <= f.departure.value))
            && (ArrivalTimeKey in e ==>
                  e[ArrivalTimeKey] == (if f.arrival.value <= f.departure.value then ArrivalNotAfterDeparture
                                        else if f.arrival.value - f.departure.value > MAX_FLIGHT_SECONDS then FlightTooLong
                                        else ArrivalInPast))
    ensures var e := ErrorMap(v);
            (OriginKey in e <==> Lower(f.origin) == Lower(f.destination))
            && (OriginKey in e ==> e[OriginKey] == SameOriginAndDestination)
    ensures var e := ErrorMap(v);
            (PilotKey in e <==>
               f.pilot.Some? && (f.pilot.value.kind != Pilot
                                 || !PersonnelIsAvailable(s, f.pilot.value, f.departure.value, f.arrival.value, ExcludeId(f.pk))))
            && (PilotKey in e ==>
                  e[PilotKey] == (if !PersonnelIsAvailable(s, f.pilot.value, f.departure.value, f.arrival.value, ExcludeId(f.pk))
                                 then PilotConflict else NotAPilot))
    ensures var e := ErrorMap(v);
            (RunwayKey in e <==> f.runway.Some? && !RunwayIsAvailable(s, f.runway.value, f.departure.value, f.arrival.value, ExcludeId(f.pk)))
            && (RunwayKey in e ==> e[RunwayKey] == RunwayConflict)
    ensures var e := ErrorMap(v);
            (GateKey in e <==> f.gate.Some? && !GateIsAvailable(s, f.gate.value, f.departure.value, f.arrival.value, ExcludeId(f.pk)))
            && (GateKey in e ==> e[GateKey] == GateConflict)
    ensures var e := ErrorMap(v);
            (AircraftKey in e <==> f.aircraft.Some? && !AircraftIsAvailable(s, f.aircraft.value, f.departure.value, f.arrival.value, ExcludeId(f.pk)))
            && (AircraftKey in e ==> e[AircraftKey] == AircraftConflict)
    // What passing promises about a flight whose times are given.
    ensures v.Passed? && TimesGiven(f) ==>
              now <= f.departure.value < f.arrival.value <= f.departure.value + MAX_FLIGHT_SECONDS
  {
    var errors := CheckTimes(f, now);

    if Lower(f.origin) == Lower(f.destination) {
      errors := errors[OriginKey := SameOriginAndDestination];
    }

    if f.pilot.Some? && f.pilot.value.kind != Pilot {
      errors := errors[PilotKey := NotAPilot];
    }

    errors := CheckResources(f, s, errors);

    if errors != map[] {
      v := Raised(errors);
    } else {
      v := Passed;
    }
  }

  /** The errors one co-pilot contributes: wrong role first, then a conflict. */
  function CopilotCheck(c: Personnel, s: seq<StoredFlight>, start: int, end: int, ex: Option<int>): (errs: seq<CopilotError>)
    ensures |errs| == (if c.kind != Copilot then 1 else 0) + (if !PersonnelIsAvailable(s, c, start, end, ex) then 1 else 0)
    ensures |errs| <= 2
  {
    (if c.kind != Copilot then [InvalidCopilot(c.id)] else [])
    + (if !PersonnelIsAvailable(s, c, start, end, ex) then [CopilotConflict(c.id)] else [])
  }

  /**
   * One co-pilot's errors name that co-pilot only: `invalid_copilot` exactly
   * when the role is wrong, `copilot_conflict` exactly when the co-pilot is busy.
   */
  lemma CopilotCheckContents(c: Personnel, s: seq<StoredFlight>, start: int, end: int, ex: Option<int>)
    ensures forall e :: e in CopilotCheck(c, s, start, end, ex) ==> e == InvalidCopilot(c.id) || e == CopilotConflict(c.id)
    ensures InvalidCopilot(c.id) in CopilotCheck(c, s, start, end, ex) <==> c.kind != Copilot
    ensures CopilotConflict(c.id) in CopilotCheck(c, s, start, end, ex) <==> !PersonnelIsAvailable(s, c, start, end, ex)
  {
  }

  /** The errors the loop over the assigned co-pilots appends, in order. */
  function RosterErrors(cs: seq<Personnel>, s: seq<StoredFlight>, departure: Option<int>, arrival: Option<int>, ex: Option<int>): seq<CopilotError>
    requires cs != [] ==> departure.Some? && arrival.Some?
  {
    if cs == [] then []
    else CopilotCheck(cs[0], s, departure.value, arrival.value, ex) + RosterErrors(cs[1..], s, departure, arrival, ex)
  }

  /** The shortfall error, reported before any per-co-pilot error. */
  function Shortfall(f: Flight): seq<CopilotError> {
    var required := RequiredCopilots(f.departure, f.arrival);
    if |f.copilots| < required then [InsufficientCopilots(required, |f.copilots|)] else []
  }

  /** The full error list `validate_copilots` builds. */
  function CopilotErrors(f: Flight, s: seq<StoredFlight>): (errs: seq<CopilotError>)
    requires f.copilots != [] ==> TimesGiven(f)
    // A shortfall is reported first, with the required and the assigned count.
    ensures |f.copilots| < RequiredCopilots(f.departure, f.arrival) ==>
              errs != [] && errs[0] == InsufficientCopilots(RequiredCopilots(f.departure, f.arrival), |f.copilots|)
    // Without a shortfall, only per-co-pilot errors are reported.
    ensures |f.copilots| >= RequiredCopilots(f.departure, f.arrival) ==>
              errs == RosterErrors(f.copilots, s, f.departure, f.arrival, ExcludeId(f.pk))
  {
    Shortfall(f) + RosterErrors(f.copilots, s, f.departure, f.arrival, ExcludeId(f.pk))
  }

  /** `Flight.validate_copilots`. */
  method ValidateCopilots(f: Flight, s: seq<StoredFlight>) returns (v: Validation<seq<CopilotError>>)
    requires f.copilots != [] ==> TimesGiven(f)
    ensures ErrorList(v) == CopilotErrors(f, s)
    ensures v.Raised? ==> v.errors != []
    ensures v.Passed? <==>
              |f.copilots| >= RequiredCopilots(f.departure, f.arrival)
              && forall c :: c in f.copilots ==>
                   c.kind == Copilot
                   && PersonnelIsAvailable(s, c, f.departure.value, f.arrival.value, ExcludeId(f.pk))
  {
    var errors: seq<CopilotError> := [];
    var required := RequiredCopilots(f.departure, f.arrival);
    var present := |f.copilots|;
    if present < required {
      errors := errors + [InsufficientCopilots(required, present)];
    }
    assert errors == Shortfall(f);

    errors := CheckEachCopilot(f, s, errors);

    CopilotErrorsEmptyIff(f, s);
    if errors != [] {
      v := Raised(errors);
    } else {
      v := Passed;
    }
  }

  /** The loop of `validate_copilots` over the assigned co-pilots, appending to `errors`. */
  method CheckEachCopilot(f: Flight, s: seq<StoredFlight>, errors: seq<CopilotError>) returns (out: seq<CopilotError>)
    requires f.copilots != [] ==> TimesGiven(f)
    ensures out == errors + RosterErrors(f.copilots, s, f.departure, f.arrival, ExcludeId(f.pk))
  {
    out := errors;
    var excludeId := ExcludeId(f.pk);
    for i := 0 to |f.copilots|
      invariant out == errors + RosterErrors(f.copilots[..i], s, f.departure, f.arrival, excludeId)
    {
      var copilot := f.copilots[i];
      if copilot.kind != Copilot {
        out := out + [InvalidCopilot(copilot.id)];
      }
      if !PersonnelIsAvailable(s, copilot, f.departure.value, f.arrival.value, excludeId) {
        out := out + [CopilotConflict(copilot.id)];
      }
      RosterErrorsSnoc(f.copilots, i, s, f.departure, f.arrival, excludeId);
    }
    assert f.copilots[..|f.copilots|] == f.copilots;
  }

  /** One more co-pilot appends that co-pilot's errors. */
  lemma RosterErrorsSnoc(cs: seq<Personnel>, i: nat, s: seq<StoredFlight>,
                         departure: Option<int>, arrival: Option<int>, ex: Option<int>)
    requires i < |cs| && departure.Some? && arrival.Some?
    ensures RosterErrors(cs[..i + 1], s, departure, arrival, ex)
            == RosterErrors(cs[..i], s, departure, arrival, ex) + CopilotCheck(cs[i], s, departure.value, arrival.value, ex)
  {
    assert cs[..i + 1] == cs[..i] + [cs[i]];
    RosterErrorsConcat(cs[..i], [cs[i]], s, departure, arrival, ex);
    assert [cs[i]][1..] == [];
  }

  lemma {:induction false} RosterErrorsConcat(a: seq<Personnel>, b: seq<Personnel>, s: seq<StoredFlight>,
                                              departure: Option<int>, arrival: Option<int>, ex: Option<int>)
    requires a + b != [] ==> departure.Some? && arrival.Some?
    ensures RosterErrors(a + b, s, departure, arrival, ex)
            == RosterErrors(a, s, departure, arrival, ex) + RosterErrors(b, s, departure, arrival, ex)
  {
    if a == [] {
      assert a + b == b;
    } else {
      assert (a + b)[0] == a[0];
      assert (a + b)[1..] == a[1..] + b;
      RosterErrorsConcat(a[1..], b, s, departure, arrival, ex);
    }
  }

  /** Each co-pilot adds at most two errors. */
  lemma {:induction false} RosterErrorsLength(cs: seq<Personnel>, s: seq<StoredFlight>,
                                              departure: Option<int>, arrival: Option<int>, ex: Option<int>)
    requires cs != [] ==> departure.Some? && arrival.Some?
    ensures |RosterErrors(cs, s, departure, arrival, ex)| <= 2 * |cs|
  {
    if cs != [] {
      RosterErrorsLength(cs[1..], s, departure, arrival, ex);
    }
  }

  /** The error list holds at most one shortfall error and two errors per co-pilot. */
  lemma CopilotErrorsLength(f: Flight, s: seq<StoredFlight>)
    requires f.copilots != [] ==> TimesGiven(f)
    ensures |CopilotErrors(f, s)| <= 1 + 2 * |f.copilots|
  {
    RosterErrorsLength(f.copilots, s, f.departure, f.arrival, ExcludeId(f.pk));
  }

  function CountShortfalls(errs: seq<CopilotError>): nat {
    if errs == [] then 0
    else (if errs[0].InsufficientCopilots? then 1 else 0) + CountShortfalls(errs[1..])
  }

  lemma {:induction false} CountShortfallsConcat(a: seq<CopilotError>, b: seq<CopilotError>)
    ensures CountShortfalls(a + b) == CountShortfalls(a) + CountShortfalls(b)
  {
    if a == [] {
      assert a + b == b;
    } else {
      assert (a + b)[1..] == a[1..] + b;
      CountShortfallsConcat(a[1..], b);
    }
  }

  lemma {:induction false} RosterHasNoShortfall(cs: seq<Personnel>, s: seq<StoredFlight>,
                                                departure: Option<int>, arrival: Option<int>, ex: Option<int>)
    requires cs != [] ==> departure.Some? && arrival.Some?
    ensures CountShortfalls(RosterErrors(cs, s, departure, arrival, ex)) == 0
  {
    if cs != [] {
      var head := CopilotCheck(cs[0], s, departure.value, arrival.value, ex);
      var tail := RosterErrors(cs[1..], s, departure, arrival, ex);
      RosterHasNoShortfall(cs[1..], s, departure, arrival, ex);
      CountShortfallsConcat(head, tail);
      assert CountShortfalls(head) == 0 by {
        if head != [] {
          assert !head[0].InsufficientCopilots?;
          if |head| == 2 {
            assert head[1..] == [head[1]];
          }
        }
      }
    }
  }

  /** Exactly one `insufficient_copilots` error iff fewer co-pilots are assigned than required. */
  lemma ShortfallReportedOnce(f: Flight, s: seq<StoredFlight>)
    requires f.copilots != [] ==> TimesGiven(f)
    ensures CountShortfalls(CopilotErrors(f, s))
            == if |f.copilots| < RequiredCopilots(f.departure, f.arrival) then 1 else 0
  {
    RosterHasNoShortfall(f.copilots, s, f.departure, f.arrival, ExcludeId(f.pk));
    CountShortfallsConcat(Shortfall(f), RosterErrors(f.copilots, s, f.departure, f.arrival, ExcludeId(f.pk)));
  }

  /**
   * A co-pilot is reported as `invalid_copilot` iff some assigned co-pilot
   * with that id is not of type COPILOT, and as `copilot_conflict` iff some
   * assigned co-pilot with that id is unavailable.
   */
  lemma {:induction false} RosterErrorsNameTheFailingCopilots(cs: seq<Personnel>, s: seq<StoredFlight>,
                                                              start: int, end: int, ex: Option<int>, id: int)
    ensures InvalidCopilot(id) in RosterErrors(cs, s, Some(start), Some(end), ex)
            <==> exists c :: c in cs && c.id == id && c.kind != Copilot
    ensures CopilotConflict(id) in RosterErrors(cs, s, Some(start), Some(end), ex)
            <==> exists c :: c in cs && c.id == id && !PersonnelIsAvailable(s, c, start, end, ex)
  {
    if cs != [] {
      RosterErrorsNameTheFailingCopilots(cs[1..], s, start, end, ex, id);
      assert forall c :: c in cs <==> c == cs[0] || c in cs[1..];
    }
  }

  lemma {:induction false} RosterErrorsEmptyIff(cs: seq<Personnel>, s: seq<StoredFlight>,
                                                departure: Option<int>, arrival: Option<int>, ex: Option<int>)
    requires cs != [] ==> departure.Some? && arrival.Some?
    ensures RosterErrors(cs, s, departure, arrival, ex) == [] <==>
              forall c :: c in cs ==> c.kind == Copilot && PersonnelIsAvailable(s, c, departure.value, arrival.value, ex)
  {
    if cs != [] {
      RosterErrorsEmptyIff(cs[1..], s, departure, arrival, ex);
      assert forall c :: c in cs <==> c == cs[0] || c in cs[1..];
    }
  }

  /** `validate_copilots` raises iff the crew is short or some co-pilot has the wrong role or is busy. */
  lemma CopilotErrorsEmptyIff(f: Flight, s: seq<StoredFlight>)
    requires f.copilots != [] ==> TimesGiven(f)
    ensures CopilotErrors(f, s) == [] <==>
              |f.copilots| >= RequiredCopilots(f.departure, f.arrival)
              && forall c :: c in f.copilots ==>
                   c.kind == Copilot
                   && PersonnelIsAvailable(s, c, f.departure.value, f.arrival.value, ExcludeId(f.pk))
  {
    RosterErrorsEmptyIff(f.copilots, s, f.departure, f.arrival, ExcludeId(f.pk));
  }
}
