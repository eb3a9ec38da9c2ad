# Airline resource scheduling: a verified model

This project models the booking rules of a Django airline application. The
application assigns runways, gates, aircraft, pilots and co-pilots to flights
and refuses a flight that would double-book a resource. The model covers:

- the four availability checks (`is_available` of runways, gates, personnel and
  aircraft) as queries over an explicit snapshot of stored flights;
- flight duration and the crew-size rule (1, 2 or 3 co-pilots);
- the two phases of flight validation (`Flight.clean` and
  `Flight.validate_copilots`), which collect every failure before they raise;
- the small record validators (`Runway.clean`, `Personnel.clean`,
  `Aircraft.clean`);
- the fail-fast form validators `FlightForm.clean` and
  `ResourceAvailabilityForm.clean`.

Beyond the per-operation contracts, module `Booking` states what the
checks together achieve. In a double-booking-free schedule, no two flights
with different ids hold the same resource at overlapping times, or within
24 hours of each other for an aircraft. A flight that passes every check
and is then saved keeps that property
(`CheckedFlightKeepsNoDoubleBooking`). The lemma assumes the order
"validate, then save". The views do not follow that order for co-pilots.
`FlightCreateView` and `FlightUpdateView` save the form first and call
`validate_copilots` afterwards, without rolling back
(`airline_app/views.py:373-375`, `airline_app/views.py:395-397`). A busy
co-pilot is therefore already stored when the error is raised. In the
application's own flow the guarantee covers only the runway, gate, aircraft
and pilot, which `Flight.clean` checks before saving.

Modelling conventions:

- Times are integer seconds on one clock. The source's float hours
  (`total_seconds() / 3600`) compared with 4, 8 and 20 become exact
  comparisons with 14400, 28800 and 72000 seconds.
- The database becomes a `seq<StoredFlight>`. Each row holds foreign keys as
  integer ids, the co-pilots as a set of ids, and both times.
- `timezone.now()` is the parameter `now`. The calendar year `now.year` is
  the parameter `currentYear`.
- A flight being validated (`Airline.Flight`) holds optional times and
  optional resolved resource records. This mirrors the source's
  `if self.runway and ...` guards.
- A validator that raises `ValidationError` returns `Raised(errors)`. One
  that returns normally gives `Passed`.

Files: `wrappers.dfy` (Option, Validation), `airline.dfy` (entities),
`availability.dfy`, `booking.dfy`, `crew.dfy`, `flight_validation.dfy`,
`entity_validation.dfy`, `forms.dfy`.

Where the repository's tests expect more than the code does, the model
follows the code:

- The test at `airline_app/tests/test_flight_model.py:9-25` expects
  `Flight.clean()` not to crash when both times are `None` and resources are
  set. The code guards only the time-range checks
  (`airline_app/models.py:387`). The availability queries at
  `airline_app/models.py:427-457` still run with the `None` times, and
  Django refuses `None` as a query value. `FlightValidation.Clean`
  therefore requires both times whenever a resource is set.
- The test at `airline_app/tests/test_flight_model.py:5` imports
  `ResourceConstraint`, and lines 28-42 create one. No such model is
  defined in the code, so constraints are not modelled.

## Model

| member | source | states |
|---|---|---|
| `Availability.Conflicting` | airline_app/models.py:51-58 | the query result holds exactly the snapshot flights that use the resource, have a live status, are not excluded, and overlap the window (widened by the resource's buffer) |
| `Availability.RunwayIsAvailable` | airline_app/models.py:37-58 | `Runway.is_available` as an empty conflict query; a schedule with no flights leaves the runway available; fully characterised by `RunwayAvailability` |
| `Availability.GateIsAvailable` | airline_app/models.py:84-105 | `Gate.is_available`; a schedule with no flights leaves the gate available; fully characterised by `GateAvailability` |
| `Availability.PersonnelIsAvailable` | airline_app/models.py:160-188 | `Personnel.is_available`, one query over pilot and co-pilot bookings; a schedule with no flights leaves the person available; fully characterised by `PersonnelAvailability` |
| `Availability.RunwayAvailability` | airline_app/models.py:51-58 | a runway is available iff no flight on it has status SCHEDULED or IN_PROGRESS, is not excluded, and has departure < end and arrival > start |
| `Availability.GateAvailability` | airline_app/models.py:98-105 | the same condition for a gate |
| `Availability.PersonnelAvailability` | airline_app/models.py:175-188 | a person is available iff no such flight has them as pilot or among its co-pilots |
| `Availability.AircraftIsAvailable` | airline_app/models.py:244-246 | an aircraft that is not OPERATIONAL is never available |
| `Availability.AircraftAvailability` | airline_app/models.py:248-259 | an operational aircraft is available iff no SCHEDULED, IN_PROGRESS or COMPLETED flight on it, not excluded, overlaps [start-24h, end+24h) |
| `Availability.NonLiveFlightNeverBlocks` | airline_app/models.py:51-53 | adding a CANCELLED, DELAYED or COMPLETED flight anywhere in the snapshot changes no runway, gate or personnel answer; a CANCELLED or DELAYED one changes no aircraft answer |
| `Availability.CompletedFlightBlocksAircraft` | airline_app/models.py:252-254 | a COMPLETED flight within the buffered window still makes its aircraft unavailable |
| `Availability.TouchingFlightNeverBlocks` | airline_app/models.py:53 | a flight arriving at or before `start`, or departing at or after `end`, changes no runway, gate or personnel answer; for an aircraft the same holds 24 hours further out |
| `Availability.AircraftAvailableImpliesNoOverlap` | airline_app/models.py:245-259 | an available aircraft is operational and has no live flight overlapping the unbuffered window |
| `Availability.AircraftTurnaroundScenario` | airline_app/models.py:248-254 | after a 3-hour flight, the aircraft is refused 10 hours after landing and granted 25 hours after landing |
| `Availability.ExcludingUnknownIdChangesNothing` | airline_app/models.py:55-56 | excluding an id no stored flight carries gives the same answer as excluding nothing |
| `Booking.RebookKeepsNoDoubleBooking` | airline_app/models.py:425-457 | if no resource of a flight has a conflicting flight (own id excluded), saving it keeps every resource free of double bookings |
| `Booking.CheckedFlightKeepsNoDoubleBooking` | airline_app/models.py:424-457 | passing the runway, gate, aircraft and pilot checks of `clean` and every co-pilot's check of `validate_copilots` is enough to keep the schedule free of double bookings |
| `Crew.DurationSeconds` | airline_app/models.py:348-358 | the duration is 0 when either time is missing; otherwise departure plus duration is arrival |
| `Crew.CopilotsForDuration` | airline_app/models.py:370-376 | the required number of co-pilots is always 1, 2 or 3 |
| `Crew.RequiredCopilots` | airline_app/models.py:360-376 | a flight needs 1 to 3 co-pilots, and exactly 1 when a time is missing |
| `Crew.CopilotsMonotone` | airline_app/models.py:370-376 | a longer flight never needs fewer co-pilots |
| `Crew.CopilotsPerStartedBlock` | airline_app/models.py:362-365 | the rule is one co-pilot per started 4-hour block, at least one and at most three |
| `Crew.CrewBoundaries` | airline_app/models.py:371-376 | exactly 4 h needs 1 and 4 h + 1 s needs 2; exactly 8 h needs 2 and 8 h + 1 s needs 3 |
| `FlightValidation.CheckTimes` | airline_app/models.py:386-410 | with both times given, `departure_time` is set iff departure < now; `arrival_time` is set iff arrival < now, or the flight lasts over 20 h, or arrival <= departure, and holds the last failure in that order; nothing is set otherwise |
| `FlightValidation.CheckResources` | airline_app/models.py:424-457 | each set resource that is busy adds its own conflict key; `pilot_conflict` overwrites an earlier pilot error; other keys are untouched |
| `FlightValidation.Clean` | airline_app/models.py:378-460 | it raises iff the error map is non-empty; states each key's presence and final value (`origin` iff the lower-cased ends are equal; `pilot` holds `pilot_conflict` over `invalid_pilot`; one key per busy resource); a passing flight with times departs no earlier than now, arrives after departing, and lasts at most 20 h |
| `FlightValidation.CopilotCheck` | airline_app/models.py:482-499 | one co-pilot contributes exactly one error if the role is wrong, plus one if the co-pilot is busy (so at most two) |
| `FlightValidation.CopilotCheckContents` | airline_app/models.py:482-499 | every error for one co-pilot names that co-pilot; `invalid_copilot` appears iff its type is not COPILOT, `copilot_conflict` iff it is unavailable |
| `FlightValidation.CopilotErrors` | airline_app/models.py:466-499 | the list `validate_copilots` builds: with too few co-pilots it starts with the shortfall error carrying the required and assigned counts; otherwise it holds only the per-co-pilot errors |
| `FlightValidation.CheckEachCopilot` | airline_app/models.py:480-499 | the loop appends, in order, each co-pilot's wrong-role error and then its conflict error |
| `FlightValidation.ValidateCopilots` | airline_app/models.py:462-502 | the reported list is the shortfall error followed by the per-co-pilot errors; it raises iff too few co-pilots are assigned, or some co-pilot is not of type COPILOT or is busy |
| `FlightValidation.CopilotErrorsLength` | airline_app/models.py:466-499 | the list holds at most 1 + 2·(number of co-pilots) errors |
| `FlightValidation.ShortfallReportedOnce` | airline_app/models.py:469-478 | there is exactly one `insufficient_copilots` error iff fewer co-pilots are assigned than required, and none otherwise |
| `FlightValidation.RosterErrorsNameTheFailingCopilots` | airline_app/models.py:482-499 | `invalid_copilot` is reported for an id iff an assigned co-pilot with that id has the wrong type; `copilot_conflict` iff one with that id is busy |
| `FlightValidation.CopilotErrorsEmptyIff` | airline_app/models.py:501-502 | the error list is empty iff the crew is large enough and every co-pilot has type COPILOT and is available |
| `EntityValidation.CleanRunway` | airline_app/models.py:28-32 | a runway passes iff its length is in [800, 5000] m |
| `EntityValidation.CleanPersonnel` | airline_app/models.py:142-152 | a person passes iff they have at most 50 years of experience; otherwise only `years_of_experience` is reported |
| `EntityValidation.CleanAircraft` | airline_app/models.py:261-281 | an aircraft passes iff its capacity is in [1, 700] and its year in [1990, current year]; each failure has its own key |
| `Forms.CleanFlightForm` | airline_app/forms.py:240-276 | with a time missing it returns the data unchanged; with arrival <= departure it rejects on `arrival_time` without looking at co-pilots; it rejects on `copilots`, with the required and selected counts, exactly for a non-empty selection smaller than required; otherwise it returns the data unchanged |
| `Forms.FormCrewRuleMatchesModel` | airline_app/forms.py:257-264 | the form's thresholds agree with `Flight.get_required_copilots` for every duration |
| `Forms.AcceptedSelectionMeetsModelMinimum` | airline_app/forms.py:266-274 | a non-empty selection the form accepts meets the model's co-pilot minimum for the same times |
| `Forms.CleanAvailabilityForm` | airline_app/forms.py:356-367 | it rejects iff both times are given and end <= start, and otherwise returns the data unchanged |

A rejected form carries exactly one error (`FormOutcome.Rejected`). This is
how the model states that both forms raise at their first failure.

## Left out

- Resource constraints (the `ResourceConstraint` rules the test creates, e.g. `CO_REQUISITE`): the code defines no `ResourceConstraint`. It appears only in a test (airline_app/tests/test_flight_model.py:5 and 28-42).
- Django ORM and persistence: field declarations, `Meta`, the `save`/`full_clean` wiring and `super().clean()` field validation. The database is the snapshot parameter; `Booking.Rebook` stands for the effect of a save.
- Text formatting: error message texts (including the `:.1f` durations), `__str__`, `get_full_name` and the `strftime` widget set-up. Errors are datatype constructors. `FlightValidation.Code` gives the machine-readable codes of `Flight.clean`'s errors, and `FlightValidation.CopilotCode` those of `validate_copilots`.
- Views, URL routing, admin configuration, front-end scripts and test fixtures. These only handle requests around the modelled functions.
- Concurrency: two requests can pass validation on the same snapshot before either saves. The model is correct for one consistent snapshot only.
- Clock: the source calls `timezone.now()` separately for the departure and arrival checks. The model uses one instant `now` for both. Deriving the calendar year from a timestamp is not modelled; `currentYear` is a parameter.
- Time precision: sub-second parts and time zones are dropped; times are integer seconds.
- Case folding: `str.lower()` is modelled for ASCII letters only (`FlightValidation.Lower`); other Unicode case mappings are not modelled.
- Unset foreign keys: Django raises when an unset non-nullable foreign key is read. The model follows the `if self.runway` guards as written and treats an unset resource as skipped.
- Missing times in `Flight.clean` and `validate_copilots`: the source crashes when a query runs with a `None` time. Such calls are outside the model (a precondition), not modelled as an error result.
- Choice fields: statuses and personnel types are enumerations. Values outside the declared choices are not modelled.
- Co-pilot order: `copilots.all()` returns co-pilots in name order (`Personnel.Meta.ordering`, airline_app/models.py:140). The model accepts any sequence, so every result holds for that order too. It does not assume the ids are distinct.

Two notes on the source, both modelled as written:

- `Aircraft.clean`'s messages say capacity must be "less than 700" and the year "greater than 1990" and "less than the current year". The code accepts capacity 700, year 1990 and the current year (airline_app/models.py:263 and 270-272).
- In `Flight.clean`, a flight longer than 20 hours always arrives after it departs. So the ordering error and the too-long error never compete for `arrival_time`. Either one does overwrite the arrival-in-the-past error.
