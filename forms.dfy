/**
 * The `clean` methods of `FlightForm` and `ResourceAvailabilityForm`. Both
 * are fail-fast: they raise at the first failing check, so a rejection
 * carries exactly one error; otherwise they return `cleaned_data` as given.
 */
module Forms {
  import opened Wrappers
  import opened Airline
  import Crew

  /** The part of `FlightForm.cleaned_data` the form checks; no selection and an empty one are alike. */
  datatype FlightFormData = FlightFormData(departure: Option<int>, arrival: Option<int>, copilots: seq<int>)

  datatype AvailabilityFormData = AvailabilityFormData(start: Option<int>, end: Option<int>)

  datatype FormError =
    | ArrivalNotAfterDeparture
    | TooFewCopilots(required: int, selected: int)
    | EndNotAfterStart

  /** A form's `clean`: returns the data, or raises one error on one field (`__all__` for a form-wide one). */
  datatype FormOutcome<T> = Accepted(data: T) | Rejected(field: string, error: FormError)

  /** The form's own copy of the crew thresholds, in seconds. */
  function FormCopilotsForDuration(d: int): int {
    if d <= 4 * HOUR then 1
    else if d <= 8 * HOUR then 2
    else 3
  }

  /** `FlightForm.clean`. */
  function CleanFlightForm(d: FlightFormData): (r: FormOutcome<FlightFormData>)
    ensures r.Accepted? ==> r.data == d
    // Missing times: nothing is checked.
    ensures d.departure.None? || d.arrival.None? ==> r == Accepted(d)
    // The time order is checked first; when it fails the co-pilots are never looked at.
    ensures d.departure.Some? && d.arrival.Some? && d.arrival.value <= d.departure.value ==>
              r == Rejected("arrival_time", ArrivalNotAfterDeparture)
    // The count check fires only for a non-empty selection smaller than required.
    ensures r.Rejected? && r.field == "copilots" ==>
              d.departure.Some? && d.arrival.Some? && d.arrival.value > d.departure.value
              && 0 < |d.copilots| < FormCopilotsForDuration(d.arrival.value - d.departure.value)
              && r.error == TooFewCopilots(FormCopilotsForDuration(d.arrival.value - d.departure.value), |d.copilots|)
    // ... and a non-empty selection that is too small is always rejected there.
    ensures d.departure.Some? && d.arrival.Some? && d.arrival.value > d.departure.value
            && 0 < |d.copilots| < FormCopilotsForDuration(d.arrival.value - d.departure.value) ==>
              r == Rejected("copilots", TooFewCopilots(FormCopilotsForDuration(d.arrival.value - d.departure.value), |d.copilots|))
    ensures r.Rejected? ==> r.field == "arrival_time" || r.field == "copilots"
    ensures r.Accepted? <==>
              !(d.departure.Some? && d.arrival.Some?
                && (d.arrival.value <= d.departure.value
                    || 0 < |d.copilots| < FormCopilotsForDuration(d.arrival.value - d.departure.value)))
  {
    if d.departure.Some? && d.arrival.Some? then
      if d.arrival.value <= d.departure.value then
        Rejected("arrival_time", ArrivalNotAfterDeparture)
      else
        var duration := d.arrival.value - d.departure.value;
        var required := FormCopilotsForDuration(duration);
        if |d.copilots| > 0 && |d.copilots| < required then
          Rejected("copilots", TooFewCopilots(required, |d.copilots|))
        else
          Accepted(d)
    else
      Accepted(d)
  }

  /** The form and the model apply the same crew thresholds to every duration. */
  lemma FormCrewRuleMatchesModel(d: int)
    ensures FormCopilotsForDuration(d) == Crew.CopilotsForDuration(d)
  {
  }

  /**
   * A non-empty selection that the form accepts already meets the minimum
   * `Flight.validate_copilots` later demands for the same times.
   */
  lemma AcceptedSelectionMeetsModelMinimum(d: FlightFormData)
    requires CleanFlightForm(d).Accepted?
    requires d.departure.Some? && d.arrival.Some? && d.copilots != []
    ensures |d.copilots| >= Crew.RequiredCopilots(d.departure, d.arrival)
  {
    FormCrewRuleMatchesModel(d.arrival.value - d.departure.value);
  }

  /** `ResourceAvailabilityForm.clean`: refuses a window whose end is not after its start. */
  function CleanAvailabilityForm(d: AvailabilityFormData): (r: FormOutcome<AvailabilityFormData>)
    ensures r.Rejected? <==> d.start.Some? && d.end.Some? && d.end.value <= d.start.value
    ensures r.Rejected? ==> r == Rejected("__all__", EndNotAfterStart)
    ensures r.Accepted? ==> r.data == d
  {
    if d.start.Some? && d.end.Some? && d.end.value <= d.start.value then
      Rejected("__all__", EndNotAfterStart)
    else
      Accepted(d)
  }
}
