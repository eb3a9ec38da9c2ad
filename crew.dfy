/**
 * Flight duration and the crew-size rule: the number of co-pilots a flight
 * needs is a step function of its duration (up to 4 hours: one; up to 8
 * hours: two; longer: three).
 */
module Crew {
  import opened Wrappers
  import opened Airline

  /** The length of one crew block: a co-pilot is added per started 4 hours. */
  const CREW_BLOCK: int := 4 * HOUR

  /** Duration in seconds; 0 when either time is missing. */
  function DurationSeconds(departure: Option<int>, arrival: Option<int>): (d: int)
    ensures departure.None? || arrival.None? ==> d == 0
    ensures departure.Some? && arrival.Some? ==> departure.value + d == arrival.value
  {
    if departure.Some? && arrival.Some? then arrival.value - departure.value else 0
  }

  /** The thresholds of `get_required_copilots`, in seconds. */
  function CopilotsForDuration(d: int): (n: int)
    ensures 1 <= n <= 3
  {
    if d <= 4 * HOUR then 1
    else if d <= 8 * HOUR then 2
    else 3
  }

  /** `Flight.get_required_copilots`: the rule applied to the flight's duration. */
  function RequiredCopilots(departure: Option<int>, arrival: Option<int>): (n: int)
    ensures 1 <= n <= 3
    ensures departure.None? || arrival.None? ==> n == 1
  {
    CopilotsForDuration(DurationSeconds(departure, arrival))
  }

  /** Longer flights never need fewer co-pilots. */
  lemma CopilotsMonotone(d1: int, d2: int)
    requires d1 <= d2
    ensures CopilotsForDuration(d1) <= CopilotsForDuration(d2)
  {
  }

  /** The number of 4-hour blocks a duration has started (0 for an empty or negative one). */
  function StartedBlocks(d: int): (b: int)
    ensures b >= 0
  {
    if d <= 0 then 0 else (d + CREW_BLOCK - 1) / CREW_BLOCK
  }

  function Clamp(x: int, lo: int, hi: int): int
    requires lo <= hi
  {
    if x < lo then lo else if x > hi then hi else x
  }

  /**
   * An independent statement of the rule: one co-pilot per started 4-hour
   * block, at least one and at most three.
   */
  lemma CopilotsPerStartedBlock(d: int)
    ensures CopilotsForDuration(d) == Clamp(StartedBlocks(d), 1, 3)
  {
    if d > 0 {
      var x := d + CREW_BLOCK - 1;
      var q, r := x / CREW_BLOCK, x % CREW_BLOCK;
      assert x == CREW_BLOCK * q + r && 0 <= r < CREW_BLOCK;
      if d <= 4 * HOUR {
        assert q == 1;
      } else if d <= 8 * HOUR {
        assert q == 2;
      } else {
        assert q >= 3;
      }
    }
  }

  /** The boundaries: exactly 4 h needs one, 4 h and a second two, 8 h two, 8 h and a second three. */
  lemma CrewBoundaries()
    ensures CopilotsForDuration(4 * HOUR) == 1 && CopilotsForDuration(4 * HOUR + 1) == 2
    ensures CopilotsForDuration(8 * HOUR) == 2 && CopilotsForDuration(8 * HOUR + 1) == 3
  {
  }
}
