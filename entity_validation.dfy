/**
 * The `clean` validators of the resource records: a runway's length, a
 * person's experience, an aircraft's capacity and year of manufacture.
 */
module EntityValidation {
  import opened Wrappers
  import opened Airline

  const MIN_RUNWAY_METERS: int := 800
  const MAX_RUNWAY_METERS: int := 5000
  const MAX_EXPERIENCE_YEARS: int := 50
  const MAX_CAPACITY: int := 700
  const FIRST_YEAR: int := 1990

  datatype EntityError = RunwayLengthOutOfRange | TooMuchExperience | CapacityOutOfRange | YearOutOfRange

  /** The keys of the error dictionaries built by `Personnel.clean` and `Aircraft.clean`. */
  datatype EntityField = YearsOfExperienceKey | CapacityKey | YearManufacturedKey

  /** `Runway.clean`: raises a single error unless 800 <= length <= 5000. */
  function CleanRunway(r: Runway): (v: Validation<EntityError>)
    ensures v.Passed? <==> MIN_RUNWAY_METERS <= r.lengthMeters <= MAX_RUNWAY_METERS
    ensures v.Raised? ==> v.errors == RunwayLengthOutOfRange
  {
    if !(MIN_RUNWAY_METERS <= r.lengthMeters <= MAX_RUNWAY_METERS) then Raised(RunwayLengthOutOfRange)
    else Passed
  }

  /** `Personnel.clean`: more than 50 years of experience is refused on its own key. */
  method CleanPersonnel(p: Personnel) returns (v: Validation<map<EntityField, EntityError>>)
    ensures v.Passed? <==> p.yearsOfExperience <= MAX_EXPERIENCE_YEARS
    ensures v.Raised? ==> v.errors == map[YearsOfExperienceKey := TooMuchExperience]
  {
    var errors: map<EntityField, EntityError> := map[];
    if p.yearsOfExperience > MAX_EXPERIENCE_YEARS {
      errors := errors[YearsOfExperienceKey := TooMuchExperience];
      assert YearsOfExperienceKey in errors;
    }
    if errors != map[] {
      v := Raised(errors);
    } else {
      v := Passed;
    }
  }

  /**
   * `Aircraft.clean`, with the current calendar year as a parameter: both
   * checks run and each failure is reported on its own key.
   */
  method CleanAircraft(a: Aircraft, currentYear: int) returns (v: Validation<map<EntityField, EntityError>>)
    ensures v.Passed? <==> 1 <= a.capacity <= MAX_CAPACITY && FIRST_YEAR <= a.yearManufactured <= currentYear
    ensures v.Raised? ==>
              v.errors.Keys <= {CapacityKey, YearManufacturedKey}
              && (CapacityKey in v.errors <==> a.capacity == 0 || a.capacity > MAX_CAPACITY)
              && (CapacityKey in v.errors ==> v.errors[CapacityKey] == CapacityOutOfRange)
              && (YearManufacturedKey in v.errors <==> a.yearManufactured < FIRST_YEAR || a.yearManufactured > currentYear)
              && (YearManufacturedKey in v.errors ==> v.errors[YearManufacturedKey] == YearOutOfRange)
  {
    var errors: map<EntityField, EntityError> := map[];
    if a.capacity == 0 || a.capacity > MAX_CAPACITY {
      errors := errors[CapacityKey := CapacityOutOfRange];
      assert CapacityKey in errors;
    }
    if a.yearManufactured < FIRST_YEAR || a.yearManufactured > currentYear {
      errors := errors[YearManufacturedKey := YearOutOfRange];
      assert YearManufacturedKey in errors;
    }
    if errors != map[] {
      v := Raised(errors);
    } else {
      v := Passed;
    }
  }
}
