/** The registration-date validator attached to `StudentProfile.registration_date`. */
module Validators {
  import opened Wrappers
  import opened Dates

  const EARLIEST_REGISTRATION: Date := Date(2020, 1, 1)

  /** The ValidationError raised: its code and the offending value. */
  datatype InvalidDate = InvalidDate(code: string, value: Date)

  /** `registration_date_validator`: `None` when the date passes, the error it raises otherwise. */
  function RegistrationDateValidator(value: Date): (r: Option<InvalidDate>)
    ensures r.Some? ==> r.value == InvalidDate("invalid", value)
  {
    if Before(value, EARLIEST_REGISTRATION) then Some(InvalidDate("invalid", value)) else None
  }

  /** Exactly the dates on or after 2020-01-01 pass; 2020-01-01 itself passes. */
  lemma RegistrationDateBoundary(value: Date)
    ensures RegistrationDateValidator(value).None? <==> AtOrBefore(EARLIEST_REGISTRATION, value)
    ensures RegistrationDateValidator(EARLIEST_REGISTRATION).None?
    ensures RegistrationDateValidator(Date(2019, 12, 31)).Some?
  {
  }
}
