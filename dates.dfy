/**
 * Calendar dates of the proleptic Gregorian calendar, as Python's
 * `datetime.date` holds them, with the ordering used by date comparisons and
 * the `relativedelta(years=n)` shift used for registration expiry.
 */
module Dates {

  datatype Date = Date(year: int, month: int, day: int)

  predicate IsLeap(year: int) {
    (year % 4 == 0 && year % 100 != 0) || year % 400 == 0
  }

  function DaysInMonth(year: int, month: int): (n: int)
    requires 1 <= month <= 12
    ensures 28 <= n <= 31
    ensures n == 29 <==> month == 2 && IsLeap(year)
  {
    if month == 2 then (if IsLeap(year) then 29 else 28)
    else if month == 4 || month == 6 || month == 9 || month == 11 then 30
    else 31
  }

  /** A date Python would accept (`datetime.date` has years 1 to 9999). */
  predicate Valid(d: Date) {
    1 <= d.year <= 9999 && 1 <= d.month <= 12 && 1 <= d.day <= DaysInMonth(d.year, d.month)
  }

  /** `a < b` on dates: the year decides, then the month, then the day. */
  predicate Before(a: Date, b: Date) {
    a.year < b.year
    || (a.year == b.year && a.month < b.month)
    || (a.year == b.year && a.month == b.month && a.day < b.day)
  }

  /** `a <= b` on dates. */
  predicate AtOrBefore(a: Date, b: Date) {
    Before(a, b) || a == b
  }

  /** The `ValueError` of a date outside years 1..9999. */
  datatype YearOutOfRange = YearOutOfRange(year: int)

  /**
   * `d + relativedelta(years=n)`: same month and day `n` years on, the day
   * clamped to the length of the target month (29 February becomes 28
   * February in a common year).
   */
  function AddYears(d: Date, n: int): (r: Date)
    requires 1 <= d.month <= 12
  {
    var y := d.year + n;
    var last := DaysInMonth(y, d.month);
    Date(y, d.month, if d.day <= last then d.day else last)
  }

  /** The shift lands on a valid date with the same month, and the day moves only for 29 February. */
  lemma AddYearsProperties(d: Date, n: int)
    requires Valid(d) && 1 <= d.year + n <= 9999
    ensures Valid(AddYears(d, n))
    ensures AddYears(d, n).year == d.year + n && AddYears(d, n).month == d.month
    ensures AddYears(d, n).day != d.day <==> d.month == 2 && d.day == 29 && !IsLeap(d.year + n)
    ensures AddYears(d, n).day != d.day ==> AddYears(d, n).day == 28
  {
  }
}
