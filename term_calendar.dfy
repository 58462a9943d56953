/**
 * `get_current_term` of the test utilities: the academic term a calendar
 * date falls in. Fall runs from 1 October to 31 March of the next year,
 * Spring from 1 April to 30 September.
 *
 * All six boundary dates are built before the comparison, from the year
 * before to the year after today's; Python's `date` refuses years outside
 * 1..9999, so dates in year 1 or 9999 raise.
 */
module TermCalendar {
  import opened Wrappers
  import opened Dates
  import opened Models

  /** An unsaved term whose start and end are calendar dates. */
  datatype CalendarTerm = CalendarTerm(semester: Semester, year: int, start: Date, end: Date)

  function GetCurrentTerm(today: Date): (r: Result<CalendarTerm, YearOutOfRange>)
    requires Valid(today)
    ensures r.Err? <==> today.year == 1 || today.year == 9999
    ensures r.Ok? && today.month <= 3 ==>
      r.value == CalendarTerm(Fall, today.year - 1, Date(today.year - 1, 10, 1), Date(today.year, 3, 31))
    ensures r.Ok? && 4 <= today.month <= 9 ==>
      r.value == CalendarTerm(Spring, today.year, Date(today.year, 4, 1), Date(today.year, 9, 30))
    ensures r.Ok? && 10 <= today.month ==>
      r.value == CalendarTerm(Fall, today.year, Date(today.year, 10, 1), Date(today.year + 1, 3, 31))
  {
    if today.year - 1 < 1 then Err(YearOutOfRange(today.year - 1))
    else if today.year + 1 > 9999 then Err(YearOutOfRange(today.year + 1))
    else
      var fallStart, fallEnd := Date(today.year - 1, 10, 1), Date(today.year, 3, 31);
      var springStart, springEnd := Date(today.year, 4, 1), Date(today.year, 9, 30);
      var fallStart2, fallEnd2 := Date(today.year, 10, 1), Date(today.year + 1, 3, 31);
      if AtOrBefore(fallStart, today) && AtOrBefore(today, fallEnd) then
        Ok(CalendarTerm(Fall, fallStart.year, fallStart, fallEnd))
      else if AtOrBefore(springStart, today) && AtOrBefore(today, springEnd) then
        Ok(CalendarTerm(Spring, springStart.year, springStart, springEnd))
      else
        Ok(CalendarTerm(Fall, fallStart2.year, fallStart2, fallEnd2))
  }

  /** The term returned always contains the date, is named after its start year and does not end before it starts. */
  lemma CurrentTermContainsToday(today: Date)
    requires Valid(today) && 1 < today.year < 9999
    ensures var t := GetCurrentTerm(today).value;
      && AtOrBefore(t.start, today) && AtOrBefore(today, t.end)
      && t.year == t.start.year
      && Before(t.start, t.end)
      && Valid(t.start) && Valid(t.end)
  {
  }

  /** After a Fall term comes the Spring term of its end year, and after a Spring term the Fall term of its year. */
  lemma TermsFollowEachOther(today: Date)
    requires Valid(today) && 1 < today.year < 9998
    ensures var t := GetCurrentTerm(today).value;
      t.semester == Fall ==> GetCurrentTerm(Date(t.end.year, 4, 1)).value.semester == Spring
    ensures var t := GetCurrentTerm(today).value;
      t.semester == Spring ==>
        GetCurrentTerm(Date(t.end.year, 10, 1)) == Ok(CalendarTerm(Fall, t.year, Date(t.year, 10, 1), Date(t.year + 1, 3, 31)))
  {
  }
}
