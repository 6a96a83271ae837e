/** Calendar arithmetic that stands in for java.util.Calendar: months of the
    proleptic Gregorian calendar, their lengths, the weekday of their first day
    and month arithmetic as Calendar.add(Calendar.MONTH, n) performs it. */
module Gregorian {

  /** A month of the calendar. As with Calendar.MONTH, month0 is 0-based:
      January is 0 and December is 11. Years use astronomical numbering. */
  datatype YearMonth = YearMonth(year: int, month0: int) {
    predicate Valid() { 0 <= month0 < 12 }
  }

  /** The Gregorian leap-year rule. */
  predicate IsLeapYear(year: int) {
    year % 4 == 0 && (year % 100 != 0 || year % 400 == 0)
  }

  /** The number of days of a month, Calendar.getActualMaximum(DAY_OF_MONTH). */
  function DaysInMonth(ym: YearMonth): (n: int)
    requires ym.Valid()
    ensures 28 <= n <= 31
  {
    if ym.month0 == 1 then (if IsLeapYear(ym.year) then 29 else 28)
    else if ym.month0 == 3 || ym.month0 == 5 || ym.month0 == 8 || ym.month0 == 10 then 30
    else 31
  }

  /** Days from 0001-01-01 to January 1st of `year`. */
  function DaysBeforeYear(year: int): int {
    365 * (year - 1) + (year - 1) / 4 - (year - 1) / 100 + (year - 1) / 400
  }

  /** Days from January 1st to the 1st of the month, by the cumulative table. */
  function DaysBeforeMonth(ym: YearMonth): int
    requires ym.Valid()
  {
    [0, 31, 59, 90, 120, 151, 181, 212, 243, 273, 304, 334][ym.month0]
    + (if ym.month0 >= 2 && IsLeapYear(ym.year) then 1 else 0)
  }

  /** Days from 0001-01-01 (a Monday) to the 1st of the month. */
  function DayNumber(ym: YearMonth): int
    requires ym.Valid()
  {
    DaysBeforeYear(ym.year) + DaysBeforeMonth(ym)
  }

  /** Calendar.DAY_OF_WEEK of the 1st of the month: Sunday = 1, Monday = 2, ...,
      Saturday = 7. */
  function DayOfWeekOfFirst(ym: YearMonth): (dow: int)
    requires ym.Valid()
    ensures 1 <= dow <= 7
  {
    (DayNumber(ym) + 1) % 7 + 1
  }

  /** Months counted from January of year 0. */
  function MonthIndex(ym: YearMonth): int {
    ym.year * 12 + ym.month0
  }

  /** The month `n` months after `ym` (before it when n is negative), as
      Calendar.add(Calendar.MONTH, n) moves YEAR and MONTH. */
  function AddMonths(ym: YearMonth, n: int): (r: YearMonth)
    ensures r.Valid()
    ensures MonthIndex(r) == MonthIndex(ym) + n
  {
    var k := MonthIndex(ym) + n;
    YearMonth(k / 12, k % 12)
  }

  /** A valid month is determined by its index. */
  lemma IndexDeterminesMonth(a: YearMonth, b: YearMonth)
    requires a.Valid() && b.Valid()
    requires MonthIndex(a) == MonthIndex(b)
    ensures a == b
  {
  }

  /** Moving by `a` months and then by `b` months is moving by `a + b` months. */
  lemma AddMonthsCompose(ym: YearMonth, a: int, b: int)
    ensures AddMonths(AddMonths(ym, a), b) == AddMonths(ym, a + b)
  {
    IndexDeterminesMonth(AddMonths(AddMonths(ym, a), b), AddMonths(ym, a + b));
  }

  /** Moving by zero months leaves a valid month where it is. */
  lemma AddZeroMonths(ym: YearMonth)
    requires ym.Valid()
    ensures AddMonths(ym, 0) == ym
  {
    IndexDeterminesMonth(AddMonths(ym, 0), ym);
  }

  /** One month forward wraps December to January of the next year, and one
      month back wraps January to December of the previous year. */
  lemma AddOneMonth(ym: YearMonth)
    requires ym.Valid()
    ensures AddMonths(ym, 1) ==
      if ym.month0 == 11 then YearMonth(ym.year + 1, 0) else YearMonth(ym.year, ym.month0 + 1)
    ensures AddMonths(ym, -1) ==
      if ym.month0 == 0 then YearMonth(ym.year - 1, 11) else YearMonth(ym.year, ym.month0 - 1)
  {
    var next := if ym.month0 == 11 then YearMonth(ym.year + 1, 0) else YearMonth(ym.year, ym.month0 + 1);
    var prev := if ym.month0 == 0 then YearMonth(ym.year - 1, 11) else YearMonth(ym.year, ym.month0 - 1);
    IndexDeterminesMonth(AddMonths(ym, 1), next);
    IndexDeterminesMonth(AddMonths(ym, -1), prev);
  }

  /** One month back undoes one month forward, and the other way round. */
  lemma NextPreviousRoundTrip(ym: YearMonth)
    requires ym.Valid()
    ensures AddMonths(AddMonths(ym, 1), -1) == ym
    ensures AddMonths(AddMonths(ym, -1), 1) == ym
  {
    AddMonthsCompose(ym, 1, -1);
    AddMonthsCompose(ym, -1, 1);
    AddZeroMonths(ym);
  }

  /** y / k - (y - 1) / k is 1 exactly when k divides y. */
  lemma DivStep4(y: int)
    ensures y / 4 - (y - 1) / 4 == if y % 4 == 0 then 1 else 0
  {
  }

  lemma DivStep100(y: int)
    ensures y / 100 - (y - 1) / 100 == if y % 100 == 0 then 1 else 0
  {
  }

  lemma DivStep400(y: int)
    ensures y / 400 - (y - 1) / 400 == if y % 400 == 0 then 1 else 0
  {
  }

  /** The closed-form day count agrees with the leap-year rule: a year has 366
      days exactly when it is a leap year. */
  lemma YearLength(year: int)
    ensures DaysBeforeYear(year + 1) - DaysBeforeYear(year) == if IsLeapYear(year) then 366 else 365
  {
    DivStep4(year);
    DivStep100(year);
    DivStep400(year);
    assert year % 400 == 0 ==> year % 100 == 0;
    assert year % 100 == 0 ==> year % 4 == 0;
  }

  /** The number of days of a year. */
  function YearDays(year: int): int {
    if IsLeapYear(year) then 366 else 365
  }

  /** Days from 0001-01-01 to January 1st of `year`, by adding up the lengths of
      the years in between: a reference for the closed form DaysBeforeYear. */
  function DaysBeforeYearCounted(year: int): int
    decreases if year >= 1 then year - 1 else 1 - year
  {
    if year == 1 then 0
    else if year > 1 then DaysBeforeYearCounted(year - 1) + YearDays(year - 1)
    else DaysBeforeYearCounted(year + 1) - YearDays(year)
  }

  /** The closed-form day count equals the year-by-year count, in both directions
      from year 1. */
  lemma {:induction false} DaysBeforeYearClosedForm(year: int)
    ensures DaysBeforeYear(year) == DaysBeforeYearCounted(year)
    decreases if year >= 1 then year - 1 else 1 - year
  {
    if year > 1 {
      DaysBeforeYearClosedForm(year - 1);
      YearLength(year - 1);
    } else if year < 1 {
      DaysBeforeYearClosedForm(year + 1);
      YearLength(year);
    }
  }

  /** The month length is the distance between the 1st of the month and the 1st
      of the next month, so DaysInMonth agrees with the day numbering that the
      weekday is computed from. */
  lemma MonthLength(ym: YearMonth)
    requires ym.Valid()
    ensures DayNumber(AddMonths(ym, 1)) == DayNumber(ym) + DaysInMonth(ym)
  {
    AddOneMonth(ym);
    if ym.month0 == 11 {
      YearLength(ym.year);
    }
  }

  /** The 1st of the next month falls DaysInMonth(ym) days later in the week. */
  lemma NextFirstWeekday(ym: YearMonth)
    requires ym.Valid()
    ensures DayOfWeekOfFirst(AddMonths(ym, 1)) - 1 == (DayOfWeekOfFirst(ym) - 1 + DaysInMonth(ym)) % 7
  {
    MonthLength(ym);
    ModShift(DayNumber(ym) + 1, DaysInMonth(ym));
  }

  /** Adding to a number before reducing it modulo 7 or after gives the same weekday. */
  lemma ModShift(a: int, n: int)
    ensures (a + n) % 7 == (a % 7 + n) % 7
  {
    var q := a / 7;
    assert a == 7 * q + a % 7;
    assert a + n == 7 * q + (a % 7 + n);
  }
}
