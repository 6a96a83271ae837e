/** The stateful calendar component: a selected-date cursor and the published
    values, rebuilt by three counted loops on creation and on every month
    navigation. */
module Data {
  import opened Gregorian
  import opened Values
  import opened MonthGrid

  class KalenderData {
    /** The selected date: its year, 0-based month and day of the month. */
    var year: int
    var month0: int
    var day: int

    /** The value the component publishes to its view. */
    var kalenderValues: KalenderValues

    /** Locale formatting of the selected date as a month name and as a year. */
    const formatMonth: YearMonth -> string
    const formatYear: YearMonth -> string

    /** The year and month of the selected date. */
    function Cursor(): YearMonth
      reads this
    {
      YearMonth(year, month0)
    }

    /** The selected date is a real date. */
    ghost predicate DateValid()
      reads this
    {
      Cursor().Valid() && 1 <= day <= DaysInMonth(Cursor())
    }

    /** The values published for a displayed month. */
    function Published(ym: YearMonth): KalenderValues
      requires ym.Valid()
    {
      KalenderValues(Some(formatMonth(ym)), Some(formatYear(ym)), Grid(ym))
    }

    /** The state between public operations: a valid date on the last day of
        its month, and the grid and labels of that month published. */
    ghost predicate Valid()
      reads this
    {
      DateValid() && day == DaysInMonth(Cursor()) && kalenderValues == Published(Cursor())
    }

    /** The init block: start empty, build the grid, then set year and month. */
    constructor (start: YearMonth, startDay: int, formatMonth: YearMonth -> string, formatYear: YearMonth -> string)
      requires start.Valid() && 1 <= startDay <= DaysInMonth(start)
      ensures Valid()
      ensures Cursor() == start
      ensures this.formatMonth == formatMonth && this.formatYear == formatYear
    {
      year, month0, day := start.year, start.month0, startDay;
      this.formatMonth, this.formatYear := formatMonth, formatYear;
      kalenderValues := KalenderValues();
      new;
      SetCalenderValues();
      YearFromDate();
      MonthFromDate();
    }

    /** Publishes the year of the selected date, keeping everything else. */
    method YearFromDate()
      modifies this`kalenderValues
      ensures kalenderValues == old(kalenderValues).(year := Some(formatYear(Cursor())))
    {
      kalenderValues := kalenderValues.(year := Some(formatYear(Cursor())));
    }

    /** Publishes the month name of the selected date, keeping everything else. */
    method MonthFromDate()
      modifies this`kalenderValues
      ensures kalenderValues == old(kalenderValues).(month := Some(formatMonth(Cursor())))
    {
      kalenderValues := kalenderValues.(month := Some(formatMonth(Cursor())));
    }

    /** Shows the next month: year and month advance by one month, December
        wrapping to January of the next year, and the grid is rebuilt. */
    method NextMonthAction()
      requires Valid()
      modifies this
      ensures Valid()
      ensures Cursor() == AddMonths(old(Cursor()), 1)
    {
      AddMonthsToSelectedDate(1);
      SetCalenderValues();
      MonthFromDate();
      YearFromDate();
    }

    /** Shows the previous month, the inverse of NextMonthAction. */
    method PreviousMonthAction()
      requires Valid()
      modifies this
      ensures Valid()
      ensures Cursor() == AddMonths(old(Cursor()), -1)
    {
      AddMonthsToSelectedDate(-1);
      SetCalenderValues();
      MonthFromDate();
      YearFromDate();
    }

    /** Calendar.add(Calendar.MONTH, amount): year and month move by `amount`
        months and the day is cut down to the new month's length. */
    method AddMonthsToSelectedDate(amount: int)
      requires DateValid()
      modifies this`year, this`month0, this`day
      ensures DateValid()
      ensures Cursor() == AddMonths(old(Cursor()), amount)
      ensures day == if old(day) <= DaysInMonth(Cursor()) then old(day) else DaysInMonth(Cursor())
    {
      var ym := AddMonths(Cursor(), amount);
      year, month0 := ym.year, ym.month0;
      if day > DaysInMonth(ym) {
        day := DaysInMonth(ym);
      }
    }

    /** Clears the cell list and refills it with the grid of the selected month.
        Only the day of the selected date changes: it ends on the last day. */
    method SetCalenderValues()
      requires DateValid()
      modifies this
      ensures DateValid()
      ensures Cursor() == old(Cursor())
      ensures day == DaysInMonth(Cursor())
      ensures kalenderValues == old(kalenderValues).(days := Grid(Cursor()))
    {
      kalenderValues := kalenderValues.(days := []);
      var ym := Cursor();
      var currentMonthDayCount := DaysInMonth(ym);
      var prevWeekDayCount := PrevWeekDayCount(ym);
      SetPrevMonthDate(prevWeekDayCount);
      SetCurrentMonthDate(currentMonthDayCount);
      SetNextMonthDate(currentMonthDayCount, prevWeekDayCount);
    }

    /** Appends the last prevWeekDayCount - 1 days of the previous month. */
    method SetPrevMonthDate(prevWeekDayCount: int)
      requires DateValid()
      modifies this`kalenderValues
      ensures kalenderValues == old(kalenderValues).(
        days := old(kalenderValues.days) + PrevMonthFiller(PrevMonthDays(Cursor()), prevWeekDayCount))
    {
      var prevMonthDays := DaysInMonth(AddMonths(Cursor(), -1));
      ghost var filler := PrevMonthFiller(prevMonthDays, prevWeekDayCount);
      assert |filler| == if prevWeekDayCount > 1 then prevWeekDayCount - 1 else 0;
      var prevWeekDay := 1;
      while prevWeekDay < prevWeekDayCount
        invariant 1 <= prevWeekDay && (prevWeekDayCount > 1 ==> prevWeekDay <= prevWeekDayCount)
        invariant prevWeekDay - 1 <= |filler|
        invariant kalenderValues == old(kalenderValues).(
          days := old(kalenderValues.days) + filler[..prevWeekDay - 1])
        decreases prevWeekDayCount - prevWeekDay
      {
        var cell := KalenderDateModel(day := prevMonthDays - prevWeekDayCount + prevWeekDay + 1);
        assert filler[..prevWeekDay] == filler[..prevWeekDay - 1] + [cell];
        kalenderValues := kalenderValues.(days := kalenderValues.days + [cell]);
        prevWeekDay := prevWeekDay + 1;
      }
      assert filler[..prevWeekDay - 1] == filler;
    }

    /** Appends days 1..currentMonthDayCount as active cells, moving the day of
        the selected date along with each. */
    method SetCurrentMonthDate(currentMonthDayCount: int)
      requires DateValid() && currentMonthDayCount <= DaysInMonth(Cursor())
      modifies this`kalenderValues, this`day
      ensures DateValid()
      ensures day == if currentMonthDayCount >= 1 then currentMonthDayCount else old(day)
      ensures kalenderValues == old(kalenderValues).(
        days := old(kalenderValues.days) + CurrentMonthRun(currentMonthDayCount))
    {
      ghost var run := CurrentMonthRun(currentMonthDayCount);
      assert |run| == if currentMonthDayCount > 0 then currentMonthDayCount else 0;
      var currentMonthDay := 1;
      while currentMonthDay <= currentMonthDayCount
        invariant 1 <= currentMonthDay && (currentMonthDayCount >= 1 ==> currentMonthDay <= currentMonthDayCount + 1)
        invariant currentMonthDay - 1 <= |run|
        invariant DateValid()
        invariant day == if currentMonthDay > 1 then currentMonthDay - 1 else old(day)
        invariant kalenderValues == old(kalenderValues).(
          days := old(kalenderValues.days) + run[..currentMonthDay - 1])
        decreases currentMonthDayCount - currentMonthDay
      {
        day := currentMonthDay;
        var cell := KalenderDateModel(day := currentMonthDay, isActive := true);
        assert run[..currentMonthDay] == run[..currentMonthDay - 1] + [cell];
        kalenderValues := kalenderValues.(days := kalenderValues.days + [cell]);
        currentMonthDay := currentMonthDay + 1;
      }
      assert run[..currentMonthDay - 1] == run;
    }

    /** Appends days 1, 2, ... of the next month until the grid has 42 cells. */
    method SetNextMonthDate(currentMonthDayCount: int, prevWeekDayCount: int)
      modifies this`kalenderValues
      ensures kalenderValues == old(kalenderValues).(
        days := old(kalenderValues.days) + NextMonthFiller(currentMonthDayCount, prevWeekDayCount))
    {
      var nextMonthDayCount := GridSize - (prevWeekDayCount - 1) - currentMonthDayCount;
      ghost var filler := NextMonthFiller(currentMonthDayCount, prevWeekDayCount);
      assert |filler| == if nextMonthDayCount > 0 then nextMonthDayCount else 0;
      var nextMonthDay := 1;
      while nextMonthDay <= nextMonthDayCount
        invariant 1 <= nextMonthDay && (nextMonthDayCount >= 1 ==> nextMonthDay <= nextMonthDayCount + 1)
        invariant nextMonthDay - 1 <= |filler|
        invariant kalenderValues == old(kalenderValues).(
          days := old(kalenderValues.days) + filler[..nextMonthDay - 1])
        decreases nextMonthDayCount - nextMonthDay
      {
        var cell := KalenderDateModel(day := nextMonthDay);
        assert filler[..nextMonthDay] == filler[..nextMonthDay - 1] + [cell];
        kalenderValues := kalenderValues.(days := kalenderValues.days + [cell]);
        nextMonthDay := nextMonthDay + 1;
      }
      assert filler[..nextMonthDay - 1] == filler;
    }
  }
}
