/** The 42-cell month grid that KalenderData builds, as a function of the
    displayed month, and what is proved about it. */
module MonthGrid {
  import opened Gregorian
  import opened Values

  /** Six weeks of seven days. */
  const GridSize := 42

  /** The Monday-first position of the 1st (Monday = 1, ..., Sunday = 7),
      derived from DAY_OF_WEEK by mapping Sunday to 7. */
  function PrevWeekDayCount(ym: YearMonth): (p: int)
    requires ym.Valid()
    ensures 1 <= p <= 7
  {
    var dow := DayOfWeekOfFirst(ym);
    if dow == 1 then 7 else dow - 1
  }

  /** The number of filler cells before the 1st. */
  function LeadingCount(ym: YearMonth): int
    requires ym.Valid()
  {
    PrevWeekDayCount(ym) - 1
  }

  /** The length of the month before `ym`. */
  function PrevMonthDays(ym: YearMonth): int
    requires ym.Valid()
  {
    DaysInMonth(AddMonths(ym, -1))
  }

  /** The cells appended for prevWeekDay = 1, ..., prevWeekDayCount - 1:
      the day prevMonthDays - prevWeekDayCount + prevWeekDay + 1, inactive. */
  function PrevMonthFiller(prevMonthDays: int, prevWeekDayCount: int): seq<KalenderDateModel> {
    seq(if prevWeekDayCount > 1 then prevWeekDayCount - 1 else 0,
        i => KalenderDateModel(prevMonthDays - prevWeekDayCount + i + 2))
  }

  /** The cells appended for currentMonthDay = 1, ..., currentMonthDayCount, active. */
  function CurrentMonthRun(currentMonthDayCount: int): seq<KalenderDateModel> {
    seq(if currentMonthDayCount > 0 then currentMonthDayCount else 0,
        i => KalenderDateModel(i + 1, true))
  }

  /** How many cells are left for the next month once the leading filler and
      the month itself are placed. */
  function NextMonthDayCount(currentMonthDayCount: int, prevWeekDayCount: int): int {
    GridSize - (prevWeekDayCount - 1) - currentMonthDayCount
  }

  /** The cells appended for nextMonthDay = 1, ..., NextMonthDayCount, inactive. */
  function NextMonthFiller(currentMonthDayCount: int, prevWeekDayCount: int): seq<KalenderDateModel> {
    var count := NextMonthDayCount(currentMonthDayCount, prevWeekDayCount);
    seq(if count > 0 then count else 0, i => KalenderDateModel(i + 1))
  }

  /** The grid for a month: leading filler, the month's own days, trailing filler. */
  function Grid(ym: YearMonth): seq<KalenderDateModel>
    requires ym.Valid()
  {
    var p := PrevWeekDayCount(ym);
    var n := DaysInMonth(ym);
    PrevMonthFiller(PrevMonthDays(ym), p) + CurrentMonthRun(n) + NextMonthFiller(n, p)
  }

  /** The number of active cells in a list. */
  function ActiveCount(cells: seq<KalenderDateModel>): nat {
    if cells == [] then 0
    else (if cells[0].isActive then 1 else 0) + ActiveCount(cells[1..])
  }

  lemma {:induction false} ActiveCountAppend(a: seq<KalenderDateModel>, b: seq<KalenderDateModel>)
    ensures ActiveCount(a + b) == ActiveCount(a) + ActiveCount(b)
  {
    if a == [] {
      assert a + b == b;
    } else {
      assert (a + b)[0] == a[0];
      assert (a + b)[1..] == a[1..] + b;
      ActiveCountAppend(a[1..], b);
    }
  }

  /** A list of active cells counts all its cells; a list of inactive cells none. */
  lemma {:induction false} ActiveCountUniform(cells: seq<KalenderDateModel>, active: bool)
    requires forall i :: 0 <= i < |cells| ==> cells[i].isActive == active
    ensures ActiveCount(cells) == if active then |cells| else 0
  {
    if cells != [] {
      ActiveCountUniform(cells[1..], active);
    }
  }

  /** The leading filler is as long as the number of days from the Monday
      before the 1st to the 1st: none when the 1st is a Monday, six when it is
      a Sunday. */
  lemma LeadingCountFromWeekday(ym: YearMonth)
    requires ym.Valid()
    ensures 0 <= LeadingCount(ym) <= 6
    ensures LeadingCount(ym) == DayNumber(ym) % 7
    ensures LeadingCount(ym) == 0 <==> DayOfWeekOfFirst(ym) == 2
    ensures LeadingCount(ym) == 6 <==> DayOfWeekOfFirst(ym) == 1
  {
    var r := DayNumber(ym) % 7;
    ModShift(DayNumber(ym), 1);
    assert DayOfWeekOfFirst(ym) == (r + 1) % 7 + 1;
  }

  /** The trailing filler has between 5 and 14 cells, so its loop always runs. */
  lemma TrailingCountBounds(ym: YearMonth)
    requires ym.Valid()
    ensures 5 <= NextMonthDayCount(DaysInMonth(ym), PrevWeekDayCount(ym)) <= 14
  {
  }

  /** The grid has exactly 42 cells: LeadingCount filler cells holding the last
      days of the previous month in ascending order, then days 1..N of the month
      flagged active, then days 1, 2, ... of the next month. */
  lemma GridShape(ym: YearMonth)
    requires ym.Valid()
    ensures |Grid(ym)| == GridSize
    ensures var lead, n, prev := LeadingCount(ym), DaysInMonth(ym), PrevMonthDays(ym);
      forall i :: 0 <= i < GridSize ==>
        Grid(ym)[i] ==
          if i < lead then KalenderDateModel(prev - lead + 1 + i)
          else if i < lead + n then KalenderDateModel(i - lead + 1, true)
          else KalenderDateModel(i - lead - n + 1)
  {
    var p, n := PrevWeekDayCount(ym), DaysInMonth(ym);
    var a, b, c := PrevMonthFiller(PrevMonthDays(ym), p), CurrentMonthRun(n), NextMonthFiller(n, p);
    assert |a| == p - 1 && |b| == n && |c| == GridSize - (p - 1) - n;
  }

  /** The leading filler runs up to the last day of the previous month with no
      gaps, and every cell of the grid names a real day of its own month. */
  lemma GridDaysAreCalendarDays(ym: YearMonth)
    requires ym.Valid()
    ensures |Grid(ym)| == GridSize
    ensures LeadingCount(ym) > 0 ==> Grid(ym)[LeadingCount(ym) - 1].day == PrevMonthDays(ym)
    ensures forall i :: 0 <= i < LeadingCount(ym) - 1 ==> Grid(ym)[i + 1].day == Grid(ym)[i].day + 1
    ensures forall i :: 0 <= i < LeadingCount(ym) ==> 1 <= Grid(ym)[i].day <= PrevMonthDays(ym)
    ensures forall i :: LeadingCount(ym) <= i < LeadingCount(ym) + DaysInMonth(ym) ==>
      1 <= Grid(ym)[i].day <= DaysInMonth(ym)
    ensures forall i :: LeadingCount(ym) + DaysInMonth(ym) <= i < GridSize ==>
      1 <= Grid(ym)[i].day <= DaysInMonth(AddMonths(ym, 1))
  {
    GridShape(ym);
    LeadingCountFromWeekday(ym);
    TrailingCountBounds(ym);
  }

  /** The cells flagged active are exactly one contiguous run, starting after
      the leading filler, and there are as many of them as the month has days. */
  lemma ActiveRunIsTheMonth(ym: YearMonth)
    requires ym.Valid()
    ensures |Grid(ym)| == GridSize
    ensures forall i :: 0 <= i < GridSize ==>
      (Grid(ym)[i].isActive <==> LeadingCount(ym) <= i < LeadingCount(ym) + DaysInMonth(ym))
    ensures ActiveCount(Grid(ym)) == DaysInMonth(ym)
  {
    GridShape(ym);
    var p, n := PrevWeekDayCount(ym), DaysInMonth(ym);
    var a, b, c := PrevMonthFiller(PrevMonthDays(ym), p), CurrentMonthRun(n), NextMonthFiller(n, p);
    ActiveCountUniform(a, false);
    ActiveCountUniform(b, true);
    ActiveCountUniform(c, false);
    ActiveCountAppend(a, b);
    ActiveCountAppend(a + b, c);
  }

  /** Consecutive grids agree on the week: the next month's leading filler is
      as long as the week position where this month's active run ends. */
  lemma NextGridContinuesTheWeek(ym: YearMonth)
    requires ym.Valid()
    ensures LeadingCount(AddMonths(ym, 1)) == (LeadingCount(ym) + DaysInMonth(ym)) % 7
  {
    LeadingCountFromWeekday(ym);
    LeadingCountFromWeekday(AddMonths(ym, 1));
    MonthLength(ym);
    ModShift(DayNumber(ym), DaysInMonth(ym));
  }

  /** Moving forward one month and back again yields the same grid. */
  lemma NextPreviousSameGrid(ym: YearMonth)
    requires ym.Valid()
    ensures Grid(AddMonths(AddMonths(ym, 1), -1)) == Grid(ym)
    ensures Grid(AddMonths(AddMonths(ym, -1), 1)) == Grid(ym)
  {
    NextPreviousRoundTrip(ym);
  }

  /** January 2024 starts on a Monday: no leading filler, days 1..31, then
      days 1..11 of February. */
  lemma January2024()
    ensures DayOfWeekOfFirst(YearMonth(2024, 0)) == 2
    ensures Grid(YearMonth(2024, 0)) ==
      seq(31, i => KalenderDateModel(i + 1, true)) + seq(11, i => KalenderDateModel(i + 1))
  {
    var ym := YearMonth(2024, 0);
    assert DayNumber(ym) == 738885;
    assert PrevWeekDayCount(ym) == 1;
  }

  /** February 2024 starts on a Thursday and has 29 days: January 29, 30, 31,
      then days 1..29, then days 1..10 of March. */
  lemma February2024()
    ensures DayOfWeekOfFirst(YearMonth(2024, 1)) == 5
    ensures Grid(YearMonth(2024, 1)) ==
      [KalenderDateModel(29), KalenderDateModel(30), KalenderDateModel(31)]
      + seq(29, i => KalenderDateModel(i + 1, true)) + seq(10, i => KalenderDateModel(i + 1))
  {
    var ym := YearMonth(2024, 1);
    assert DayNumber(ym) == 738916;
    assert PrevWeekDayCount(ym) == 4;
    assert AddMonths(ym, -1) == YearMonth(2024, 0);
    assert PrevMonthDays(ym) == 31;
    assert PrevMonthFiller(31, 4) == [KalenderDateModel(29), KalenderDateModel(30), KalenderDateModel(31)];
  }
}
