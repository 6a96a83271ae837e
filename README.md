# Kalender month grid in Dafny

This project models the data component of the Kalender calendar widget. The
component holds a selected date. From it, the component publishes the month
name, the year and a list of 42 day cells for a month view of six Monday-first
weeks. The list has three parts:

- the last days of the previous month, enough to start on a Monday;
- every day `1..N` of the displayed month, flagged active;
- days `1, 2, …` of the next month, until there are 42 cells.

Moving one month forward or back changes the selected date and rebuilds
the whole list.

Modules:

- `Gregorian` (`gregorian.dfy`) stands in for `java.util.Calendar`. A month is
  a `YearMonth(year, month0)` with a 0-based month, as `Calendar.MONTH` has it.
  The module gives month lengths under the Gregorian leap-year rule and the
  `DAY_OF_WEEK` of the 1st (Sunday = 1 … Saturday = 7), counted from
  0001-01-01, a Monday. `AddMonths` moves year and month as
  `Calendar.add(Calendar.MONTH, n)` does.
- `Values` (`kalender_values.dfy`) holds the data classes `KalenderValues` and
  `KalenderDateModel`, as datatypes whose constructors have the same defaults.
  Kotlin's `copy(field = …)` is Dafny's update `v.(field := …)`.
- `MonthGrid` (`month_grid.dfy`) specifies the list the three loops build:
  `PrevMonthFiller`, `CurrentMonthRun` and `NextMonthFiller`, joined in `Grid`.
  It holds the lemmas about that list.
- `Data` (`kalender_data.dfy`) holds the class `KalenderData`. Its fields are
  the selected date (`year`, `month0`, `day`) and the published value
  (`kalenderValues`). The methods mirror the Kotlin functions, and their
  three counted loops carry invariants that tie the list built so far to the
  `MonthGrid` functions. `Valid()` is the state between public calls: the
  day is the last day of the month, and `kalenderValues` is `Published(Cursor())`,
  the labels and grid of the selected month. So the whole state depends only on
  the selected year and month. Together with `Gregorian.NextPreviousRoundTrip`,
  this means `NextMonthAction` followed by `PreviousMonthAction` restores every
  field.

Cells are datatype values, so no cell is ever edited. The list changes only in
two ways: `SetCalenderValues` sets it to the empty list, and the three loops
each set it to itself plus one new cell. The `ensures` of each loop method
state this.

The day list never ends with zero next-month cells: `TrailingCountBounds`
proves it always has between 5 and 14.

## Model

| member | source | states |
|---|---|---|
| `Gregorian.DaysInMonth` | kalender/src/main/java/mobi/appcent/kalender/KalenderData.kt:109-113 | a month has between 28 and 31 days |
| `Gregorian.MonthLength` | kalender/src/main/java/mobi/appcent/kalender/KalenderData.kt:109-113 | the month length is the number of days from its 1st to the 1st of the next month, so it agrees with the day count that gives weekdays |
| `Gregorian.YearLength` | kalender/src/main/java/mobi/appcent/kalender/KalenderData.kt:109-113 | a year has 366 days exactly when it is a Gregorian leap year, otherwise 365, which makes February 29 or 28 days long |
| `Gregorian.DaysBeforeYearClosedForm` | kalender/src/main/java/mobi/appcent/kalender/KalenderData.kt:47-50 | the closed-form count of days before a year, from which the weekday of the 1st is taken, equals adding up the 365- and 366-day years one by one |
| `Gregorian.DayOfWeekOfFirst` | kalender/src/main/java/mobi/appcent/kalender/KalenderData.kt:47-50 | the `DAY_OF_WEEK` of the 1st lies in 1..7 (Sunday = 1) |
| `Gregorian.NextFirstWeekday` | kalender/src/main/java/mobi/appcent/kalender/KalenderData.kt:47-50 | the 1st of the next month falls `DaysInMonth` days later in the week |
| `Gregorian.AddMonths` | kalender/src/main/java/mobi/appcent/kalender/KalenderData.kt:29 | the result is a valid month exactly `n` months from the input |
| `Gregorian.AddMonthsCompose` | kalender/src/main/java/mobi/appcent/kalender/KalenderData.kt:58-59 | moving by `a` months and then by `b` months is moving by `a + b` months |
| `Gregorian.AddOneMonth` | kalender/src/main/java/mobi/appcent/kalender/KalenderData.kt:28-40 | one month forward wraps December to January of the next year; one month back wraps January to December of the previous year |
| `Gregorian.NextPreviousRoundTrip` | kalender/src/main/java/mobi/appcent/kalender/KalenderData.kt:28-40 | one month back undoes one month forward, and the other way round |
| `MonthGrid.PrevWeekDayCount` | kalender/src/main/java/mobi/appcent/kalender/KalenderData.kt:49-50 | the Monday-first position of the 1st lies in 1..7 |
| `MonthGrid.LeadingCountFromWeekday` | kalender/src/main/java/mobi/appcent/kalender/KalenderData.kt:49-65 | the leading filler count lies in 0..6 and is the number of days from the Monday before the 1st; it is 0 exactly when the 1st is a Monday and 6 exactly when the 1st is a Sunday |
| `MonthGrid.TrailingCountBounds` | kalender/src/main/java/mobi/appcent/kalender/KalenderData.kt:92-94 | the trailing filler count `42 - (p - 1) - N` lies between 5 and 14, so the loop always runs |
| `MonthGrid.GridShape` | kalender/src/main/java/mobi/appcent/kalender/KalenderData.kt:42-107 | the grid has 42 cells; cell `i` is the previous month's day `prev - lead + 1 + i` (inactive) before `lead`, then day `i - lead + 1` (active) up to `lead + N`, then next-month day `i - lead - N + 1` (inactive) |
| `MonthGrid.GridDaysAreCalendarDays` | kalender/src/main/java/mobi/appcent/kalender/KalenderData.kt:58-77 | the leading filler rises by one per cell up to the last day of the previous month; every cell names a real day of its own month |
| `MonthGrid.ActiveRunIsTheMonth` | kalender/src/main/java/mobi/appcent/kalender/KalenderData.kt:80-89 | a cell is active exactly when it lies in the one contiguous run after the leading filler, and the number of active cells equals the month length |
| `MonthGrid.ActiveCountAppend` | kalender/src/main/java/mobi/appcent/kalender/KalenderData.kt:52-54 | the active count of a list joined from parts is the sum of the parts' counts |
| `MonthGrid.ActiveCountUniform` | kalender/src/main/java/mobi/appcent/kalender/KalenderData.kt:52-54 | a list of active cells counts all of them, and a list of inactive cells counts none |
| `MonthGrid.NextGridContinuesTheWeek` | kalender/src/main/java/mobi/appcent/kalender/KalenderData.kt:28-33 | the next month's leading filler count is `(lead + N) mod 7`, the weekday where this month's active run ends |
| `MonthGrid.NextPreviousSameGrid` | kalender/src/main/java/mobi/appcent/kalender/KalenderData.kt:28-40 | going forward one month and back (or back and forward) yields the identical 42-cell grid |
| `MonthGrid.January2024` | kalender/src/main/java/mobi/appcent/kalender/KalenderData.kt:42-55 | January 2024 starts on a Monday; its grid is days 1..31 active, then days 1..11 inactive |
| `MonthGrid.February2024` | kalender/src/main/java/mobi/appcent/kalender/KalenderData.kt:42-55 | February 2024 starts on a Thursday; its grid is 29, 30, 31 inactive, then days 1..29 active, then days 1..10 inactive |
| `Values.DateModelDefault` | kalender/src/main/java/mobi/appcent/kalender/KalenderValues.kt:9-12 | a cell built without `isActive` keeps its day and is inactive |
| `Values.FreshValuesAreEmpty` | kalender/src/main/java/mobi/appcent/kalender/KalenderValues.kt:3-7 | a fresh `KalenderValues()` has no month, no year and no cells |
| `Values.CopyReplacesOneField` | kalender/src/main/java/mobi/appcent/kalender/KalenderValues.kt:3-7 | copying with a new year or month replaces that field and keeps the other string and the cell list |
| `Data.KalenderData.constructor` | kalender/src/main/java/mobi/appcent/kalender/KalenderData.kt:13-18 | starting from empty values, the component publishes the labels and grid of the starting month, with the date on that month's last day |
| `Data.KalenderData.YearFromDate` | kalender/src/main/java/mobi/appcent/kalender/KalenderData.kt:20-22 | only the year label changes, and it becomes the formatted year of the selected date |
| `Data.KalenderData.MonthFromDate` | kalender/src/main/java/mobi/appcent/kalender/KalenderData.kt:24-26 | only the month label changes, and it becomes the formatted month of the selected date |
| `Data.KalenderData.NextMonthAction` | kalender/src/main/java/mobi/appcent/kalender/KalenderData.kt:28-33 | the selected month advances by one, and afterwards the labels and grid of the new month are published |
| `Data.KalenderData.PreviousMonthAction` | kalender/src/main/java/mobi/appcent/kalender/KalenderData.kt:35-40 | the selected month goes back by one, and afterwards the labels and grid of the new month are published |
| `Data.KalenderData.AddMonthsToSelectedDate` | kalender/src/main/java/mobi/appcent/kalender/KalenderData.kt:29 | year and month move by `amount` months; the day is cut down to the new month's length when it is longer |
| `Data.KalenderData.SetCalenderValues` | kalender/src/main/java/mobi/appcent/kalender/KalenderData.kt:42-55 | the old list is discarded and the list becomes exactly `Grid` of the selected month; year and month are unchanged, the day ends on the month's last day, and the labels are unchanged |
| `Data.KalenderData.SetPrevMonthDate` | kalender/src/main/java/mobi/appcent/kalender/KalenderData.kt:57-78 | appends exactly `PrevMonthFiller` for the previous month's length; nothing else changes |
| `Data.KalenderData.SetCurrentMonthDate` | kalender/src/main/java/mobi/appcent/kalender/KalenderData.kt:80-90 | appends exactly `CurrentMonthRun`, and the day of the selected date ends on the last day appended |
| `Data.KalenderData.SetNextMonthDate` | kalender/src/main/java/mobi/appcent/kalender/KalenderData.kt:92-107 | appends exactly `NextMonthFiller`; nothing else changes |

## Left out

- The Jetpack Compose view and the host activity: layout, styling, images, click handlers and the rendering fallbacks such as `days?.size ?: 42`.
- Locale formatting of the month name and year (`SimpleDateFormat` with the default locale): these are the two function parameters `formatMonth` and `formatYear` of the constructor.
- `Calendar.getInstance()` and time zones: the constructor takes the starting month and day as parameters.
- The observable holder `MutableStateFlow<KalenderValues?>` and its null start: it is the plain field `kalenderValues`, set before anything reads it, so the `?.` calls always apply.
- The `dateOnSelected` clones in the filler loops: they are never read and have no effect.
- The null fallbacks `year ?: 0` and `month ?: 0` of `getDaysInMonth`: its callers always pass values read from a calendar, so they are never used.
- Eras and the Julian calendar that `GregorianCalendar` uses before 1582: years are astronomical and the Gregorian rule applies to all of them.
- Kotlin's 32-bit `Int`: every value here is a small calendar number, except that years are unbounded.
- Data.KalenderData.SetCurrentMonthDate: requires that the day count fit in the selected month. Its only caller passes the month length. A lenient calendar would carry larger days over into the next month, and that is not modelled.
- Gregorian.DaysInMonth: its own contract gives only the 28..31 range. The exact lengths are stated through `Gregorian.MonthLength` and `Gregorian.YearLength`.
