/** The records that the month-grid generator fills: immutable values whose
    constructor parameters carry the same defaults as the data classes. */
module Values {

  datatype Option<T> = None | Some(value: T)

  /** One cell of the month grid: a day number and whether it belongs to the
      displayed month. A cell built without `isActive` is a filler cell. */
  datatype KalenderDateModel = KalenderDateModel(day: int, isActive: bool := false)

  /** What the calendar publishes: the formatted month and year, absent until
      they are first set, and the list of grid cells, empty by default. */
  datatype KalenderValues = KalenderValues(
    month: Option<string> := None,
    year: Option<string> := None,
    days: seq<KalenderDateModel> := [])

  /** A cell built without `isActive` is inactive; one built with it keeps it. */
  lemma DateModelDefault(day: int)
    ensures !KalenderDateModel(day).isActive
    ensures KalenderDateModel(day).day == day
    ensures KalenderDateModel(day, true).isActive
  {
  }

  /** A fresh KalenderValues has neither month nor year and no cells. */
  lemma FreshValuesAreEmpty()
    ensures KalenderValues().month == None
    ensures KalenderValues().year == None
    ensures KalenderValues().days == []
  {
  }

  /** copy(year = ...) and copy(month = ...) replace that one field and keep the
      other string and the same cell list. */
  lemma CopyReplacesOneField(v: KalenderValues, s: Option<string>)
    ensures v.(year := s).year == s
    ensures v.(year := s).month == v.month && v.(year := s).days == v.days
    ensures v.(month := s).month == s
    ensures v.(month := s).year == v.year && v.(month := s).days == v.days
  {
  }
}
