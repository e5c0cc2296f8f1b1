/** Calendar days written as text: the `YYYY-MM-DD` strings that the forms send and the
    dashboard's range presets build, and how the routes read them back. */
module DayStrings {
  import opened Common
  import opened Calendar
  import opened Text

  /** `const [year, month, day] = s.split('-').map(Number)`: the first three pieces as
      numbers (further pieces are ignored); None when a piece is missing (undefined) or
      is not a number (NaN), either of which makes the Date built from them invalid. */
  function Components(s: string): (r: Option<Date>)
    ensures var parts := Split(s, '-');
      r.Some? <==> |parts| >= 3 && AllDigits(parts[0]) && AllDigits(parts[1]) && AllDigits(parts[2])
    ensures var parts := Split(s, '-');
      r.Some? ==> r.value == Date(DigitsValue(parts[0]), DigitsValue(parts[1]), DigitsValue(parts[2]))
  {
    var parts := Split(s, '-');
    if |parts| < 3 then None
    else
      match (ToNumber(parts[0]), ToNumber(parts[1]), ToNumber(parts[2]))
      case (Some(y), Some(m), Some(d)) => Some(Date(y, m, d))
      case _ => None
  }

  /** `new Date(year, month - 1, day)` of those components, as a day number; None for the
      Invalid Date. */
  function LocalDayOf(s: string): (r: Option<int>)
    ensures r.Some? <==> Components(s).Some?
    ensures r.Some? ==> var c := Components(s).value; r.value == LocalDayNumber(c.year, c.month, c.day)
  {
    match Components(s)
    case None => None
    case Some(c) => Some(LocalDayNumber(c.year, c.month, c.day))
  }

  /** The dashboard's `formatDate`: `${year}-${MM}-${DD}` with month and day padded to two
      digits. */
  function FormatDate(d: CalendarDay): (s: string)
    ensures d.year >= 0 ==> |s| >= 7 && s[|s| - 6] == '-' && s[|s| - 3] == '-'
  {
    IntToString(d.year) + "-" + Pad2(d.month) + "-" + Pad2(d.day)
  }

  /** The dashboard's `formatDateForDisplay`: `${DD}-${MM}-${year}`. */
  function FormatDateForDisplay(d: CalendarDay): (s: string)
    ensures |s| >= 7 && s[2] == '-' && s[5] == '-'
  {
    assert d.day <= 31 && d.month <= 12 by { var _ := DaysInMonth(d.year, d.month); }
    Pad2(d.day) + "-" + Pad2(d.month) + "-" + IntToString(d.year)
  }

  /** Splitting a formatted day on '-' gives its year, month and day as text. */
  lemma FormatDatePieces(d: CalendarDay)
    requires d.year >= 0
    ensures Split(FormatDate(d), '-') == [IntToString(d.year), Pad2(d.month), Pad2(d.day)]
  {
    var parts := [IntToString(d.year), Pad2(d.month), Pad2(d.day)];
    assert Join(parts, '-') == FormatDate(d) by {
      assert parts[1..][1..] == [Pad2(d.day)];
      assert Join(parts[1..], '-') == Pad2(d.month) + "-" + Pad2(d.day);
    }
    SplitJoin(parts, '-');
  }

  /** Reading a formatted day back yields its own components. */
  lemma FormatDateParses(d: CalendarDay)
    requires d.year >= 0
    ensures Components(FormatDate(d)) == Some(d)
  {
    FormatDatePieces(d);
  }

  /** For a year the Date constructor keeps (100 and later), the day that the routes build
      from a formatted day is that day. */
  lemma FormatDateRoundTrip(d: CalendarDay)
    requires d.year >= 100
    ensures LocalDayOf(FormatDate(d)) == Some(DaysFromCivil(d))
  {
    FormatDateParses(d);
    LocalDayOfCalendarDay(d);
  }

  /** The display form lists the same pieces as `formatDate`, in reverse order. */
  lemma DisplayReversesPieces(d: CalendarDay)
    requires d.year >= 0
    ensures var p := Split(FormatDate(d), '-');
      |p| == 3 && Split(FormatDateForDisplay(d), '-') == [p[2], p[1], p[0]]
  {
    FormatDatePieces(d);
    var parts := [Pad2(d.day), Pad2(d.month), IntToString(d.year)];
    assert Join(parts, '-') == FormatDateForDisplay(d) by {
      assert parts[1..][1..] == [IntToString(d.year)];
      assert Join(parts[1..], '-') == Pad2(d.month) + "-" + IntToString(d.year);
    }
    SplitJoin(parts, '-');
  }
}
