/** Proleptic Gregorian calendar days and the day arithmetic of JavaScript's local-time
    `Date`: a day is a (year, month, day) triple or a day number counted from 1 January 1970.
    Time of day, time zones and daylight saving are not modelled: every `Date` that the
    routes build is a local midnight, so it is identified with its day number. */
module Calendar {

  datatype Date = Date(year: int, month: int, day: int)

  predicate IsLeapYear(y: int) {
    y % 4 == 0 && (y % 100 != 0 || y % 400 == 0)
  }

  function DaysInMonth(y: int, m: int): (n: int)
    requires 1 <= m <= 12
    ensures 28 <= n <= 31
    ensures n == 29 <==> m == 2 && IsLeapYear(y)
    ensures n == 28 <==> m == 2 && !IsLeapYear(y)
  {
    if m == 2 then (if IsLeapYear(y) then 29 else 28)
    else if m == 4 || m == 6 || m == 9 || m == 11 then 30
    else 31
  }

  /** The last day of month m of year y, the day that `new Date(y, m, 0)` lands on. */
  function LastDayOfMonth(y: int, m: int): (d: Date)
    requires 1 <= m <= 12
    ensures ValidDate(d) && d.year == y && d.month == m
    ensures forall k :: 1 <= k <= 31 && ValidDate(Date(y, m, k)) ==> k <= d.day
  {
    Date(y, m, DaysInMonth(y, m))
  }

  predicate ValidDate(d: Date) {
    1 <= d.month <= 12 && 1 <= d.day <= DaysInMonth(d.year, d.month)
  }

  /** A day that exists in the calendar. */
  type CalendarDay = d: Date | ValidDate(d) witness Date(1970, 1, 1)

  const Epoch: CalendarDay := Date(1970, 1, 1)

  /** Lexicographic order on (year, month, day): `a` is not later than `b`. */
  predicate NotAfter(a: Date, b: Date) {
    a.year < b.year || (a.year == b.year && (a.month < b.month || (a.month == b.month && a.day <= b.day)))
  }

  function YearLength(y: int): int {
    if IsLeapYear(y) then 366 else 365
  }

  /** Days in the years 1 .. y-1 (for y < 1 a negative count); Euclidean division is
      floor division here, so the formula holds for every year. */
  function DaysBeforeYear(y: int): int {
    var p := y - 1;
    365 * p + p / 4 - p / 100 + p / 400
  }

  /** Days in the months before month m of year y. */
  function DaysBeforeMonth(y: int, m: int): int
    requires 1 <= m <= 12
  {
    var before :=
      if m == 1 then 0 else if m == 2 then 31 else if m == 3 then 59
      else if m == 4 then 90 else if m == 5 then 120 else if m == 6 then 151
      else if m == 7 then 181 else if m == 8 then 212 else if m == 9 then 243
      else if m == 10 then 273 else if m == 11 then 304 else 334;
    before + (if m > 2 && IsLeapYear(y) then 1 else 0)
  }

  /** DaysBeforeYear(1970): the offset that makes 1 January 1970 day 0. */
  const EpochOffset: int := 719162

  /** Day number of day d of month m of year y, where d may lie outside the month
      (day 0 is the last day of the previous month, and so on). */
  function DayIndex(y: int, m: int, d: int): int
    requires 1 <= m <= 12
  {
    DaysBeforeYear(y) + DaysBeforeMonth(y, m) + d - 1 - EpochOffset
  }

  /** Days from 1 January 1970 to the calendar day d (negative before it). */
  function DaysFromCivil(d: CalendarDay): int {
    DayIndex(d.year, d.month, d.day)
  }

  lemma YearStep(y: int)
    ensures DaysBeforeYear(y + 1) == DaysBeforeYear(y) + YearLength(y)
  {
    FloorSteps(y);
    LeapDivisors(y);
  }

  /** Each floor quotient of the leap-year rule goes up by one exactly at a multiple. */
  lemma FloorSteps(y: int)
    ensures y / 4 - (y - 1) / 4 == (if y % 4 == 0 then 1 else 0)
    ensures y / 100 - (y - 1) / 100 == (if y % 100 == 0 then 1 else 0)
    ensures y / 400 - (y - 1) / 400 == (if y % 400 == 0 then 1 else 0)
  {
  }

  lemma LeapDivisors(y: int)
    ensures y % 400 == 0 ==> y % 100 == 0
    ensures y % 100 == 0 ==> y % 4 == 0
  {
    if y % 400 == 0 {
      var q := y / 400;
      assert y == 400 * q;
      HundredDivides(y, 4 * q);
    }
    if y % 100 == 0 {
      var q := y / 100;
      assert y == 100 * q;
      FourDivides(y, 25 * q);
    }
  }

  lemma HundredDivides(y: int, k: int)
    requires y == 100 * k
    ensures y % 100 == 0
  {
  }

  lemma FourDivides(y: int, k: int)
    requires y == 4 * k
    ensures y % 4 == 0
  {
  }

  lemma MonthStep(y: int, m: int)
    requires 1 <= m < 12
    ensures DaysBeforeMonth(y, m + 1) == DaysBeforeMonth(y, m) + DaysInMonth(y, m)
  {
  }

  lemma DecemberEnd(y: int)
    ensures DaysBeforeMonth(y, 12) + DaysInMonth(y, 12) == YearLength(y)
  {
  }

  /** A later month of the same year starts no earlier than the end of an earlier one. */
  lemma {:induction false} MonthsIncrease(y: int, m1: int, m2: int)
    requires 1 <= m1 < m2 <= 12
    ensures DaysBeforeMonth(y, m1) + DaysInMonth(y, m1) <= DaysBeforeMonth(y, m2)
    decreases m2 - m1
  {
    MonthStep(y, m1);
    if m1 + 1 < m2 {
      MonthsIncrease(y, m1 + 1, m2);
    }
  }

  /** A later year starts no earlier than the end of an earlier one. */
  lemma {:induction false} YearsIncrease(y1: int, y2: int)
    requires y1 < y2
    ensures DaysBeforeYear(y1) + YearLength(y1) <= DaysBeforeYear(y2)
    decreases y2 - y1
  {
    YearStep(y1);
    if y1 + 1 < y2 {
      YearsIncrease(y1 + 1, y2);
    }
  }

  /** Every day of a year lies before the first day of the next. */
  lemma WithinYear(d: CalendarDay)
    ensures DaysBeforeMonth(d.year, d.month) + d.day <= YearLength(d.year)
  {
    if d.month < 12 {
      MonthsIncrease(d.year, d.month, 12);
    }
    DecemberEnd(d.year);
  }

  /** DaysFromCivil is strictly increasing along the calendar order. */
  lemma Increasing(a: CalendarDay, b: CalendarDay)
    requires NotAfter(a, b) && a != b
    ensures DaysFromCivil(a) < DaysFromCivil(b)
  {
    if a.year < b.year {
      WithinYear(a);
      YearsIncrease(a.year, b.year);
    } else if a.month < b.month {
      MonthsIncrease(a.year, a.month, b.month);
    }
  }

  /** The calendar order and the order of day numbers agree. */
  lemma OrderAgrees(a: CalendarDay, b: CalendarDay)
    ensures NotAfter(a, b) <==> DaysFromCivil(a) <= DaysFromCivil(b)
  {
    if NotAfter(a, b) && a != b {
      Increasing(a, b);
    } else if !NotAfter(a, b) {
      Increasing(b, a);
    }
  }

  /** Different calendar days have different day numbers. */
  lemma Injective(a: CalendarDay, b: CalendarDay)
    ensures DaysFromCivil(a) == DaysFromCivil(b) ==> a == b
  {
    if a != b {
      if NotAfter(a, b) {
        Increasing(a, b);
      } else {
        Increasing(b, a);
      }
    }
  }

  /** The day after d, rolling over month and year ends. */
  function NextDay(d: CalendarDay): (r: CalendarDay)
    ensures DaysFromCivil(r) == DaysFromCivil(d) + 1
  {
    if d.day < DaysInMonth(d.year, d.month) then Date(d.year, d.month, d.day + 1)
    else if d.month < 12 then (MonthStep(d.year, d.month); Date(d.year, d.month + 1, 1))
    else (YearStep(d.year); Date(d.year + 1, 1, 1))
  }

  /** Splitting the days from a to c after b: a day in the whole lies either up to b or
      from the day after b on, never in both. */
  lemma SplitAfter(a: CalendarDay, b: CalendarDay, c: CalendarDay, x: CalendarDay)
    requires NotAfter(a, b) && NotAfter(b, c)
    ensures NotAfter(a, x) && NotAfter(x, c) <==>
      (NotAfter(a, x) && NotAfter(x, b)) || (NotAfter(NextDay(b), x) && NotAfter(x, c))
    ensures !(NotAfter(x, b) && NotAfter(NextDay(b), x))
  {
    OrderAgrees(x, b);
    OrderAgrees(NextDay(b), x);
    assert NotAfter(x, b) ==> (NotAfter(x, c) <==> true);
    assert !NotAfter(x, b) ==> NotAfter(b, x) && (NotAfter(a, x) <==> true);
  }

  /** The day before d, rolling back over month and year starts. */
  function PreviousDay(d: CalendarDay): (r: CalendarDay)
    ensures DaysFromCivil(r) == DaysFromCivil(d) - 1
  {
    if d.day > 1 then Date(d.year, d.month, d.day - 1)
    else if d.month > 1 then (MonthStep(d.year, d.month - 1); LastDayOfMonth(d.year, d.month - 1))
    else (YearStep(d.year - 1); LastDayOfMonth(d.year - 1, 12))
  }

  /** The day n days after d (before it when n < 0). */
  function AddDays(d: CalendarDay, n: int): (r: CalendarDay)
    ensures DaysFromCivil(r) == DaysFromCivil(d) + n
    decreases if n < 0 then -n else n
  {
    if n == 0 then d
    else if n > 0 then AddDays(NextDay(d), n - 1)
    else AddDays(PreviousDay(d), n + 1)
  }

  /** The calendar day with day number n: the inverse of DaysFromCivil. */
  function CivilFromDays(n: int): (r: CalendarDay)
    ensures DaysFromCivil(r) == n
  {
    AddDays(Epoch, n)
  }

  lemma CivilRoundTrip(d: CalendarDay)
    ensures CivilFromDays(DaysFromCivil(d)) == d
  {
    Injective(CivilFromDays(DaysFromCivil(d)), d);
  }

  /** AddDays composes by adding the offsets. */
  lemma AddDaysAdds(d: CalendarDay, m: int, n: int)
    ensures AddDays(AddDays(d, m), n) == AddDays(d, m + n)
  {
    Injective(AddDays(AddDays(d, m), n), AddDays(d, m + n));
  }

  // ---------------------------------------------------------------------------
  // JavaScript's local-time Date arithmetic

  /** The Date constructor takes year y as it is (it reads 0..99 as 1900..1999). */
  predicate ConstructorKeeps(y: int) {
    !(0 <= y <= 99)
  }

  /** The year that `new Date(y, ...)` uses. */
  function ConstructorYear(y: int): (r: int)
    ensures ConstructorKeeps(y) <==> r == y
  {
    if ConstructorKeeps(y) then y else 1900 + y
  }

  /** ECMAScript's MakeDay with a 1-based month: a month outside 1..12 carries into the
      year, and the day is counted from the first of the resulting month, so it may
      leave that month. Returns the day number. */
  function MakeDay(y: int, m: int, d: int): (n: int)
    ensures 1 <= m <= 12 ==> n == DayIndex(y, m, d)
  {
    DayIndex(y + (m - 1) / 12, (m - 1) % 12 + 1, d)
  }

  /** `new Date(y, m - 1, d)` at local midnight, as a day number. */
  function LocalDayNumber(y: int, m: int, d: int): int {
    MakeDay(ConstructorYear(y), m, d)
  }

  /** `date.setDate(dt)` on the date with day number t. */
  function SetDate(t: int, dt: int): int {
    var c := CivilFromDays(t);
    MakeDay(c.year, c.month, dt)
  }

  /** `date.setDate(date.getDate() + n)` moves the date by n days, across month and
      year ends. */
  lemma SetDateMoves(t: int, n: int)
    ensures SetDate(t, CivilFromDays(t).day + n) == t + n
  {
  }

  /** For a day whose year the constructor keeps, `new Date(y, m - 1, d)` is that day. */
  lemma LocalDayOfCalendarDay(d: CalendarDay)
    requires ConstructorKeeps(d.year)
    ensures LocalDayNumber(d.year, d.month, d.day) == DaysFromCivil(d)
  {
  }

  /** `new Date(y, m, 0)` (m 1-based: day 0 of the following month) is the last day of
      month m, also in December, where the month carries into the next year. */
  lemma DayZeroOfNextMonth(y: int, m: int)
    requires 1 <= m <= 12
    ensures MakeDay(y, m + 1, 0) == DaysFromCivil(LastDayOfMonth(y, m))
  {
    var last := DaysInMonth(y, m);
    assert DaysFromCivil(LastDayOfMonth(y, m)) == DayIndex(y, m, last);
    if m < 12 {
      assert m / 12 == 0 && m % 12 == m;
      assert MakeDay(y, m + 1, 0) == DayIndex(y, m + 1, 0);
      MonthStep(y, m);
    } else {
      assert MakeDay(y, m + 1, 0) == DayIndex(y + 1, 1, 0);
      YearStep(y);
      DecemberEnd(y);
    }
  }

  /** `new Date(y, m - 2, 1)` is the first day of the previous month, December of the
      previous year when m is January. */
  lemma FirstOfMonthBefore(y: int, m: int)
    requires 1 <= m <= 12
    ensures MakeDay(y, m - 1, 1) == DaysFromCivil(FirstOfPreviousMonth(Date(y, m, 1)))
  {
  }

  function FirstOfMonth(d: CalendarDay): (r: CalendarDay)
    ensures r.year == d.year && r.month == d.month && r.day == 1
    ensures NotAfter(r, d)
  {
    Date(d.year, d.month, 1)
  }

  /** The 1st of the month before d's month. */
  function FirstOfPreviousMonth(d: CalendarDay): (r: CalendarDay)
    ensures r.day == 1
    ensures d.month > 1 ==> r.year == d.year && r.month == d.month - 1
    ensures d.month == 1 ==> r.year == d.year - 1 && r.month == 12
  {
    if d.month == 1 then Date(d.year - 1, 12, 1) else Date(d.year, d.month - 1, 1)
  }
}
