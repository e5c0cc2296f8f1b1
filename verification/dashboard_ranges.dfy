/** The owner dashboard's date-range presets and its employee-form password check. A
    preset is a pair of `YYYY-MM-DD` strings built from `new Date()` ("today"). */
module DashboardRanges {
  import opened Common
  import opened Calendar
  import opened DayStrings
  import opened Records
  import EmployeesRoute

  datatype RangeText = RangeText(startDate: string, endDate: string)

  /** `formatDate` of the Date with day number n. */
  function FormatDay(n: int): string {
    FormatDate(CivilFromDays(n))
  }

  /** `getCurrentMonthRange`, the initial range: the 1st of the month through today. */
  function InitialRange(today: CalendarDay): RangeText {
    RangeText(FormatDay(LocalDayNumber(today.year, today.month, 1)), FormatDate(today))
  }

  /** `setThisMonthRange`: the 1st through day 0 of the next month. */
  function ThisMonthRange(today: CalendarDay): RangeText {
    RangeText(FormatDay(LocalDayNumber(today.year, today.month, 1)),
              FormatDay(LocalDayNumber(today.year, today.month + 1, 0)))
  }

  /** `setTodayRange`. */
  function TodayRange(today: CalendarDay): RangeText {
    RangeText(FormatDate(today), FormatDate(today))
  }

  /** `setYesterdayRange`: a copy of today after `setDate(today.getDate() - 1)`. */
  function YesterdayRange(today: CalendarDay): RangeText {
    var yesterday := FormatDay(SetDate(DaysFromCivil(today), today.day - 1));
    RangeText(yesterday, yesterday)
  }

  /** `setLastMonthRange`: the 1st of the previous month through day 0 of this month. */
  function LastMonthRange(today: CalendarDay): RangeText {
    RangeText(FormatDay(LocalDayNumber(today.year, today.month - 1, 1)),
              FormatDay(LocalDayNumber(today.year, today.month, 0)))
  }

  /** The last day of the month before d's month. */
  function EndOfPreviousMonth(d: CalendarDay): (r: CalendarDay)
    ensures var first := FirstOfPreviousMonth(d); r.year == first.year && r.month == first.month
    ensures DaysFromCivil(r) + 1 == DaysFromCivil(FirstOfMonth(d))
  {
    var first := FirstOfPreviousMonth(d);
    DayZeroOfNextMonth(first.year, first.month);
    assert MakeDay(first.year, first.month + 1, 0) == DayIndex(d.year, d.month, 0) by {
      if d.month == 1 {
        assert first.month / 12 == 1 && first.month % 12 == 0;
      } else {
        assert first.month / 12 == 0 && first.month % 12 == first.month;
      }
    }
    LastDayOfMonth(first.year, first.month)
  }

  /** The initial range runs from the 1st of today's month to today. */
  lemma InitialRangeDays(today: CalendarDay)
    requires ConstructorKeeps(today.year)
    ensures InitialRange(today) == RangeText(FormatDate(FirstOfMonth(today)), FormatDate(today))
  {
    LocalDayOfCalendarDay(FirstOfMonth(today));
    CivilRoundTrip(FirstOfMonth(today));
  }

  /** This month runs from its 1st to its last day. */
  lemma ThisMonthRangeDays(today: CalendarDay)
    requires ConstructorKeeps(today.year)
    ensures ThisMonthRange(today) ==
      RangeText(FormatDate(FirstOfMonth(today)), FormatDate(LastDayOfMonth(today.year, today.month)))
  {
    LocalDayOfCalendarDay(FirstOfMonth(today));
    CivilRoundTrip(FirstOfMonth(today));
    DayZeroOfNextMonth(today.year, today.month);
    CivilRoundTrip(LastDayOfMonth(today.year, today.month));
  }

  /** Yesterday is the day before today on both ends, across month and year starts. */
  lemma YesterdayRangeDays(today: CalendarDay)
    ensures YesterdayRange(today) == RangeText(FormatDate(AddDays(today, -1)), FormatDate(AddDays(today, -1)))
    ensures AddDays(today, -1) == PreviousDay(today)
  {
    CivilRoundTrip(today);
    SetDateMoves(DaysFromCivil(today), -1);
    CivilRoundTrip(AddDays(today, -1));
    Injective(AddDays(today, -1), PreviousDay(today));
  }

  /** Last month runs from the 1st to the last day of the previous month (December of the
      previous year in January). */
  lemma LastMonthRangeDays(today: CalendarDay)
    requires ConstructorKeeps(today.year)
    ensures LastMonthRange(today) ==
      RangeText(FormatDate(FirstOfPreviousMonth(today)), FormatDate(EndOfPreviousMonth(today)))
  {
    var y, m := today.year, today.month;
    assert LocalDayNumber(y, m - 1, 1) == DaysFromCivil(FirstOfPreviousMonth(today)) by {
      FirstOfMonthBefore(y, m);
      assert FirstOfPreviousMonth(Date(y, m, 1)) == FirstOfPreviousMonth(today);
      assert LocalDayNumber(y, m - 1, 1) == MakeDay(y, m - 1, 1);
    }
    CivilRoundTrip(FirstOfPreviousMonth(today));
    assert LocalDayNumber(y, m, 0) == DaysFromCivil(EndOfPreviousMonth(today)) by {
      assert LocalDayNumber(y, m, 0) == DayIndex(y, m, 0);
      assert DayIndex(y, m, 0) + 1 == DaysFromCivil(FirstOfMonth(today));
    }
    CivilRoundTrip(EndOfPreviousMonth(today));
  }

  /** Each preset's start is not after its end. */
  lemma PresetsAreOrdered(today: CalendarDay)
    requires ConstructorKeeps(today.year)
    ensures NotAfter(FirstOfMonth(today), today)
    ensures NotAfter(FirstOfMonth(today), LastDayOfMonth(today.year, today.month))
    ensures NotAfter(FirstOfPreviousMonth(today), EndOfPreviousMonth(today))
  {
  }

  // ---------------------------------------------------------------------------
  // handleEmployeeSubmit

  const Mismatch: string := "Şifreler eşleşmiyor"
  const TooShort: string := "Şifre en az 6 karakter olmalıdır"

  /** The error the employee form shows before sending, if any: on a new employee, or on
      an edit that sets a password, the confirmation must match and then the password must
      be long enough; an edit with an empty password skips both checks. */
  function EmployeeFormError(editing: bool, password: string, confirmPassword: string): (r: Option<string>)
    ensures (!editing || password != "") && password != confirmPassword ==> r == Some(Mismatch)
    ensures (!editing || password != "") && password == confirmPassword && |password| < MinPasswordLength ==>
      r == Some(TooShort)
    ensures r.None? <==> (editing && password == "") || (password == confirmPassword && |password| >= MinPasswordLength)
  {
    if !editing || password != "" then
      if password != confirmPassword then Some(Mismatch)
      else if |password| < MinPasswordLength then Some(TooShort)
      else None
    else None
  }

  /** A new-employee form that passes its own check is never turned away by the route's
      length check: the form's minimum is the route's. */
  lemma FormPassesRouteLength(p: Principal, req: EmployeesRoute.EmployeeRequest, confirmPassword: string,
                              t: Tables, freshId: Id, fault: Option<int>)
    requires p.role == BusinessRole
    requires EmployeeFormError(false, req.password, confirmPassword).None?
    ensures EmployeesRoute.Create(Some(p), req, t, freshId, fault) != Err(400, EmployeesRoute.ShortPassword)
  {
  }

  /** Conversely, a password the route would refuse as short is refused by the form first. */
  lemma ShortPasswordCaughtByForm(password: string, confirmPassword: string)
    requires password != "" && |password| < MinPasswordLength
    ensures EmployeeFormError(false, password, confirmPassword).Some?
    ensures EmployeeFormError(true, password, confirmPassword).Some?
  {
  }
}
