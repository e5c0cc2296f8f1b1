/** `/api/expenses`: listing expense entries in the caller's scope, and creating one for
    a day of the current or the previous calendar month. */
module ExpensesRoute {
  import opened Common
  import opened Calendar
  import opened Text
  import opened Records

  /** The JSON body of a POST. `date` is the day `new Date(date)` lands on (None when the
      field is falsy); `amount` is None when the field is undefined. */
  datatype ExpenseRequest = ExpenseRequest(date: Option<CalendarDay>, description: string, amount: Option<int>)

  const InvalidData: string := "Invalid data"
  const WindowMessage: string := "Can only add expenses for the last month and current month"

  /** `new Date(y, today.getMonth() - 1, 1)`: the 1st of the previous month. */
  function LastMonthStart(today: CalendarDay): int {
    LocalDayNumber(today.year, today.month - 1, 1)
  }

  /** `new Date(y, today.getMonth() + 1, 0)`: day 0 of the next month. */
  function CurrentMonthEnd(today: CalendarDay): int {
    LocalDayNumber(today.year, today.month + 1, 0)
  }

  /** The window check on the entry day, taken at the start of the day. */
  predicate InWindow(day: CalendarDay, today: CalendarDay) {
    !(DaysFromCivil(day) < LastMonthStart(today) || DaysFromCivil(day) > CurrentMonthEnd(today))
  }

  /** POST: 401, then 400 for a missing date or description or a missing or negative
      amount (0 passes), then 400 outside the window, then 500 if saving throws. */
  function Post(p: Option<Principal>, req: ExpenseRequest, today: CalendarDay, fault: Option<int>)
    : (r: Response<ExpenseEntry>)
    ensures p.None? ==> r == Err(401, Unauthorized)
    ensures p.Some? && (req.date.None? || req.description == "" || req.amount.None? || req.amount.value < 0) ==>
      r == Err(400, InvalidData)
    ensures (r.Err? && r.message == WindowMessage) <==>
      p.Some? && req.date.Some? && req.description != "" && req.amount.Some? && req.amount.value >= 0
      && !InWindow(req.date.value, today)
    ensures r.Err? && r.message == WindowMessage ==> r.status == 400
    ensures r.Ok? <==>
      p.Some? && req.date.Some? && req.description != "" && req.amount.Some? && req.amount.value >= 0
      && InWindow(req.date.value, today) && fault.None?
    ensures (p.Some? && req.date.Some? && req.description != "" && req.amount.Some? && req.amount.value >= 0
      && InWindow(req.date.value, today) && fault.Some?) ==> r == Err(500, InternalError)
    ensures r.Ok? ==> r.status == 201
    ensures r.Ok? ==> r.body.user == p.value.id && r.body.business == p.value.businessId
    ensures r.Ok? ==> (r.body.userType == BusinessRole <==> p.value.role == BusinessRole)
    ensures r.Ok? ==> r.body.date == req.date.value && r.body.amount == req.amount.value
    ensures r.Ok? ==> r.body.description == Trim(req.description)
  {
    if p.None? then Err(401, Unauthorized)
    else if req.date.None? || req.description == "" || req.amount.None? || req.amount.value < 0 then
      Err(400, InvalidData)
    else if !InWindow(req.date.value, today) then Err(400, WindowMessage)
    else if fault.Some? then Err(500, InternalError)
    else
      var user := p.value;
      Ok(201, ExpenseEntry(user.id, UserType(user), user.businessId, req.date.value,
                           Trim(req.description), req.amount.value))
  }

  /** The window runs from the 1st of the previous month (December of the previous year
      in January) to the last day of the current month. */
  lemma WindowBounds(today: CalendarDay)
    requires ConstructorKeeps(today.year)
    ensures LastMonthStart(today) == DaysFromCivil(FirstOfPreviousMonth(today))
    ensures CurrentMonthEnd(today) == DaysFromCivil(LastDayOfMonth(today.year, today.month))
  {
    FirstOfMonthBefore(today.year, today.month);
    DayZeroOfNextMonth(today.year, today.month);
  }

  /** A day passes the window check iff it lies in the current month or the previous one. */
  lemma WindowIsTwoMonths(today: CalendarDay, e: CalendarDay)
    requires ConstructorKeeps(today.year)
    ensures InWindow(e, today) <==>
      (e.year == today.year && e.month == today.month)
      || (var prev := FirstOfPreviousMonth(today); e.year == prev.year && e.month == prev.month)
  {
    WindowBounds(today);
    var first := FirstOfPreviousMonth(today);
    var last := LastDayOfMonth(today.year, today.month);
    OrderAgrees(first, e);
    OrderAgrees(e, last);
  }

  /** On 15 March 2024 the window is 1 February to 31 March; on 10 January 2024 it opens
      on 1 December 2023. */
  lemma WindowExamples(march: CalendarDay, january: CalendarDay)
    requires march == Date(2024, 3, 15) && january == Date(2024, 1, 10)
    ensures LastMonthStart(march) == DaysFromCivil(Date(2024, 2, 1))
    ensures CurrentMonthEnd(march) == DaysFromCivil(Date(2024, 3, 31))
    ensures LastMonthStart(january) == DaysFromCivil(Date(2023, 12, 1))
  {
    WindowBounds(march);
    WindowBounds(january);
  }

  /** GET: 401 without a principal; otherwise the stored entries in the caller's scope and
      within the day range if both ends are given. */
  function Get(p: Option<Principal>, range: DayRange, entries: seq<ExpenseEntry>)
    : (r: Response<seq<ExpenseEntry>>)
    ensures r.Err? <==> p.None?
    ensures r.Err? ==> r == Err(401, Unauthorized)
    ensures r.Ok? ==> r.status == 200 && forall e :: e in r.body <==>
      e in entries && InScope(p.value, e.user, e.business) && InDayRange(e.date, range)
  {
    if p.None? then Err(401, Unauthorized)
    else
      var q := BuildQuery(p.value, range, None);
      Ok(200, Filter(entries, (e: ExpenseEntry) => Matches(q, e.user, e.business, e.date, None)))
  }
}
