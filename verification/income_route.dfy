/** `/api/income`: listing income entries in the caller's scope, and creating one for a
    day in the rolling window from fifteen days ago to tomorrow. */
module IncomeRoute {
  import opened Common
  import opened Calendar
  import opened DayStrings
  import opened Records
  import opened Text

  /** The JSON body of a POST; an absent field and a falsy one ("" or null) are alike. */
  datatype IncomeRequest = IncomeRequest(
    date: string, cashIncome: Option<int>, posIncome: Option<int>,
    lotteryTicketIncome: Option<int>, lotteryScratchIncome: Option<int>,
    lotteryNumericalIncome: Option<int>, store: Option<Id>)

  const RequiredMessage: string := "Date and store are required"
  const WindowMessage: string := "Sadece son 15 gün için gelir-gider ekleyebilirsiniz"
  const DuplicateMessage: string := "Entry already exists for this date"

  /** `new Date(now.getFullYear(), now.getMonth(), now.getDate())`, as a day number. */
  function ServerToday(today: CalendarDay): int {
    LocalDayNumber(today.year, today.month, today.day)
  }

  /** A copy of serverToday after `setDate(getDate() - 15)`. */
  function FifteenDaysAgo(today: CalendarDay): int {
    var t := ServerToday(today);
    SetDate(t, CivilFromDays(t).day - 15)
  }

  /** A copy of serverToday after `setDate(getDate() + 1)`: tomorrow is allowed too. */
  function AllowedEndDate(today: CalendarDay): int {
    var t := ServerToday(today);
    SetDate(t, CivilFromDays(t).day + 1)
  }

  /** The check that decides a POST: both bounds included. */
  predicate InWindow(entryDay: int, today: CalendarDay) {
    FifteenDaysAgo(today) <= entryDay <= AllowedEndDate(today)
  }

  /** `amount || 0`. */
  function OrZero(amount: Option<int>): int {
    if amount.Some? then amount.value else 0
  }

  /** POST. The entry day comes from the components of `date.split('-')`. A component
      that is not a number makes the Date invalid; the debug logging then calls
      `toISOString()` on it, which throws, and the catch block answers 500. `fault` is the
      error code that saving throws, if it throws: a duplicate key is 409. */
  function Post(p: Option<Principal>, req: IncomeRequest, today: CalendarDay, fault: Option<int>)
    : (r: Response<IncomeEntry>)
    ensures p.None? ==> r == Err(401, Unauthorized)
    ensures p.Some? && (req.date == "" || req.store.None?) ==> r == Err(400, RequiredMessage)
    ensures p.Some? && req.date != "" && req.store.Some? && LocalDayOf(req.date).None? ==>
      r == Err(500, InternalError)
    ensures r.Ok? <==>
      p.Some? && req.date != "" && req.store.Some? && LocalDayOf(req.date).Some?
      && InWindow(LocalDayOf(req.date).value, today) && fault.None?
    ensures (p.Some? && req.date != "" && req.store.Some? && LocalDayOf(req.date).Some?
      && InWindow(LocalDayOf(req.date).value, today) && fault.Some?) ==>
      r == SaveFailure(fault.value, DuplicateMessage)
    ensures (r.Err? && r.message == WindowMessage) <==>
      p.Some? && req.date != "" && req.store.Some? && LocalDayOf(req.date).Some?
      && !InWindow(LocalDayOf(req.date).value, today)
    ensures r.Err? && r.message == WindowMessage ==> r.status == 400
    ensures r.Ok? ==> r.status == 201
    ensures r.Ok? ==> r.body.user == p.value.id && r.body.business == p.value.businessId
    ensures r.Ok? ==> (r.body.userType == BusinessRole <==> p.value.role == BusinessRole)
    ensures r.Ok? ==> r.body.store == req.store.value
    ensures r.Ok? ==> DaysFromCivil(r.body.date) == LocalDayOf(req.date).value
    ensures r.Ok? ==> r.body.cashIncome == OrZero(req.cashIncome) && r.body.posIncome == OrZero(req.posIncome)
    ensures r.Ok? ==> r.body.lotteryTicketIncome == OrZero(req.lotteryTicketIncome)
    ensures r.Ok? ==> r.body.lotteryScratchIncome == OrZero(req.lotteryScratchIncome)
    ensures r.Ok? ==> r.body.lotteryNumericalIncome == OrZero(req.lotteryNumericalIncome)
  {
    if p.None? then Err(401, Unauthorized)
    else if req.date == "" || req.store.None? then Err(400, RequiredMessage)
    else match LocalDayOf(req.date)
      case None => Err(500, InternalError)
      case Some(day) =>
        if !InWindow(day, today) then Err(400, WindowMessage)
        else if fault.Some? then SaveFailure(fault.value, DuplicateMessage)
        else
          var user := p.value;
          Ok(201, IncomeEntry(
            user.id, UserType(user), user.businessId, req.store.value, CivilFromDays(day),
            OrZero(req.cashIncome), OrZero(req.posIncome), OrZero(req.lotteryTicketIncome),
            OrZero(req.lotteryScratchIncome), OrZero(req.lotteryNumericalIncome)))
  }

  /** The window's bounds are today−15 and today+1 in day numbers, whatever month or
      year boundary lies between. */
  lemma WindowBounds(today: CalendarDay)
    requires ConstructorKeeps(today.year)
    ensures FifteenDaysAgo(today) == DaysFromCivil(today) - 15
    ensures AllowedEndDate(today) == DaysFromCivil(today) + 1
  {
    LocalDayOfCalendarDay(today);
    SetDateMoves(ServerToday(today), -15);
    SetDateMoves(ServerToday(today), 1);
  }

  /** A calendar day is in the window iff it lies, in calendar order, between the day
      fifteen days before today and the day after today, both included. */
  lemma WindowIsCalendarRange(today: CalendarDay, e: CalendarDay)
    requires ConstructorKeeps(today.year)
    ensures InWindow(DaysFromCivil(e), today) <==>
      NotAfter(AddDays(today, -15), e) && NotAfter(e, AddDays(today, 1))
  {
    WindowBounds(today);
    OrderAgrees(AddDays(today, -15), e);
    OrderAgrees(e, AddDays(today, 1));
  }

  /** A POST of a day written as `YYYY-MM-DD` (with a store) is accepted exactly when
      the day lies from today−15 to today+1, and the saved entry is dated that day. */
  lemma AcceptsFormattedDay(p: Principal, req: IncomeRequest, today: CalendarDay, e: CalendarDay)
    requires ConstructorKeeps(today.year) && e.year >= 100
    requires req.date == FormatDate(e) && req.store.Some?
    ensures Post(Some(p), req, today, None).Ok? <==>
      NotAfter(AddDays(today, -15), e) && NotAfter(e, AddDays(today, 1))
    ensures Post(Some(p), req, today, None).Ok? ==> Post(Some(p), req, today, None).body.date == e
  {
    FormatDateRoundTrip(e);
    WindowIsCalendarRange(today, e);
    var r := Post(Some(p), req, today, None);
    if r.Ok? {
      Injective(r.body.date, e);
    }
  }

  /** The window's edges: a POST for the day fifteen days before today or for tomorrow
      is accepted, one for the day before the first or after tomorrow is refused with the
      window message. */
  lemma WindowEdges(p: Principal, req: IncomeRequest, today: CalendarDay)
    requires ConstructorKeeps(today.year) && req.store.Some?
    ensures var first := AddDays(today, -15);
      first.year >= 100 && req.date == FormatDate(first) ==> Post(Some(p), req, today, None).Ok?
    ensures var before := AddDays(today, -16);
      before.year >= 100 && req.date == FormatDate(before) ==> Post(Some(p), req, today, None) == Err(400, WindowMessage)
    ensures var tomorrow := AddDays(today, 1);
      tomorrow.year >= 100 && req.date == FormatDate(tomorrow) ==> Post(Some(p), req, today, None).Ok?
    ensures var after := AddDays(today, 2);
      after.year >= 100 && req.date == FormatDate(after) ==> Post(Some(p), req, today, None) == Err(400, WindowMessage)
  {
    WindowBounds(today);
    EdgeDay(p, req, today, -15);
    EdgeDay(p, req, today, -16);
    EdgeDay(p, req, today, 1);
    EdgeDay(p, req, today, 2);
  }

  /** A POST for the formatted day n days from today is decided by whether n lies in the
      window. */
  lemma EdgeDay(p: Principal, req: IncomeRequest, today: CalendarDay, n: int)
    requires req.store.Some?
    ensures var d := AddDays(today, n);
      d.year >= 100 && req.date == FormatDate(d) ==>
        (InWindow(DaysFromCivil(today) + n, today) ==> Post(Some(p), req, today, None).Ok?)
        && (!InWindow(DaysFromCivil(today) + n, today) ==> Post(Some(p), req, today, None) == Err(400, WindowMessage))
  {
    var d := AddDays(today, n);
    if d.year >= 100 && req.date == FormatDate(d) {
      ReadsBack(d);
      var day := DaysFromCivil(d);
      assert day == DaysFromCivil(today) + n;
      assert req.date != "" && LocalDayOf(req.date) == Some(day);
      PostDecides(p, req, today, day);
    }
  }

  /** A formatted day (of a year the Date constructor keeps) is not empty and reads back
      as its day number. */
  lemma ReadsBack(d: CalendarDay)
    requires d.year >= 100
    ensures FormatDate(d) != "" && LocalDayOf(FormatDate(d)) == Some(DaysFromCivil(d))
  {
    FormatDateRoundTrip(d);
    assert |FormatDate(d)| >= 7;
  }

  /** Once the date reads as a day, the window alone decides a POST that saves. */
  lemma PostDecides(p: Principal, req: IncomeRequest, today: CalendarDay, day: int)
    requires req.date != "" && req.store.Some? && LocalDayOf(req.date) == Some(day)
    ensures InWindow(day, today) ==> Post(Some(p), req, today, None).Ok?
    ensures !InWindow(day, today) ==> Post(Some(p), req, today, None) == Err(400, WindowMessage)
  {
  }

  /** On 5 March 2024 (a leap year) the window opens on 19 February. */
  lemma MarchWindow(today: CalendarDay)
    requires today == Date(2024, 3, 5)
    ensures FifteenDaysAgo(today) == DaysFromCivil(Date(2024, 2, 19))
    ensures AllowedEndDate(today) == DaysFromCivil(Date(2024, 3, 6))
  {
    WindowBounds(today);
  }

  /** GET: 401 without a principal; otherwise the stored entries in the caller's scope,
      within the day range if both ends are given, and of the store if one is given. */
  function Get(p: Option<Principal>, range: DayRange, store: Option<Id>, entries: seq<IncomeEntry>)
    : (r: Response<seq<IncomeEntry>>)
    ensures r.Err? <==> p.None?
    ensures r.Err? ==> r == Err(401, Unauthorized)
    ensures r.Ok? ==> r.status == 200 && forall e :: e in r.body <==>
      e in entries && InScope(p.value, e.user, e.business) && InDayRange(e.date, range)
      && (store.Some? ==> e.store == store.value)
  {
    if p.None? then Err(401, Unauthorized)
    else
      var q := BuildQuery(p.value, range, store);
      Ok(200, Filter(entries, (e: IncomeEntry) => Matches(q, e.user, e.business, e.date, Some(e.store))))
  }
}
