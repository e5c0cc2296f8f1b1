/** `/api/debug-date`: reports how the income window judges a `date` query parameter. */
module DebugDateRoute {
  import opened Common
  import opened Calendar
  import opened DayStrings
  import opened Records
  import IncomeRoute

  /** `parsedDate`: the day built from the parameter and whether it is in the window. */
  datatype Parsed = Parsed(day: int, isValid: bool)

  /** `validation`: the window's bounds as day numbers, and the same verdict. */
  datatype Validation = Validation(serverToday: int, allowedEndDate: int, fifteenDaysAgo: int, isValid: bool)

  /** The JSON body without `serverInfo` (the server clock and time zone). */
  datatype Report = Report(dateParam: Option<string>, parsedDate: Option<Parsed>, validation: Option<Validation>)

  /** GET. A missing or empty parameter is falsy: nothing is parsed and there is no
      validation block. A parameter whose pieces are not numbers builds the Invalid Date,
      whose `toISOString()` throws; the handler has no catch, so the answer is a bare 500. */
  function DebugDate(dateParam: Option<string>, today: CalendarDay): (r: Response<Report>)
    ensures (dateParam.None? || dateParam.value == "") ==>
      r == Ok(200, Report(dateParam, None, None))
    ensures dateParam.Some? && dateParam.value != "" ==>
      (r.Err? <==> LocalDayOf(dateParam.value).None?)
    ensures r.Err? ==> r.status == 500
    ensures r.Ok? ==> r.status == 200 && r.body.dateParam == dateParam
    ensures r.Ok? && r.body.parsedDate.Some? ==>
      var day := LocalDayOf(dateParam.value).value;
      r.body.parsedDate.value == Parsed(day, IncomeRoute.InWindow(day, today))
      && r.body.validation == Some(Validation(
           IncomeRoute.ServerToday(today), IncomeRoute.AllowedEndDate(today),
           IncomeRoute.FifteenDaysAgo(today), IncomeRoute.InWindow(day, today)))
    ensures r.Ok? ==> (r.body.parsedDate.Some? <==> dateParam.Some? && dateParam.value != "")
  {
    if dateParam.None? || dateParam.value == "" then Ok(200, Report(dateParam, None, None))
    else match LocalDayOf(dateParam.value)
      case None => Err(500, "")
      case Some(day) =>
        var isValid := IncomeRoute.FifteenDaysAgo(today) <= day && day <= IncomeRoute.AllowedEndDate(today);
        Ok(200, Report(dateParam, Some(Parsed(day, isValid)),
          Some(Validation(IncomeRoute.ServerToday(today), IncomeRoute.AllowedEndDate(today),
                          IncomeRoute.FifteenDaysAgo(today), isValid))))
  }

  /** The reported bounds are today, today+1 and today−15 as day numbers. */
  lemma ReportedBounds(dateParam: string, today: CalendarDay)
    requires ConstructorKeeps(today.year) && LocalDayOf(dateParam).Some?
    ensures var r := DebugDate(Some(dateParam), today);
      r.Ok? && r.body.validation.Some? &&
      var v := r.body.validation.value;
      v.serverToday == DaysFromCivil(today)
      && v.allowedEndDate == DaysFromCivil(today) + 1
      && v.fifteenDaysAgo == DaysFromCivil(today) - 15
  {
    IncomeRoute.WindowBounds(today);
    LocalDayOfCalendarDay(today);
  }

  /** For the same non-empty date string and the same day, the debug endpoint fails
      exactly when the income POST answers 500, and otherwise its `isValid` is the POST's
      decision to accept (when saving succeeds). */
  lemma AgreesWithIncomePost(p: Principal, req: IncomeRoute.IncomeRequest, today: CalendarDay)
    requires req.date != "" && req.store.Some?
    ensures var r := DebugDate(Some(req.date), today);
      var post := IncomeRoute.Post(Some(p), req, today, None);
      (r.Err? <==> post == Err(500, InternalError))
      && (r.Ok? ==> r.body.parsedDate.Some? && (r.body.parsedDate.value.isValid <==> post.Ok?))
  {
  }
}
