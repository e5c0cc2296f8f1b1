# Lottery dealer bookkeeping — a Dafny model

The application keeps daily takings and expenses for a lottery dealer ("Loto Bayi"). A business
owner registers and opens stores. The owner hires employees. Owners and employees record income
entries for a store and day. The owner records expenses. Two dashboards summarise the records:
one for the owner and one for an employee.

This project models the server routes that check and store those records, and the arithmetic
the dashboards do on them. It proves what those routes and dashboards promise.

- **Routes** (`/api/income`, `/api/expenses`, `/api/debug-date`, `/api/employees`, `/api/stores`,
  `/api/auth/register`, `/api/auth/login`, `/api/auth/change-password`): each handler is a
  function from the caller, the request, the tables, "today" and an injected save failure to a
  `Response`.
  - Each contract states the early-return chain in order: 401, then 400 for missing fields, then
    the route's own checks, then 409 or 500 on a failed save.
  - It then states what a success returns.
- **Storage**: the `Database` class holds the collections.
  - Its methods update them in place, one per writing handler.
  - Each method is proved to answer exactly what the handler function answers.
  - Each method is proved to keep ids and usernames unique.
- **Calendar**: days are proleptic Gregorian calendar days numbered from 1 January 1970.
  - JavaScript's `new Date(y, m - 1, d)` is modelled as ECMAScript's MakeDay: months carry into
    years, days carry across months, and years 0..99 are read as 1900..1999.
  - `date.setDate(date.getDate() + n)` is proved to move a day by n days.
- **Owner dashboard**:
  - `formatDate` and `formatDateForDisplay`, and the five range presets.
  - `getMonthlyStats`: the in-place `forEach` accumulation, proved equal to a fold, with the fold
    proved equal to per-month and per-user sums. Expense records carry no store, so with a store
    selected the report throws as soon as an expense was fetched; the model returns None there.
  - `getSelectedRangeStats`: two `reduce`s, proved equal to the sum over the day range.
  - The new-employee password check.
- **Employee dashboard**: the own-entry filter, the row net, and the edit form's day.
- **Sign-in page**: the form as a class.
  - Its submit checks the password pair before registering.
  - Its mode switch clears every field.

Inputs the code reads from the outside world are parameters:
- the server's current day (`today`);
- the authenticated principal (`Option<Principal>`, None when `getAuthUser` finds no valid token);
- the error code a failing `save` throws (`fault`);
- the fresh document id (`freshId`);
- the bcrypt comparison for employee passwords (`employeePasswordMatches`);
- how the sign-in page's awaited call ended (`Outcome`).

Notes on behaviour the model makes explicit:
- An income date whose pieces are not numbers gives 500, not 400. The route logs
  `toISOString()` of the Invalid Date it built, which throws, and the catch block answers 500
  (src/app/api/income/route.ts:130, 225-228).
- The expense POST never sets a `type`. The owner dashboard counts an expense as "expenses" only
  when its type is exactly `"expense"`, so expenses created through that route count as payments
  (src/components/BusinessDashboard.tsx:604-612).
- Registration checks only the business table for a taken username, although its comment says
  both. An employee's username can therefore be registered as a business, and the business then
  wins at sign-in (`RegisterRoute.EmployeeUsernameNotChecked`, `LoginRoute.BusinessWins`).
- Store creation maps every failed save to 500, including a duplicate key.

## Model

| member | source | states |
|---|---|---|
| Common.SaveFailure | src/app/api/employees/route.ts:96-108 | a failed save answers 409 with the route's duplicate message exactly when the error code is 11000, and 500 "Internal server error" otherwise |
| Common.Filter | src/app/api/employees/route.ts:19-21 | `filter` keeps exactly the elements satisfying the predicate, in their original order (a subsequence) |
| Common.First | src/app/api/auth/login/route.ts:21 | `findOne` finds nothing iff no element matches; otherwise it returns a matching position with no match before it |
| Calendar.DaysInMonth | src/app/api/expenses/route.ts:75 | a month has 28..31 days; February has 29 exactly in leap years |
| Calendar.LastDayOfMonth | src/components/BusinessDashboard.tsx:149 | the last day of a month is a valid day of that month, and no valid day of the month is later |
| Calendar.OrderAgrees | src/app/api/income/route.ts:162-163 | comparing day numbers is the same as comparing (year, month, day) in calendar order, in both directions |
| Calendar.Injective | src/app/api/income/route.ts:162-163 | different calendar days have different day numbers |
| Calendar.Increasing | src/app/api/income/route.ts:162-163 | a strictly later calendar day has a strictly larger day number |
| Calendar.NextDay | src/app/api/income/route.ts:146-147 | the following day, across month and year ends, has day number + 1 |
| Calendar.PreviousDay | src/components/BusinessDashboard.tsx:184-185 | the preceding day, across month and year starts, has day number − 1 |
| Calendar.AddDays | src/app/api/income/route.ts:149-150 | moving a day by n days adds n to its day number |
| Calendar.CivilFromDays | src/app/api/income/route.ts:158 | every day number belongs to a calendar day |
| Calendar.CivilRoundTrip | src/app/api/income/route.ts:158 | day number and calendar day are inverse: converting a day to its number and back gives the day |
| Calendar.AddDaysAdds | src/app/api/income/route.ts:146-150 | moving by m days and then by n days is moving by m + n days |
| Calendar.ConstructorYear | src/app/api/income/route.ts:158 | the Date constructor keeps the year exactly when the year is outside 0..99 |
| Calendar.MakeDay | src/app/api/income/route.ts:158 | for a month in 1..12 the constructor's day number is the plain day index; other months carry into the year |
| Calendar.SetDateMoves | src/app/api/income/route.ts:146-150 | `setDate(getDate() + n)` moves the date by exactly n days, whatever month it crosses |
| Calendar.LocalDayOfCalendarDay | src/app/api/income/route.ts:158 | for a year the constructor keeps, `new Date(y, m - 1, d)` of a calendar day is that day |
| Calendar.DayZeroOfNextMonth | src/app/api/expenses/route.ts:75 | `new Date(y, m, 0)` is the last day of month m |
| Calendar.FirstOfMonthBefore | src/app/api/expenses/route.ts:74 | `new Date(y, m - 2, 1)` is the first of the previous month, which is December of the previous year in January |
| Calendar.SplitAfter | src/components/BusinessDashboard.tsx:666-674 | a day between a and c lies either up to b or from the day after b on, and never in both |
| Calendar.FirstOfMonth | src/components/BusinessDashboard.tsx:148 | the 1st of a day's month is in the same month and not after the day |
| Calendar.FirstOfPreviousMonth | src/components/BusinessDashboard.tsx:204 | the 1st of the previous month, with January rolling back to December of the previous year |
| Text.Split | src/app/api/income/route.ts:114 | `split` pieces contain no separator, and joining them with it gives the string back |
| Text.SplitJoin | src/app/api/income/route.ts:114 | splitting a join of separator-free pieces gives the pieces back |
| Text.BeforeFirst | src/components/EmployeeDashboard.tsx:111 | `split(sep)[0]` is the longest prefix without the separator, ending at the first separator or at the end |
| Text.NatToString | src/components/BusinessDashboard.tsx:127-132 | a number's decimal text is all digits and reads back as the number |
| Text.IntToString | src/components/BusinessDashboard.tsx:127-132 | `String(i)` reads back as i for i ≥ 0 and starts with '-' otherwise |
| Text.Pad2 | src/components/BusinessDashboard.tsx:128-129 | `padStart(2, '0')` gives two digits for numbers below 100, reading back as the number |
| Text.ToNumber | src/app/api/income/route.ts:114 | `Number` of a piece is defined exactly for runs of digits; "" is 0 |
| Text.Trim | src/app/api/expenses/route.ts:87 | `trim` returns the middle of the string between its leading and trailing white space, and is empty iff the string is all white space |
| Text.TrimIdempotent | src/app/api/expenses/route.ts:87 | trimming twice is trimming once |
| Records.BusinessById | src/app/api/auth/change-password/route.ts:35 | `findById` finds nothing iff no business has the id; otherwise it finds one with that id |
| Records.BusinessByUsername | src/app/api/auth/register/route.ts:26 | `findOne({ username })` on businesses finds nothing iff no business has the username |
| Records.EmployeeByUsername | src/app/api/employees/route.ts:63 | `findOne({ username })` on employees finds nothing iff no employee has the username |
| Records.UserType | src/app/api/income/route.ts:201 | the recorded `userType` is Business exactly for a business principal |
| Records.BuildQuery | src/app/api/income/route.ts:24-52 | the listing query scopes an employee to its own id and an owner to its business; it carries the day range iff both ends are given, and the store when given |
| Records.QueryMeaning | src/app/api/income/route.ts:24-52 | a row matches the query iff it is in the caller's scope, in the day range and of the store |
| DayStrings.Components | src/app/api/income/route.ts:114 | the first three '-' pieces as numbers, defined exactly when all three exist and are digits |
| DayStrings.LocalDayOf | src/app/api/income/route.ts:158 | the entry day is built from those components through the Date constructor, never from a timestamp parse |
| DayStrings.FormatDate | src/components/BusinessDashboard.tsx:127-132 | `formatDate` writes `YYYY-MM-DD` with dashes before the two-digit month and day |
| DayStrings.FormatDateForDisplay | src/components/BusinessDashboard.tsx:497-503 | `formatDateForDisplay` writes `DD-MM-YYYY` |
| DayStrings.FormatDateParses | src/app/api/income/route.ts:114 | reading a formatted day's pieces gives the day's own year, month and day |
| DayStrings.FormatDateRoundTrip | src/app/api/income/route.ts:114-158 | the route reads a day the dashboard formatted (year ≥ 100) as that very day |
| DayStrings.DisplayReversesPieces | src/components/BusinessDashboard.tsx:497-503 | the display form has the same three pieces as `formatDate`, in reverse order |
| IncomeRoute.Post | src/app/api/income/route.ts:85-228 | 401 without a principal; 400 "Date and store are required" before any date check; 500 for an unparsable date; 400 window message outside [today−15, today+1]; 409/500 on a failed save; otherwise 201 with user, business, userType, store, the parsed day and each missing amount 0 |
| IncomeRoute.WindowBounds | src/app/api/income/route.ts:142-150 | the window's bounds are exactly today−15 and today+1 as day numbers, across month and year ends |
| IncomeRoute.WindowIsCalendarRange | src/app/api/income/route.ts:143-163 | a day is accepted iff it lies between the day 15 days before today and tomorrow, both included |
| IncomeRoute.AcceptsFormattedDay | src/app/api/income/route.ts:105-207 | a POST of a `YYYY-MM-DD` day with a store succeeds iff the day is in the window, and the saved entry carries that day |
| IncomeRoute.PostDecides | src/app/api/income/route.ts:158-171 | once the date reads as a day and a store is given, the POST is accepted when that day is in the window and is refused with 400 and the window message otherwise |
| IncomeRoute.WindowEdges | src/app/api/income/route.ts:142-171 | a POST for the formatted day 15 days before today or for tomorrow is accepted; one for the day before that first day or for the day after tomorrow is refused with the window message |
| IncomeRoute.MarchWindow | src/app/api/income/route.ts:146-150 | example of `WindowBounds`: on 2024-03-05 (leap year) the window opens on 2024-02-19 and closes on 2024-03-06 |
| IncomeRoute.Get | src/app/api/income/route.ts:7-83 | 401 without a principal; otherwise exactly the stored entries in the caller's scope, day range and store |
| DebugDateRoute.DebugDate | src/app/api/debug-date/route.ts:6-52 | no or empty parameter: no parsed date and no validation; an unparsable date: 500; otherwise the parsed day, the window bounds and the same verdict as the income POST |
| DebugDateRoute.ReportedBounds | src/app/api/debug-date/route.ts:16-22 | the reported bounds are today, today+1 and today−15 |
| DebugDateRoute.AgreesWithIncomePost | src/app/api/debug-date/route.ts:12-22 | for the same date and day, the debug verdict is valid iff the income POST accepts (with no save failure), and it fails iff the POST answers 500 for the date |
| ExpensesRoute.Post | src/app/api/expenses/route.ts:55-98 | 401; 400 "Invalid data" for a missing date or description or a missing or negative amount (0 accepted); 400 outside the window; 500 on a failed save; otherwise 201 with the trimmed description |
| ExpensesRoute.WindowBounds | src/app/api/expenses/route.ts:73-77 | the window runs from the 1st of the previous month (December of last year in January) to the last day of this month |
| ExpensesRoute.WindowIsTwoMonths | src/app/api/expenses/route.ts:73-79 | a day passes iff it is in the current month or the previous one |
| ExpensesRoute.WindowExamples | src/app/api/expenses/route.ts:74-75 | example of `WindowBounds`: on 2024-03-15 the window is 1 February to 31 March; on 2024-01-10 it opens on 1 December 2023 |
| ExpensesRoute.Get | src/app/api/expenses/route.ts:6-51 | 401 without a principal; otherwise exactly the stored expenses in the caller's scope and day range |
| RegisterRoute.Register | src/app/api/auth/register/route.ts:7-75 | 400 for a missing field; 400 for a password shorter than 6; 409 for a business username already taken; 409/500 on a failed save; otherwise 201 with the new business appended and the owner principal with id = businessId |
| RegisterRoute.EmployeeUsernameNotChecked | src/app/api/auth/register/route.ts:26-33 | an employee's username can be registered again as a business: afterwards both accounts hold it |
| ChangePasswordRoute.ChangePassword | src/app/api/auth/change-password/route.ts:6-66 | 401 for a non-owner; 400 missing; 400 short; 404 unknown business; 400 wrong current password; once every check passes, 200 iff the save succeeds and 500 "Internal server error" iff it fails; on success only that business's password changes |
| ChangePasswordRoute.NewPasswordVerifies | src/app/api/auth/change-password/route.ts:44-59 | after a change the new password matches the business and, if it differs, the old one no longer does |
| EmployeesRoute.WithoutPassword | src/app/api/employees/route.ts:88-89 | the returned employee has the stored id, name, username and business |
| EmployeesRoute.List | src/app/api/employees/route.ts:7-31 | 401 for a non-owner; otherwise exactly the employees of the owner's business, without passwords |
| EmployeesRoute.AddToBusiness | src/app/api/employees/route.ts:83-86 | `$push` appends the employee id to that business only, and changes nothing when the business is missing |
| EmployeesRoute.Create | src/app/api/employees/route.ts:33-108 | 401; 400 missing; 400 short; 409 when the username is taken by a business or an employee; 409/500 on a failed save; otherwise 201 with the new employee linked to the owner's business |
| EmployeesRoute.HireOwnsUsername | src/app/api/employees/route.ts:62-86 | after hiring, no business holds the username and the only employee holding it is the new one |
| StoresRoute.List | src/app/api/stores/route.ts:6-22 | 401 without a principal; otherwise exactly the stores of the caller's business, in stored order |
| StoresRoute.Create | src/app/api/stores/route.ts:24-58 | 401 for a non-owner; 400 without a name; 400 when the business already has a store of that name; 500 on any failed save; otherwise 201 with the new store |
| StoresRoute.NamesArePerBusiness | src/app/api/stores/route.ts:41-44 | another business's store with the same name does not block creation |
| LoginRoute.Login | src/app/api/auth/login/route.ts:7-75 | 400 missing; 401 "Kullanıcı adı bulunamadı" iff neither table has the username; the business table is searched first; with both fields given, 200 iff the account found accepts the password (an owner's by plain comparison, an employee's by the hash check when its business exists), 401 "Kullanıcı adı veya şifre hatalı" iff that account refuses it, and 500 iff the employee found has no business; the principal's name falls back to the company name |
| LoginRoute.BusinessWins | src/app/api/auth/login/route.ts:21-28 | when a business and an employee share a username, signing in never yields the employee |
| LoginRoute.RegisteredCanSignIn | src/app/api/auth/login/route.ts:21-65 | after registering, signing in with the same username and password returns the registration's principal |
| LoginRoute.ChangedPasswordSignsIn | src/app/api/auth/login/route.ts:43-65 | after a password change, the owner signs in with the new password |
| LoginRoute.HiredCanSignIn | src/app/api/auth/login/route.ts:26-65 | a hired employee signs in as an employee of the hiring business |
| Storage.Database.constructor | src/app/api/auth/register/route.ts:36-42 | an empty database satisfies the uniqueness invariant |
| Storage.Database.Register | src/app/api/auth/register/route.ts:24-69 | the in-place handler answers as `RegisterRoute.Register`, appends the business only on success, and keeps ids and usernames unique |
| Storage.Database.HireEmployee | src/app/api/employees/route.ts:60-104 | the in-place handler answers as `EmployeesRoute.Create`, inserts and links only on success, and keeps the invariant |
| Storage.HireKeepsUnique | src/app/api/employees/route.ts:61-86 | a successful hire keeps ids below the next id and distinct, and usernames unique |
| Storage.Database.OpenStore | src/app/api/stores/route.ts:38-57 | the in-place handler answers as `StoresRoute.Create`, inserts only on success, and keeps store names unique per business |
| Storage.Database.ChangePassword | src/app/api/auth/change-password/route.ts:33-65 | the in-place handler answers as `ChangePasswordRoute.ChangePassword`, and afterwards the owner signs in with the new password |
| Storage.Database.PostIncome | src/app/api/income/route.ts:182-228 | the handler answers as `IncomeRoute.Post` and appends the entry only on success |
| Storage.Database.PostExpense | src/app/api/expenses/route.ts:80-98 | the handler answers as `ExpensesRoute.Post` and appends the expense only on success |
| DashboardRanges.EndOfPreviousMonth | src/components/BusinessDashboard.tsx:205 | day 0 of this month is in the previous month and is the day before this month's 1st |
| DashboardRanges.InitialRangeDays | src/components/BusinessDashboard.tsx:121-142 | the initial range is the 1st of the month through today |
| DashboardRanges.ThisMonthRangeDays | src/components/BusinessDashboard.tsx:146-162 | "this month" is its 1st through its last day |
| DashboardRanges.YesterdayRangeDays | src/components/BusinessDashboard.tsx:182-200 | "yesterday" is the previous calendar day on both ends, across month and year starts |
| DashboardRanges.LastMonthRangeDays | src/components/BusinessDashboard.tsx:202-218 | "last month" is the 1st through the last day of the previous month |
| DashboardRanges.PresetsAreOrdered | src/components/BusinessDashboard.tsx:146-218 | every preset's start is not after its end |
| DashboardRanges.EmployeeFormError | src/components/BusinessDashboard.tsx:293-307 | a new employee, or an edit that sets a password, is refused with the mismatch message before the length message; it is accepted iff the pair matches and is at least 6 long, or the edit leaves the password empty |
| DashboardRanges.FormPassesRouteLength | src/components/BusinessDashboard.tsx:297-306 | a new-employee form that passes its check is never refused by the employee route's length check |
| DashboardRanges.ShortPasswordCaughtByForm | src/components/BusinessDashboard.tsx:297-306 | a non-empty password the route would call short is refused by the form first |
| BusinessDashboard.Contribution | src/components/BusinessDashboard.tsx:552-619 | an income record adds its five takings; an expense record adds its amount to expenses when its type is exactly "expense" and to payments otherwise |
| BusinessDashboard.TotalAppend | src/components/BusinessDashboard.tsx:519-622 | the totals of two record lists add up |
| BusinessDashboard.Select | src/components/BusinessDashboard.tsx:509-516 | a filter keeps exactly the records the selector selects |
| BusinessDashboard.SelectTotal | src/components/BusinessDashboard.tsx:666-689 | totalling the kept records is totalling with both selections combined |
| BusinessDashboard.ForStore | src/components/BusinessDashboard.tsx:508-516 | without a store the records pass unchanged; with one, the filter throws iff some record has no store, and otherwise keeps exactly that store's records |
| BusinessDashboard.StoreFilterThrows | src/components/BusinessDashboard.tsx:505-516 | with a store selected the report throws iff an expense was fetched, since expense records carry no store; without one it never throws |
| BusinessDashboard.MonthlyStats | src/components/BusinessDashboard.tsx:505-630 | the in-place `forEach` loops over income then expense records, followed by the net pass, build exactly the monthly report, and throw exactly when the store filter does |
| BusinessDashboard.Record | src/components/BusinessDashboard.tsx:519-569 | one loop body creates the month and the user stat when missing and adds the record's amounts to both |
| BusinessDashboard.FoldKeys | src/components/BusinessDashboard.tsx:519-536 | a month is listed iff some record falls in it |
| BusinessDashboard.FoldTotals | src/components/BusinessDashboard.tsx:538-569 | a listed month's totals are the sum over exactly the records of that month |
| BusinessDashboard.FoldConsistent | src/components/BusinessDashboard.tsx:546-566 | every month lists each user once, its users' totals add up to the month's, and every record's author is listed |
| BusinessDashboard.WithNet | src/components/BusinessDashboard.tsx:625-627 | the net pass keeps the months and sets each `totalNet` to takings less expenses and payments |
| BusinessDashboard.NetOfSum | src/components/BusinessDashboard.tsx:625-627 | the net of summed user totals is the sum of the users' nets |
| BusinessDashboard.ReportKeys | src/components/BusinessDashboard.tsx:505-630 | the report lists a month iff some record of the selected store falls in it |
| BusinessDashboard.ReportTotals | src/components/BusinessDashboard.tsx:505-630 | each listed month's totals are the sum over that month's records of the selected store |
| BusinessDashboard.ReportBreakdown | src/components/BusinessDashboard.tsx:505-630 | a listed month's net is its takings less its outgoings and equals the sum of its users' nets; every author appears in its month's breakdown |
| BusinessDashboard.CreditSame | src/components/BusinessDashboard.tsx:546-568 | after `find`-or-push, the author's stat holds what it held before (nothing when new) plus the record's amounts |
| BusinessDashboard.CreditOther | src/components/BusinessDashboard.tsx:599-621 | `find`-or-push for one author leaves every other user's stat where and as it was |
| BusinessDashboard.FoldUserTotals | src/components/BusinessDashboard.tsx:546-621 | each user in a month's breakdown holds the sum of that user's own records of the month, and an author not listed has no records there |
| BusinessDashboard.ReportUserTotals | src/components/BusinessDashboard.tsx:505-630 | in the report, each user of a listed month holds the totals of that user's own records of the month and of the selected store, and an unlisted user has none |
| BusinessDashboard.SelectedRangeStats | src/components/BusinessDashboard.tsx:659-715 | the two `reduce`s over the filtered lists give exactly the sum of all records from the start of the first day to the end of the last, and the net of that sum |
| BusinessDashboard.SumTakings | src/components/BusinessDashboard.tsx:680-689 | the income `reduce` sums each takings field |
| BusinessDashboard.SumOutgoing | src/components/BusinessDashboard.tsx:691-701 | the expense `reduce` splits amounts between expenses and payments by type |
| BusinessDashboard.DaysMeaning | src/components/BusinessDashboard.tsx:660-674 | a record is in the range exactly when its day number lies from the first day's to the last day's, both included |
| BusinessDashboard.RangeSplit | src/components/BusinessDashboard.tsx:666-674 | splitting a day range after any day from its start up to its end splits its totals into the totals up to that day and those from the next day on |
| BusinessDashboard.MonthIsItsRange | src/components/BusinessDashboard.tsx:146-162 | the "this month" range sums the same records as that month's row of the monthly report |
| EmployeeDashboard.OwnEntries | src/components/EmployeeDashboard.tsx:44-52 | an entry is kept iff its user, as a bare id or as a populated `_id`, is the current user; entries without a user are dropped; order is kept |
| EmployeeDashboard.SignedOutSeesNothing | src/components/EmployeeDashboard.tsx:44-51 | with no signed-in user nothing is kept |
| EmployeeDashboard.AllOwnKept | src/components/EmployeeDashboard.tsx:44-52 | when every fetched entry is the user's own, all are kept, in order |
| EmployeeDashboard.OwnEntriesIdempotent | src/components/EmployeeDashboard.tsx:44-52 | filtering twice is filtering once |
| EmployeeDashboard.NetsAddUp | src/components/EmployeeDashboard.tsx:305-326 | the net column adds up to the listed cash and POS takings less the listed expenses; when every row is shown green the expenses do not exceed the takings |
| EmployeeDashboard.EditDate | src/components/EmployeeDashboard.tsx:111 | the edit day is the stored date's prefix up to its first 'T' |
| EmployeeDashboard.EditDateIdempotent | src/components/EmployeeDashboard.tsx:111 | taking the day of a day changes nothing |
| EmployeeDashboard.EditDateOfTimestamp | src/components/EmployeeDashboard.tsx:111 | the day of an ISO timestamp is its `YYYY-MM-DD` part, which the income route reads as that day |
| LoginPage.FormCheck | src/app/login/page.tsx:30-45 | sign-in mode makes no check; registration refuses a mismatch first, then a password shorter than 6 |
| LoginPage.SameRulesAsEmployeeForm | src/app/login/page.tsx:32-41 | registration applies the owner dashboard's new-employee rules and messages |
| LoginPage.CallFor | src/app/login/page.tsx:30-45 | register is called only when both checks pass; sign-in is always called in sign-in mode |
| LoginPage.RegisterPassesRouteLength | src/app/login/page.tsx:37-42 | a registration the form sends is never refused by the register route for its length |
| LoginPage.LoginForm.Submit | src/app/login/page.tsx:24-52 | clears the error, makes the call `CallFor` chooses, shows the check's message or the thrown message (or the fallback), opens the dashboard only after a call that returned, ends not loading and keeps the fields |
| LoginPage.LoginForm.ToggleMode | src/app/login/page.tsx:185-188 | switches the mode and empties every field and the error |
| LoginPage.FreshRegisterFormRefused | src/app/login/page.tsx:185-188 | right after switching to registration the form refuses to register: the empty password is too short |

## Left out

- Persistence (`initMongoose`, `find`, `populate`, `save`): modelled as sequences in a value or
  in the `Database` class. A failed save is the injected error code.
- Mongoose schema validation and strict-mode field dropping are not modelled. For example,
  Business requires `name`, which registration never sets (src/lib/models/Business.ts:4-8). The
  income schema has no store or lottery fields. The unique (user, date) income index is not
  enforced; only its 409 mapping is modelled.
- The `findByIdAndUpdate` that links a new employee runs after the save. Its own failure is
  not modelled.
- JWT signing and verification, cookies and `getAuthUser` (src/lib/auth.ts) are replaced by the
  optional principal. Logout is a constant response.
- The employee password comparison is bcrypt (src/lib/models/Employee.ts:35-44). It is a
  parameter. Business passwords are compared as plain text, as the source does.
- Time zones and clocks:
  - the UTC window computed only for logging (src/app/api/income/route.ts:117-139), except
    that its `toISOString` makes an Invalid Date a 500;
  - `new Date(string)` in the expense POST, in both listing filters and in the dashboards, whose
    results are taken to be calendar days;
  - daylight saving time;
  - the range of JavaScript time values.
- `Number` on a date piece is modelled for "" and runs of digits. Signs, white space,
  fractions, exponents and hex are not modelled. `parseInt`, `parseFloat` and the `|| 0` of
  amounts are integer amounts.
- String lengths are counted in characters, not UTF-16 code units.
- Ordering: the `sort` of every listing and of the monthly report (`localeCompare`). Contracts
  state membership, not order, except where a filter keeps the input order.
- Presentation: `Intl.NumberFormat`, `toLocaleDateString` month names, React rendering, `fetch`,
  `confirm`/`alert` and `console.log`.
- The per-record routes `/api/income/[id]`, `/api/employees/[id]` and `/api/stores/[id]`: their
  handlers are not part of this model.
- src/contexts/AuthContext.tsx is not part of this model. `LoginPage.RegisterPassesRouteLength`
  assumes it forwards the company name, username and password unchanged.
- The employee dashboard's create payload has no `store`, so the income route answers it
  with 400. This follows from `IncomeRoute.Post`; the payload is not modelled separately.
