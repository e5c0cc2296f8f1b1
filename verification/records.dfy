/** The rows the routes read and write (the fields of the Mongoose models that the
    handlers touch) and the authenticated principal that `getAuthUser` yields. */
module Records {
  import opened Common
  import opened Calendar

  /** A document id. */
  type Id = nat

  datatype Role = BusinessRole | EmployeeRole

  /** The verified token payload: who is calling. */
  datatype Principal = Principal(id: Id, username: string, role: Role, businessId: Id, name: string)

  /** A business owner's account; `password` is stored and compared as plain text. */
  datatype Business = Business(
    id: Id, name: string, companyName: string, username: string, password: string,
    employees: seq<Id>)

  /** An employee account; the stored password is only ever compared through the
      password-hash check that the login route is given. */
  datatype Employee = Employee(id: Id, name: string, username: string, password: string, business: Id)

  datatype Store = Store(id: Id, name: string, business: Id)

  datatype IncomeEntry = IncomeEntry(
    user: Id, userType: Role, business: Id, store: Id, date: CalendarDay,
    cashIncome: int, posIncome: int, lotteryTicketIncome: int,
    lotteryScratchIncome: int, lotteryNumericalIncome: int)

  datatype ExpenseEntry = ExpenseEntry(
    user: Id, userType: Role, business: Id, date: CalendarDay, description: string, amount: int)

  /** The account and store collections that the handlers read and change. */
  datatype Tables = Tables(businesses: seq<Business>, employees: seq<Employee>, stores: seq<Store>)

  /** The handlers that only owners may call check `!user || user.role !== 'business'`. */
  predicate IsOwner(p: Option<Principal>) {
    p.Some? && p.value.role == BusinessRole
  }

  /** `Business.findById(id)`: the position of that business, if any. */
  function BusinessById(bs: seq<Business>, id: Id): (r: Option<nat>)
    ensures r.None? <==> forall i :: 0 <= i < |bs| ==> bs[i].id != id
    ensures r.Some? ==> r.value < |bs| && bs[r.value].id == id
  {
    First(bs, (b: Business) => b.id == id)
  }

  /** `Business.findOne({ username })`. */
  function BusinessByUsername(bs: seq<Business>, username: string): (r: Option<nat>)
    ensures r.None? <==> forall i :: 0 <= i < |bs| ==> bs[i].username != username
    ensures r.Some? ==> r.value < |bs| && bs[r.value].username == username
  {
    First(bs, (b: Business) => b.username == username)
  }

  /** `Employee.findOne({ username })`. */
  function EmployeeByUsername(es: seq<Employee>, username: string): (r: Option<nat>)
    ensures r.None? <==> forall i :: 0 <= i < |es| ==> es[i].username != username
    ensures r.Some? ==> r.value < |es| && es[r.value].username == username
  {
    First(es, (e: Employee) => e.username == username)
  }

  /** The `startDate` and `endDate` query parameters of a listing, as calendar days. */
  datatype DayRange = DayRange(start: Option<CalendarDay>, end: Option<CalendarDay>)

  /** The listing's day filter: applied only when both ends are given, and then from the
      start of the first day to the end of the last, both included. */
  predicate InDayRange(d: CalendarDay, q: DayRange) {
    q.start.Some? && q.end.Some? ==>
      DaysFromCivil(q.start.value) <= DaysFromCivil(d) <= DaysFromCivil(q.end.value)
  }

  /** The listings' role scope: an employee sees the rows it owns, a business owner every
      row of its business. */
  predicate InScope(p: Principal, user: Id, business: Id) {
    if p.role == EmployeeRole then user == p.id else business == p.businessId
  }

  /** The `userType` a created entry records for its author. */
  function UserType(p: Principal): (t: Role)
    ensures t == BusinessRole <==> p.role == BusinessRole
  {
    if p.role == BusinessRole then BusinessRole else EmployeeRole
  }

  /** The query document a listing builds: the role scope, then the day range when both
      ends are given, then the store when one is given. */
  datatype Query = Query(user: Option<Id>, business: Option<Id>, days: Option<(int, int)>, store: Option<Id>)

  function BuildQuery(p: Principal, range: DayRange, store: Option<Id>): (q: Query)
    ensures p.role == EmployeeRole ==> q.user == Some(p.id) && q.business.None?
    ensures p.role == BusinessRole ==> q.business == Some(p.businessId) && q.user.None?
    ensures q.days.Some? <==> range.start.Some? && range.end.Some?
    ensures q.days.Some? ==>
      q.days.value == (DaysFromCivil(range.start.value), DaysFromCivil(range.end.value))
    ensures q.store == store
  {
    var scope :=
      if p.role == EmployeeRole then Query(Some(p.id), None, None, None)
      else Query(None, Some(p.businessId), None, None);
    var dated :=
      if range.start.Some? && range.end.Some? then
        scope.(days := Some((DaysFromCivil(range.start.value), DaysFromCivil(range.end.value))))
      else scope;
    if store.Some? then dated.(store := store) else dated
  }

  /** Whether a row matches every field the query sets (a row without a store matches
      no store condition). */
  predicate Matches(q: Query, user: Id, business: Id, date: CalendarDay, store: Option<Id>) {
    && (q.user.Some? ==> user == q.user.value)
    && (q.business.Some? ==> business == q.business.value)
    && (q.days.Some? ==> q.days.value.0 <= DaysFromCivil(date) <= q.days.value.1)
    && (q.store.Some? ==> store == q.store)
  }

  /** The query selects exactly the rows in the caller's scope, in the day range and of
      the store. */
  lemma QueryMeaning(p: Principal, range: DayRange, store: Option<Id>,
                     user: Id, business: Id, date: CalendarDay, rowStore: Option<Id>)
    ensures Matches(BuildQuery(p, range, store), user, business, date, rowStore) <==>
      InScope(p, user, business) && InDayRange(date, range) && (store.Some? ==> rowStore == store)
  {
  }
}
