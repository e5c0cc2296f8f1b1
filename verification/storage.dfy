/** The collections behind the routes, updated in place by the handlers that write. Each
    method follows its handler's early-return chain and is proved to answer what the
    route's function answers and to leave the collections in the state that function
    describes. The invariant holds what the unique indexes of the schemas promise. */
module Storage {
  import opened Common
  import opened Calendar
  import opened Records
  import RegisterRoute
  import EmployeesRoute
  import StoresRoute
  import ChangePasswordRoute
  import LoginRoute
  import IncomeRoute
  import ExpensesRoute

  class Database {
    var businesses: seq<Business>
    var employees: seq<Employee>
    var stores: seq<Store>
    var incomes: seq<IncomeEntry>
    var expenses: seq<ExpenseEntry>
    /** The next unused document id. */
    var nextId: nat

    /** The account and store collections as a value. */
    function Snapshot(): Tables
      reads this
    {
      Tables(businesses, employees, stores)
    }

    /** The uniqueness invariant holds of the collections, with nextId as the bound. */
    predicate Valid()
      reads this
    {
      Unique(Snapshot(), nextId)
    }

    constructor()
      ensures Valid()
      ensures businesses == [] && employees == [] && stores == [] && incomes == [] && expenses == []
      ensures nextId == 0
    {
      businesses, employees, stores, incomes, expenses := [], [], [], [], [];
      nextId := 0;
    }

    /** POST /api/auth/register. */
    method Register(req: RegisterRoute.RegisterRequest, fault: Option<int>) returns (r: Response<RegisterRoute.Registered>)
      requires Valid()
      modifies this
      ensures Valid()
      ensures r == RegisterRoute.Register(req, old(Snapshot()), old(nextId), fault)
      ensures Snapshot() == (if r.Ok? then r.body.tables else old(Snapshot()))
      ensures nextId == (if r.Ok? then old(nextId) + 1 else old(nextId))
      ensures incomes == old(incomes) && expenses == old(expenses)
    {
      if req.companyName == "" || req.username == "" || req.password == "" {
        return Err(400, RegisterRoute.RequiredMessage);
      }
      if |req.password| < MinPasswordLength {
        return Err(400, RegisterRoute.ShortPassword);
      }
      if BusinessByUsername(businesses, req.username).Some? {
        return Err(409, UsernameTaken);
      }
      if fault.Some? {
        return SaveFailure(fault.value, UsernameTaken);
      }
      var id := nextId;
      businesses := businesses + [RegisterRoute.NewBusiness(req, id)];
      nextId := nextId + 1;
      r := Ok(201, RegisterRoute.Registered(Principal(id, req.username, BusinessRole, id, req.companyName), Snapshot()));
    }

    /** POST /api/employees. */
    method HireEmployee(p: Option<Principal>, req: EmployeesRoute.EmployeeRequest, fault: Option<int>)
      returns (r: Response<EmployeesRoute.Hired>)
      requires Valid()
      modifies this
      ensures Valid()
      ensures r == EmployeesRoute.Create(p, req, old(Snapshot()), old(nextId), fault)
      ensures Snapshot() == (if r.Ok? then r.body.tables else old(Snapshot()))
      ensures nextId == (if r.Ok? then old(nextId) + 1 else old(nextId))
      ensures incomes == old(incomes) && expenses == old(expenses)
    {
      if !IsOwner(p) {
        return Err(401, Unauthorized);
      }
      if req.name == "" || req.username == "" || req.password == "" {
        return Err(400, EmployeesRoute.RequiredMessage);
      }
      if |req.password| < MinPasswordLength {
        return Err(400, EmployeesRoute.ShortPassword);
      }
      if BusinessByUsername(businesses, req.username).Some? || EmployeeByUsername(employees, req.username).Some? {
        return Err(409, UsernameTaken);
      }
      if fault.Some? {
        return SaveFailure(fault.value, UsernameTaken);
      }
      var e := Employee(nextId, req.name, req.username, req.password, p.value.businessId);
      Hire(p.value, req);
      r := Ok(201, EmployeesRoute.Hired(EmployeesRoute.WithoutPassword(e), Snapshot()));
    }

    /** `employee.save()` followed by the `$push` of its id onto the business's list. */
    method Hire(owner: Principal, req: EmployeesRoute.EmployeeRequest)
      requires Valid() && EmployeesRoute.Create(Some(owner), req, Snapshot(), nextId, None).Ok?
      modifies this
      ensures Valid()
      ensures Snapshot() == old(EmployeesRoute.Create(Some(owner), req, Snapshot(), nextId, None).body.tables)
      ensures nextId == old(nextId) + 1 && incomes == old(incomes) && expenses == old(expenses)
    {
      HireKeepsUnique(Some(owner), req, Snapshot(), nextId);
      var id := nextId;
      employees := employees + [Employee(id, req.name, req.username, req.password, owner.businessId)];
      businesses := EmployeesRoute.AddToBusiness(businesses, owner.businessId, id);
      nextId := nextId + 1;
    }

    /** POST /api/stores. */
    method OpenStore(p: Option<Principal>, name: string, fault: Option<int>) returns (r: Response<StoresRoute.Opened>)
      requires Valid()
      modifies this
      ensures Valid()
      ensures r == StoresRoute.Create(p, name, old(Snapshot()), old(nextId), fault)
      ensures Snapshot() == (if r.Ok? then r.body.tables else old(Snapshot()))
      ensures nextId == (if r.Ok? then old(nextId) + 1 else old(nextId))
      ensures incomes == old(incomes) && expenses == old(expenses)
    {
      if !IsOwner(p) {
        return Err(401, Unauthorized);
      }
      if name == "" {
        return Err(400, StoresRoute.NameRequired);
      }
      if First(stores, (s: Store) => s.business == p.value.businessId && s.name == name).Some? {
        return Err(400, StoresRoute.NameTaken);
      }
      if fault.Some? {
        return Err(500, InternalError);
      }
      var s := Store(nextId, name, p.value.businessId);
      stores := stores + [s];
      nextId := nextId + 1;
      r := Ok(201, StoresRoute.Opened(s, Snapshot()));
    }

    /** PUT /api/auth/change-password. Afterwards the owner signs in with the new
        password. */
    method ChangePassword(p: Option<Principal>, req: ChangePasswordRoute.PasswordChange, fault: Option<int>)
      returns (r: Response<Tables>)
      requires Valid()
      modifies this
      ensures Valid()
      ensures r == ChangePasswordRoute.ChangePassword(p, req, old(Snapshot()), fault)
      ensures Snapshot() == (if r.Ok? then r.body else old(Snapshot()))
      ensures nextId == old(nextId) && incomes == old(incomes) && expenses == old(expenses)
      ensures r.Ok? ==> var i := old(BusinessById(businesses, p.value.businessId)).value;
        i < |businesses| && businesses[i].password == req.newPassword
        && (businesses[i].username != "" ==> forall m: (string, string) -> bool ::
              LoginRoute.Login(LoginRoute.LoginRequest(businesses[i].username, req.newPassword), Snapshot(), m).Ok?)
    {
      if !IsOwner(p) {
        return Err(401, Unauthorized);
      }
      if req.currentPassword == "" || req.newPassword == "" {
        return Err(400, ChangePasswordRoute.RequiredMessage);
      }
      if |req.newPassword| < MinPasswordLength {
        return Err(400, ChangePasswordRoute.ShortPassword);
      }
      var found := BusinessById(businesses, p.value.businessId);
      if found.None? {
        return Err(404, ChangePasswordRoute.NotFound);
      }
      var i := found.value;
      if !ChangePasswordRoute.BusinessPasswordMatches(businesses[i], req.currentPassword) {
        return Err(400, ChangePasswordRoute.WrongPassword);
      }
      if fault.Some? {
        return Err(500, InternalError);
      }
      ghost var t := Snapshot();
      SetPassword(i, req.newPassword);
      r := Ok(200, Snapshot());
      forall m: (string, string) -> bool | businesses[i].username != ""
        ensures LoginRoute.Login(LoginRoute.LoginRequest(businesses[i].username, req.newPassword), Snapshot(), m).Ok?
      {
        LoginRoute.ChangedPasswordSignsIn(p, req, t, m);
      }
    }

    /** `business.password = newPassword; business.save()`. */
    method SetPassword(i: nat, newPassword: string)
      requires Valid() && i < |businesses|
      modifies this
      ensures Valid()
      ensures businesses == old(businesses)[i := old(businesses)[i].(password := newPassword)]
      ensures employees == old(employees) && stores == old(stores) && nextId == old(nextId)
      ensures incomes == old(incomes) && expenses == old(expenses)
    {
      businesses := businesses[i := businesses[i].(password := newPassword)];
    }

    /** POST /api/income. */
    method PostIncome(p: Option<Principal>, req: IncomeRoute.IncomeRequest, today: CalendarDay, fault: Option<int>)
      returns (r: Response<IncomeEntry>)
      requires Valid()
      modifies this
      ensures Valid()
      ensures r == IncomeRoute.Post(p, req, today, fault)
      ensures incomes == (if r.Ok? then old(incomes) + [r.body] else old(incomes))
      ensures Snapshot() == old(Snapshot()) && expenses == old(expenses) && nextId == old(nextId)
    {
      r := IncomeRoute.Post(p, req, today, fault);
      if r.Ok? {
        SaveIncome(r.body);
      }
    }

    /** `entry.save()` for an income entry. */
    method SaveIncome(entry: IncomeEntry)
      requires Valid()
      modifies this
      ensures Valid()
      ensures incomes == old(incomes) + [entry]
      ensures Snapshot() == old(Snapshot()) && expenses == old(expenses) && nextId == old(nextId)
    {
      incomes := incomes + [entry];
    }

    /** POST /api/expenses. */
    method PostExpense(p: Option<Principal>, req: ExpensesRoute.ExpenseRequest, today: CalendarDay, fault: Option<int>)
      returns (r: Response<ExpenseEntry>)
      requires Valid()
      modifies this
      ensures Valid()
      ensures r == ExpensesRoute.Post(p, req, today, fault)
      ensures expenses == (if r.Ok? then old(expenses) + [r.body] else old(expenses))
      ensures Snapshot() == old(Snapshot()) && incomes == old(incomes) && nextId == old(nextId)
    {
      r := ExpensesRoute.Post(p, req, today, fault);
      if r.Ok? {
        SaveExpense(r.body);
      }
    }

    /** `expense.save()`. */
    method SaveExpense(expense: ExpenseEntry)
      requires Valid()
      modifies this
      ensures Valid()
      ensures expenses == old(expenses) + [expense]
      ensures Snapshot() == old(Snapshot()) && incomes == old(incomes) && nextId == old(nextId)
    {
      expenses := expenses + [expense];
    }
  }

  /** Ids are below bound and distinct in each collection; business usernames and
      employee usernames are unique (each collection's unique index), and so are store
      names within a business. */
  predicate Unique(t: Tables, bound: nat) {
    && (forall i :: 0 <= i < |t.businesses| ==> t.businesses[i].id < bound)
    && (forall i :: 0 <= i < |t.employees| ==> t.employees[i].id < bound)
    && (forall i :: 0 <= i < |t.stores| ==> t.stores[i].id < bound)
    && (forall i, j :: 0 <= i < j < |t.businesses| ==>
          t.businesses[i].id != t.businesses[j].id && t.businesses[i].username != t.businesses[j].username)
    && (forall i, j :: 0 <= i < j < |t.employees| ==>
          t.employees[i].id != t.employees[j].id && t.employees[i].username != t.employees[j].username)
    && (forall i, j :: 0 <= i < j < |t.stores| ==>
          t.stores[i].id != t.stores[j].id
          && (t.stores[i].business != t.stores[j].business || t.stores[i].name != t.stores[j].name))
  }

  /** A hire keeps the collections unique, with the next id as the new bound. */
  lemma HireKeepsUnique(p: Option<Principal>, req: EmployeesRoute.EmployeeRequest, t: Tables, freshId: Id)
    requires Unique(t, freshId)
    requires EmployeesRoute.Create(p, req, t, freshId, None).Ok?
    ensures Unique(EmployeesRoute.Create(p, req, t, freshId, None).body.tables, freshId + 1)
  {
    var e := Employee(freshId, req.name, req.username, req.password, p.value.businessId);
    NewEmployeeKeepsUnique(t.employees, e, freshId);
    SameKeys(t.businesses, p.value.businessId, freshId);
  }

  /** Adding an employee whose id is new and whose username is unused keeps the employee
      ids and usernames distinct. */
  lemma NewEmployeeKeepsUnique(es: seq<Employee>, e: Employee, bound: nat)
    requires forall i :: 0 <= i < |es| ==> es[i].id < bound
    requires forall i, j :: 0 <= i < j < |es| ==> es[i].id != es[j].id && es[i].username != es[j].username
    requires e.id == bound && EmployeeByUsername(es, e.username).None?
    ensures var es' := es + [e];
      forall i, j :: 0 <= i < j < |es'| ==> es'[i].id != es'[j].id && es'[i].username != es'[j].username
  {
  }

  /** Joining an employee to a business leaves every business's id and username as it was. */
  lemma SameKeys(bs: seq<Business>, id: Id, employeeId: Id)
    ensures var bs' := EmployeesRoute.AddToBusiness(bs, id, employeeId);
      |bs'| == |bs| && forall i :: 0 <= i < |bs| ==> bs'[i].id == bs[i].id && bs'[i].username == bs[i].username
  {
  }
}
