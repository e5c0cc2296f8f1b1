/** `/api/auth/login`: signing in as a business owner or as an employee. */
module LoginRoute {
  import opened Common
  import opened Records
  import RegisterRoute
  import ChangePasswordRoute
  import EmployeesRoute

  datatype LoginRequest = LoginRequest(username: string, password: string)

  /** The user object of the response: the principal and its company's name. */
  datatype Session = Session(user: Principal, companyName: string)

  const RequiredMessage: string := "Username and password are required"
  const UnknownUser: string := "Kullanıcı adı bulunamadı"
  const WrongPassword: string := "Kullanıcı adı veya şifre hatalı"

  /** The business that `findOne({ username })` returns, if any. */
  function OwnerFound(req: LoginRequest, t: Tables): Option<Business> {
    match BusinessByUsername(t.businesses, req.username)
    case Some(i) => Some(t.businesses[i])
    case None => None
  }

  /** The employee that the fallback `findOne({ username })` returns, when no business
      holds the username. */
  function EmployeeFound(req: LoginRequest, t: Tables): Option<Employee> {
    if BusinessByUsername(t.businesses, req.username).Some? then None
    else match EmployeeByUsername(t.employees, req.username)
      case Some(j) => Some(t.employees[j])
      case None => None
  }

  /** The employee found has no business row to populate. */
  predicate OrphanEmployee(req: LoginRequest, t: Tables) {
    var e := EmployeeFound(req, t);
    e.Some? && BusinessById(t.businesses, e.value.business).None?
  }

  /** The account found accepts the password: the owner's by plain comparison, the
      employee's (whose business exists) by the hash check. */
  predicate SignsIn(req: LoginRequest, t: Tables, employeePasswordMatches: (string, string) -> bool) {
    var b := OwnerFound(req, t);
    var e := EmployeeFound(req, t);
    (b.Some? && ChangePasswordRoute.BusinessPasswordMatches(b.value, req.password))
    || (e.Some? && !OrphanEmployee(req, t) && employeePasswordMatches(req.password, e.value.password))
  }

  /** The account found refuses the password. */
  predicate Refused(req: LoginRequest, t: Tables, employeePasswordMatches: (string, string) -> bool) {
    var b := OwnerFound(req, t);
    var e := EmployeeFound(req, t);
    (b.Some? && !ChangePasswordRoute.BusinessPasswordMatches(b.value, req.password))
    || (e.Some? && !OrphanEmployee(req, t) && !employeePasswordMatches(req.password, e.value.password))
  }

  /** POST. The business table is searched first and the employee table only when no
      business has the username. An employee's business is populated; if it is missing,
      reading its id throws and the answer is 500. `employeePasswordMatches` stands for
      the password-hash comparison of employee accounts. */
  function Login(req: LoginRequest, t: Tables, employeePasswordMatches: (string, string) -> bool)
    : (r: Response<Session>)
    ensures (req.username == "" || req.password == "") ==> r == Err(400, RequiredMessage)
    ensures r == Err(401, UnknownUser) <==>
      req.username != "" && req.password != ""
      && (forall b :: b in t.businesses ==> b.username != req.username)
      && (forall e :: e in t.employees ==> e.username != req.username)
    ensures r.Ok? <==> req.username != "" && req.password != "" && SignsIn(req, t, employeePasswordMatches)
    ensures r == Err(401, WrongPassword) <==>
      req.username != "" && req.password != "" && Refused(req, t, employeePasswordMatches)
    ensures r == Err(500, InternalError) <==>
      req.username != "" && req.password != "" && OrphanEmployee(req, t)
    ensures r.Ok? ==> r.status == 200 && r.body.user.username == req.username
    ensures r.Ok? && r.body.user.role == BusinessRole ==>
      exists b :: b in t.businesses && b.username == req.username && b.password == req.password
        && r.body.user == Principal(b.id, b.username, BusinessRole, b.id, if b.name != "" then b.name else b.companyName)
        && r.body.companyName == b.companyName
    ensures r.Ok? && r.body.user.role == EmployeeRole ==>
      (forall b :: b in t.businesses ==> b.username != req.username)
      && (exists e :: e in t.employees && e.username == req.username
            && employeePasswordMatches(req.password, e.password)
            && r.body.user == Principal(e.id, e.username, EmployeeRole, e.business, e.name)
            && exists b :: b in t.businesses && b.id == e.business && r.body.companyName == b.companyName)
    ensures r.Err? && r.status == 500 ==>
      exists e :: e in t.employees && e.username == req.username
        && forall b :: b in t.businesses ==> b.id != e.business
  {
    if req.username == "" || req.password == "" then Err(400, RequiredMessage)
    else match BusinessByUsername(t.businesses, req.username)
      case Some(i) =>
        var b := t.businesses[i];
        if !ChangePasswordRoute.BusinessPasswordMatches(b, req.password) then Err(401, WrongPassword)
        else
          var name := if b.name != "" then b.name else b.companyName;
          Ok(200, Session(Principal(b.id, b.username, BusinessRole, b.id, name), b.companyName))
      case None =>
        match EmployeeByUsername(t.employees, req.username)
        case None => Err(401, UnknownUser)
        case Some(j) =>
          var e := t.employees[j];
          match BusinessById(t.businesses, e.business)
          case None => Err(500, InternalError)
          case Some(k) =>
            if !employeePasswordMatches(req.password, e.password) then Err(401, WrongPassword)
            else Ok(200, Session(Principal(e.id, e.username, EmployeeRole, e.business, e.name),
                                 t.businesses[k].companyName))
  }

  /** When a business and an employee share a username, signing in with it never yields
      the employee, whatever the password. */
  lemma BusinessWins(req: LoginRequest, t: Tables, m: (string, string) -> bool, b: Business, e: Employee)
    requires b in t.businesses && e in t.employees && b.username == req.username && e.username == req.username
    ensures var r := Login(req, t, m); !(r.Ok? && r.body.user.role == EmployeeRole)
    ensures var r := Login(req, t, m); req.username != "" && req.password != "" ==> r.Err? || r.body.user.role == BusinessRole
  {
  }

  /** After a registration, signing in with the same username and password gives back the
      principal that the registration returned. */
  lemma RegisteredCanSignIn(req: RegisterRoute.RegisterRequest, t: Tables, freshId: Id, m: (string, string) -> bool)
    requires RegisterRoute.Register(req, t, freshId, None).Ok?
    ensures var reg := RegisterRoute.Register(req, t, freshId, None).body;
      Login(LoginRequest(req.username, req.password), reg.tables, m) == Ok(200, Session(reg.user, req.companyName))
  {
    var reg := RegisterRoute.Register(req, t, freshId, None).body;
    var bs := reg.tables.businesses;
    var i := BusinessByUsername(bs, req.username);
    assert bs[|t.businesses|] == RegisterRoute.NewBusiness(req, freshId);
    assert forall j :: 0 <= j < |t.businesses| ==> bs[j] == t.businesses[j];
  }

  /** After a password change, the owner signs in with the new password (when its username
      is not empty and no other business shares it) and no longer with a different old one. */
  lemma ChangedPasswordSignsIn(p: Option<Principal>, change: ChangePasswordRoute.PasswordChange, t: Tables,
                               m: (string, string) -> bool)
    requires ChangePasswordRoute.ChangePassword(p, change, t, None).Ok?
    requires var i := BusinessById(t.businesses, p.value.businessId).value;
      t.businesses[i].username != "" &&
      forall j :: 0 <= j < |t.businesses| && j != i ==> t.businesses[j].username != t.businesses[i].username
    ensures var t' := ChangePasswordRoute.ChangePassword(p, change, t, None).body;
      var b := t.businesses[BusinessById(t.businesses, p.value.businessId).value];
      Login(LoginRequest(b.username, change.newPassword), t', m).Ok?
      && (change.currentPassword != change.newPassword ==>
            Login(LoginRequest(b.username, change.currentPassword), t', m) == Err(401, WrongPassword))
  {
    var t' := ChangePasswordRoute.ChangePassword(p, change, t, None).body;
    var i := BusinessById(t.businesses, p.value.businessId).value;
    var b := t.businesses[i];
    assert t'.businesses[i].username == b.username;
    assert t'.businesses[i].password == change.newPassword;
    assert forall j :: 0 <= j < |t'.businesses| && j != i ==> t'.businesses[j].username != b.username;
    assert BusinessByUsername(t'.businesses, b.username) == Some(i);
  }

  /** A hired employee signs in with its password (when the hash comparison accepts it) and
      gets a principal of the hiring business. */
  lemma HiredCanSignIn(p: Option<Principal>, req: EmployeesRoute.EmployeeRequest, t: Tables, freshId: Id,
                       m: (string, string) -> bool)
    requires EmployeesRoute.Create(p, req, t, freshId, None).Ok?
    requires exists b :: b in t.businesses && b.id == p.value.businessId
    requires m(req.password, req.password)
    ensures var t' := EmployeesRoute.Create(p, req, t, freshId, None).body.tables;
      var r := Login(LoginRequest(req.username, req.password), t', m);
      r.Ok? && r.body.user == Principal(freshId, req.username, EmployeeRole, p.value.businessId, req.name)
  {
    var t' := EmployeesRoute.Create(p, req, t, freshId, None).body.tables;
    EmployeesRoute.HireOwnsUsername(p, req, t, freshId);
    var e := Employee(freshId, req.name, req.username, req.password, p.value.businessId);
    assert BusinessByUsername(t'.businesses, req.username).None? by {
      assert forall i :: 0 <= i < |t'.businesses| ==> t'.businesses[i] in t'.businesses;
    }
    assert t'.employees[|t.employees|] == e;
    var j := EmployeeByUsername(t'.employees, req.username).value;
    assert t'.employees[j] in t'.employees;
    assert t'.employees[j] == e;
    var b :| b in t.businesses && b.id == p.value.businessId;
    var bi :| 0 <= bi < |t.businesses| && t.businesses[bi] == b;
    assert t'.businesses[bi].id == b.id;
    var k := BusinessById(t'.businesses, e.business).value;
    assert Login(LoginRequest(req.username, req.password), t', m) ==
      Ok(200, Session(Principal(e.id, e.username, EmployeeRole, e.business, e.name), t'.businesses[k].companyName));
  }
}
