/** `/api/auth/register`: opening a business owner's account. */
module RegisterRoute {
  import opened Common
  import opened Records

  datatype RegisterRequest = RegisterRequest(companyName: string, username: string, password: string)

  /** The signed-in owner and the tables with the new business in them. */
  datatype Registered = Registered(user: Principal, tables: Tables)

  const RequiredMessage: string := "Company name, username and password are required"
  const ShortPassword: string := "Password must be at least 6 characters long"

  /** The business row that registration saves: no employees yet, and no `name`. */
  function NewBusiness(req: RegisterRequest, id: Id): Business {
    Business(id, "", req.companyName, req.username, req.password, [])
  }

  /** POST: required fields, then password length, then a business with the same username
      (employees are not consulted), then saving, whose duplicate key is 409. */
  function Register(req: RegisterRequest, t: Tables, freshId: Id, fault: Option<int>): (r: Response<Registered>)
    ensures (req.companyName == "" || req.username == "" || req.password == "") ==> r == Err(400, RequiredMessage)
    ensures (req.companyName != "" && req.username != "" && req.password != ""
      && |req.password| < MinPasswordLength) ==> r == Err(400, ShortPassword)
    ensures (req.companyName != "" && req.username != "" && |req.password| >= MinPasswordLength
      && (exists b :: b in t.businesses && b.username == req.username)) ==> r == Err(409, UsernameTaken)
    ensures (req.companyName != "" && req.username != "" && |req.password| >= MinPasswordLength
      && (forall b :: b in t.businesses ==> b.username != req.username) && fault.Some?) ==>
      r == SaveFailure(fault.value, UsernameTaken)
    ensures r.Ok? <==>
      req.companyName != "" && req.username != "" && |req.password| >= MinPasswordLength
      && (forall b :: b in t.businesses ==> b.username != req.username) && fault.None?
    ensures r.Ok? ==> r.status == 201
    ensures r.Ok? ==> r.body.user == Principal(freshId, req.username, BusinessRole, freshId, req.companyName)
    ensures r.Ok? ==> r.body.tables == t.(businesses := t.businesses + [NewBusiness(req, freshId)])
  {
    if req.companyName == "" || req.username == "" || req.password == "" then Err(400, RequiredMessage)
    else if |req.password| < MinPasswordLength then Err(400, ShortPassword)
    else if BusinessByUsername(t.businesses, req.username).Some? then Err(409, UsernameTaken)
    else if fault.Some? then SaveFailure(fault.value, UsernameTaken)
    else
      Ok(201, Registered(Principal(freshId, req.username, BusinessRole, freshId, req.companyName),
                         t.(businesses := t.businesses + [NewBusiness(req, freshId)])))
  }

  /** An employee's username does not stop a business from registering it. */
  lemma EmployeeUsernameNotChecked(req: RegisterRequest, t: Tables, freshId: Id, e: Employee)
    requires req.companyName != "" && |req.password| >= MinPasswordLength
    requires e in t.employees && e.username == req.username && e.username != ""
    requires forall b :: b in t.businesses ==> b.username != req.username
    ensures Register(req, t, freshId, None).Ok?
    ensures var t' := Register(req, t, freshId, None).body.tables;
      (exists b :: b in t'.businesses && b.username == e.username) && e in t'.employees
  {
    var t' := Register(req, t, freshId, None).body.tables;
    assert t'.businesses[|t.businesses|] == NewBusiness(req, freshId);
  }
}
