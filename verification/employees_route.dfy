/** `/api/employees`: an owner lists and hires the employees of its business. */
module EmployeesRoute {
  import opened Common
  import opened Records

  datatype EmployeeRequest = EmployeeRequest(name: string, username: string, password: string)

  /** An employee row as the route returns it: every field but the password. */
  datatype EmployeeView = EmployeeView(id: Id, name: string, username: string, business: Id)

  /** The response of a hire and the tables after it. */
  datatype Hired = Hired(employee: EmployeeView, tables: Tables)

  const RequiredMessage: string := "Name, username and password are required"
  const ShortPassword: string := "Password must be at least 6 characters long"

  /** `toObject()` followed by `delete password`. */
  function WithoutPassword(e: Employee): (v: EmployeeView)
    ensures v.id == e.id && v.name == e.name && v.username == e.username && v.business == e.business
  {
    EmployeeView(e.id, e.name, e.username, e.business)
  }

  /** `.select('-password')` over a list of rows. */
  function Views(es: seq<Employee>): (vs: seq<EmployeeView>)
    ensures |vs| == |es|
    ensures forall i :: 0 <= i < |es| ==> vs[i] == WithoutPassword(es[i])
    decreases |es|
  {
    if es == [] then [] else [WithoutPassword(es[0])] + Views(es[1..])
  }

  /** GET: owners only; the employees whose business is the caller's, without passwords. */
  function List(p: Option<Principal>, t: Tables): (r: Response<seq<EmployeeView>>)
    ensures r.Err? <==> !IsOwner(p)
    ensures r.Err? ==> r == Err(401, Unauthorized)
    ensures r.Ok? ==> r.status == 200
    ensures r.Ok? ==> forall e :: e in t.employees && e.business == p.value.businessId ==>
      WithoutPassword(e) in r.body
    ensures r.Ok? ==> forall v :: v in r.body ==>
      exists e :: e in t.employees && e.business == p.value.businessId && v == WithoutPassword(e)
  {
    if !IsOwner(p) then Err(401, Unauthorized)
    else
      var mine := Filter(t.employees, (e: Employee) => e.business == p.value.businessId);
      var vs := Views(mine);
      assert forall e :: e in mine ==> WithoutPassword(e) in vs by {
        forall e | e in mine ensures WithoutPassword(e) in vs {
          var i :| 0 <= i < |mine| && mine[i] == e;
          assert vs[i] == WithoutPassword(e);
        }
      }
      assert forall v :: v in vs ==> exists e :: e in mine && v == WithoutPassword(e) by {
        forall v | v in vs ensures exists e :: e in mine && v == WithoutPassword(e) {
          var i :| 0 <= i < |vs| && vs[i] == v;
          assert mine[i] in mine;
        }
      }
      Ok(200, vs)
  }

  /** A username is taken when any business or any employee holds it. */
  predicate UsernameInUse(t: Tables, username: string) {
    (exists b :: b in t.businesses && b.username == username)
    || (exists e :: e in t.employees && e.username == username)
  }

  /** `Business.findByIdAndUpdate(id, { $push: { employees: employeeId } })`: appends to
      that business's list, and changes nothing when there is no such business. */
  function AddToBusiness(bs: seq<Business>, id: Id, employeeId: Id): (r: seq<Business>)
    ensures |r| == |bs|
    ensures BusinessById(bs, id).None? ==> r == bs
    ensures BusinessById(bs, id).Some? ==> var i := BusinessById(bs, id).value;
      r[i].employees == bs[i].employees + [employeeId]
      && r[i].(employees := bs[i].employees) == bs[i]
      && forall j :: 0 <= j < |bs| && j != i ==> r[j] == bs[j]
  {
    match BusinessById(bs, id)
    case None => bs
    case Some(i) => bs[i := bs[i].(employees := bs[i].employees + [employeeId])]
  }

  /** POST: owners only, then the three fields, then the password's length, then a
      username held by any business or employee, then saving (a duplicate key is 409).
      The new employee belongs to the caller's business and joins its employee list. */
  function Create(p: Option<Principal>, req: EmployeeRequest, t: Tables, freshId: Id, fault: Option<int>)
    : (r: Response<Hired>)
    ensures !IsOwner(p) ==> r == Err(401, Unauthorized)
    ensures IsOwner(p) && (req.name == "" || req.username == "" || req.password == "") ==>
      r == Err(400, RequiredMessage)
    ensures (IsOwner(p) && req.name != "" && req.username != "" && req.password != ""
      && |req.password| < MinPasswordLength) ==> r == Err(400, ShortPassword)
    ensures (IsOwner(p) && req.name != "" && req.username != "" && |req.password| >= MinPasswordLength
      && UsernameInUse(t, req.username)) ==> r == Err(409, UsernameTaken)
    ensures (IsOwner(p) && req.name != "" && req.username != "" && |req.password| >= MinPasswordLength
      && !UsernameInUse(t, req.username) && fault.Some?) ==> r == SaveFailure(fault.value, UsernameTaken)
    ensures r.Ok? <==>
      IsOwner(p) && req.name != "" && req.username != "" && |req.password| >= MinPasswordLength
      && !UsernameInUse(t, req.username) && fault.None?
    ensures r.Ok? ==> r.status == 201
    ensures r.Ok? ==> r.body.employee == EmployeeView(freshId, req.name, req.username, p.value.businessId)
    ensures r.Ok? ==> r.body.tables == Tables(
      AddToBusiness(t.businesses, p.value.businessId, freshId),
      t.employees + [Employee(freshId, req.name, req.username, req.password, p.value.businessId)],
      t.stores)
  {
    if !IsOwner(p) then Err(401, Unauthorized)
    else if req.name == "" || req.username == "" || req.password == "" then Err(400, RequiredMessage)
    else if |req.password| < MinPasswordLength then Err(400, ShortPassword)
    else if BusinessByUsername(t.businesses, req.username).Some?
         || EmployeeByUsername(t.employees, req.username).Some? then Err(409, UsernameTaken)
    else if fault.Some? then SaveFailure(fault.value, UsernameTaken)
    else
      var e := Employee(freshId, req.name, req.username, req.password, p.value.businessId);
      Ok(201, Hired(WithoutPassword(e),
        Tables(AddToBusiness(t.businesses, p.value.businessId, freshId), t.employees + [e], t.stores)))
  }

  /** After a hire the username is held by exactly one account: the new employee. */
  lemma HireOwnsUsername(p: Option<Principal>, req: EmployeeRequest, t: Tables, freshId: Id)
    requires Create(p, req, t, freshId, None).Ok?
    ensures var t' := Create(p, req, t, freshId, None).body.tables;
      (forall b :: b in t'.businesses ==> b.username != req.username)
      && (forall e :: e in t'.employees && e.username == req.username ==>
            e == Employee(freshId, req.name, req.username, req.password, p.value.businessId))
  {
    var t' := Create(p, req, t, freshId, None).body.tables;
    forall b | b in t'.businesses ensures b.username != req.username {
      var j :| 0 <= j < |t'.businesses| && t'.businesses[j] == b;
      assert t'.businesses[j].username == t.businesses[j].username;
    }
  }
}
