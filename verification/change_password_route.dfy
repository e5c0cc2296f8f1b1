/** `/api/auth/change-password`: an owner replaces its own password. */
module ChangePasswordRoute {
  import opened Common
  import opened Records

  datatype PasswordChange = PasswordChange(currentPassword: string, newPassword: string)

  const RequiredMessage: string := "Current password and new password are required"
  const ShortPassword: string := "New password must be at least 6 characters long"
  const NotFound: string := "Business not found"
  const WrongPassword: string := "Current password is incorrect"

  /** `business.comparePassword(candidate)`: owners' passwords are compared as plain text. */
  predicate BusinessPasswordMatches(b: Business, candidate: string) {
    candidate == b.password
  }

  /** PUT: owners only, then both fields, then the new password's length (before any
      lookup), then the caller's business, then its current password. On success the
      tables change only in that business's password. */
  function ChangePassword(p: Option<Principal>, req: PasswordChange, t: Tables, fault: Option<int>)
    : (r: Response<Tables>)
    ensures !IsOwner(p) ==> r == Err(401, Unauthorized)
    ensures IsOwner(p) && (req.currentPassword == "" || req.newPassword == "") ==> r == Err(400, RequiredMessage)
    ensures (IsOwner(p) && req.currentPassword != "" && req.newPassword != ""
      && |req.newPassword| < MinPasswordLength) ==> r == Err(400, ShortPassword)
    ensures r == Err(404, NotFound) <==>
      IsOwner(p) && req.currentPassword != "" && |req.newPassword| >= MinPasswordLength
      && forall b :: b in t.businesses ==> b.id != p.value.businessId
    ensures r == Err(400, WrongPassword) <==>
      IsOwner(p) && req.currentPassword != "" && |req.newPassword| >= MinPasswordLength
      && var i := BusinessById(t.businesses, p.value.businessId);
      i.Some? && !BusinessPasswordMatches(t.businesses[i.value], req.currentPassword)
    ensures r.Ok? <==>
      IsOwner(p) && req.currentPassword != "" && |req.newPassword| >= MinPasswordLength
      && var i := BusinessById(t.businesses, p.value.businessId);
      i.Some? && BusinessPasswordMatches(t.businesses[i.value], req.currentPassword) && fault.None?
    ensures r == Err(500, InternalError) <==>
      IsOwner(p) && req.currentPassword != "" && |req.newPassword| >= MinPasswordLength
      && var i := BusinessById(t.businesses, p.value.businessId);
      i.Some? && BusinessPasswordMatches(t.businesses[i.value], req.currentPassword) && fault.Some?
    ensures r.Ok? ==> r.status == 200
    ensures r.Err? && r.status == 500 ==> r == Err(500, InternalError) && fault.Some?
    ensures r.Ok? ==>
      var i := BusinessById(t.businesses, p.value.businessId);
      i.Some? && BusinessPasswordMatches(t.businesses[i.value], req.currentPassword)
      && r.body == t.(businesses := t.businesses[i.value := t.businesses[i.value].(password := req.newPassword)])
  {
    if !IsOwner(p) then Err(401, Unauthorized)
    else if req.currentPassword == "" || req.newPassword == "" then Err(400, RequiredMessage)
    else if |req.newPassword| < MinPasswordLength then Err(400, ShortPassword)
    else match BusinessById(t.businesses, p.value.businessId)
      case None => Err(404, NotFound)
      case Some(i) =>
        var b := t.businesses[i];
        if !BusinessPasswordMatches(b, req.currentPassword) then Err(400, WrongPassword)
        else if fault.Some? then Err(500, InternalError)
        else Ok(200, t.(businesses := t.businesses[i := b.(password := req.newPassword)]))
  }

  /** After a change the business accepts the new password, and refuses the old one
      unless the two are equal; its other fields and every other row are untouched. */
  lemma NewPasswordVerifies(p: Option<Principal>, req: PasswordChange, t: Tables)
    requires ChangePassword(p, req, t, None).Ok?
    ensures var t' := ChangePassword(p, req, t, None).body;
      var i := BusinessById(t.businesses, p.value.businessId).value;
      |t'.businesses| == |t.businesses| && t'.employees == t.employees && t'.stores == t.stores
      && BusinessPasswordMatches(t'.businesses[i], req.newPassword)
      && (req.currentPassword != req.newPassword ==> !BusinessPasswordMatches(t'.businesses[i], req.currentPassword))
      && t'.businesses[i].(password := t.businesses[i].password) == t.businesses[i]
      && forall j :: 0 <= j < |t.businesses| && j != i ==> t'.businesses[j] == t.businesses[j]
  {
  }
}
