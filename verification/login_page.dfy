/** The sign-in page: one form that either signs an account in or registers a business,
    checking the password pair before it registers. */
module LoginPage {
  import opened Common
  import opened DashboardRanges
  import RegisterRoute

  /** The message shown when the call throws something that is not an Error. */
  const FallbackError: string := "Bir hata oluştu"

  /** The request the form hands to the session context, if any. */
  datatype Call =
    | NoCall
    | CallRegister(name: string, companyName: string, username: string, password: string)
    | CallLogin(username: string, password: string)

  /** How the awaited call ended: it returned, it threw an Error with a message, or it
      threw some other value. */
  datatype Outcome = Returned | ThrewError(message: string) | ThrewOther

  /** The check made before calling: none when signing in; when registering, the
      confirmation must match, and only then is the length looked at. */
  function FormCheck(isRegister: bool, password: string, confirmPassword: string): (r: Option<string>)
    ensures !isRegister ==> r.None?
    ensures isRegister && password != confirmPassword ==> r == Some(Mismatch)
    ensures isRegister && password == confirmPassword && |password| < MinPasswordLength ==> r == Some(TooShort)
    ensures r.None? <==> !isRegister || (password == confirmPassword && |password| >= MinPasswordLength)
  {
    if !isRegister then None
    else if password != confirmPassword then Some(Mismatch)
    else if |password| < MinPasswordLength then Some(TooShort)
    else None
  }

  /** Registering applies the same two rules, with the same messages, as the owner
      dashboard's new-employee form. */
  lemma SameRulesAsEmployeeForm(password: string, confirmPassword: string)
    ensures FormCheck(true, password, confirmPassword) == EmployeeFormError(false, password, confirmPassword)
  {
  }

  /** The call the form makes from its fields. */
  function CallFor(isRegister: bool, name: string, companyName: string, username: string,
                   password: string, confirmPassword: string): (c: Call)
    ensures c.NoCall? <==> FormCheck(isRegister, password, confirmPassword).Some?
    ensures c.CallLogin? <==> !isRegister
    ensures c.CallLogin? ==> c == CallLogin(username, password)
    ensures c.CallRegister? ==> c == CallRegister(name, companyName, username, password)
  {
    if FormCheck(isRegister, password, confirmPassword).Some? then NoCall
    else if isRegister then CallRegister(name, companyName, username, password)
    else CallLogin(username, password)
  }

  /** A registration the form lets through is never refused by the register route for its
      length, whatever else the route finds (the session context is assumed to forward the
      company name, username and password unchanged). */
  lemma RegisterPassesRouteLength(name: string, companyName: string, username: string,
                                  password: string, confirmPassword: string,
                                  t: Records.Tables, freshId: Records.Id, fault: Option<int>)
    requires CallFor(true, name, companyName, username, password, confirmPassword).CallRegister?
    ensures RegisterRoute.Register(RegisterRoute.RegisterRequest(companyName, username, password), t, freshId, fault)
      != Err(400, RegisterRoute.ShortPassword)
  {
  }

  /** The page's form state. */
  class LoginForm {
    var isRegister: bool
    var name: string
    var companyName: string
    var username: string
    var password: string
    var confirmPassword: string
    var error: string
    var loading: bool
    /** Whether the page has moved on to the dashboard. */
    var openedDashboard: bool

    /** Every text field of the form is empty. */
    predicate Cleared()
      reads this
    {
      name == "" && companyName == "" && username == "" && password == "" && confirmPassword == ""
    }

    constructor ()
      ensures !isRegister && Cleared() && error == "" && !loading && !openedDashboard
    {
      isRegister := false;
      name, companyName, username, password, confirmPassword := "", "", "", "", "";
      error := "";
      loading := false;
      openedDashboard := false;
    }

    /** `handleSubmit`: clears the error, makes the check, then the call, and records how
        it ended; the fields and the mode stay as they were. */
    method Submit(outcome: Outcome) returns (call: Call)
      modifies this
      ensures call == CallFor(old(isRegister), old(name), old(companyName), old(username), old(password),
                              old(confirmPassword))
      ensures call.NoCall? ==>
        error == FormCheck(old(isRegister), old(password), old(confirmPassword)).value
        && openedDashboard == old(openedDashboard)
      ensures !call.NoCall? && outcome.Returned? ==> error == "" && openedDashboard
      ensures !call.NoCall? && outcome.ThrewError? ==> error == outcome.message && openedDashboard == old(openedDashboard)
      ensures !call.NoCall? && outcome.ThrewOther? ==> error == FallbackError && openedDashboard == old(openedDashboard)
      ensures !loading
      ensures isRegister == old(isRegister) && name == old(name) && companyName == old(companyName)
      ensures username == old(username) && password == old(password) && confirmPassword == old(confirmPassword)
    {
      error := "";
      loading := true;
      if isRegister {
        if password != confirmPassword {
          error := Mismatch;
          loading := false;
          return NoCall;
        }
        if |password| < MinPasswordLength {
          error := TooShort;
          loading := false;
          return NoCall;
        }
        call := CallRegister(name, companyName, username, password);
      } else {
        call := CallLogin(username, password);
      }
      match outcome {
        case Returned => openedDashboard := true;
        case ThrewError(message) => error := message;
        case ThrewOther => error := FallbackError;
      }
      loading := false;
    }

    /** The link under the form: switches mode and empties every field and the error. */
    method ToggleMode()
      modifies this
      ensures isRegister == !old(isRegister)
      ensures Cleared() && error == ""
      ensures loading == old(loading) && openedDashboard == old(openedDashboard)
    {
      isRegister := !isRegister;
      error := "";
      name, companyName, username, password, confirmPassword := "", "", "", "", "";
    }
  }

  /** Right after switching to registration the form cannot register: the empty password
      is too short. */
  lemma FreshRegisterFormRefused()
    ensures CallFor(true, "", "", "", "", "") == NoCall
    ensures FormCheck(true, "", "") == Some(TooShort)
  {
  }
}
