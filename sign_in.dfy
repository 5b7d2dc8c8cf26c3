/** The sign-in form action (`actions.signin` in src/routes/+page.server.js):
    checks that both fields are filled, authenticates with the password,
    looks up the profile role and sends the user to the dashboard of that
    role.  The action holds no state; the identity store is passed in. */
module SignIn {
  import opened Common
  import opened Text

  const AdminDashboard := "/admin/dashboard"
  const EmployeeDashboard := "/employee/dashboard"

  const MissingFields := "Email and password are required"
  const RoleLookupFailed := "Failed to fetch user role"
  const InvalidRole := "Invalid user role"

  /** `auth.signInWithPassword`: the signed-in user, or the store's error message. */
  datatype AuthResult = Authenticated(userId: string) | AuthError(message: string)

  /** The profile query: an error, no row, or the row's `role` (which may be null). */
  datatype ProfileResult = ProfileError | NoProfile | Profile(role: Option<string>)

  /** `fail(status, { error })` or a thrown `redirect(status, location)`. */
  datatype Outcome = Fail(status: int, error: string) | Redirect(status: int, location: string)

  /** The dashboard of a role, if it has one. */
  function DashboardOf(role: Option<string>): Option<string> {
    match role
    case Some("superadmin") => Some(AdminDashboard)
    case Some("admin") => Some(AdminDashboard)
    case Some("employee") => Some(EmployeeDashboard)
    case _ => None
  }

  /** The action, given the form's `username` and `password` fields. */
  function SignIn(
    username: Option<string>,
    password: Option<string>,
    authenticate: (string, string) -> AuthResult,
    profileOf: string -> ProfileResult): Outcome
  {
    var email := if username.Some? then Some(Trim(username.value)) else None;
    if email.None? || email.value == "" || password.None? || password.value == "" then
      Fail(400, MissingFields)
    else
      Authorize(email.value, password.value, authenticate, profileOf)
  }

  /** The action once both fields are filled: authenticate, look up the
      role, redirect to its dashboard. */
  function Authorize(email: string, password: string,
                     authenticate: (string, string) -> AuthResult,
                     profileOf: string -> ProfileResult): Outcome
  {
    match authenticate(email, password)
    case AuthError(message) => Fail(400, message)
    case Authenticated(userId) =>
      match profileOf(userId)
      case ProfileError => Fail(400, RoleLookupFailed)
      case NoProfile => Fail(400, RoleLookupFailed)
      case Profile(role) =>
        match DashboardOf(role)
        case Some(location) => Redirect(303, location)
        case None => Fail(400, InvalidRole)
  }

  /** A blank email (after trimming) or an empty password fails with 400
      before the store is asked anything: the outcome is the same for every
      store. */
  lemma BlankFieldsFailEarly(
    username: Option<string>, password: Option<string>,
    auth1: (string, string) -> AuthResult, profile1: string -> ProfileResult,
    auth2: (string, string) -> AuthResult, profile2: string -> ProfileResult)
    requires username.None? || Trim(username.value) == [] || password.None? || password.value == []
    ensures SignIn(username, password, auth1, profile1) == Fail(400, MissingFields)
    ensures SignIn(username, password, auth1, profile1) == SignIn(username, password, auth2, profile2)
  {
  }

  /** The email is trimmed before it reaches the store; the password is not. */
  lemma EmailTrimmedPasswordNot(username: string, password: string,
                                authenticate: (string, string) -> AuthResult,
                                profileOf: string -> ProfileResult)
    requires Trim(username) != [] && password != []
    ensures SignIn(Some(username), Some(password), authenticate, profileOf)
            == SignIn(Some(Trim(username)), Some(password), authenticate, profileOf)
  {
    TrimIdempotent(username);
  }

  /** Every failure of the action is a 400; every success a 303 redirect to
      a dashboard, reached only through a role that has one. */
  lemma OutcomeShapes(username: Option<string>, password: Option<string>,
                      authenticate: (string, string) -> AuthResult,
                      profileOf: string -> ProfileResult)
    ensures SignIn(username, password, authenticate, profileOf).Fail? ==>
              SignIn(username, password, authenticate, profileOf).status == 400
    ensures SignIn(username, password, authenticate, profileOf).Redirect? ==>
              && SignIn(username, password, authenticate, profileOf).status == 303
              && SignIn(username, password, authenticate, profileOf).location in {AdminDashboard, EmployeeDashboard}
  {
    if username.Some? && Trim(username.value) != [] && password.Some? && password.value != [] {
      AuthorizeShapes(Trim(username.value), password.value, authenticate, profileOf);
    }
  }

  lemma AuthorizeShapes(email: string, password: string,
                        authenticate: (string, string) -> AuthResult,
                        profileOf: string -> ProfileResult)
    ensures Authorize(email, password, authenticate, profileOf).Fail? ==>
              Authorize(email, password, authenticate, profileOf).status == 400
    ensures Authorize(email, password, authenticate, profileOf).Redirect? ==>
              && Authorize(email, password, authenticate, profileOf).status == 303
              && Authorize(email, password, authenticate, profileOf).location in {AdminDashboard, EmployeeDashboard}
  {
  }

  /** With valid fields and an authenticated user: a failed role lookup or a
      missing profile gives "Failed to fetch user role"; `superadmin` and
      `admin` go to the admin dashboard, `employee` to the employee
      dashboard, and every other role (null included) fails with
      "Invalid user role". */
  lemma RoleDispatch(email: string, password: string, userId: string,
                     authenticate: (string, string) -> AuthResult,
                     profileOf: string -> ProfileResult)
    requires Trim(email) != [] && password != []
    requires authenticate(Trim(email), password) == Authenticated(userId)
    ensures var outcome := SignIn(Some(email), Some(password), authenticate, profileOf);
      match profileOf(userId)
      case ProfileError => outcome == Fail(400, RoleLookupFailed)
      case NoProfile => outcome == Fail(400, RoleLookupFailed)
      case Profile(role) =>
        if role == Some("superadmin") || role == Some("admin") then outcome == Redirect(303, AdminDashboard)
        else if role == Some("employee") then outcome == Redirect(303, EmployeeDashboard)
        else outcome == Fail(400, InvalidRole)
  {
    var outcome := SignIn(Some(email), Some(password), authenticate, profileOf);
    assert outcome == Authorize(Trim(email), password, authenticate, profileOf);
    match profileOf(userId)
    case ProfileError =>
    case NoProfile =>
    case Profile(role) => DashboardRoles(role);
  }

  /** Which roles have a dashboard, and which one. */
  lemma DashboardRoles(role: Option<string>)
    ensures DashboardOf(role) ==
      if role == Some("superadmin") || role == Some("admin") then Some(AdminDashboard)
      else if role == Some("employee") then Some(EmployeeDashboard)
      else None
  {
  }

  /** An authentication error is reported with the store's own message. */
  lemma AuthErrorReported(email: string, password: string, message: string,
                          authenticate: (string, string) -> AuthResult,
                          profileOf: string -> ProfileResult)
    requires Trim(email) != [] && password != []
    requires authenticate(Trim(email), password) == AuthError(message)
    ensures SignIn(Some(email), Some(password), authenticate, profileOf) == Fail(400, message)
  {
  }
}
