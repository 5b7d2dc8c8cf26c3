/** The per-request gate in front of every route (`handle` in
    src/hooks.server.js): it reads the token cookies, asks the identity store
    for a session and a profile role, signs out a privileged user who reaches
    the admin area without the biometric marker, and redirects by path
    prefix and role.  The decision is the pure function `Decide`; the class
    `RequestEvent` runs the handler step by step over the request's cookie
    jar, its `locals` and its response headers. */
module RequestGate {
  import opened Common
  import opened Text

  const AccessTokenCookie := "sb-access-token"
  const RefreshTokenCookie := "sb-refresh-token"
  const BiometricCookie := "biometric-verified"

  const EntryPath := "/"
  const AdminPrefix := "/admin"
  const EmployeePrefix := "/employee"
  const AdminDashboard := "/admin/dashboard"
  const EmployeeDashboard := "/employee/dashboard"

  /** A session established from the two tokens. */
  datatype Session = Session(userId: string)

  /** The identity store's answers: `auth.setSession` from the access and
      refresh tokens (None: no session), the `role` column of the user's
      profile (None: no row, a null role or a failed query), and the
      `route_path` values of the admin's permission rows (None: the query
      returned no data). */
  datatype IdentityStore = IdentityStore(
    setSession: (string, string) -> Option<Session>,
    profileRole: string -> Option<string>,
    routePaths: string -> Option<seq<string>>)

  /** One query the handler sends to the identity store. */
  datatype StoreCall = SetSession(accessToken: string, refreshToken: string)
                     | ProfileRole(userId: string)
                     | RoutePaths(adminId: string)

  /** How the handler ends: the request passes to `resolve`, a 303
      redirect, or both token cookies deleted and a 303 redirect to `/`. */
  datatype Decision = Pass | Redirect(location: string) | SignOut

  /** What the client receives. */
  datatype Response = Resolved | SeeOther(location: string)

  function CookieValue(jar: map<string, string>, name: string): Option<string> {
    if name in jar then Some(jar[name]) else None
  }

  /** JavaScript truthiness of a string that may be missing. */
  predicate Truthy(v: Option<string>) {
    v.Some? && v.value != ""
  }

  predicate HasTokens(jar: map<string, string>) {
    Truthy(CookieValue(jar, AccessTokenCookie)) && Truthy(CookieValue(jar, RefreshTokenCookie))
  }

  predicate BiometricVerified(jar: map<string, string>) {
    CookieValue(jar, BiometricCookie) == Some("true")
  }

  predicate IsPrivileged(role: Option<string>) {
    role == Some("admin") || role == Some("superadmin")
  }

  predicate IsProtected(path: string) {
    StartsWith(path, AdminPrefix) || StartsWith(path, EmployeePrefix)
  }

  /** `event.locals.session`: asked of the store only when both tokens are present. */
  function ResolveSession(jar: map<string, string>, store: IdentityStore): Option<Session> {
    if HasTokens(jar) then store.setSession(jar[AccessTokenCookie], jar[RefreshTokenCookie]) else None
  }

  /** The profile role, looked up only for an established session. */
  function ResolveRole(session: Option<Session>, store: IdentityStore): Option<string> {
    if session.Some? then store.profileRole(session.value.userId) else None
  }

  /** The admin's allow-list; no data counts as an empty list. */
  function AllowedPaths(store: IdentityStore, adminId: string): seq<string> {
    store.routePaths(adminId).GetOr([])
  }

  /** The role checks, reached only with a session and a truthy role. */
  function RoleCheck(path: string, session: Session, role: string, verified: bool, store: IdentityStore): Decision {
    if path == EntryPath && (role == "superadmin" || role == "admin") && verified then Redirect(AdminDashboard)
    else if path == EntryPath && role == "employee" then Redirect(EmployeeDashboard)
    else if StartsWith(path, AdminPrefix) && role != "superadmin" && role != "admin" then Redirect(EmployeeDashboard)
    else if StartsWith(path, AdminPrefix) && role == "admin"
            && path != AdminDashboard && path !in AllowedPaths(store, session.userId) then Redirect(AdminDashboard)
    else if StartsWith(path, EmployeePrefix) && role != "employee" then Redirect(AdminDashboard)
    else Pass
  }

  /** The outcome of the handler for one request. */
  function Decide(path: string, jar: map<string, string>, store: IdentityStore): Decision {
    var session := ResolveSession(jar, store);
    var role := ResolveRole(session, store);
    if session.Some? && IsPrivileged(role) && StartsWith(path, AdminPrefix) && !BiometricVerified(jar) then SignOut
    else if IsProtected(path) && session.None? then Redirect(EntryPath)
    else if session.Some? && Truthy(role) then RoleCheck(path, session.value, role.value, BiometricVerified(jar), store)
    else Pass
  }

  /** The queries the handler sends to the store, in order. */
  function StoreCalls(path: string, jar: map<string, string>, store: IdentityStore): seq<StoreCall> {
    var session := ResolveSession(jar, store);
    var role := ResolveRole(session, store);
    (if HasTokens(jar) then [SetSession(jar[AccessTokenCookie], jar[RefreshTokenCookie])] else [])
    + (if session.Some? then [ProfileRole(session.value.userId)] else [])
    + (if Decide(path, jar, store) != SignOut && session.Some? && role == Some("admin") && StartsWith(path, AdminPrefix)
       then [RoutePaths(session.value.userId)] else [])
  }

  function ResponseOf(d: Decision): Response {
    match d
    case Pass => Resolved
    case Redirect(location) => SeeOther(location)
    case SignOut => SeeOther(EntryPath)
  }

  /** One request as the handler sees it: the path, the cookie jar (what the
      browser holds once the response is applied), `locals.session`,
      `locals.userRole`, whether the no-store headers were set, and the
      queries sent to the identity store. */
  class RequestEvent {
    const path: string
    var cookies: map<string, string>
    var session: Option<Session>
    var userRole: Option<string>
    var noStoreHeaders: bool
    var calls: seq<StoreCall>

    constructor (path: string, cookies: map<string, string>)
      ensures this.path == path && this.cookies == cookies
      ensures session == None && userRole == None && !noStoreHeaders && calls == []
    {
      this.path := path;
      this.cookies := cookies;
      session := None;
      userRole := None;
      noStoreHeaders := false;
      calls := [];
    }

    /** The first part of `handle`: reads the token cookies, asks the store
        for a session and its role, and signs out a privileged user in the
        admin area without the biometric marker. */
    method EstablishSession(store: IdentityStore) returns (signedOut: bool)
      modifies this
      ensures session == ResolveSession(old(cookies), store)
      ensures userRole == if session.Some? then store.profileRole(session.value.userId) else old(userRole)
      ensures signedOut <==> session.Some? && IsPrivileged(userRole) && StartsWith(path, AdminPrefix)
                             && !BiometricVerified(old(cookies))
      ensures cookies == if signedOut then old(cookies) - {AccessTokenCookie, RefreshTokenCookie} else old(cookies)
      ensures calls == old(calls)
                       + (if HasTokens(old(cookies))
                          then [SetSession(old(cookies)[AccessTokenCookie], old(cookies)[RefreshTokenCookie])]
                          else [])
                       + (if session.Some? then [ProfileRole(session.value.userId)] else [])
      ensures noStoreHeaders == old(noStoreHeaders)
    {
      var accessToken := CookieValue(cookies, AccessTokenCookie);
      var refreshToken := CookieValue(cookies, RefreshTokenCookie);
      var biometricVerified := CookieValue(cookies, BiometricCookie);
      signedOut := false;

      if Truthy(accessToken) && Truthy(refreshToken) {
        calls := calls + [SetSession(accessToken.value, refreshToken.value)];
        session := store.setSession(accessToken.value, refreshToken.value);
        if session.Some? {
          calls := calls + [ProfileRole(session.value.userId)];
          var role := store.profileRole(session.value.userId);
          userRole := role;
          if (role == Some("admin") || role == Some("superadmin"))
             && StartsWith(path, AdminPrefix) && biometricVerified != Some("true") {
            cookies := cookies - {AccessTokenCookie, RefreshTokenCookie};
            signedOut := true;
          }
        }
      } else {
        session := None;
      }
    }

    /** `handle`: runs the checks in source order and stops at the first redirect. */
    method Handle(store: IdentityStore) returns (response: Response)
      modifies this
      ensures response == ResponseOf(Decide(path, old(cookies), store))
      ensures cookies == if Decide(path, old(cookies), store) == SignOut
                         then old(cookies) - {AccessTokenCookie, RefreshTokenCookie}
                         else old(cookies)
      ensures session == ResolveSession(old(cookies), store)
      ensures userRole == if session.Some? then store.profileRole(session.value.userId) else old(userRole)
      ensures noStoreHeaders == (old(noStoreHeaders) || (IsProtected(path) && Decide(path, old(cookies), store) != SignOut))
      ensures calls == old(calls) + StoreCalls(path, old(cookies), store)
    {
      var signedOut := EstablishSession(store);
      if signedOut {
        return SeeOther(EntryPath);
      }
      var biometricVerified := CookieValue(cookies, BiometricCookie);

      if StartsWith(path, AdminPrefix) || StartsWith(path, EmployeePrefix) {
        noStoreHeaders := true;
      }

      if StartsWith(path, AdminPrefix) || StartsWith(path, EmployeePrefix) {
        if session.None? {
          return SeeOther(EntryPath);
        }
      }

      if session.Some? && Truthy(userRole) {
        var role := userRole.value;
        if path == EntryPath {
          if role == "superadmin" || role == "admin" {
            if biometricVerified == Some("true") {
              return SeeOther(AdminDashboard);
            }
          } else if role == "employee" {
            return SeeOther(EmployeeDashboard);
          }
        }

        if StartsWith(path, AdminPrefix) {
          if role != "superadmin" && role != "admin" {
            return SeeOther(EmployeeDashboard);
          }
          if role == "admin" {
            calls := calls + [RoutePaths(session.value.userId)];
            var allowedPaths := store.routePaths(session.value.userId).GetOr([]);
            if path != AdminDashboard && path !in allowedPaths {
              return SeeOther(AdminDashboard);
            }
          }
        }

        if StartsWith(path, EmployeePrefix) {
          if role != "employee" {
            return SeeOther(AdminDashboard);
          }
        }
      }

      return Resolved;
    }
  }

  // ---------------------------------------------------------------------
  // Properties of the gate

  /** No path is under both areas, and the entry page is under neither. */
  lemma AreasDisjoint(path: string)
    ensures StartsWith(path, AdminPrefix) ==> !StartsWith(path, EmployeePrefix)
    ensures path == EntryPath ==> !IsProtected(path)
  {
    if StartsWith(path, AdminPrefix) {
      assert path[1] == path[..|AdminPrefix|][1] == 'a';
    }
  }

  /** The store is asked for a session exactly when both token cookies are
      present (and non-empty); without them there is no session. */
  lemma SessionNeedsBothTokens(path: string, jar: map<string, string>, store: IdentityStore)
    ensures (exists a, r :: SetSession(a, r) in StoreCalls(path, jar, store)) <==> HasTokens(jar)
    ensures !HasTokens(jar) ==> ResolveSession(jar, store) == None
  {
    var calls := StoreCalls(path, jar, store);
    if HasTokens(jar) {
      assert calls[0] == SetSession(jar[AccessTokenCookie], jar[RefreshTokenCookie]);
    }
  }

  /** A privileged user on an admin path without `biometric-verified=true`
      is signed out, whatever else holds; and this is the only way to be
      signed out. */
  lemma BiometricSignOut(path: string, jar: map<string, string>, store: IdentityStore)
    ensures Decide(path, jar, store) == SignOut <==>
      (ResolveSession(jar, store).Some?
       && IsPrivileged(ResolveRole(ResolveSession(jar, store), store))
       && StartsWith(path, AdminPrefix)
       && !BiometricVerified(jar))
  {
  }

  /** Without a session, a protected path always redirects to the entry page. */
  lemma ProtectedNeedsSession(path: string, jar: map<string, string>, store: IdentityStore)
    requires IsProtected(path) && ResolveSession(jar, store).None?
    ensures Decide(path, jar, store) == Redirect(EntryPath)
  {
  }

  /** A signed-in user with a role on the entry page goes to their dashboard,
      except a privileged user without the biometric marker, who stays. */
  lemma EntryPageRedirect(jar: map<string, string>, store: IdentityStore)
    requires ResolveSession(jar, store).Some?
    requires Truthy(ResolveRole(ResolveSession(jar, store), store))
    ensures var role := ResolveRole(ResolveSession(jar, store), store);
      Decide(EntryPath, jar, store) ==
        if IsPrivileged(role) && BiometricVerified(jar) then Redirect(AdminDashboard)
        else if role == Some("employee") then Redirect(EmployeeDashboard)
        else Pass
  {
  }

  /** Role mismatches send the user to their own dashboard. */
  lemma RoleMismatchRedirects(path: string, jar: map<string, string>, store: IdentityStore)
    requires ResolveSession(jar, store).Some?
    requires var role := ResolveRole(ResolveSession(jar, store), store); Truthy(role)
    ensures var role := ResolveRole(ResolveSession(jar, store), store);
      (StartsWith(path, AdminPrefix) && !IsPrivileged(role) ==> Decide(path, jar, store) == Redirect(EmployeeDashboard))
      && (StartsWith(path, EmployeePrefix) && role != Some("employee") ==> Decide(path, jar, store) == Redirect(AdminDashboard))
  {
    AreasDisjoint(path);
  }

  /** A verified `admin` on an admin path passes exactly when the path is the
      dashboard or an exact member of the allow-list; a verified
      `superadmin` always passes. */
  lemma AdminAllowList(path: string, jar: map<string, string>, store: IdentityStore)
    requires StartsWith(path, AdminPrefix) && BiometricVerified(jar)
    requires ResolveSession(jar, store).Some?
    ensures var session := ResolveSession(jar, store);
      var role := ResolveRole(session, store);
      (role == Some("admin") ==>
         Decide(path, jar, store) ==
           if path == AdminDashboard || path in AllowedPaths(store, session.value.userId) then Pass
           else Redirect(AdminDashboard))
      && (role == Some("superadmin") ==> Decide(path, jar, store) == Pass)
  {
    AreasDisjoint(path);
  }

  /** With a session but no (or an empty) role, no role check runs: every
      request passes, admin and employee paths included. */
  lemma MissingRolePasses(path: string, jar: map<string, string>, store: IdentityStore)
    requires ResolveSession(jar, store).Some?
    requires !Truthy(ResolveRole(ResolveSession(jar, store), store))
    ensures Decide(path, jar, store) == Pass
  {
  }

  /** Who reaches the admin area: a request on an admin path passes only with
      a session, and then either the role is missing, or it is a verified
      `superadmin`, or a verified `admin` whose path is the dashboard or on
      the allow-list.  An `employee` never does. */
  lemma AdminAreaReach(path: string, jar: map<string, string>, store: IdentityStore)
    requires StartsWith(path, AdminPrefix) && Decide(path, jar, store) == Pass
    ensures var session := ResolveSession(jar, store);
      var role := ResolveRole(session, store);
      session.Some?
      && (!Truthy(role)
          || (role == Some("superadmin") && BiometricVerified(jar))
          || (role == Some("admin") && BiometricVerified(jar)
              && (path == AdminDashboard || path in AllowedPaths(store, session.value.userId))))
  {
    assert path != EntryPath;
  }

  /** Who reaches the employee area: a session with the `employee` role, or a
      session without a role. */
  lemma EmployeeAreaReach(path: string, jar: map<string, string>, store: IdentityStore)
    requires StartsWith(path, EmployeePrefix) && Decide(path, jar, store) == Pass
    ensures var role := ResolveRole(ResolveSession(jar, store), store);
      ResolveSession(jar, store).Some? && (!Truthy(role) || role == Some("employee"))
  {
    AreasDisjoint(path);
  }

  /** The admin's allow-list is fetched only for an `admin` on an admin path
      who was not signed out. */
  lemma AllowListFetchedOnlyForAdmins(path: string, jar: map<string, string>, store: IdentityStore, id: string)
    requires RoutePaths(id) in StoreCalls(path, jar, store)
    ensures ResolveRole(ResolveSession(jar, store), store) == Some("admin")
    ensures StartsWith(path, AdminPrefix) && BiometricVerified(jar)
  {
  }

  /** A passing request keeps every cookie and gets the no-store headers
      exactly on protected paths. */
  method HandlePassKeepsCookies(path: string, jar: map<string, string>, store: IdentityStore)
    returns (response: Response, cookies: map<string, string>, noStore: bool)
    ensures response == Resolved ==> cookies == jar && noStore == IsProtected(path)
    ensures response == Resolved <==> Decide(path, jar, store) == Pass
  {
    var event := new RequestEvent(path, jar);
    response := event.Handle(store);
    cookies := event.cookies;
    noStore := event.noStoreHeaders;
  }
}
