/**
 * The two route guards: ProtectedRoute (src/components/ProtectedRoute.js),
 * the authentication and first-login gate, and RoleRoute
 * (src/components/RoleRoute.js), the exact role-match gate. Each is a pure
 * decision over a snapshot of the store and the requested pathname.
 */
module Gates {
  import opened JsStrings
  import opened TokenInspector
  import opened Auth

  /** Render the nested routes (`<Outlet />`) or `<Navigate to=path replace />`. */
  datatype Decision = Allow | RedirectTo(path: string)

  // Written as "/" + name, as LoginPath is (see there).
  const ForceChangePasswordPath := "/" + "force-change-password"
  const DashboardPath := "/" + "dashboard"
  const UnauthorizedPath := "/" + "unauthorized"

  /** The three checks of ProtectedRoute, in their fixed order: not
      authenticated, first login away from the password page, password
      already changed but on the password page. */
  function ProtectedRoute(items: map<string, string>, rt: Runtime, pathname: string): (d: Decision)
    ensures d == Allow <==>
      IsAuthenticated(items, rt) && (IsFirstLogin(items) <==> pathname == ForceChangePasswordPath)
    ensures d.RedirectTo? ==> d.path in {LoginPath, ForceChangePasswordPath, DashboardPath}
  {
    if !IsAuthenticated(items, rt) then RedirectTo(LoginPath)
    else if IsFirstLogin(items) && pathname != ForceChangePasswordPath then RedirectTo(ForceChangePasswordPath)
    else if !IsFirstLogin(items) && pathname == ForceChangePasswordPath then RedirectTo(DashboardPath)
    else Allow
  }

  /** An unauthenticated session goes to the login page whatever the path
      and whatever the first-login flag: authentication is checked first. */
  lemma {:induction false} UnauthenticatedGoesToLogin(items: map<string, string>, rt: Runtime, pathname: string)
    requires !IsAuthenticated(items, rt)
    ensures ProtectedRoute(items, rt, pathname) == RedirectTo(LoginPath)
  {
  }

  /** The first-login trap: every other path leads to the password page, and
      the password page itself is allowed. */
  lemma {:induction false} FirstLoginTrap(items: map<string, string>, rt: Runtime, pathname: string)
    requires IsAuthenticated(items, rt) && IsFirstLogin(items)
    ensures pathname != ForceChangePasswordPath ==>
      ProtectedRoute(items, rt, pathname) == RedirectTo(ForceChangePasswordPath)
    ensures pathname == ForceChangePasswordPath ==> ProtectedRoute(items, rt, pathname) == Allow
  {
  }

  /** The reverse trap: with the password changed, the password page leads
      to the dashboard, and every other path is allowed. */
  lemma {:induction false} ReverseTrap(items: map<string, string>, rt: Runtime, pathname: string)
    requires IsAuthenticated(items, rt) && !IsFirstLogin(items)
    ensures pathname == ForceChangePasswordPath ==>
      ProtectedRoute(items, rt, pathname) == RedirectTo(DashboardPath)
    ensures pathname != ForceChangePasswordPath ==> ProtectedRoute(items, rt, pathname) == Allow
  {
  }

  /** A redirect never points back at the requested path (the login page
      itself is never behind this gate). */
  lemma {:induction false} ProtectedRedirectLeavesPath(items: map<string, string>, rt: Runtime, pathname: string)
    requires pathname != LoginPath
    requires ProtectedRoute(items, rt, pathname).RedirectTo?
    ensures ProtectedRoute(items, rt, pathname).path != pathname
  {
  }

  /** For an authenticated session one redirect is enough: the gate allows
      the path it redirected to. */
  lemma {:induction false} ProtectedRouteOneHop(items: map<string, string>, rt: Runtime, pathname: string)
    requires IsAuthenticated(items, rt)
    requires ProtectedRoute(items, rt, pathname).RedirectTo?
    ensures ProtectedRoute(items, rt, ProtectedRoute(items, rt, pathname).path) == Allow
  {
  }

  /** ProtectedRoute never reads the role: setting or removing it changes
      nothing. */
  lemma {:induction false} ProtectedRouteIgnoresRole(items: map<string, string>, rt: Runtime, pathname: string, role: string)
    ensures ProtectedRoute(items[RoleKey := role], rt, pathname) == ProtectedRoute(items, rt, pathname)
    ensures ProtectedRoute(items - {RoleKey}, rt, pathname) == ProtectedRoute(items, rt, pathname)
  {
    assert IsFirstLogin(items[RoleKey := role]) == IsFirstLogin(items);
    assert IsFirstLogin(items - {RoleKey}) == IsFirstLogin(items);
    AuthenticationReadsOnlyToken(items, RoleKey, role, rt);
  }

  /** RoleRoute: allow exactly when the stored role is the required one,
      character for character; otherwise go to the unauthorized page. */
  function RoleRoute(items: map<string, string>, role: string): (d: Decision)
    ensures d == Allow <==> RoleKey in items && items[RoleKey] == role
    ensures d != Allow ==> d == RedirectTo(UnauthorizedPath)
  {
    if GetRole(items) == Some(role) then Allow else RedirectTo(UnauthorizedPath)
  }

  /** With no stored role, every role gate redirects. */
  lemma {:induction false} AbsentRoleNeverMatches(items: map<string, string>, role: string)
    requires RoleKey !in items
    ensures RoleRoute(items, role) == RedirectTo(UnauthorizedPath)
  {
  }

  /** RoleRoute reads the role key only: not the token, not the flag. */
  lemma {:induction false} RoleRouteReadsOnlyRole(items: map<string, string>, role: string, key: string, value: string)
    requires key != RoleKey
    ensures RoleRoute(items[key := value], role) == RoleRoute(items, role)
    ensures RoleRoute(items - {key}, role) == RoleRoute(items, role)
  {
  }

  /** A session passes the role gate of at most one role. */
  lemma {:induction false} AtMostOneRolePasses(items: map<string, string>, role1: string, role2: string)
    requires RoleRoute(items, role1) == Allow && RoleRoute(items, role2) == Allow
    ensures role1 == role2
  {
  }
}
