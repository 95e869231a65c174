/**
 * src/App.js: the route table and what it wraps around each page. Public
 * pages stand alone; the dashboard, profile and password pages sit inside
 * ProtectedRoute; the admin, manager and employee pages sit inside
 * ProtectedRoute and then a RoleRoute for their role; the unauthorized page
 * and the catch-all "*" stand alone.
 *
 * Paths are matched as React Router 6 matches them: each literal segment
 * without regard to ASCII case, a `:id` segment against any non-empty
 * segment, and any number of trailing '/' accepted.
 */
module Routes {
  import opened JsStrings
  import opened TokenInspector
  import opened Auth
  import opened Gates

  /** What App.js puts in front of the page a path reaches. */
  datatype RouteGuard =
    | RootRedirect                      // "/": <Navigate to="/login" replace />
    | Public                            // outside every guard
    | Protected                         // inside ProtectedRoute only
    | ProtectedWithRole(role: string)   // inside ProtectedRoute, then RoleRoute
    | UnauthorizedPage                  // "/unauthorized", outside every guard
    | NotFoundPage                      // "*", outside every guard

  const AdminRole := "ADMIN"
  const ManagerRole := "MANAGER"
  const EmployeeRole := "EMPLOYEE"

  // Written as "/" + name, as LoginPath is (see there).
  const RegisterPath := "/" + "register"
  const ProfilePath := "/" + "profile"
  const ForgotPasswordPath := "/" + "forgot-password"

  const PublicPages: set<string> := {"register", "login", "forgot-password"}
  const ProtectedPages: set<string> := {"dashboard", "profile", "force-change-password"}

  /** The pages under /admin, /manager and /employee that take no `:id`. */
  function SectionPages(section: string): set<string> {
    if section == "admin" then
      {"pending-approvals", "manage-users", "add-user", "leave-approval", "assign-task",
       "approve-reports"}
    else if section == "manager" then
      {"pending-approvals", "manage-users", "add-user", "leave-approval", "assign-task",
       "approve-reports", "apply-leave", "tasks", "reports"}
    else if section == "employee" then
      {"apply-leave", "tasks", "reports"}
    else {}
  }

  /** The role whose RoleRoute guards a section of the table. */
  function SectionRole(section: string): Option<string> {
    if section == "admin" then Some(AdminRole)
    else if section == "manager" then Some(ManagerRole)
    else if section == "employee" then Some(EmployeeRole)
    else None
  }

  /** Drop the empty pieces that trailing '/' leave at the end. */
  function TrimTrailingEmpty(parts: seq<string>): (r: seq<string>)
    ensures |r| <= |parts| && r == parts[..|r|]
    ensures r == [] || r[|r| - 1] != ""
    ensures forall i :: |r| <= i < |parts| ==> parts[i] == ""
  {
    if parts == [] then []
    else if parts[|parts| - 1] == "" then TrimTrailingEmpty(parts[..|parts| - 1])
    else parts
  }

  /** The segments of a pathname as the matcher sees them: after the leading
      '/', split at '/', trailing '/' ignored. None when the pathname does not
      start with '/', which no route pattern matches. */
  function Segments(pathname: string): Option<seq<string>> {
    if pathname == [] || pathname[0] != '/' then None
    else Some(TrimTrailingEmpty(Split(pathname[1..], '/')))
  }

  /** The guard the route table puts in front of a pathname. */
  function RouteOf(pathname: string): (g: RouteGuard)
    ensures g.ProtectedWithRole? ==> g.role in {AdminRole, ManagerRole, EmployeeRole}
  {
    match Segments(pathname)
    case None => NotFoundPage
    case Some(segs) =>
      if |segs| == 0 then RootRedirect
      else
        var first := ToLower(segs[0]);
        if |segs| == 1 && first in PublicPages then Public
        else if |segs| == 1 && first in ProtectedPages then Protected
        else if |segs| == 1 && first == "unauthorized" then UnauthorizedPage
        else if |segs| == 2 && SectionRole(first).Some? && ToLower(segs[1]) in SectionPages(first) then
          ProtectedWithRole(SectionRole(first).value)
        else if |segs| == 3 && first in {"admin", "manager"} && ToLower(segs[1]) == "edit-user"
                && segs[2] != "" then
          ProtectedWithRole(SectionRole(first).value)
        else NotFoundPage
  }

  /** The decision for a navigation: the guards App.js nests around the page,
      outermost first; the first that does not allow decides. */
  function Navigate(items: map<string, string>, rt: Runtime, pathname: string): (d: Decision)
    ensures RouteOf(pathname) in {Public, UnauthorizedPage, NotFoundPage} ==> d == Allow
    ensures RouteOf(pathname) == RootRedirect ==> d == RedirectTo(LoginPath)
    ensures RouteOf(pathname) == Protected ==> d == ProtectedRoute(items, rt, pathname)
  {
    match RouteOf(pathname)
    case RootRedirect => RedirectTo(LoginPath)
    case Public => Allow
    case Protected => ProtectedRoute(items, rt, pathname)
    case ProtectedWithRole(role) =>
      var outer := ProtectedRoute(items, rt, pathname);
      if outer == Allow then RoleRoute(items, role) else outer
    case UnauthorizedPage => Allow
    case NotFoundPage => Allow
  }

  /** A one-segment pathname `"/" + name` has the single segment `name`. */
  lemma {:induction false} SegmentsOfOne(name: string)
    requires name != "" && '/' !in name
    ensures Segments("/" + name) == Some([name])
  {
    assert ("/" + name)[1..] == name;
    SplitWithoutSeparator(name, '/');
  }

  /** A two-segment pathname `"/" + a + "/" + b` has the segments `a`, `b`. */
  lemma {:induction false} SegmentsOfTwo(a: string, b: string)
    requires a != "" && '/' !in a && b != "" && '/' !in b
    ensures Segments("/" + a + "/" + b) == Some([a, b])
  {
    assert ("/" + a + "/" + b)[1..] == a + ['/'] + b;
    SplitWithoutSeparator(a, '/');
    SplitWithoutSeparator(b, '/');
    SplitAtSeparator(a, b, '/');
    assert Split(a + ['/'] + b, '/') == [a, b];
    assert TrimTrailingEmpty([a, b]) == [a, b];
  }

  /** A trailing '/' leaves the segments of a one-segment pathname as they
      are. */
  lemma {:induction false} SegmentsOfOneWithSlash(name: string)
    requires name != "" && '/' !in name
    ensures Segments("/" + name + "/") == Some([name])
  {
    assert ("/" + name + "/")[1..] == name + ['/'] + "";
    SplitWithoutSeparator(name, '/');
    SplitWithoutSeparator("", '/');
    SplitAtSeparator(name, "", '/');
    assert Split(name + ['/'] + "", '/') == [name, ""];
    assert TrimTrailingEmpty([name, ""]) == [name] by {
      assert [name, ""][..1] == [name];
    }
  }

  /** No upper-case ASCII letter: the form every name in the table has. */
  predicate LowerCase(s: string) {
    forall i :: 0 <= i < |s| ==> !IsAsciiUpper(s[i])
  }

  /** A pathname with one segment is routed by that segment's lower case:
      "/LOGIN" and "/login" reach the same page. */
  lemma {:induction false} RouteOfOne(pathname: string, name: string)
    requires Segments(pathname) == Some([name])
    ensures ToLower(name) in PublicPages ==> RouteOf(pathname) == Public
    ensures ToLower(name) in ProtectedPages ==> RouteOf(pathname) == Protected
    ensures ToLower(name) == "unauthorized" ==> RouteOf(pathname) == UnauthorizedPage
  {
  }

  /** A pathname with a section and a page of that section, in any letter
      case, reaches the section's role gate. */
  lemma {:induction false} RouteOfSectionPage(section: string, page: string)
    requires section != "" && '/' !in section
    requires page != "" && '/' !in page
    requires SectionRole(ToLower(section)).Some? && ToLower(page) in SectionPages(ToLower(section))
    ensures RouteOf("/" + section + "/" + page) == ProtectedWithRole(SectionRole(ToLower(section)).value)
  {
    SegmentsOfTwo(section, page);
  }

  /** A three-segment pathname `"/" + a + "/" + b + "/" + c` has the
      segments `a`, `b`, `c`. */
  lemma {:induction false} SegmentsOfThree(a: string, b: string, c: string)
    requires a != "" && '/' !in a && b != "" && '/' !in b && c != "" && '/' !in c
    ensures Segments("/" + a + "/" + b + "/" + c) == Some([a, b, c])
  {
    var rest := b + ['/'] + c;
    assert ("/" + a + "/" + b + "/" + c)[1..] == a + ['/'] + rest;
    SplitWithoutSeparator(a, '/');
    SplitWithoutSeparator(b, '/');
    SplitWithoutSeparator(c, '/');
    SplitAtSeparator(b, c, '/');
    SplitAtSeparator(a, rest, '/');
    assert Split(a + ['/'] + rest, '/') == [a, b, c];
    assert TrimTrailingEmpty([a, b, c]) == [a, b, c];
  }

  /** The edit pages take any non-empty `:id`: `/admin/edit-user/<id>` and
      `/manager/edit-user/<id>` reach the gate of their section's role. */
  lemma {:induction false} RouteOfEditUser(section: string, id: string)
    requires section != "" && '/' !in section && ToLower(section) in {"admin", "manager"}
    requires id != "" && '/' !in id
    ensures RouteOf("/" + section + "/" + "edit-user" + "/" + id) == ProtectedWithRole(SectionRole(ToLower(section)).value)
  {
    SegmentsOfThree(section, "edit-user", id);
    ToLowerOfLower("edit-user");
  }

  lemma {:induction false} RouteOfAdminEditUser(id: string)
    requires id != "" && '/' !in id
    ensures RouteOf("/" + "admin" + "/" + "edit-user" + "/" + id) == ProtectedWithRole(AdminRole)
  {
    ToLowerOfLower("admin");
    RouteOfEditUser("admin", id);
  }

  lemma {:induction false} RouteOfManagerEditUser(id: string)
    requires id != "" && '/' !in id
    ensures RouteOf("/" + "manager" + "/" + "edit-user" + "/" + id) == ProtectedWithRole(ManagerRole)
  {
    ToLowerOfLower("manager");
    RouteOfEditUser("manager", id);
  }

  /** Letter case does not matter to the table: "/LOGIN" is the public
      login page. */
  lemma {:induction false} RouteOfUpperCaseLogin()
    ensures RouteOf("/" + "LOGIN") == Public
  {
    SegmentsOfOne("LOGIN");
    assert ToLower("LOGIN") == "login";
    RouteOfOne("/" + "LOGIN", "LOGIN");
  }

  /** RouteOfOne for a pathname written as "/" followed by the name. */
  lemma {:induction false} OnePageRoute(pathname: string, name: string)
    requires name != "" && '/' !in name && LowerCase(name)
    requires pathname == "/" + name
    ensures name in PublicPages ==> RouteOf(pathname) == Public
    ensures name in ProtectedPages ==> RouteOf(pathname) == Protected
    ensures name == "unauthorized" ==> RouteOf(pathname) == UnauthorizedPage
  {
    SegmentsOfOne(name);
    ToLowerOfLower(name);
    RouteOfOne(pathname, name);
  }

  lemma {:induction false} RouteOfLogin()
    ensures RouteOf(LoginPath) == Public
  {
    OnePageRoute(LoginPath, "login");
  }

  lemma {:induction false} RouteOfForceChangePassword()
    ensures RouteOf(ForceChangePasswordPath) == Protected
  {
    OnePageRoute(ForceChangePasswordPath, "force-change-password");
  }

  lemma {:induction false} RouteOfDashboard()
    ensures RouteOf(DashboardPath) == Protected
  {
    OnePageRoute(DashboardPath, "dashboard");
  }

  lemma {:induction false} RouteOfProfile()
    ensures RouteOf(ProfilePath) == Protected
  {
    OnePageRoute(ProfilePath, "profile");
  }

  /** A session that is not authenticated, an expired token among them, is
      sent from /profile to the login page. */
  lemma {:induction false} ProfileNeedsSession(items: map<string, string>, rt: Runtime)
    requires !IsAuthenticated(items, rt)
    ensures Navigate(items, rt, ProfilePath) == RedirectTo(LoginPath)
  {
    RouteOfProfile();
  }

  lemma {:induction false} RouteOfUnauthorized()
    ensures RouteOf(UnauthorizedPath) == UnauthorizedPage
  {
    OnePageRoute(UnauthorizedPath, "unauthorized");
  }

  /** Where the table sends the fixed targets of the guards' redirects. */
  lemma {:induction false} RedirectTargetsRoute()
    ensures RouteOf(LoginPath) == Public
    ensures RouteOf(ForceChangePasswordPath) == Protected
    ensures RouteOf(DashboardPath) == Protected
    ensures RouteOf(UnauthorizedPath) == UnauthorizedPage
  {
    RouteOfLogin();
    RouteOfForceChangePassword();
    RouteOfDashboard();
    RouteOfUnauthorized();
  }

  /** `/` always goes to the login page, for every session. */
  lemma {:induction false} RootGoesToLogin(items: map<string, string>, rt: Runtime)
    ensures Navigate(items, rt, "/") == RedirectTo(LoginPath)
  {
    assert Split("/"[1..], '/') == [""];
  }

  /** A redirect never points back at the requested path. */
  lemma {:induction false} NavigateRedirectLeavesPath(items: map<string, string>, rt: Runtime, pathname: string)
    requires Navigate(items, rt, pathname).RedirectTo?
    ensures Navigate(items, rt, pathname).path != pathname
  {
    RedirectTargetsRoute();
  }

  /** One redirect is always enough: the page a redirect leads to is allowed
      for the same session. */
  lemma {:induction false} NavigateOneHop(items: map<string, string>, rt: Runtime, pathname: string)
    requires Navigate(items, rt, pathname).RedirectTo?
    ensures Navigate(items, rt, Navigate(items, rt, pathname).path) == Allow
  {
    var target := Navigate(items, rt, pathname).path;
    RedirectTargets(items, rt, pathname);
    if target == LoginPath || target == UnauthorizedPath {
      RouteOfLogin();
      RouteOfUnauthorized();
    } else if target == ForceChangePasswordPath {
      RouteOfForceChangePassword();
    } else {
      RouteOfDashboard();
    }
  }

  /** The four places a navigation can be redirected to, each with the
      state of the session that leads there. */
  lemma {:induction false} RedirectTargets(items: map<string, string>, rt: Runtime, pathname: string)
    requires Navigate(items, rt, pathname).RedirectTo?
    ensures var target := Navigate(items, rt, pathname).path;
      target == LoginPath || target == UnauthorizedPath
      || (target == ForceChangePasswordPath && IsAuthenticated(items, rt) && IsFirstLogin(items))
      || (target == DashboardPath && IsAuthenticated(items, rt) && !IsFirstLogin(items))
  {
  }

  /** On a page of the role sections, authentication decides before the
      role: an unauthenticated session goes to the login page even when the
      stored role is the right one. */
  lemma {:induction false} AuthenticationBeforeRole(items: map<string, string>, rt: Runtime, pathname: string)
    requires RouteOf(pathname).ProtectedWithRole?
    requires !IsAuthenticated(items, rt)
    ensures Navigate(items, rt, pathname) == RedirectTo(LoginPath)
  {
  }

  /** On a page of the role sections, the first-login trap also decides
      before the role. */
  lemma {:induction false} FirstLoginBeforeRole(items: map<string, string>, rt: Runtime, pathname: string)
    requires RouteOf(pathname).ProtectedWithRole?
    requires IsAuthenticated(items, rt) && IsFirstLogin(items)
    ensures Navigate(items, rt, pathname) == RedirectTo(ForceChangePasswordPath)
  {
    RedirectTargetsRoute();
  }

  /** A page of a role section is shown exactly to an authenticated session
      that has changed its password and holds that role. */
  lemma {:induction false} RolePageAllowedIff(items: map<string, string>, rt: Runtime, pathname: string)
    requires RouteOf(pathname).ProtectedWithRole?
    ensures Navigate(items, rt, pathname) == Allow <==>
      IsAuthenticated(items, rt) && !IsFirstLogin(items) && GetRole(items) == Some(RouteOf(pathname).role)
  {
    RedirectTargetsRoute();
  }

  /** The dashboard, profile and password pages need authentication only:
      the role plays no part. */
  lemma {:induction false} ProtectedPageIgnoresRole(items: map<string, string>, rt: Runtime, pathname: string, role: string)
    requires RouteOf(pathname) == Protected
    ensures Navigate(items[RoleKey := role], rt, pathname) == Navigate(items, rt, pathname)
    ensures Navigate(items - {RoleKey}, rt, pathname) == Navigate(items, rt, pathname)
  {
    ProtectedRouteIgnoresRole(items, rt, pathname, role);
  }

  /** The three role sections are disjoint: a path reaches the gate of the
      section its first segment names, and no other. */
  lemma {:induction false} RoleSectionsDisjoint(pathname: string)
    requires RouteOf(pathname).ProtectedWithRole?
    ensures Segments(pathname).Some? && |Segments(pathname).value| >= 2
    ensures SectionRole(ToLower(Segments(pathname).value[0])) == Some(RouteOf(pathname).role)
  {
  }

  /** The pages outside the guards are reachable with no session at all. */
  lemma {:induction false} PublicPagesNeedNoSession(rt: Runtime)
    ensures Navigate(map[], rt, LoginPath) == Allow
    ensures Navigate(map[], rt, RegisterPath) == Allow
    ensures Navigate(map[], rt, ForgotPasswordPath) == Allow
    ensures Navigate(map[], rt, UnauthorizedPath) == Allow
  {
    RouteOfLogin();
    RouteOfUnauthorized();
    RouteOfRegister();
    RouteOfForgotPassword();
  }

  lemma {:induction false} RouteOfRegister()
    ensures RouteOf(RegisterPath) == Public
  {
    OnePageRoute(RegisterPath, "register");
  }

  lemma {:induction false} RouteOfForgotPassword()
    ensures RouteOf(ForgotPasswordPath) == Public
  {
    OnePageRoute(ForgotPasswordPath, "forgot-password");
  }

  lemma {:induction false} RouteOfAdminManageUsers()
    ensures RouteOf("/" + "admin" + "/" + "manage-users") == ProtectedWithRole(AdminRole)
  {
    ToLowerOfLower("admin");
    ToLowerOfLower("manage-users");
    RouteOfSectionPage("admin", "manage-users");
  }

  lemma {:induction false} RouteOfManagerManageUsers()
    ensures RouteOf("/" + "manager" + "/" + "manage-users") == ProtectedWithRole(ManagerRole)
  {
    ToLowerOfLower("manager");
    ToLowerOfLower("manage-users");
    RouteOfSectionPage("manager", "manage-users");
  }

  /** On a page of a role section, the decision is ProtectedRoute's when it
      does not allow, and RoleRoute's when it does. */
  lemma {:induction false} RolePageNavigate(items: map<string, string>, rt: Runtime, pathname: string)
    requires RouteOf(pathname).ProtectedWithRole?
    ensures ProtectedRoute(items, rt, pathname) != Allow ==>
      Navigate(items, rt, pathname) == ProtectedRoute(items, rt, pathname)
    ensures ProtectedRoute(items, rt, pathname) == Allow ==>
      Navigate(items, rt, pathname) == RoleRoute(items, RouteOf(pathname).role)
  {
  }

  /** A session of role MANAGER that has changed its password is turned away
      from an admin page and let into the matching manager page. */
  lemma {:induction false} ManagerSessionScenario(items: map<string, string>, rt: Runtime)
    requires IsAuthenticated(items, rt) && !IsFirstLogin(items)
    requires GetRole(items) == Some(ManagerRole)
    ensures Navigate(items, rt, "/" + "admin" + "/" + "manage-users") == RedirectTo(UnauthorizedPath)
    ensures Navigate(items, rt, "/" + "manager" + "/" + "manage-users") == Allow
  {
    var adminPage, managerPage := "/" + "admin" + "/" + "manage-users", "/" + "manager" + "/" + "manage-users";
    RouteOfAdminManageUsers();
    RouteOfManagerManageUsers();
    RolePageNavigate(items, rt, adminPage);
    RolePageNavigate(items, rt, managerPage);
    ReverseTrap(items, rt, adminPage);
    ReverseTrap(items, rt, managerPage);
  }

  lemma {:induction false} RouteOfForceChangePasswordWithSlash()
    ensures RouteOf(ForceChangePasswordPath + "/") == Protected
  {
    var name := "force-change-password";
    var pathname := "/" + name + "/";
    assert pathname == ForceChangePasswordPath + "/";
    SegmentsOfOneWithSlash(name);
    ToLowerOfLower(name);
    RouteOfOne(pathname, name);
  }

  /** ProtectedRoute compares the raw pathname with "/force-change-password",
      while the router matches without regard to case and trailing '/'. So a
      session that has already changed its password is sent to the dashboard
      from "/force-change-password" but shown the password page at
      "/force-change-password/". */
  lemma {:induction false} ReverseTrapIsExactMatchOnly(items: map<string, string>, rt: Runtime)
    requires IsAuthenticated(items, rt) && !IsFirstLogin(items)
    ensures Navigate(items, rt, ForceChangePasswordPath) == RedirectTo(DashboardPath)
    ensures Navigate(items, rt, ForceChangePasswordPath + "/") == Allow
  {
    RouteOfForceChangePassword();
    RouteOfForceChangePasswordWithSlash();
    assert |ForceChangePasswordPath + "/"| != |ForceChangePasswordPath|;
  }
}
