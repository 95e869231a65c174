/**
 * src/pages/common/Dashboard.jsx, the parts that act on the session: its
 * own `handleLogout`, and the choice of statistics to fetch and card
 * groups to show by the stored role.
 */
module Dashboard {
  import opened JsStrings
  import opened LocalStorage
  import opened TokenInspector
  import opened Auth
  import opened Routes

  /** `handleLogout`: remove the token, the role and the email, then
      navigate to the login page. `firstLogin` stays. */
  method HandleLogout(storage: Storage) returns (navigateTo: string)
    modifies storage
    ensures storage.items == old(storage.items) - {TokenKey, RoleKey, EmailKey}
    ensures navigateTo == LoginPath
  {
    storage.RemoveItem(TokenKey);
    storage.RemoveItem(RoleKey);
    storage.RemoveItem(EmailKey);
    navigateTo := LoginPath;
  }

  /** After the dashboard's logout the session is anonymous and has no
      role, but the first-login flag reads as it did before. */
  lemma {:induction false} DashboardLogoutKeepsFlag(items: map<string, string>, rt: Runtime)
    ensures !IsAuthenticated(items - {TokenKey, RoleKey, EmailKey}, rt)
    ensures GetRole(items - {TokenKey, RoleKey, EmailKey}) == None
    ensures IsFirstLogin(items - {TokenKey, RoleKey, EmailKey}) == IsFirstLogin(items)
    ensures GetItem(items - {TokenKey, RoleKey, EmailKey}, FirstLoginKey) == GetItem(items, FirstLoginKey)
  {
  }

  /** The two logouts differ: `logout()` empties the store, this one keeps
      `firstLogin` (and any other key), so a stored flag outlives the
      session it belonged to. */
  lemma {:induction false} DashboardLogoutDiffersFromLogout(items: map<string, string>)
    requires FirstLoginKey in items
    ensures items - {TokenKey, RoleKey, EmailKey} != map[]
    ensures FirstLoginKey in items - {TokenKey, RoleKey, EmailKey} && TokenKey !in items - {TokenKey, RoleKey, EmailKey}
  {
  }

  /** The four counts each statistics panel fetches, in the order the
      dashboard asks for them. */
  const StatsEndpoints: seq<string> := ["active-users", "pending-tasks", "pending", "pending-reports"]

  /** `p` is a prefix of `s`. */
  predicate HasPrefix(s: string, p: string) {
    |p| <= |s| && s[..|p|] == p
  }

  /** The statistics requests the dashboard sends when it mounts, in
      order: the administrator's for the exact role "ADMIN", the
      manager's for the exact role "MANAGER", none otherwise. */
  function StatsRequests(role: Option<string>): (paths: seq<string>)
    ensures |paths| > 0 <==> role == Some(AdminRole) || role == Some(ManagerRole)
    ensures role == Some(AdminRole) ==> forall i :: 0 <= i < |paths| ==> HasPrefix(paths[i], "/admin/")
    ensures role == Some(ManagerRole) ==> forall i :: 0 <= i < |paths| ==> HasPrefix(paths[i], "/manager/")
  {
    var section := if role == Some(AdminRole) then "/admin/"
                   else if role == Some(ManagerRole) then "/manager/"
                   else "";
    if section == "" then []
    else seq(|StatsEndpoints|, i requires 0 <= i < |StatsEndpoints| => section + StatsEndpoints[i])
  }

  /** The card groups below the welcome banner. */
  datatype CardGroup = AdminCards | ManagerCards | EmployeeCards | AdminStats | ManagerStats

  /** The groups shown for the stored role: each is guarded by an exact
      comparison with one role name. */
  function CardGroups(role: Option<string>): (groups: set<CardGroup>)
    ensures AdminCards in groups <==> role == Some(AdminRole)
    ensures ManagerCards in groups <==> role == Some(ManagerRole)
    ensures EmployeeCards in groups <==> role == Some(EmployeeRole)
  {
    if role == Some(AdminRole) then {AdminCards, AdminStats}
    else if role == Some(ManagerRole) then {ManagerCards, ManagerStats}
    else if role == Some(EmployeeRole) then {EmployeeCards}
    else {}
  }

  /** At most one role's cards are shown, and the statistics panel shown
      is the one whose requests were sent. */
  lemma {:induction false} AtMostOneRoleGroup(role: Option<string>)
    ensures |CardGroups(role) * {AdminCards, ManagerCards, EmployeeCards}| <= 1
    ensures AdminStats in CardGroups(role) <==> role == Some(AdminRole)
    ensures ManagerStats in CardGroups(role) <==> role == Some(ManagerRole)
    ensures (AdminStats in CardGroups(role) || ManagerStats in CardGroups(role)) <==> |StatsRequests(role)| > 0
  {
    if role == Some(AdminRole) {
      assert CardGroups(role) * {AdminCards, ManagerCards, EmployeeCards} == {AdminCards};
    } else if role == Some(ManagerRole) {
      assert CardGroups(role) * {AdminCards, ManagerCards, EmployeeCards} == {ManagerCards};
    } else if role == Some(EmployeeRole) {
      assert CardGroups(role) * {AdminCards, ManagerCards, EmployeeCards} == {EmployeeCards};
    } else {
      assert CardGroups(role) * {AdminCards, ManagerCards, EmployeeCards} == {};
    }
  }

  /** Any other stored role, "admin" in lower case among them, shows no
      role cards and fetches no statistics: the comparisons are exact, as
      in RoleRoute. */
  lemma {:induction false} RoleComparisonIsExact(role: string)
    requires role != AdminRole && role != ManagerRole && role != EmployeeRole
    ensures CardGroups(Some(role)) == {} && StatsRequests(Some(role)) == []
  {
  }
}
