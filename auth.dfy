/**
 * src/utils/auth.js: the session getters, `isAuthenticated` and `logout`,
 * over the four keys the client keeps in `localStorage`.
 */
module Auth {
  import opened JsStrings
  import opened LocalStorage
  import opened TokenInspector

  const TokenKey := "token"
  const RoleKey := "role"
  const EmailKey := "email"
  const FirstLoginKey := "firstLogin"

  /** Paths are written as "/" followed by the page name throughout, so that
      the route lemmas can take the segment apart from the leading '/'
      without unfolding the whole literal character by character. */
  const LoginPath := "/" + "login"

  /** `getToken()`: the stored token, `null` when there is none. */
  function GetToken(items: map<string, string>): (r: Option<string>)
    ensures r.Some? <==> TokenKey in items
    ensures r.Some? ==> r.value == items[TokenKey]
  {
    GetItem(items, TokenKey)
  }

  /** `getRole()`: the stored role, `null` when there is none. */
  function GetRole(items: map<string, string>): (r: Option<string>)
    ensures r.Some? <==> RoleKey in items
    ensures r.Some? ==> r.value == items[RoleKey]
  {
    GetItem(items, RoleKey)
  }

  /** `isFirstLogin()`: the stored flag is the exact string "true". */
  function IsFirstLogin(items: map<string, string>): (r: bool)
    ensures r <==> FirstLoginKey in items && items[FirstLoginKey] == "true"
  {
    GetItem(items, FirstLoginKey) == Some("true")
  }

  /** The test `if (token)` / `if (!token)`: `null` and "" are both falsy. */
  function HasToken(items: map<string, string>): (r: bool)
    ensures r <==> TokenKey in items && items[TokenKey] != ""
  {
    match GetToken(items)
    case None => false
    case Some(t) => t != ""
  }

  /** `isAuthenticated()`. */
  function IsAuthenticated(items: map<string, string>, rt: Runtime): (r: bool)
    ensures TokenKey !in items ==> !r
    ensures r <==> TokenKey in items && items[TokenKey] != "" && !IsTokenExpired(items[TokenKey], rt)
  {
    HasToken(items) && !IsTokenExpired(GetToken(items).value, rt)
  }

  /** `logout()`: `localStorage.clear()` then `window.location.replace("/login")`.
      The new store does not depend on the old one, so a second call leaves
      the same empty store and redirects to the same place. */
  method Logout(storage: Storage) returns (redirect: string)
    modifies storage
    ensures storage.items == map[]
    ensures redirect == LoginPath
  {
    storage.Clear();
    redirect := LoginPath;
  }

  /** After `logout()` the session is anonymous and no flag is left over. */
  lemma {:induction false} ClearedSessionIsAnonymous(rt: Runtime)
    ensures !IsAuthenticated(map[], rt)
    ensures !IsFirstLogin(map[])
    ensures GetRole(map[]) == None
  {
  }

  /** Whether a session is authenticated reads the token key only. */
  lemma {:induction false} AuthenticationReadsOnlyToken(items: map<string, string>, key: string, value: string, rt: Runtime)
    requires key != TokenKey
    ensures IsAuthenticated(items[key := value], rt) == IsAuthenticated(items, rt)
    ensures IsAuthenticated(items - {key}, rt) == IsAuthenticated(items, rt)
  {
  }

  /** Calling `logout()` twice: the second call changes nothing. */
  method LogoutTwice(storage: Storage) returns (first: string, second: string)
    modifies storage
    ensures storage.items == map[]
    ensures first == second == LoginPath
  {
    first := Logout(storage);
    var afterFirst := storage.items;
    second := Logout(storage);
    assert storage.items == afterFirst;
  }
}
