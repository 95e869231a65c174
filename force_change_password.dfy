/**
 * src/pages/common/ForceChangePassword.jsx: the page a first login is
 * trapped on. `validate` checks the form; `handleSubmit` posts the old and
 * new password, then marks the password as changed and forces a fresh
 * login by dropping the token, role and email.
 */
module ForceChangePassword {
  import opened JsStrings
  import opened LocalStorage
  import opened TokenInspector
  import opened Auth
  import opened Gates
  import opened JsValues
  import opened Api

  const ChangePasswordEndpoint := "/change-password"
  const AllFieldsRequired := "All fields are required"
  const PasswordsDoNotMatch := "New password and confirm password do not match"
  const DefaultChangeError := "Failed to change password. Please try again."

  /** The three inputs of the form. */
  datatype PasswordForm = PasswordForm(oldPassword: string, newPassword: string, confirmPassword: string)

  /** `validate()`: None when the form may be sent. The emptiness check
      comes first; no length rule applies. */
  function Validate(form: PasswordForm): (r: Option<string>)
    ensures r == Some(AllFieldsRequired) <==>
      form.oldPassword == "" || form.newPassword == "" || form.confirmPassword == ""
    ensures r == Some(PasswordsDoNotMatch) <==>
      form.oldPassword != "" && form.newPassword != "" && form.confirmPassword != ""
      && form.newPassword != form.confirmPassword
    ensures r == None <==>
      form.oldPassword != "" && form.newPassword != "" && form.newPassword == form.confirmPassword
  {
    if form.oldPassword == "" || form.newPassword == "" || form.confirmPassword == "" then
      Some(AllFieldsRequired)
    else if form.newPassword != form.confirmPassword then
      Some(PasswordsDoNotMatch)
    else
      None
  }

  /** Any non-empty new password passes, however short: a one-character
      password is accepted. */
  lemma {:induction false} NoLengthRule(oldPassword: string, c: char)
    requires oldPassword != ""
    ensures Validate(PasswordForm(oldPassword, [c], [c])) == None
  {
  }

  /** An empty field is reported even when the other two do not match. */
  lemma {:induction false} EmptinessBeforeMismatch(form: PasswordForm)
    requires form.confirmPassword == "" && form.newPassword != ""
    ensures Validate(form) == Some(AllFieldsRequired)
  {
  }

  /** The JSON body sent: the old and the new password, not the
      confirmation. */
  function ChangeBody(form: PasswordForm): (body: map<string, string>)
    ensures body.Keys == {"oldPassword", "newPassword"}
    ensures body["oldPassword"] == form.oldPassword && body["newPassword"] == form.newPassword
  {
    map["oldPassword" := form.oldPassword, "newPassword" := form.newPassword]
  }

  /** `err.response?.data || "Failed to change password. Please try
      again."`: the response body itself when truthy, shown as it is. */
  function FailureMessage(err: ApiError): (m: JsValue)
    ensures Truthy(ResponseData(err)) ==> m == ResponseData(err)
    ensures !Truthy(ResponseData(err)) ==> m == Str(DefaultChangeError)
  {
    if Truthy(ResponseData(err)) then ResponseData(err) else Str(DefaultChangeError)
  }

  /** The store after a successful change: the flag set to "false" and the
      three session keys removed. */
  function StoreAfterChange(items: map<string, string>): map<string, string> {
    items[FirstLoginKey := "false"] - {TokenKey, RoleKey, EmailKey}
  }

  /** `handleSubmit`. Returns the error state (the empty string for none),
      where the page navigates (None: it stays), and the redirect a logout
      inside the call asked for. */
  method HandleSubmit(storage: Storage, rt: Runtime, send: Request -> NetworkResult, form: PasswordForm)
    returns (error: JsValue, navigateTo: Option<string>, redirect: Option<string>)
    modifies storage
    ensures Validate(form).Some? ==>
      error == Str(Validate(form).value) && navigateTo == None && redirect == None
      && storage.items == old(storage.items)
    ensures Validate(form).None? ==>
      var result := PostResult(old(storage.items), rt, send, ChangePasswordEndpoint, ChangeBody(form));
      var store := PostStore(old(storage.items), rt, send, ChangePasswordEndpoint, ChangeBody(form));
      if result.Success? then
        storage.items == StoreAfterChange(store) && error == Str("") && navigateTo == Some(LoginPath)
      else
        storage.items == store && error == FailureMessage(result.error) && navigateTo == None
    ensures Validate(form).None? ==>
      var result := PostResult(old(storage.items), rt, send, ChangePasswordEndpoint, ChangeBody(form));
      redirect == (if RequestDecision(old(storage.items), rt) == RejectExpired
                      || (result.Failure? && LogsOutOn(result.error))
                   then Some(LoginPath) else None)
  {
    error, navigateTo, redirect := Str(""), None, None;
    var validationError := Validate(form);
    if validationError.Some? {
      error := Str(validationError.value);
      return;
    }
    var result;
    result, redirect := Post(storage, rt, send, ChangePasswordEndpoint, ChangeBody(form));
    if result.Success? {
      storage.SetItem(FirstLoginKey, "false");
      storage.RemoveItem(TokenKey);
      storage.RemoveItem(RoleKey);
      storage.RemoveItem(EmailKey);
      navigateTo := Some(LoginPath);
    } else {
      error := FailureMessage(result.error);
    }
  }

  /** After a successful change the session is anonymous and the flag is
      cleared, so the next login starts from a clean slate: the guard
      sends every protected page to the login page, and the role is gone. */
  lemma {:induction false} ChangeForcesNewLogin(items: map<string, string>, rt: Runtime)
    ensures !IsAuthenticated(StoreAfterChange(items), rt)
    ensures !IsFirstLogin(StoreAfterChange(items))
    ensures GetRole(StoreAfterChange(items)) == None
    ensures GetItem(StoreAfterChange(items), FirstLoginKey) == Some("false")
    ensures forall pathname :: ProtectedRoute(StoreAfterChange(items), rt, pathname) == RedirectTo(LoginPath)
  {
  }

  /** Keys other than the four session keys survive a successful change. */
  lemma {:induction false} ChangeKeepsOtherKeys(items: map<string, string>, key: string)
    requires key !in {TokenKey, RoleKey, EmailKey, FirstLoginKey}
    ensures GetItem(StoreAfterChange(items), key) == GetItem(items, key)
  {
  }

  /** A failed change leaves the flag and the session as they were,
      unless an interceptor logged out; the password page stays in force. */
  lemma {:induction false} FailedChangeKeepsSession(items: map<string, string>, rt: Runtime, send: Request -> NetworkResult, form: PasswordForm)
    requires PostResult(items, rt, send, ChangePasswordEndpoint, ChangeBody(form)).Failure?
    ensures var store := PostStore(items, rt, send, ChangePasswordEndpoint, ChangeBody(form));
      store == items || store == map[]
  {
  }
}
