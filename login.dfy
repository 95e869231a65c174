/**
 * src/pages/auth/Login.jsx, `handleSubmit`: post the credentials, store the
 * session the server returns, and send the user to the password page or
 * the dashboard; on failure, turn the server's message into the text the
 * page shows.
 */
module Login {
  import opened JsStrings
  import opened LocalStorage
  import opened TokenInspector
  import opened Auth
  import opened Gates
  import opened Api
  import opened JsValues

  const LoginEndpoint := "/auth/login"
  const DefaultLoginError := "Login failed. Please try again."
  const PendingText := "Your account is pending approval"
  const RejectedText := "Your account has been rejected"
  const InvalidText := "Invalid email or password"

  /** `const { token, role, firstLogin } = res.data`: None when it throws,
      which it does on `null` and `undefined`. */
  function Destructure(data: JsValue): (r: Option<(JsValue, JsValue, JsValue)>)
    ensures r.None? <==> data.Null? || data.Undefined?
  {
    if data.Null? || data.Undefined? then None
    else Some((Property(data, "token"), Property(data, "role"), Property(data, "firstLogin")))
  }

  /** What the catch block reads: `err.response?.data`. The error is the
      one the call threw, or, when destructuring threw, a TypeError, which
      has no `response`. */
  function ErrorData(err: Option<ApiError>): JsValue {
    match err
    case Some(e) => ResponseData(e)
    case None => Undefined
  }

  /** The message the page starts from: a string body as it is, else a
      truthy `message` property, else the default text. */
  function MessageSource(errorData: JsValue): (m: JsValue)
    ensures errorData.Str? ==> m == errorData
    ensures !errorData.Str? && Truthy(Property(errorData, "message")) ==> m == Property(errorData, "message")
    ensures !errorData.Str? && !Truthy(Property(errorData, "message")) ==> m == Str(DefaultLoginError)
  {
    if errorData.Str? then errorData
    else if Truthy(Property(errorData, "message")) then Property(errorData, "message")
    else Str(DefaultLoginError)
  }

  /** The classification chain, on the lower-cased message: the first
      keyword found wins, and a message with none of them is shown as it
      is. */
  function Classify(message: string): (shown: string)
    ensures Includes(ToLower(message), "pending") ==> shown == PendingText
    ensures !Includes(ToLower(message), "pending") && Includes(ToLower(message), "rejected") ==>
      shown == RejectedText
    ensures (!Includes(ToLower(message), "pending") && !Includes(ToLower(message), "rejected")
      && Includes(ToLower(message), "invalid")) ==> shown == InvalidText
    ensures (!Includes(ToLower(message), "pending") && !Includes(ToLower(message), "rejected")
      && !Includes(ToLower(message), "invalid")) ==> shown == message
  {
    var lower := ToLower(message);
    if Includes(lower, "pending") then PendingText
    else if Includes(lower, "rejected") then RejectedText
    else if Includes(lower, "invalid") then InvalidText
    else message
  }

  /** The text the page shows for a failure. None when the chosen message
      is not a string: `message.toLowerCase` then throws inside the catch
      block, and the error stays the empty string set on entry. */
  function ErrorText(err: Option<ApiError>): (r: Option<string>)
    ensures r.None? <==> !MessageSource(ErrorData(err)).Str?
    ensures ErrorData(err).Str? ==> r == Some(Classify(ErrorData(err).s))
    ensures !ErrorData(err).Str? && !Truthy(Property(ErrorData(err), "message")) ==>
      r == Some(Classify(DefaultLoginError))
    ensures var message := Property(ErrorData(err), "message");
      !ErrorData(err).Str? && message.Str? && message.s != "" ==> r == Some(Classify(message.s))
  {
    var m := MessageSource(ErrorData(err));
    if m.Str? then Some(Classify(m.s)) else None
  }

  /** The page shows no text exactly when the body is not a string and its
      `message` is truthy but not a string (a number, an object): then
      `message.toLowerCase` is not a function. */
  lemma {:induction false} NoTextExactlyForNonStringMessage(err: Option<ApiError>)
    ensures ErrorText(err).None? <==>
      !ErrorData(err).Str? && Truthy(Property(ErrorData(err), "message"))
      && !Property(ErrorData(err), "message").Str?
  {
  }

  /** An object body whose `message` is the string `m`, whatever its other
      fields (a status, an error name), is classified on `m`; an empty `m`
      falls back to the default text. */
  lemma {:induction false} MessagePropertyIsClassified(status: int, fields: map<string, JsValue>, m: string)
    requires "message" in fields && fields["message"] == Str(m)
    ensures var err := Some(HttpError(Some(HttpResponse(status, Obj(fields)))));
      ErrorText(err) == Some(if m != "" then Classify(m) else DefaultLoginError)
  {
    if m == "" {
      DefaultTextClassifies();
    }
  }

  /** A shown message whose lower case holds a keyword maps to the fixed
      text of the first keyword it holds, whatever its case. */
  lemma {:induction false} ClassifyIgnoresCase(message: string, other: string)
    requires ToLower(message) == ToLower(other)
    requires Includes(ToLower(message), "pending") || Includes(ToLower(message), "rejected")
      || Includes(ToLower(message), "invalid")
    ensures Classify(message) == Classify(other)
  {
  }

  /** Classifying a shown text again changes nothing: each of the three
      fixed texts carries its own keyword and none of the earlier ones. */
  lemma {:induction false} ClassifyIdempotent(message: string)
    ensures Classify(Classify(message)) == Classify(message)
  {
    var shown := Classify(message);
    if shown == PendingText {
      PendingTextClassifies();
    } else if shown == RejectedText {
      RejectedTextClassifies();
    } else if shown == InvalidText {
      InvalidTextClassifies();
    }
  }

  lemma {:induction false} PendingTextClassifies()
    ensures Classify(PendingText) == PendingText
  {
    PendingTextLowerCase();
    PendingTextHasKeyword(ToLower(PendingText));
  }

  lemma {:induction false} PendingTextLowerCase()
    ensures ToLower(PendingText) == "your account is pending approval"
  {
  }

  lemma {:induction false} PendingTextHasKeyword(lower: string)
    requires lower == "your account is pending approval"
    ensures OccursAt(lower, "pending", 16)
  {
    assert forall k :: 0 <= k < 7 ==> lower[16 + k] == "pending"[k];
    assert lower[16..23] == "pending";
  }

  lemma {:induction false} RejectedTextClassifies()
    ensures Classify(RejectedText) == RejectedText
  {
    RejectedTextLowerCase();
    RejectedTextHasOnlyItsKeyword(ToLower(RejectedText));
  }

  lemma {:induction false} RejectedTextLowerCase()
    ensures ToLower(RejectedText) == "your account has been rejected"
  {
  }

  lemma {:induction false} RejectedTextHasOnlyItsKeyword(lower: string)
    requires lower == "your account has been rejected"
    ensures OccursAt(lower, "rejected", 22) && !Includes(lower, "pending")
  {
    assert forall k :: 0 <= k < 8 ==> lower[22 + k] == "rejected"[k];
    assert lower[22..30] == "rejected";
    NoOccurrence(lower, "pending", 'p');
  }

  lemma {:induction false} InvalidTextClassifies()
    ensures Classify(InvalidText) == InvalidText
  {
    InvalidTextLowerCase();
    InvalidTextHasOnlyItsKeyword(ToLower(InvalidText));
  }

  lemma {:induction false} InvalidTextLowerCase()
    ensures ToLower(InvalidText) == "invalid email or password"
  {
  }

  lemma {:induction false} InvalidTextHasOnlyItsKeyword(lower: string)
    requires lower == "invalid email or password"
    ensures OccursAt(lower, "invalid", 0) && !Includes(lower, "pending") && !Includes(lower, "rejected")
  {
    assert forall k :: 0 <= k < 7 ==> lower[k] == "invalid"[k];
    assert lower[0..7] == "invalid";
    NoOccurrence(lower, "pending", 'g');
    NoOccurrence(lower, "rejected", 'j');
  }

  /** The default text holds none of the three keywords. */
  lemma {:induction false} DefaultTextClassifies()
    ensures Classify(DefaultLoginError) == DefaultLoginError
  {
    DefaultTextLowerCase();
    DefaultTextLacksKeywords(ToLower(DefaultLoginError));
  }

  lemma {:induction false} DefaultTextLowerCase()
    ensures ToLower(DefaultLoginError) == "login failed. please try again."
  {
  }

  lemma {:induction false} DefaultTextLacksKeywords(lower: string)
    requires lower == "login failed. please try again."
    ensures !Includes(lower, "pending") && !Includes(lower, "rejected") && !Includes(lower, "invalid")
  {
    DefaultTextLacksPending(lower);
    NoOccurrence(lower, "rejected", 'j');
    NoOccurrence(lower, "invalid", 'v');
  }

  /** Every letter of "pending" is in the default text, but its 'p' is
      followed by an 'l'. */
  lemma {:induction false} DefaultTextLacksPending(lower: string)
    requires lower == "login failed. please try again."
    ensures !Includes(lower, "pending")
  {
    NoPairOccurrence(lower, "pending");
  }

  /** How a submission ends: the store writes and the page to go to on
      success, or the text to show (None: none shown) on failure. */
  datatype LoginOutcome =
    | LoggedIn(token: JsValue, role: JsValue, firstLogin: JsValue)
    | LoginFailed(error: Option<ApiError>)

  /** The outcome for the call's result: success needs a body that
      destructures. */
  function Outcome(result: ApiResult): LoginOutcome {
    match result
    case Failure(err) => LoginFailed(Some(err))
    case Success(response) =>
      match Destructure(response.data)
      case None => LoginFailed(None)
      case Some((token, role, firstLogin)) => LoggedIn(token, role, firstLogin)
  }

  /** The page a successful login goes to: the password page only for the
      boolean `true`, not for the string "true". */
  function LandingPage(firstLogin: JsValue): (path: string)
    ensures path == ForceChangePasswordPath <==> firstLogin == Bool(true)
    ensures path != ForceChangePasswordPath ==> path == DashboardPath
  {
    if firstLogin == Bool(true) then ForceChangePasswordPath else DashboardPath
  }

  /** The store a successful login leaves: the four keys written, each the
      `String()` of what the server sent, the email as typed. */
  function SessionAfterLogin(items: map<string, string>, email: string, token: JsValue, role: JsValue, firstLogin: JsValue): map<string, string> {
    items[TokenKey := JsString(token)][RoleKey := JsString(role)][EmailKey := email][FirstLoginKey := JsString(firstLogin)]
  }

  /** `handleSubmit`. Returns the error the page shows ("" for none) and
      where it navigates (None: it stays), together with the redirect a
      logout inside the call asked for. */
  method HandleSubmit(storage: Storage, rt: Runtime, send: Request -> NetworkResult, email: string, password: string)
    returns (error: string, navigateTo: Option<string>, redirect: Option<string>)
    modifies storage
    ensures var body := map["email" := email, "password" := password];
      var result := PostResult(old(storage.items), rt, send, LoginEndpoint, body);
      var store := PostStore(old(storage.items), rt, send, LoginEndpoint, body);
      match Outcome(result)
      case LoggedIn(token, role, firstLogin) =>
        storage.items == SessionAfterLogin(store, email, token, role, firstLogin)
        && error == "" && navigateTo == Some(LandingPage(firstLogin))
      case LoginFailed(err) =>
        storage.items == store && navigateTo == None
        && error == (if ErrorText(err).Some? then ErrorText(err).value else "")
    ensures var result := PostResult(old(storage.items), rt, send, LoginEndpoint, map["email" := email, "password" := password]);
      redirect == (if RequestDecision(old(storage.items), rt) == RejectExpired
                      || (result.Failure? && LogsOutOn(result.error))
                   then Some(LoginPath) else None)
  {
    error, navigateTo := "", None;
    var body := map["email" := email, "password" := password];
    var result;
    result, redirect := Post(storage, rt, send, LoginEndpoint, body);
    var err: Option<ApiError> := None;
    if result.Failure? {
      err := Some(result.error);
    } else {
      var fields := Destructure(result.response.data);
      if fields.Some? {
        var (token, role, firstLogin) := fields.value;
        storage.SetItem(TokenKey, JsString(token));
        storage.SetItem(RoleKey, JsString(role));
        storage.SetItem(EmailKey, email);
        storage.SetItem(FirstLoginKey, JsString(firstLogin));
        navigateTo := Some(LandingPage(firstLogin));
        return;
      }
    }
    var shown := ErrorText(err);
    if shown.Some? {
      error := shown.value;
    }
  }

  /** After a successful login, the store reads back what the server sent:
      the token and role as strings, the typed email, and, for a boolean
      `firstLogin`, a first-login flag equal to it. */
  lemma {:induction false} LoginStoresSession(items: map<string, string>, email: string, token: JsValue, role: JsValue, firstLogin: JsValue)
    ensures var s := SessionAfterLogin(items, email, token, role, firstLogin);
      GetToken(s) == Some(JsString(token)) && GetRole(s) == Some(JsString(role))
      && GetItem(s, EmailKey) == Some(email)
      && (firstLogin.Bool? ==> (IsFirstLogin(s) <==> firstLogin.b))
  {
  }

  /** The gate and the redirect agree for a boolean `firstLogin`: the
      landing page is the password page exactly when the stored flag is
      set. The string "true" stores the flag without the redirect that
      goes with it. */
  lemma {:induction false} LandingAgreesWithGate(items: map<string, string>, email: string, token: JsValue, role: JsValue, firstLogin: JsValue)
    ensures var s := SessionAfterLogin(items, email, token, role, firstLogin);
      firstLogin.Bool? ==> (IsFirstLogin(s) <==> LandingPage(firstLogin) == ForceChangePasswordPath)
    ensures var s := SessionAfterLogin(items, email, token, role, firstLogin);
      firstLogin == Str("true") ==> IsFirstLogin(s) && LandingPage(firstLogin) == DashboardPath
  {
  }

  /** A failed login writes none of the four keys: the store is the one
      the call left, which is the old one unless an interceptor logged
      out. */
  lemma {:induction false} FailedLoginWritesNothing(items: map<string, string>, rt: Runtime, send: Request -> NetworkResult, body: map<string, string>)
    requires Outcome(PostResult(items, rt, send, LoginEndpoint, body)).LoginFailed?
    ensures var store := PostStore(items, rt, send, LoginEndpoint, body);
      store == items || store == map[]
  {
  }

  /** A network failure, a thrown "Token expired" and a body that does not
      destructure all show the default text. */
  lemma {:induction false} UnreadableFailuresShowDefault()
    ensures ErrorText(None) == Some(DefaultLoginError)
    ensures ErrorText(Some(LocalRejection(TokenExpiredReason))) == Some(DefaultLoginError)
    ensures ErrorText(Some(HttpError(None))) == Some(DefaultLoginError)
  {
    DefaultTextClassifies();
  }

  /** A login attempted while an expired token is still stored never
      reaches the server: the request interceptor logs out and rejects,
      so the store ends empty, the page is replaced with /login, and the
      form shows the default text. */
  lemma {:induction false} ExpiredSessionLoginShowsDefault(items: map<string, string>, rt: Runtime,
                                  send: Request -> NetworkResult, email: string, password: string)
    requires HasToken(items) && IsTokenExpired(items[TokenKey], rt)
    ensures var body := map["email" := email, "password" := password];
      var result := PostResult(items, rt, send, LoginEndpoint, body);
      RequestDecision(items, rt) == RejectExpired
      && Outcome(result) == LoginFailed(Some(LocalRejection(TokenExpiredReason)))
      && PostStore(items, rt, send, LoginEndpoint, body) == map[]
      && ErrorText(Outcome(result).error) == Some(DefaultLoginError)
  {
    var body := map["email" := email, "password" := password];
    ExpiredTokenNeverSent(items, rt, send, send, LoginEndpoint, body);
    UnreadableFailuresShowDefault();
  }
}
