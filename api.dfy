/**
 * src/service/api.js: the shared HTTP client and its two interceptors. The
 * request interceptor attaches `Authorization: Bearer <token>` when a live
 * token is stored, and logs out and refuses to send when the stored token
 * has expired. The response interceptor passes successes through and logs
 * out on a 401 before passing the error on.
 *
 * The network is a function from the request to its outcome; the store is
 * the `Storage` object; a logout's `window.location.replace` is the
 * `redirect` output.
 */
module Api {
  import opened JsStrings
  import opened LocalStorage
  import opened TokenInspector
  import opened Auth
  import opened JsValues

  /** An HTTP response: its status and its parsed body (`response.data`). */
  datatype HttpResponse = HttpResponse(status: int, data: JsValue)

  /** What the network makes of a request: a response axios resolves (by
      its default, a 2xx one; the status is not looked at here), or an
      error with the response when there was one (none for a network
      failure). */
  datatype NetworkResult = Ok(response: HttpResponse) | Failed(errorResponse: Option<HttpResponse>)

  /** A request as it leaves the client: path, JSON body and headers. */
  datatype Request = Request(path: string, body: map<string, string>, headers: map<string, string>)

  /** Why a call was rejected: the string "Token expired" thrown by the
      request interceptor, or an axios error with its optional response. */
  datatype ApiError = LocalRejection(reason: string) | HttpError(response: Option<HttpResponse>)

  /** How `await api.post(...)` ends: it resolves to a response or throws. */
  datatype ApiResult = Success(response: HttpResponse) | Failure(error: ApiError)

  const AuthorizationHeader := "Authorization"
  const ContentTypeHeader := "Content-Type"
  const JsonContentType := "application/json"
  const TokenExpiredReason := "Token expired"
  const UnauthorizedStatus := 401

  /** The headers every request starts with (`axios.create`). */
  const DefaultHeaders: map<string, string> := map[ContentTypeHeader := JsonContentType]

  /** The three ways the request interceptor can go. */
  datatype RequestStep = SendAnonymous | RejectExpired | SendWithBearer(authorization: string)

  /** The request interceptor's choice for a store snapshot: no token (or
      the empty string) sends the request as it is; an expired token
      rejects it; a live one is attached as a bearer credential. */
  function RequestDecision(items: map<string, string>, rt: Runtime): (d: RequestStep)
    ensures d == SendAnonymous <==> !HasToken(items)
    ensures d == RejectExpired <==> HasToken(items) && IsTokenExpired(items[TokenKey], rt)
    ensures d.SendWithBearer? ==> d.authorization == "Bearer " + items[TokenKey]
  {
    if !HasToken(items) then SendAnonymous
    else if IsTokenExpired(GetToken(items).value, rt) then RejectExpired
    else SendWithBearer("Bearer " + GetToken(items).value)
  }

  /** A request carries a bearer credential exactly when the session is
      authenticated in the sense the route guards use. */
  lemma {:induction false} BearerIffAuthenticated(items: map<string, string>, rt: Runtime)
    ensures RequestDecision(items, rt).SendWithBearer? <==> IsAuthenticated(items, rt)
  {
  }

  /** The credential is the stored token behind a fixed prefix, so the
      server sees exactly the token the login stored. */
  lemma {:induction false} BearerCarriesStoredToken(items: map<string, string>, rt: Runtime)
    requires RequestDecision(items, rt).SendWithBearer?
    ensures var a := RequestDecision(items, rt).authorization;
      |a| > 7 && a[..7] == "Bearer " && a[7..] == items[TokenKey]
  {
    var a := RequestDecision(items, rt).authorization;
    assert a == "Bearer " + items[TokenKey];
  }

  /** The mutable request configuration the interceptor receives. */
  class RequestConfig {
    var headers: map<string, string>

    constructor (headers: map<string, string>)
      ensures this.headers == headers
    {
      this.headers := headers;
    }
  }

  /** The request interceptor. On rejection it has called `logout()` and
      returns the reason; otherwise it returns None and the request goes
      out with `config.headers`. */
  method RequestInterceptor(storage: Storage, config: RequestConfig, rt: Runtime)
    returns (rejected: Option<string>, redirect: Option<string>)
    modifies storage, config
    ensures match RequestDecision(old(storage.items), rt)
      case SendAnonymous =>
        rejected == None && redirect == None
        && storage.items == old(storage.items) && config.headers == old(config.headers)
      case RejectExpired =>
        rejected == Some(TokenExpiredReason) && redirect == Some(LoginPath)
        && storage.items == map[] && config.headers == old(config.headers)
      case SendWithBearer(authorization) =>
        rejected == None && redirect == None && storage.items == old(storage.items)
        && config.headers == old(config.headers)[AuthorizationHeader := authorization]
  {
    rejected, redirect := None, None;
    var token := GetItem(storage.items, TokenKey);
    if token.Some? && token.value != "" {
      if IsTokenExpired(token.value, rt) {
        var to := Logout(storage);
        return Some(TokenExpiredReason), Some(to);
      }
      config.headers := config.headers[AuthorizationHeader := "Bearer " + token.value];
    }
  }

  /** `err.response?.status`: a thrown string has no `response`, and a
      network failure has none either. */
  function ErrorStatus(err: ApiError): (status: Option<int>)
    ensures err.LocalRejection? ==> status == None
    ensures status.Some? <==> err.HttpError? && err.response.Some?
    ensures status.Some? ==> status.value == err.response.value.status
  {
    match err
    case LocalRejection(_) => None
    case HttpError(None) => None
    case HttpError(Some(r)) => Some(r.status)
  }

  /** `err.response?.data`, what the pages' catch blocks read. */
  function ResponseData(err: ApiError): JsValue {
    match err
    case HttpError(Some(response)) => response.data
    case _ => Undefined
  }

  /** Whether the response interceptor logs out on an error: strict
      equality with 401. */
  function LogsOutOn(err: ApiError): (r: bool)
    ensures r <==> err.HttpError? && err.response.Some? && err.response.value.status == 401
  {
    ErrorStatus(err) == Some(UnauthorizedStatus)
  }

  /** The response interceptor: the identity on success; on error, a
      `logout()` when the status is 401, and the same error rejected again
      in every case. */
  method ResponseInterceptor(storage: Storage, result: ApiResult)
    returns (out: ApiResult, redirect: Option<string>)
    modifies storage
    ensures out == result
    ensures result.Failure? && LogsOutOn(result.error) ==>
      storage.items == map[] && redirect == Some(LoginPath)
    ensures !(result.Failure? && LogsOutOn(result.error)) ==>
      storage.items == old(storage.items) && redirect == None
  {
    out, redirect := result, None;
    if result.Failure? && ErrorStatus(result.error) == Some(UnauthorizedStatus) {
      var to := Logout(storage);
      redirect := Some(to);
    }
  }

  /** What the network returns, seen as the outcome of the axios call. */
  function FromNetwork(n: NetworkResult): ApiResult {
    match n
    case Ok(r) => Success(r)
    case Failed(r) => Failure(HttpError(r))
  }

  /** The request that reaches the network for a store snapshot (None when
      the request interceptor rejects it). */
  function SentRequest(items: map<string, string>, rt: Runtime, path: string, body: map<string, string>): (r: Option<Request>)
    ensures r.None? <==> RequestDecision(items, rt) == RejectExpired
    ensures r.Some? ==> r.value.path == path && r.value.body == body
    ensures r.Some? ==> (AuthorizationHeader in r.value.headers <==> IsAuthenticated(items, rt))
    ensures r.Some? && IsAuthenticated(items, rt) ==>
      r.value.headers[AuthorizationHeader] == "Bearer " + items[TokenKey]
  {
    match RequestDecision(items, rt)
    case SendAnonymous => Some(Request(path, body, DefaultHeaders))
    case RejectExpired => None
    case SendWithBearer(authorization) =>
      Some(Request(path, body, DefaultHeaders[AuthorizationHeader := authorization]))
  }

  /** What `await api.post(path, body)` resolves to or throws. */
  function PostResult(items: map<string, string>, rt: Runtime, send: Request -> NetworkResult,
                      path: string, body: map<string, string>): ApiResult
  {
    match SentRequest(items, rt, path, body)
    case None => Failure(LocalRejection(TokenExpiredReason))
    case Some(request) => FromNetwork(send(request))
  }

  /** The store after the call: cleared by either interceptor's logout,
      otherwise as it was. */
  function PostStore(items: map<string, string>, rt: Runtime, send: Request -> NetworkResult,
                     path: string, body: map<string, string>): map<string, string>
  {
    var result := PostResult(items, rt, send, path, body);
    if RequestDecision(items, rt) == RejectExpired || (result.Failure? && LogsOutOn(result.error)) then map[]
    else items
  }

  /** `api.post(path, body)`: a fresh configuration with the default
      headers, the request interceptor, the network, then the response
      interceptor, whose error handler also sees a rejection from the
      request interceptor. Returns the last redirect a logout asked for. */
  method Post(storage: Storage, rt: Runtime, send: Request -> NetworkResult, path: string, body: map<string, string>)
    returns (result: ApiResult, redirect: Option<string>)
    modifies storage
    ensures result == PostResult(old(storage.items), rt, send, path, body)
    ensures storage.items == PostStore(old(storage.items), rt, send, path, body)
    ensures redirect.Some? <==>
      RequestDecision(old(storage.items), rt) == RejectExpired || (result.Failure? && LogsOutOn(result.error))
    ensures redirect.Some? ==> redirect.value == LoginPath
  {
    var config := new RequestConfig(DefaultHeaders);
    var rejected, first := RequestInterceptor(storage, config, rt);
    var outcome: ApiResult;
    if rejected.Some? {
      outcome := Failure(LocalRejection(rejected.value));
    } else {
      outcome := FromNetwork(send(Request(path, body, config.headers)));
    }
    var second;
    result, second := ResponseInterceptor(storage, outcome);
    redirect := if second.Some? then second else first;
  }

  /** With an expired token nothing is sent: the outcome and the store are
      the same whatever the network would have answered. */
  lemma {:induction false} ExpiredTokenNeverSent(items: map<string, string>, rt: Runtime,
                              send1: Request -> NetworkResult, send2: Request -> NetworkResult,
                              path: string, body: map<string, string>)
    requires HasToken(items) && IsTokenExpired(items[TokenKey], rt)
    ensures PostResult(items, rt, send1, path, body) == Failure(LocalRejection(TokenExpiredReason))
    ensures PostResult(items, rt, send1, path, body) == PostResult(items, rt, send2, path, body)
    ensures PostStore(items, rt, send1, path, body) == map[]
  {
  }

  /** A response axios resolves reaches the caller unchanged, whatever its
      status, and leaves the store alone. */
  lemma {:induction false} SuccessPassesThrough(items: map<string, string>, rt: Runtime, send: Request -> NetworkResult,
                             path: string, body: map<string, string>)
    requires SentRequest(items, rt, path, body).Some?
    requires send(SentRequest(items, rt, path, body).value).Ok?
    ensures PostResult(items, rt, send, path, body) == Success(send(SentRequest(items, rt, path, body).value).response)
    ensures PostStore(items, rt, send, path, body) == items
  {
  }

  /** Every error reaches the caller as an error, 401 or not; only a 401
      (or the expired token) empties the store. */
  lemma {:induction false} ErrorsAreRejectedAgain(items: map<string, string>, rt: Runtime, send: Request -> NetworkResult,
                               path: string, body: map<string, string>)
    requires SentRequest(items, rt, path, body).Some?
    requires send(SentRequest(items, rt, path, body).value).Failed?
    ensures var r := send(SentRequest(items, rt, path, body).value).errorResponse;
      PostResult(items, rt, send, path, body) == Failure(HttpError(r))
      && (PostStore(items, rt, send, path, body) == map[] <==> (r.Some? && r.value.status == 401) || items == map[])
  {
  }

  /** The "Token expired" rejection passes through the response
      interceptor's error handler without a second logout: a string has no
      `response`. */
  lemma {:induction false} LocalRejectionDoesNotLogOutAgain()
    ensures !LogsOutOn(LocalRejection(TokenExpiredReason))
  {
  }

  /** The status check is strict: 401 alone, not 403 nor any other code. */
  lemma {:induction false} OnlyUnauthorizedLogsOut(status: int, data: JsValue)
    ensures LogsOutOn(HttpError(Some(HttpResponse(status, data)))) <==> status == 401
  {
  }
}
