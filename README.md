# Session and access control of the employee-management frontend

A model of the client-side session logic of a React single-page application
for managing employees. The application keeps its session in the browser's
`localStorage` under four keys:

- `token`: a JSON Web Token;
- `role`: `ADMIN`, `MANAGER` or `EMPLOYEE`;
- `email`;
- `firstLogin`: the string `"true"` while the initial password has not yet
  been changed.

Every other decision is made from these four keys:

- which page a navigation ends on;
- whether a request carries a bearer credential;
- when the session is thrown away.

The model covers these parts:

- **auth** (`Auth`, `TokenInspector`, `Base64`, `JsStrings`): the session
  getters, `isAuthenticated` and `logout`. It also covers `isTokenExpired`,
  which reads the `exp` claim of the token without checking its signature,
  through `token.split(".")`, the browser's `atob` and `JSON.parse`.
- **the route guards** (`Gates`): ProtectedRoute applies three checks in a
  fixed order: authentication, the first-login trap, and the reverse trap
  on the password page. RoleRoute compares the stored role exactly with the
  required one.
- **the route table** (`Routes`): which guards App.js nests around each
  path, with the matching rules of React Router 6. The navigation decision
  composes these guards.
- **the HTTP client** (`Api`): the request interceptor attaches the bearer
  credential, or logs out and refuses to send when the token has expired.
  The response interceptor logs out on a 401 and passes every error on.
  `api.post` is the composition of the two interceptors around the network.
- **the pages that write the session**:
  - `Login`: store the session the server returns, pick the landing page,
    and classify the error message.
  - `ForceChangePassword`: validate the form, then force a fresh login.
  - `Dashboard`: its own logout, and the statistics and card groups chosen
    by role.

`localStorage` is a class holding a `map<string, string>` that the methods
update in place. A `logout()`'s `window.location.replace` and a page's
`navigate` are method outputs. Three things are parameters:

- the network: a function from the request to its outcome;
- the clock: `Date.now()`, in milliseconds;
- `JSON.parse`: a function from the decoded bytes to an optional payload.

JavaScript values the pages receive from the server are the `JsValue`
datatype. String coercion and truthiness are written out as JavaScript
defines them.

## Model

| member | source | states |
|---|---|---|
| LocalStorage.GetItem | src/utils/auth.js:5 | `getItem` returns a value exactly for a stored key, and that value is the stored one |
| LocalStorage.Storage.SetItem | src/pages/auth/Login.jsx:27-30 | `setItem` changes only the given key, to the given value |
| LocalStorage.Storage.RemoveItem | src/pages/common/Dashboard.jsx:151-153 | `removeItem` removes only the given key |
| LocalStorage.Storage.Clear | src/utils/auth.js:23 | `clear` leaves the empty store |
| JsValues.JsString | src/pages/auth/Login.jsx:30 | `String(v)` of a string is itself; `String(b)` of a boolean is "true" exactly when `b` holds, and "false" otherwise; `undefined` and `null` become "undefined" and "null", which is what `setItem` stores for a missing response field |
| JsValues.Truthy | src/pages/auth/Login.jsx:46 | `undefined` and `null` are falsy and every object is truthy; a string is truthy exactly when non-empty and a boolean exactly when `String()` of it is "true", as `if` and the logical or test them |
| JsValues.Property | src/pages/auth/Login.jsx:46-47 | `v?.name` is `undefined` on anything but an object; a value other than `undefined` is the object's own field of that name |
| JsValues.PropertyOfUpdate | src/pages/auth/Login.jsx:24-47 | the read-back law that partners `Property`, which stands for the reads of the response body's fields (line 24) and of `errorData?.message` (lines 46-47): a field set on an object reads back as set, and the other fields read as before |
| JsStrings.LowerChar | src/pages/auth/Login.jsx:50 | the result is never an upper-case ASCII letter; other characters are unchanged; an upper-case letter moves by 32 |
| JsStrings.ToLowerIdempotent | src/pages/auth/Login.jsx:50 | lower-casing twice is lower-casing once |
| JsStrings.ToLowerOfLower | src/pages/auth/Login.jsx:50 | a string without upper-case ASCII letters is its own lower case |
| JsStrings.ToLower | src/pages/auth/Login.jsx:50 | the lower case has the same length and holds no upper-case ASCII letter; each upper-case ASCII letter becomes its own lower-case letter (32 code points on), and every other character stays in place |
| JsStrings.Includes | src/pages/auth/Login.jsx:50-54 | `includes` holds only when the pattern is no longer than the text; with IncludesInfix and IncludesFound, it holds exactly when the text is some `a + p + b` |
| JsStrings.IncludesInfix | src/pages/auth/Login.jsx:50-54 | a text holding the pattern at any offset includes it |
| JsStrings.IncludesFound | src/pages/auth/Login.jsx:50-54 | the converse of IncludesInfix: a text that includes the pattern is some `a + p + b`, so a message that includes no keyword holds none of them |
| JsStrings.Split | src/utils/auth.js:9 | `split` always gives at least one piece, and no piece holds the separator |
| JsStrings.JoinSplit | src/utils/auth.js:9 | joining the pieces of `split` gives back the string |
| JsStrings.SplitJoin | src/utils/auth.js:9 | splitting a join of separator-free pieces gives back the pieces |
| JsStrings.SplitSinglePiece | src/utils/auth.js:9 | `split(".")` has no piece 1 exactly when the string has no '.' |
| JsStrings.SplitSecondPiece | src/utils/auth.js:9 | piece 1 of `header.payload...` is the payload, whatever the header and the trailing pieces |
| JsStrings.SplitAtSeparator | src/utils/auth.js:9 | splitting at a separator splits both sides independently |
| Base64.RemoveWhitespace | src/utils/auth.js:9 | removing whitespace never lengthens the input and keeps exactly the characters that are not ASCII whitespace |
| Base64.RemoveWhitespaceOne | src/utils/auth.js:9 | a single whitespace character is removed and any other character is kept |
| Base64.RemoveWhitespaceAppend | src/utils/auth.js:9 | whitespace removal distributes over concatenation, so the kept characters stay in order and none is repeated |
| Base64.Atob | src/utils/auth.js:9 | the number of decoded bytes is fixed by the characters left after whitespace and padding are removed; a count leaving remainder 1 when divided by four throws |
| Base64.AtobRejectsForeignCharacter | src/utils/auth.js:9 | any character that is not whitespace, '=' or in the base64 alphabet makes `atob` throw |
| Base64.AtobRejectsUrlSafe | src/utils/auth.js:9 | a '-' or '_' (the URL-safe alphabet) makes `atob` throw |
| Base64.AtobRejectsRemainderOne | src/utils/auth.js:9 | a length leaving remainder 1 when divided by four makes `atob` throw |
| Base64.AtobOfUndefinedFails | src/utils/auth.js:9 | `atob(undefined)` throws, so the missing piece 1 is caught |
| Base64.AtobBtoa | src/utils/auth.js:9 | `atob` decodes every standard padded base64 encoding back to its bytes |
| Base64.AtobUnpadded | src/utils/auth.js:9 | `atob` also decodes every unpadded standard-alphabet encoding, the form a token's pieces take, back to its bytes |
| TokenInspector.BtoaCharacters | src/utils/auth.js:9 | a standard base64 encoding holds only alphabet characters and '=', so never the '.' that `split` cuts on |
| TokenInspector.PayloadSegmentRejections | src/utils/auth.js:9 | piece 1 fails `atob` when the token has no '.' (it is `"undefined"`) and when it holds '-' or '_' |
| TokenInspector.PayloadSegment | src/utils/auth.js:9 | the argument `atob` receives: "undefined" when the token has no '.' (there is no piece 1), and never a string holding '.' |
| TokenInspector.DecodePayload | src/utils/auth.js:9 | a token without '.' or with a URL-safe payload does not decode; a decoded payload is `JSON.parse` of the `atob` of piece 1 |
| TokenInspector.IsTokenExpired | src/utils/auth.js:7-14 | expired when decoding or parsing throws or the payload is `null`; not expired when `exp` is missing; otherwise expired exactly when now >= exp * 1000 |
| TokenInspector.NoDotIsExpired | src/utils/auth.js:9-12 | a token without '.' is expired |
| TokenInspector.UrlSafePayloadIsExpired | src/utils/auth.js:9-12 | a payload segment holding '-' or '_' makes the token expired |
| TokenInspector.OnlyPayloadSegmentMatters | src/utils/auth.js:9 | the header, the signature and any extra pieces never change the answer |
| TokenInspector.ExpiryOfWellFormedToken | src/utils/auth.js:9-10 | for `header.btoa(payload).signature`, expired exactly when now >= exp * 1000, the boundary instant included |
| TokenInspector.ExpiryOfUnpaddedToken | src/utils/auth.js:9-10 | the same for a payload piece written without padding in the standard alphabet: expired exactly when now >= exp * 1000 |
| TokenInspector.ExpiryIsMonotone | src/utils/auth.js:10 | an expired token stays expired as the clock advances |
| Auth.GetToken | src/utils/auth.js:1 | `getToken()` is the stored token exactly when one is stored, `null` otherwise |
| Auth.GetRole | src/utils/auth.js:2 | `getRole()` is the stored role exactly when one is stored, `null` otherwise |
| Auth.IsFirstLogin | src/utils/auth.js:4-5 | true exactly when the stored flag is the string "true" |
| Auth.HasToken | src/utils/auth.js:18 | the token test fails for a missing token and for the empty string |
| Auth.IsAuthenticated | src/utils/auth.js:16-20 | authenticated exactly when a non-empty token is stored and is not expired |
| Auth.Logout | src/utils/auth.js:22-25 | the store is empty afterwards, and the redirect is to /login |
| Auth.LogoutTwice | src/utils/auth.js:22-25 | a second logout leaves the same empty store and the same redirect |
| Auth.ClearedSessionIsAnonymous | src/utils/auth.js:22-25 | after a logout: not authenticated, no first-login flag, no role |
| Auth.AuthenticationReadsOnlyToken | src/utils/auth.js:16-20 | writing or removing any key other than `token` leaves authentication unchanged |
| Gates.ProtectedRoute | src/components/ProtectedRoute.js:8-28 | allows exactly an authenticated session whose first-login flag is set iff the path is the password page; otherwise redirects to /login, /force-change-password or /dashboard |
| Gates.UnauthenticatedGoesToLogin | src/components/ProtectedRoute.js:8-10 | an unauthenticated session goes to /login whatever the path and the flag |
| Gates.FirstLoginTrap | src/components/ProtectedRoute.js:13-18 | with the flag set, every other path goes to the password page, and that page is allowed |
| Gates.ReverseTrap | src/components/ProtectedRoute.js:21-26 | with the flag clear, the password page goes to /dashboard and every other path is allowed |
| Gates.ProtectedRedirectLeavesPath | src/components/ProtectedRoute.js:8-26 | a redirect never points back at the requested path |
| Gates.ProtectedRouteOneHop | src/components/ProtectedRoute.js:8-28 | for an authenticated session, the gate allows the path it redirected to |
| Gates.ProtectedRouteIgnoresRole | src/components/ProtectedRoute.js:8-28 | setting or removing the role never changes the decision |
| Gates.RoleRoute | src/components/RoleRoute.js:4-8 | allows exactly when the stored role equals the required one; otherwise redirects to /unauthorized |
| Gates.AbsentRoleNeverMatches | src/components/RoleRoute.js:5 | with no stored role, every role gate redirects |
| Gates.RoleRouteReadsOnlyRole | src/components/RoleRoute.js:5 | keys other than `role` never change the decision |
| Gates.AtMostOneRolePasses | src/components/RoleRoute.js:5-7 | a session passes the gate of at most one role |
| Routes.RouteOf | src/App.js:38-93 | a path behind a role gate is behind the gate of ADMIN, MANAGER or EMPLOYEE |
| Routes.Navigate | src/App.js:38-93 | public pages, /unauthorized and unmatched paths are allowed for every session; "/" goes to /login; the dashboard, profile and password pages are decided by ProtectedRoute alone |
| Routes.RootGoesToLogin | src/App.js:38 | "/" redirects to /login for every session |
| Routes.RouteOfLogin | src/App.js:40 | /login is a public page |
| Routes.RouteOfRegister | src/App.js:39 | /register is a public page |
| Routes.RouteOfForgotPassword | src/App.js:41 | /forgot-password is a public page |
| Routes.RouteOfDashboard | src/App.js:46 | /dashboard is behind ProtectedRoute only |
| Routes.RouteOfProfile | src/App.js:47 | /profile is behind ProtectedRoute only |
| Routes.ProfileNeedsSession | src/App.js:44-47 | a session that is not authenticated, such as one holding an expired token, is sent from /profile to /login |
| Routes.RouteOfForceChangePassword | src/App.js:48 | /force-change-password is behind ProtectedRoute only |
| Routes.RouteOfUnauthorized | src/App.js:91 | /unauthorized stands outside every guard |
| Routes.RouteOfOne | src/App.js:39-48 | a one-segment path is routed by its segment's lower case, whatever the case it is typed in |
| Routes.RouteOfUpperCaseLogin | src/App.js:40 | "/LOGIN" reaches the public login page |
| Routes.RouteOfSectionPage | src/App.js:52-87 | a section and one of its pages, in any letter case, reach that section's role gate |
| Routes.RouteOfEditUser | src/App.js:59 | `/<section>/edit-user/<id>` with any non-empty `id` reaches the role gate of its section, admin or manager |
| Routes.RouteOfAdminEditUser | src/App.js:59 | `/admin/edit-user/<id>` is behind the ADMIN gate for any non-empty `id` |
| Routes.RouteOfManagerEditUser | src/App.js:73 | `/manager/edit-user/<id>` is behind the MANAGER gate for any non-empty `id` |
| Routes.RouteOfAdminManageUsers | src/App.js:57 | /admin/manage-users is behind the ADMIN gate |
| Routes.RouteOfManagerManageUsers | src/App.js:71 | /manager/manage-users is behind the MANAGER gate |
| Routes.RedirectTargetsRoute | src/App.js:38-93 | each guard's redirect target is a page the table routes: /login public, /force-change-password and /dashboard protected, /unauthorized unguarded |
| Routes.PublicPagesNeedNoSession | src/App.js:39-41 | /login, /register, /forgot-password and /unauthorized are allowed with an empty store |
| Routes.NavigateRedirectLeavesPath | src/App.js:38-93 | a navigation redirect never points back at the requested path |
| Routes.RedirectTargets | src/App.js:38-93 | a redirect goes to /login, to /unauthorized, to the password page (first login only) or to /dashboard (flag clear only) |
| Routes.NavigateOneHop | src/App.js:38-93 | the page a redirect leads to is allowed for the same session: no chain of redirects |
| Routes.AuthenticationBeforeRole | src/App.js:44-87 | on a role page, an unauthenticated session goes to /login even with the right role |
| Routes.FirstLoginBeforeRole | src/App.js:44-87 | on a role page, a first-login session goes to the password page before any role check |
| Routes.RolePageAllowedIff | src/App.js:52-87 | a role page is shown exactly to an authenticated session with the flag clear that holds that role |
| Routes.RolePageNavigate | src/App.js:44-88 | on a role page, ProtectedRoute decides when it redirects, RoleRoute when it allows |
| Routes.ProtectedPageIgnoresRole | src/App.js:44-48 | /dashboard, /profile and the password page do not depend on the role |
| Routes.RoleSectionsDisjoint | src/App.js:52-87 | a role page is guarded by the role of the section its first segment names |
| Routes.ManagerSessionScenario | src/App.js:52-80 | a MANAGER session is sent to /unauthorized from /admin/manage-users and allowed on /manager/manage-users |
| Routes.RouteOfForceChangePasswordWithSlash | src/App.js:48 | "/force-change-password/" reaches the same protected page |
| Routes.ReverseTrapIsExactMatchOnly | src/components/ProtectedRoute.js:21-26 | with the flag clear, the password page redirects to /dashboard, but the same page with a trailing '/' is allowed |
| Api.RequestDecision | src/service/api.js:12-17 | sends anonymously exactly when no non-empty token is stored; rejects exactly when it is expired; otherwise the credential is "Bearer " + token |
| Api.BearerIffAuthenticated | src/service/api.js:12-17 | a request carries a credential exactly when the session is authenticated |
| Api.BearerCarriesStoredToken | src/service/api.js:17 | the credential is the prefix "Bearer " followed by exactly the stored token |
| Api.RequestInterceptor | src/service/api.js:9-21 | no token: nothing changes; expired: store cleared, redirect to /login, "Token expired" thrown; live: only the Authorization header is set |
| Api.ErrorStatus | src/service/api.js:26 | a thrown string and a network failure have no status; only an HTTP error with a response has one, and it is that response's status |
| Api.LogsOutOn | src/service/api.js:26 | the response interceptor logs out exactly for an HTTP error whose response has status 401 |
| Api.ResponseInterceptor | src/service/api.js:23-31 | the result passes on unchanged; the store is cleared exactly on a 401 error |
| Api.SentRequest | src/service/api.js:9-21 | nothing is sent exactly when the token is expired; what is sent carries the path and body, and an Authorization header exactly when authenticated |
| Api.Post | src/service/api.js:9-31 | the caller receives the composed outcome; the store is cleared by either interceptor's logout and is otherwise unchanged; a redirect happens exactly then |
| Api.ExpiredTokenNeverSent | src/service/api.js:13-16 | with an expired token the call throws "Token expired" and empties the store, whatever the network would answer |
| Api.SuccessPassesThrough | src/service/api.js:24 | a response axios resolves (`Ok`, whatever its status) reaches the caller unchanged and the store is kept |
| Api.ErrorsAreRejectedAgain | src/service/api.js:25-30 | every HTTP error reaches the caller; the store is emptied exactly on a 401 |
| Api.LocalRejectionDoesNotLogOutAgain | src/service/api.js:26 | the thrown "Token expired" has no status, so it causes no second logout |
| Api.OnlyUnauthorizedLogsOut | src/service/api.js:26 | the logout happens exactly for status 401, not for 403 nor any other status |
| Login.Destructure | src/pages/auth/Login.jsx:24 | destructuring throws exactly on `null` and `undefined` |
| Login.MessageSource | src/pages/auth/Login.jsx:40-48 | a string body is used as it is, else a truthy `message` property, else the default text |
| Login.NoTextExactlyForNonStringMessage | src/pages/auth/Login.jsx:40-58 | no text is shown exactly when the body is not a string and its `message` is truthy but not a string |
| Login.MessagePropertyIsClassified | src/pages/auth/Login.jsx:46-58 | an object body whose `message` is the string `m`, whatever its other fields, is classified on `m`, or shows the default text when `m` is empty |
| Login.ErrorText | src/pages/auth/Login.jsx:40-58 | a string body is classified as it is; otherwise a non-empty string `message` is classified; a body with no truthy `message` shows the classified default; nothing is shown exactly when the chosen message is not a string |
| Login.Classify | src/pages/auth/Login.jsx:50-58 | "pending", then "rejected", then "invalid" in the lower-cased message picks the fixed text; a message with none of them is shown as it is |
| Login.ClassifyIgnoresCase | src/pages/auth/Login.jsx:50-58 | messages equal up to ASCII case and holding a keyword are classified alike |
| Login.ClassifyIdempotent | src/pages/auth/Login.jsx:50-58 | classifying a shown text again changes nothing |
| Login.PendingTextClassifies | src/pages/auth/Login.jsx:51 | the pending text is classified as itself |
| Login.RejectedTextClassifies | src/pages/auth/Login.jsx:53 | the rejected text is classified as itself |
| Login.InvalidTextClassifies | src/pages/auth/Login.jsx:55 | the invalid-credentials text is classified as itself |
| Login.DefaultTextClassifies | src/pages/auth/Login.jsx:42 | the default text holds no keyword and is shown as it is |
| Login.LandingPage | src/pages/auth/Login.jsx:33-37 | the password page exactly for the boolean `true`, the dashboard otherwise |
| Login.HandleSubmit | src/pages/auth/Login.jsx:16-62 | on success, `token`, `role` and `firstLogin` hold the `String()` of what the server sent, `email` holds the address typed into the form, and the page moves to the landing page; on failure, the store is the one the call left and the classified message is shown; the logout redirect is /login exactly when the stored token had expired or the call failed with 401 |
| Login.LoginStoresSession | src/pages/auth/Login.jsx:27-30 | the stored token, role and email read back as sent; a boolean `firstLogin` reads back as the flag |
| Login.LandingAgreesWithGate | src/pages/auth/Login.jsx:30-37 | for a boolean `firstLogin` the landing page matches the stored flag; the string "true" sets the flag but lands on /dashboard |
| Login.FailedLoginWritesNothing | src/pages/auth/Login.jsx:39-58 | a failed login leaves the store as it was, or empty when an interceptor logged out |
| Login.UnreadableFailuresShowDefault | src/pages/auth/Login.jsx:40-48 | a network failure, the thrown "Token expired" and a body that does not destructure all show the default text |
| Login.ExpiredSessionLoginShowsDefault | src/pages/auth/Login.jsx:20-58 | logging in while an expired token is stored never reaches the server: the store ends empty, the page goes to /login and the form shows the default text |
| ForceChangePassword.Validate | src/pages/common/ForceChangePassword.jsx:29-43 | "All fields are required" exactly when a field is empty; the mismatch text exactly when all are filled and the two new passwords differ; no error otherwise |
| ForceChangePassword.NoLengthRule | src/pages/common/ForceChangePassword.jsx:34-36 | a one-character new password passes validation |
| ForceChangePassword.EmptinessBeforeMismatch | src/pages/common/ForceChangePassword.jsx:30-32 | an empty field is reported even when the passwords also differ |
| ForceChangePassword.ChangeBody | src/pages/common/ForceChangePassword.jsx:58-61 | the body holds exactly the old and the new password, not the confirmation |
| ForceChangePassword.FailureMessage | src/pages/common/ForceChangePassword.jsx:77-79 | a truthy response body is shown as it is, otherwise the default text |
| ForceChangePassword.HandleSubmit | src/pages/common/ForceChangePassword.jsx:45-85 | a validation error sends nothing and changes nothing; on success the flag becomes "false", the token, role and email go, and the page moves to /login; on failure the error is shown; once sent, the logout redirect is /login exactly when the stored token had expired or the call failed with 401 |
| ForceChangePassword.ChangeForcesNewLogin | src/pages/common/ForceChangePassword.jsx:64-73 | after a change the session is anonymous, the flag is clear, the role is gone, and every protected path goes to /login |
| ForceChangePassword.ChangeKeepsOtherKeys | src/pages/common/ForceChangePassword.jsx:64-71 | keys other than the four session keys survive a change |
| ForceChangePassword.FailedChangeKeepsSession | src/pages/common/ForceChangePassword.jsx:74-82 | a failed change leaves the store as it was, or empty when an interceptor logged out |
| Dashboard.HandleLogout | src/pages/common/Dashboard.jsx:150-155 | the token, role and email go, every other key stays, and the page moves to /login |
| Dashboard.DashboardLogoutKeepsFlag | src/pages/common/Dashboard.jsx:150-155 | afterwards the session is anonymous with no role, but the first-login flag reads as before |
| Dashboard.DashboardLogoutDiffersFromLogout | src/pages/common/Dashboard.jsx:150-155 | unlike `logout()`, a stored flag survives, so the store is not empty |
| Dashboard.StatsRequests | src/pages/common/Dashboard.jsx:33-103 | statistics are fetched exactly for ADMIN and MANAGER, all under /admin/ or /manager/ respectively |
| Dashboard.CardGroups | src/pages/common/Dashboard.jsx:211-459 | each role's cards are shown exactly for that exact role |
| Dashboard.AtMostOneRoleGroup | src/pages/common/Dashboard.jsx:211-564 | at most one role's card group (lines 211, 311 and 459) is shown, and a statistics panel (lines 524-564) is shown exactly when statistics were fetched |
| Dashboard.RoleComparisonIsExact | src/pages/common/Dashboard.jsx:33 | any other role string, "admin" in lower case included, shows no cards and fetches nothing |

## Left out

- Rendering, `alert`, `console.error`, the `loading` flags and `e.preventDefault` do not decide anything about the session.
- The network is a function parameter. Its timing, retries and the axios `baseURL` are not modelled.
- `Date.now()` and `JSON.parse` are parameters. JSON parsing itself is not modelled.
- Requests in flight at the same time are not modelled. Neither are two 401 responses racing to log out, nor a page that reads the store while another call clears it. Each call is one atomic step.
- JsStrings.ToLower: only the ASCII letters are lower-cased. JavaScript's `toLowerCase` also maps non-ASCII letters, which can only make more messages match a keyword.
- Routes.RouteOf: percent-decoding of the pathname and the router's ranking of routes are not modelled. Apart from the catch-all `*`, which ranks last, the table has no overlapping patterns, so ranking does not change the outcome. Case is compared for ASCII letters only.
- TokenInspector.IsTokenExpired: `exp` is an integer number of seconds, or absent. A fractional `exp`, and `exp * 1000` in floating point, are not modelled.
- The edit pages take an `:id` segment. The model only requires that segment to be non-empty; the pages that read it are not part of this model.
- The CRUD pages behind the role gates, Register, ForgotPassword, ViewProfile, NotFound, Unauthorized and src/utils/useAuth.js are not part of this model. Only the guards in front of them are modelled.
- The Dashboard's `role` state starts as "" before its first effect runs. Only the value read from the store is modelled.
- The Dashboard's statistics counts and what it does with the responses are not modelled. Only which requests are sent, and which panels are shown, is modelled.

Five behaviours of the code a reader might not expect:

- Opening a protected page with an expired token only redirects to /login. It does not clear the store; only a request through the HTTP client does.
- A token whose payload lacks `exp` counts as not expired. `payload.exp * 1000` is NaN, and `Date.now() >= NaN` is false.
- The role and the flag are not tied to the token. The dashboard's own logout removes the token but keeps `firstLogin` (Dashboard.DashboardLogoutDiffersFromLogout). A login response without `role` stores the string "undefined" (JsValues.JsString).
- A second `logout()` does redirect again, to the same page, and leaves the same empty store (Auth.LogoutTwice).
- Logging in while an expired token is still stored fails without contacting the server. The request interceptor clears the store, replaces the page with /login, and rejects; the form shows "Login failed. Please try again." (Login.ExpiredSessionLoginShowsDefault).
