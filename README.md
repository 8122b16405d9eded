# Session layer of the station admin console, in Dafny

The admin console is a web app whose only stateful logic is its
authentication layer. This project models that layer, which has three parts:

- **Route guard** (`middleware.ts`). Before a page renders, the edge middleware
  checks whether an `access_token` cookie with a non-empty value came with the
  request. It sends visitors without one from `/protected…` and `/` to `/login`,
  and visitors with one from `/login` and `/` to `/protected/dashboard`. Module
  `RouteGuard` models it as a total function, together with the matcher that
  decides which paths reach it.
- **Session manager** (`AuthManager` in `lib/auth.ts`). It keeps the credential
  pair in local storage and in two cookies: the access cookie lives 300 s, the
  refresh cookie 604800 s. It owns one renewal timer of 240000 ms. It logs in,
  renews, logs out and initialises. Module `Auth` models it as the class
  `AuthManager`:
  - local storage and the cookie jar are `map` fields;
  - the runtime's pending timers are a `map` from handle to delay;
  - the page location is a field;
  - `typeof window !== 'undefined'` is the constant `inBrowser`;
  - the network's replies are parameters (`FetchResult`: a status with the
    parsed JSON body, or a failed fetch).

  Module `Jws` models how the user is read from the access token: the token is
  a JWS compact serialisation (section 7.1 of RFC 7515), and the reader takes
  its second `.`-segment and passes it to `atob`.
- **HTTP client** (`ApiClient` in `lib/api.ts`). Module `Api` models it:
  - `request` signs each call with `Authorization: Bearer <token>` (section 2.1
    of RFC 6750);
  - on a 401 while a non-empty access token is stored it renews once and
    retries once;
  - otherwise it maps the status to a value or an error.

  The company and station helpers are fixed method/path pairs. `Request` is a
  method that takes the replies of its (at most three) fetches and updates the
  session manager.

Module `Http` holds the shared values: requests, replies, errors and their
messages.

Details of the code the model keeps that are easy to miss:
- `isAuthenticated` also needs the stored token to be non-empty, and it is false
  outside a browser.
- A 401 on the retry logs out before throwing `HTTP error! status: 401`.
- A 2xx response whose body is not JSON makes `login` and `request` throw (and
  makes `refreshAccessToken` clear the session).
- The guard tests a plain `startsWith('/protected')`.

## Model

| member | source | states |
|---|---|---|
| `RouteGuard.Middleware` | middleware.ts:4-42 | redirects only to `/login` or `/protected/dashboard`, and only from `/`, `/login` or a `/protected…` path; it sends the visitor to `/login` exactly when no non-empty access cookie came and the path is `/` or starts with `/protected` |
| `RouteGuard.Route` | middleware.ts:44-50 | paths outside the matcher (`/`, `/login`, `/protected/:path*`) are never redirected |
| `RouteGuard.Matched` | middleware.ts:44-50 | `config.matcher`: `/`, `/login`, `/protected` and every path below `/protected/`; each matched path is one the middleware has a branch for |
| `RouteGuard.ProtectedNeedsToken` | middleware.ts:9-18 | a path starting with `/protected` passes with a non-empty access cookie and otherwise goes to `/login` |
| `RouteGuard.LoginPageWhenSignedIn` | middleware.ts:21-27 | `/login` goes to the dashboard with the cookie and passes without it |
| `RouteGuard.RootNeverPassesThrough` | middleware.ts:30-39 | `/` goes to the dashboard with the cookie, else to `/login` |
| `RouteGuard.OtherPathsPassThrough` | middleware.ts:41 | every other path passes whatever the cookies |
| `RouteGuard.OnlyAccessTokenConsulted` | middleware.ts:9-41 | two cookie sets that agree on the presence of a non-empty access token get the same answer |
| `RouteGuard.RefreshCookieIgnored` | middleware.ts:9-41 | setting or removing the `refresh_token` cookie never changes the answer |
| `RouteGuard.PrefixWiderThanMatcher` | middleware.ts:9-50 | `/protectedX` without a cookie is redirected by the function but never reaches it through the matcher |
| `RouteGuard.RouteDiffersFromMiddleware` | middleware.ts:9-50 | matcher and guard disagree exactly on unmatched `/protected…` paths visited without a token |
| `RouteGuard.NoRedirectLoop` | middleware.ts:9-41 | following any redirect with the same cookies passes through, with or without the matcher |
| `Http.Bearer` | lib/api.ts:39 | the credentials are `Bearer ` followed by the token itself |
| `Http.IsOk` | lib/api.ts:62 | `response.ok`: the status lies in 200-299 |
| `Http.DecimalString` | lib/api.ts:67 | a status is printed as a non-empty string of decimal digits |
| `Http.DecimalRoundTrip` | lib/api.ts:67 | reading the printed status back gives the status |
| `Http.Message` | lib/api.ts:62-80 | the layer's own errors carry a message (`Login failed`, `HTTP error! status: N`, `Authentication failed`); runtime errors keep theirs |
| `Http.MessageIdentifiesFailure` | lib/api.ts:62-80 | two errors with the same message are the same error, status included |
| `Jws.Split` | lib/auth.ts:161 | `split('.')` yields at least one piece, none holding a separator |
| `Jws.JoinSplit` | lib/auth.ts:161 | joining the pieces with the separator gives back the string |
| `Jws.SplitJoin` | lib/auth.ts:161 | splitting a join of separator-free pieces gives back the pieces |
| `Jws.CompactPayloadSegment` | lib/auth.ts:161 | for `header.payload.signature` the second segment is the payload |
| `Jws.PayloadSegment` | lib/auth.ts:161 | `token.split('.')[1]`, the text `undefined` when the token holds no '.'; never holds a '.' |
| `Jws.RemoveWhitespace` | lib/auth.ts:161 | what `atob` keeps after dropping ASCII whitespace holds no whitespace |
| `Jws.AtobAccepts` | lib/auth.ts:161 | `atob` does not throw: after dropping ASCII whitespace and up to two trailing `=` at a length divisible by four, the length is not one more than a multiple of four and every character is in the standard base64 alphabet |
| `Jws.UndefinedRejected` | lib/auth.ts:161 | `atob("undefined")`, what a token without '.' feeds it, throws |
| `Jws.TokenWithoutDotYieldsNoUser` | lib/auth.ts:156-172 | a token without '.' yields null, as written and as corrected |
| `Jws.UserFromTokenAsWritten` | lib/auth.ts:156-172 | no or empty token gives null; a user is returned only if `atob` accepts the segment |
| `Jws.UserFromToken` | lib/auth.ts:156-172 | no or empty token gives null; the base64url segment is rewritten to the standard alphabet before `atob` |
| `Jws.UrlSegmentAcceptedOnceRewritten` | lib/auth.ts:161 | every unpadded base64url segment passes `atob` once rewritten |
| `Jws.CompactTokenDecoded` | lib/auth.ts:156-172 | for a well-formed compact token the corrected reader hands exactly the payload to the decoder |
| `Jws.AsWrittenDropsUrlSafePayload` | lib/auth.ts:161 | as written, a payload segment holding '-' or '_' yields null |
| `Jws.AsWrittenRejectsSampleToken` | lib/auth.ts:161 | a concrete token the source reads as null and the corrected reader decodes |
| `Auth.ApiUrl` | lib/auth.ts:75 | the environment's URL when set and non-empty, else `http://localhost:3000/api`; never empty |
| `Auth.StorePair` | lib/auth.ts:29-30 | both keys hold the pair's tokens; every other storage entry is kept |
| `Auth.CookiesFor` | lib/auth.ts:33-34 | access cookie with max-age 300, refresh cookie with max-age 604800, both path `/`, secure, strict; other cookies kept |
| `Auth.CookieHeader` | lib/auth.ts:32-34 | a navigation carries exactly the cookies its origin allows: `SameSite=Strict` ones only from this site, `Secure` ones only over HTTPS or to localhost; each by name with its value |
| `Auth.SessionCookiesStayOnSite` | lib/auth.ts:33-34 | a navigation from another site, or over plain HTTP to another host, carries no access cookie, so a protected page sends it to `/login` even while a session is stored |
| `Auth.LoginRequest` | lib/auth.ts:76-82 | the login call is a POST to `<api>/auth/login` with only the JSON content type (no `Authorization`) and the credentials as body |
| `Auth.RefreshRequest` | lib/auth.ts:104-111 | the renewal call is a GET to `<api>/auth/refresh-token` with no body and exactly two headers: `Authorization: Bearer <refresh token>` and the JSON content type |
| `Auth.RefreshOutcome` | lib/auth.ts:95-126 | a renewal yields a pair exactly when a non-empty refresh token is stored and the reply is 2xx with a JSON body, and then it is that body |
| `Auth.LoginOutcome` | lib/auth.ts:74-92 | login returns the body of a 2xx JSON reply; a non-2xx reply throws `Login failed`, a failed fetch or bad JSON throws the runtime's error |
| `Auth.AuthManager.constructor` | lib/auth.ts:23-24 | a new manager has no timer and works on the storage, cookies and location it finds |
| `Auth.AuthManager.AccessToken` | lib/auth.ts:38-43 | null outside a browser or when nothing is stored, else the stored access token |
| `Auth.AuthManager.RefreshToken` | lib/auth.ts:45-50 | null outside a browser or when nothing is stored, else the stored refresh token |
| `Auth.AuthManager.IsAuthenticated` | lib/auth.ts:68-71 | true iff in a browser a non-empty access token is stored |
| `Auth.AuthManager.SetTokens` | lib/auth.ts:27-36 | both tokens and both cookies replaced as a unit, nothing else changed; authenticated afterwards iff the access token is non-empty; a same-site navigation over HTTPS or to localhost then carries a non-empty access cookie exactly when the access token is non-empty |
| `Auth.AuthManager.ClearTokens` | lib/auth.ts:52-65 | both tokens and cookies gone (in a browser), other entries kept, no timer pending or remembered (also outside a browser); not authenticated afterwards; in a browser no navigation carries an access cookie |
| `Auth.AuthManager.ScheduleTokenRefresh` | lib/auth.ts:129-138 | the previous timer is cancelled and exactly one fresh 240000 ms timer is pending |
| `Auth.AuthManager.Login` | lib/auth.ts:74-92 | sends POST `<api>/auth/login`; on success stores the pair and arms one timer; on failure throws and changes nothing |
| `Auth.AuthManager.RefreshAccessToken` | lib/auth.ts:95-126 | no network call without a refresh token; success stores the new pair and re-arms; every failure clears the session and returns null, never throws |
| `Auth.AuthManager.FireRefreshTimer` | lib/auth.ts:135-137 | the fired timer leaves the table and the renewal runs with the same outcome as a direct renewal |
| `Auth.AuthManager.Logout` | lib/auth.ts:141-146 | session cleared, no timer, not authenticated, page sent to `/login` in a browser |
| `Auth.AuthManager.Initialize` | lib/auth.ts:149-153 | arms one timer when authenticated, changes nothing otherwise |
| `Auth.AuthManager.GetUserFromToken` | lib/auth.ts:156-172 | null when not authenticated; otherwise the decoder's verdict on the payload segment, never an exception |
| `Auth.ScheduleTwice` | lib/auth.ts:129-138 | arming twice in a row leaves exactly one pending timer |
| `Api.DefaultHeaders` | lib/api.ts:37-41 | JSON content type always; `Authorization: Bearer <token>` exactly when a non-empty token is stored; nothing else |
| `Api.BuildRequest` | lib/api.ts:31-43 | the URL is base URL plus endpoint; a caller's `headers` replace the whole default set; method defaults to GET |
| `Api.WithBearer` | lib/api.ts:53-59 | the retry keeps URL, method, body and every other header and sets `Authorization` to the renewed token |
| `Api.Outcome` | lib/api.ts:78-82 | a 2xx JSON reply returns its body; a non-2xx reply throws `HTTP error! status: <status>`; a failed fetch or bad JSON rethrows |
| `Api.BearerAttachedIffSignedIn` | lib/api.ts:34-43 | without caller headers, the bearer header is sent iff a non-empty token is stored, and carries it |
| `Api.CallerHeadersDropBearer` | lib/api.ts:36-43 | any request passing its own headers without `Authorization` goes out with exactly those headers, unsigned even when a session exists |
| `Api.Call` | lib/api.ts:90-145 | every helper's endpoint lies under `/company` or `/station` and passes no headers |
| `Api.HelpersSigned` | lib/api.ts:90-145 | every helper request carries the default headers, so it is signed whenever a session exists |
| `Api.ListCollidesWithGetAll` | lib/api.ts:90-95 | listing and getting id `all` send the same request |
| `Api.CallInjective` | lib/api.ts:90-145 | otherwise different helper calls (resource, method, path, body) send different requests |
| `Api.ApiClient.constructor` | lib/api.ts:23-25 | base URL defaults to `http://localhost:3000/api` |
| `Api.ApiClient.Request` | lib/api.ts:27-87 | at most two API fetches and one renewal; renews exactly on a 401 while a non-empty access token is stored; the renewal call goes out only when a refresh token is stored and is the `/auth/refresh-token` request carrying it; the retry carries the renewed token; without renewal the first reply decides and the session is untouched; a failed renewal logs out and throws `Authentication failed`; a 401 retry logs out; errors are always rethrown |

## Left out

- Real time is not modelled. A timer firing is the explicit step `FireRefreshTimer`. Cookie expiry after max-age is not modelled: the cookie stays in the jar.
- Concurrency is not modelled: a proactive renewal racing a 401-triggered one is out of scope.
- Console logging has no effect on behaviour and is left out.
- Response bodies are abstract: a parseable body is taken to have the expected shape. JSON that parses to something else is not modelled. For example, `null` makes `setTokens` throw, and a missing field stores `"undefined"`.
- `JSON.stringify` of the login form is kept symbolic (`CredentialsJson`). Escaping, and cookie values holding `;`, are not modelled.
- Base64 bytes to JSON to user fields is an abstract decoder parameter. Only `atob`'s acceptance test is modelled, per the forgiving-base64 decode of the WHATWG Infra Standard. No signature or expiry check exists in the source.
- A redirect is modelled by its path. The origin copied from `request.url` is not kept.
- Header names are exact map keys; HTTP's case-insensitivity is not modelled.
- The module-level singletons `authManager` and `apiClient` are objects passed explicitly.
- The React pages and components (`app/…`, `components/…`), the Prisma Studio wrapper and the lint configuration are view glue or tooling and are not part of this model.
- Auth.CookieHeader: `Secure` is a property of the navigation as a whole. The jar still records a secure cookie written on a plain-HTTP page, where a browser would refuse to store it; the cookie is simply never sent. Other cookie attributes (domain, path matching) are not modelled.
- Auth.AuthManager.GetUserFromToken: uses the corrected base64url reading listed under Findings. The source's reading is `Jws.UserFromTokenAsWritten`.

## Findings

| source | as written | input that shows it | evidently intended | confidence | as-written member | corrected member |
|---|---|---|---|---|---|---|
| lib/auth.ts:161 | the JWS payload segment, which is base64url, goes straight to `atob`, which takes only the standard alphabet, so any payload whose encoding holds `-` or `_` throws and yields null | token `eyJhbGciOiJIUzI1NiJ9.eyJuIjoiPj4_In0.sig` (payload `{"n":">>?"}`) | rewrite `-`/`_` to `+`/`/` before `atob`, so every well-formed token's payload reaches the JSON decoder | not executed; high | `Jws.AsWrittenRejectsSampleToken` | `Jws.CompactTokenDecoded` |
