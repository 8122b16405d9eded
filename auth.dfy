/** The session manager: it keeps the access and refresh tokens in the page's
    local storage and, for the edge middleware, in cookies; it owns the one
    renewal timer; and it logs in, renews, logs out and reads the user from the
    access token.

    The browser state the manager works on is part of the model: the local
    storage and the cookie jar are maps, the runtime's table of pending timers
    is a map from handle to delay, and the network replies are parameters.
    `typeof window !== 'undefined'` is the constant `inBrowser`. */
module Auth {
  import opened Http
  import RouteGuard
  import Jws

  const AccessTokenKey := "access_token"
  const RefreshTokenKey := "refresh_token"
  const TokenKeys: set<string> := {AccessTokenKey, RefreshTokenKey}

  /** Cookie lifetimes in seconds: five minutes for the access token, seven
      days for the refresh token. */
  const AccessCookieMaxAge: nat := 5 * 60
  const RefreshCookieMaxAge: nat := 7 * 24 * 60 * 60

  /** The renewal timer fires four minutes after it is armed, one minute
      before the access token's assumed five-minute expiry. */
  const RefreshDelayMs: nat := 4 * 60 * 1000

  const DefaultApiUrl := "http://localhost:3000/api"

  /** A credential pair; it is only ever stored as a whole. */
  datatype AuthTokens = AuthTokens(access: string, refresh: string)

  datatype LoginCredentials = LoginCredentials(email: string, password: string)

  /** A cookie as the jar records it. */
  datatype Cookie = Cookie(value: string, path: string, maxAge: nat, secure: bool, sameSiteStrict: bool)

  /** The cookies the manager writes: path=/, secure, samesite=strict. */
  function SessionCookie(value: string, maxAge: nat): Cookie {
    Cookie(value, "/", maxAge, true, true)
  }

  /** `process.env.NEXT_PUBLIC_API_URL || 'http://localhost:3000/api'`. */
  function ApiUrl(env: Option<string>): (url: string)
    ensures url != ""
    ensures env.Some? && env.value != "" ==> url == env.value
    ensures env.None? || env == Some("") ==> url == DefaultApiUrl
  {
    if env.Some? && env.value != "" then env.value else DefaultApiUrl
  }

  /** JavaScript truthiness of a stored token: present and not empty. */
  predicate Present(token: Option<string>) {
    token.Some? && token.value != ""
  }

  /** Local storage after both tokens are written; other keys are untouched. */
  function StorePair(storage: map<string, string>, tokens: AuthTokens): (s: map<string, string>)
    ensures s.Keys == storage.Keys + TokenKeys
    ensures s[AccessTokenKey] == tokens.access && s[RefreshTokenKey] == tokens.refresh
    ensures forall k :: k in storage && k !in TokenKeys ==> s[k] == storage[k]
  {
    storage[AccessTokenKey := tokens.access][RefreshTokenKey := tokens.refresh]
  }

  /** The cookie jar after both token cookies are written. */
  function CookiesFor(jar: map<string, Cookie>, tokens: AuthTokens): (j: map<string, Cookie>)
    ensures j.Keys == jar.Keys + TokenKeys
    ensures j[AccessTokenKey] == SessionCookie(tokens.access, AccessCookieMaxAge)
    ensures j[RefreshTokenKey] == SessionCookie(tokens.refresh, RefreshCookieMaxAge)
    ensures forall k :: k in jar && k !in TokenKeys ==> j[k] == jar[k]
  {
    jar[AccessTokenKey := SessionCookie(tokens.access, AccessCookieMaxAge)]
       [RefreshTokenKey := SessionCookie(tokens.refresh, RefreshCookieMaxAge)]
  }

  /** How a navigation reaches the middleware. A `SameSite=Strict` cookie is
      sent only on a navigation that starts on this site; a `Secure` cookie is
      stored and sent only over HTTPS or to localhost. */
  datatype Navigation = Navigation(sameSite: bool, secureContext: bool)

  /** A same-site navigation over HTTPS or to localhost. */
  const SameSiteSecure := Navigation(true, true)

  predicate Sent(c: Cookie, nav: Navigation) {
    (!c.sameSiteStrict || nav.sameSite) && (!c.secure || nav.secureContext)
  }

  /** The cookies a navigation carries to the middleware, by name. */
  function CookieHeader(jar: map<string, Cookie>, nav: Navigation): (header: map<string, string>)
    ensures forall k :: k in header <==> k in jar && Sent(jar[k], nav)
    ensures forall k :: k in header ==> header[k] == jar[k].value
  {
    map k | k in jar && Sent(jar[k], nav) :: jar[k].value
  }

  /** The session cookies never reach the middleware on a navigation that
      starts on another site or goes over plain HTTP to another host: such a
      navigation to a protected page is sent to the login page even while a
      session is stored. */
  lemma SessionCookiesStayOnSite(jar: map<string, Cookie>, tokens: AuthTokens, nav: Navigation, pathname: string)
    requires !nav.sameSite || !nav.secureContext
    requires RouteGuard.ProtectedPrefix <= pathname
    ensures !RouteGuard.HasAccessToken(CookieHeader(CookiesFor(jar, tokens), nav))
    ensures RouteGuard.Middleware(pathname, CookieHeader(CookiesFor(jar, tokens), nav)) == RouteGuard.Redirect(RouteGuard.LoginPath)
  {
    var header := CookieHeader(CookiesFor(jar, tokens), nav);
    assert RouteGuard.AccessTokenCookie !in header;
    RouteGuard.ProtectedNeedsToken(pathname, header);
  }

  function LoginRequest(apiUrl: string, credentials: LoginCredentials): (req: HttpRequest)
    ensures req.url == apiUrl + "/auth/login" && req.verb == POST
    ensures req.headers.Keys == {"Content-Type"} && req.headers["Content-Type"] == "application/json"
    ensures "Authorization" !in req.headers
    ensures req.body == Some(CredentialsJson(credentials.email, credentials.password))
  {
    HttpRequest(apiUrl + "/auth/login", POST, ContentTypeJson,
                Some(CredentialsJson(credentials.email, credentials.password)))
  }

  /** The renewal call authenticates with the refresh token. */
  function RefreshRequest(apiUrl: string, refreshToken: string): (req: HttpRequest)
    ensures req.url == apiUrl + "/auth/refresh-token" && req.verb == GET && req.body == None
    ensures req.headers.Keys == {"Authorization", "Content-Type"}
    ensures req.headers["Authorization"] == Bearer(refreshToken)
    ensures req.headers["Content-Type"] == "application/json"
  {
    HttpRequest(apiUrl + "/auth/refresh-token", GET,
                ContentTypeJson["Authorization" := Bearer(refreshToken)], None)
  }

  /** What a renewal returns: a new pair exactly when a refresh token is
      stored and the server answers with a 2xx status and a JSON body. */
  function RefreshOutcome(refreshToken: Option<string>, reply: FetchResult<AuthTokens>): (r: Option<AuthTokens>)
    ensures r.Some? <==> Present(refreshToken) && reply.Responded? && IsOk(reply.status) && reply.json.Some?
    ensures r.Some? ==> r == reply.json
  {
    if !Present(refreshToken) then None
    else match reply
      case Responded(status, json) => if IsOk(status) then json else None
      case FetchFailed => None
  }

  /** What a login returns or throws. */
  function LoginOutcome(reply: FetchResult<AuthTokens>): (r: Result<AuthTokens, Failure>)
    ensures r.Ok? <==> reply.Responded? && IsOk(reply.status) && reply.json.Some?
    ensures r.Ok? ==> reply.json == Some(r.value)
    ensures reply.FetchFailed? ==> r == Err(NetworkError)
    ensures reply.Responded? && !IsOk(reply.status) ==> r == Err(LoginFailed)
    ensures reply.Responded? && IsOk(reply.status) && reply.json.None? ==> r == Err(InvalidJson)
  {
    match reply
    case FetchFailed => Err(NetworkError)
    case Responded(status, json) =>
      if !IsOk(status) then Err(LoginFailed)
      else if json.None? then Err(InvalidJson)
      else Ok(json.value)
  }

  /** Writing the pair and then removing both keys leaves what removing
      them alone leaves. */
  lemma StorePairThenRemove(storage: map<string, string>, tokens: AuthTokens)
    ensures StorePair(storage, tokens) - TokenKeys == storage - TokenKeys
  {
  }

  lemma CookiesForThenRemove(jar: map<string, Cookie>, tokens: AuthTokens)
    ensures CookiesFor(jar, tokens) - TokenKeys == jar - TokenKeys
  {
  }

  lemma RemoveTwice<V>(m: map<string, V>)
    ensures m - TokenKeys - TokenKeys == m - TokenKeys
  {
  }

  class AuthManager {
    const inBrowser: bool
    const apiUrl: string

    /** The page's local storage. */
    var localStorage: map<string, string>
    /** The page's cookie jar, by cookie name. */
    var cookies: map<string, Cookie>
    /** The handle of the renewal timer last armed, if any (`refreshTimeout`). */
    var refreshTimeout: Option<nat>
    /** The runtime's pending timers: handle to delay in milliseconds. */
    var timers: map<nat, nat>
    /** The handle the runtime gives to the next timer; handles are positive,
        so a stored handle is always truthy. */
    var nextHandle: nat
    /** The page's location (`window.location.href`). */
    var location: string

    /** At most one timer is pending, and it is the one `refreshTimeout` names. */
    ghost predicate Valid()
      reads this
    {
      && 0 < nextHandle
      && (refreshTimeout.Some? ==> 0 < refreshTimeout.value < nextHandle)
      && (forall h :: h in timers ==> refreshTimeout == Some(h) && timers[h] == RefreshDelayMs)
    }

    /** Exactly one renewal timer is pending, with handle `h`, the last one given out. */
    ghost predicate ArmedWith(h: nat)
      reads this
    {
      refreshTimeout == Some(h) && timers == map[h := RefreshDelayMs] && nextHandle == h + 1
    }

    /** No renewal timer is pending or remembered. */
    ghost predicate Disarmed()
      reads this
    {
      refreshTimeout == None && timers == map[]
    }

    /** Storage and cookies hold `tokens` on top of `storage0` and `jar0`
        (outside a browser neither is touched). */
    ghost predicate HoldsPair(tokens: AuthTokens, storage0: map<string, string>, jar0: map<string, Cookie>)
      reads this
    {
      if inBrowser then localStorage == StorePair(storage0, tokens) && cookies == CookiesFor(jar0, tokens)
      else localStorage == storage0 && cookies == jar0
    }

    /** Both tokens and both cookies are gone from `storage0` and `jar0`. */
    ghost predicate Emptied(storage0: map<string, string>, jar0: map<string, Cookie>)
      reads this
    {
      if inBrowser then localStorage == storage0 - TokenKeys && cookies == jar0 - TokenKeys
      else localStorage == storage0 && cookies == jar0
    }

    /** Where `logout` leaves the page. */
    function LocationAfterLogout(previous: string): string {
      if inBrowser then RouteGuard.LoginPath else previous
    }

    /** A manager over the browser state left by earlier sessions. */
    constructor (inBrowser: bool, env: Option<string>, storage: map<string, string>, jar: map<string, Cookie>, location: string)
      ensures Valid() && Disarmed()
      ensures this.inBrowser == inBrowser && apiUrl == ApiUrl(env)
      ensures localStorage == storage && cookies == jar && this.location == location
    {
      this.inBrowser := inBrowser;
      apiUrl := ApiUrl(env);
      localStorage := storage;
      cookies := jar;
      refreshTimeout := None;
      timers := map[];
      nextHandle := 1;
      this.location := location;
    }

    /** `getAccessToken`: null outside a browser or when nothing is stored. */
    function AccessToken(): (t: Option<string>)
      reads this
      ensures t.Some? <==> inBrowser && AccessTokenKey in localStorage
      ensures t.Some? ==> t.value == localStorage[AccessTokenKey]
    {
      if inBrowser && AccessTokenKey in localStorage then Some(localStorage[AccessTokenKey]) else None
    }

    /** `getRefreshToken`: null outside a browser or when nothing is stored. */
    function RefreshToken(): (t: Option<string>)
      reads this
      ensures t.Some? <==> inBrowser && RefreshTokenKey in localStorage
      ensures t.Some? ==> t.value == localStorage[RefreshTokenKey]
    {
      if inBrowser && RefreshTokenKey in localStorage then Some(localStorage[RefreshTokenKey]) else None
    }

    /** A presence check, not a validity check. */
    function IsAuthenticated(): (b: bool)
      reads this
      ensures b <==> inBrowser && AccessTokenKey in localStorage && localStorage[AccessTokenKey] != ""
    {
      Present(AccessToken())
    }

    method SetTokens(tokens: AuthTokens)
      requires Valid()
      modifies this`localStorage, this`cookies
      ensures Valid()
      ensures HoldsPair(tokens, old(localStorage), old(cookies))
      ensures inBrowser ==> AccessToken() == Some(tokens.access) && RefreshToken() == Some(tokens.refresh)
      ensures IsAuthenticated() <==> inBrowser && tokens.access != ""
      ensures inBrowser ==> (RouteGuard.HasAccessToken(CookieHeader(cookies, SameSiteSecure)) <==> tokens.access != "")
    {
      if inBrowser {
        localStorage := localStorage[AccessTokenKey := tokens.access];
        localStorage := localStorage[RefreshTokenKey := tokens.refresh];
        cookies := cookies[AccessTokenKey := SessionCookie(tokens.access, AccessCookieMaxAge)];
        cookies := cookies[RefreshTokenKey := SessionCookie(tokens.refresh, RefreshCookieMaxAge)];
        assert CookieHeader(cookies, SameSiteSecure)[RouteGuard.AccessTokenCookie] == tokens.access;
      }
    }

    /** Forgets both tokens and cancels the renewal timer; the timer is
        cancelled outside a browser too. */
    method ClearTokens()
      requires Valid()
      modifies this`localStorage, this`cookies, this`refreshTimeout, this`timers
      ensures Valid() && Disarmed()
      ensures Emptied(old(localStorage), old(cookies))
      ensures AccessToken() == None && RefreshToken() == None && !IsAuthenticated()
      ensures inBrowser ==> forall nav :: !RouteGuard.HasAccessToken(CookieHeader(cookies, nav))
    {
      if inBrowser {
        localStorage := localStorage - {AccessTokenKey};
        localStorage := localStorage - {RefreshTokenKey};
        cookies := cookies - {AccessTokenKey};
        cookies := cookies - {RefreshTokenKey};
        assert localStorage == old(localStorage) - TokenKeys;
        assert cookies == old(cookies) - TokenKeys;
      }
      if refreshTimeout.Some? {
        timers := timers - {refreshTimeout.value};
        refreshTimeout := None;
      }
      assert forall h :: h !in timers;
    }

    /** Cancels the pending renewal timer, if any, and arms a fresh one. */
    method ScheduleTokenRefresh()
      requires Valid()
      modifies this`refreshTimeout, this`timers, this`nextHandle
      ensures Valid()
      ensures ArmedWith(old(nextHandle))
      ensures old(refreshTimeout).Some? ==> old(refreshTimeout).value !in timers
    {
      if refreshTimeout.Some? {
        timers := timers - {refreshTimeout.value};
      }
      assert forall h :: h !in timers;
      var handle := nextHandle;
      nextHandle := nextHandle + 1;
      timers := timers[handle := RefreshDelayMs];
      refreshTimeout := Some(handle);
    }

    /** Posts the credentials; on success stores the pair and arms the timer.
        A failed login throws and touches nothing. */
    method Login(credentials: LoginCredentials, reply: FetchResult<AuthTokens>) returns (r: Result<AuthTokens, Failure>, call: HttpRequest)
      requires Valid()
      modifies this`localStorage, this`cookies, this`refreshTimeout, this`timers, this`nextHandle
      ensures Valid()
      ensures call == LoginRequest(apiUrl, credentials)
      ensures r == LoginOutcome(reply)
      ensures r.Ok? ==> HoldsPair(r.value, old(localStorage), old(cookies)) && ArmedWith(old(nextHandle))
      ensures r.Err? ==> unchanged(this)
    {
      call := LoginRequest(apiUrl, credentials);
      match reply
      case FetchFailed =>
        r := Err(NetworkError);
      case Responded(status, json) =>
        if !IsOk(status) {
          r := Err(LoginFailed);
        } else if json.None? {
          r := Err(InvalidJson);
        } else {
          SetTokens(json.value);
          ScheduleTokenRefresh();
          r := Ok(json.value);
        }
    }

    /** Renews the pair with the refresh token. Never throws: every failure,
        including a missing refresh token (checked before any network call),
        clears the session and returns null. */
    method RefreshAccessToken(reply: FetchResult<AuthTokens>) returns (r: Option<AuthTokens>, call: Option<HttpRequest>)
      requires Valid()
      modifies this`localStorage, this`cookies, this`refreshTimeout, this`timers, this`nextHandle
      ensures Valid()
      ensures r == RefreshOutcome(old(RefreshToken()), reply)
      ensures call == if Present(old(RefreshToken())) then Some(RefreshRequest(apiUrl, old(RefreshToken()).value)) else None
      ensures r.Some? ==> HoldsPair(r.value, old(localStorage), old(cookies)) && ArmedWith(old(nextHandle))
      ensures r.None? ==> Emptied(old(localStorage), old(cookies)) && Disarmed() && nextHandle == old(nextHandle)
    {
      var refreshToken := RefreshToken();
      if !Present(refreshToken) {
        ClearTokens();
        return None, None;
      }
      call := Some(RefreshRequest(apiUrl, refreshToken.value));
      match reply
      case FetchFailed =>
        ClearTokens();
        r := None;
      case Responded(status, json) =>
        if IsOk(status) && json.Some? {
          SetTokens(json.value);
          ScheduleTokenRefresh();
          r := json;
        } else {
          ClearTokens();
          r := None;
        }
    }

    /** The runtime fires the pending renewal timer: the timer leaves the
        table and the callback renews the pair. */
    method FireRefreshTimer(reply: FetchResult<AuthTokens>) returns (r: Option<AuthTokens>, call: Option<HttpRequest>)
      requires Valid() && refreshTimeout.Some? && refreshTimeout.value in timers
      modifies this`localStorage, this`cookies, this`refreshTimeout, this`timers, this`nextHandle
      ensures Valid()
      ensures old(refreshTimeout).value !in timers
      ensures r == RefreshOutcome(old(RefreshToken()), reply)
      ensures call == if Present(old(RefreshToken())) then Some(RefreshRequest(apiUrl, old(RefreshToken()).value)) else None
      ensures r.Some? ==> HoldsPair(r.value, old(localStorage), old(cookies)) && ArmedWith(old(nextHandle))
      ensures r.None? ==> Emptied(old(localStorage), old(cookies)) && Disarmed() && nextHandle == old(nextHandle)
    {
      timers := timers - {refreshTimeout.value};
      r, call := RefreshAccessToken(reply);
    }

    /** Clears the session and sends the page to the login entry point. */
    method Logout()
      requires Valid()
      modifies this`localStorage, this`cookies, this`refreshTimeout, this`timers, this`location
      ensures Valid() && Disarmed()
      ensures Emptied(old(localStorage), old(cookies))
      ensures !IsAuthenticated()
      ensures location == LocationAfterLogout(old(location))
    {
      ClearTokens();
      if inBrowser {
        location := RouteGuard.LoginPath;
      }
    }

    /** On start-up, arms the renewal timer for a session that is already there. */
    method Initialize()
      requires Valid()
      modifies this`refreshTimeout, this`timers, this`nextHandle
      ensures Valid()
      ensures old(IsAuthenticated()) ==> ArmedWith(old(nextHandle))
      ensures !old(IsAuthenticated()) ==> unchanged(this)
    {
      if IsAuthenticated() {
        ScheduleTokenRefresh();
      }
    }

    /** The user named by the stored access token; null when no token is
        stored or when its payload cannot be decoded, never an exception. */
    function GetUserFromToken(decode: string -> Option<Jws.User>): (u: Option<Jws.User>)
      reads this
      ensures !IsAuthenticated() ==> u == None
      ensures u.Some? ==> u == decode(Jws.ToStandardAlphabet(Jws.PayloadSegment(AccessToken().value)))
    {
      Jws.UserFromToken(AccessToken(), decode)
    }
  }

  /** Arming twice in a row leaves exactly one pending timer, the second. */
  method ScheduleTwice(m: AuthManager)
    requires m.Valid()
    modifies m
    ensures m.Valid() && |m.timers| == 1
    ensures m.timers == map[old(m.nextHandle) + 1 := RefreshDelayMs]
  {
    m.ScheduleTokenRefresh();
    m.ScheduleTokenRefresh();
  }
}
