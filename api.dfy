/** The HTTP client of the REST API: it signs each request with the stored
    access token, and when the server answers 401 to a signed request it renews
    the session once and retries once. The company and station helpers are
    fixed method/path pairs on top of it. */
module Api {
  import opened Http
  import Auth

  const ApiBaseUrl := "http://localhost:3000/api"

  /** What a caller may pass as `RequestInit`. */
  datatype RequestOptions = RequestOptions(verb: Option<Method>, headers: Option<Headers>, body: Option<string>)

  const NoOptions := RequestOptions(None, None, None)

  /** `Content-Type: application/json`, and `Authorization: Bearer <token>`
      when a non-empty access token is stored. */
  function DefaultHeaders(accessToken: Option<string>): (h: Headers)
    ensures "Content-Type" in h && h["Content-Type"] == "application/json"
    ensures "Authorization" in h <==> Auth.Present(accessToken)
    ensures "Authorization" in h ==> h["Authorization"] == Bearer(accessToken.value)
    ensures h.Keys <= {"Content-Type", "Authorization"}
  {
    if Auth.Present(accessToken) then ContentTypeJson["Authorization" := Bearer(accessToken.value)]
    else ContentTypeJson
  }

  /** The first request: `{ headers: { ...defaults, ...options.headers }, ...options }`
      sent to `baseURL + endpoint`. The trailing spread of `options` puts the
      caller's own `headers` object, when there is one, in place of the merged
      set. */
  function BuildRequest(url: string, accessToken: Option<string>, options: RequestOptions): (req: HttpRequest)
    ensures req.url == url
    ensures options.headers.Some? ==> req.headers == options.headers.value
    ensures options.headers.None? ==> req.headers == DefaultHeaders(accessToken)
    ensures options.verb.None? ==> req.verb == GET
  {
    var callerHeaders := if options.headers.Some? then options.headers.value else map[];
    var merged := DefaultHeaders(accessToken) + callerHeaders;
    var config := if options.headers.Some? then options.headers.value else merged;
    HttpRequest(url,
                if options.verb.Some? then options.verb.value else GET,
                config,
                if options.body.Some? then Some(Text(options.body.value)) else None)
  }

  /** The retry: the first request with its `Authorization` set to the
      renewed access token and every other header kept. */
  function WithBearer(req: HttpRequest, accessToken: string): (r: HttpRequest)
    ensures r.url == req.url && r.verb == req.verb && r.body == req.body
    ensures r.headers.Keys == req.headers.Keys + {"Authorization"}
    ensures r.headers["Authorization"] == Bearer(accessToken)
    ensures forall k :: k in req.headers && k != "Authorization" ==> r.headers[k] == req.headers[k]
  {
    req.(headers := req.headers["Authorization" := Bearer(accessToken)])
  }

  /** What a response, once no renewal is involved, makes `request` return
      or throw. */
  function Outcome<T>(reply: FetchResult<T>): (r: Result<T, Failure>)
    ensures r.Ok? <==> reply.Responded? && IsOk(reply.status) && reply.json.Some?
    ensures r.Ok? ==> reply.json == Some(r.value)
    ensures reply.FetchFailed? ==> r == Err(NetworkError)
    ensures reply.Responded? && !IsOk(reply.status) ==> r == Err(HttpError(reply.status))
    ensures reply.Responded? && IsOk(reply.status) && reply.json.None? ==> r == Err(InvalidJson)
  {
    match reply
    case FetchFailed => Err(NetworkError)
    case Responded(status, json) =>
      if !IsOk(status) then Err(HttpError(status))
      else if json.None? then Err(InvalidJson)
      else Ok(json.value)
  }

  /** Without caller headers the bearer header is there exactly when a
      non-empty token is stored, and carries that token. */
  lemma BearerAttachedIffSignedIn(url: string, accessToken: Option<string>, options: RequestOptions)
    requires options.headers.None?
    ensures "Authorization" in BuildRequest(url, accessToken, options).headers <==> Auth.Present(accessToken)
    ensures Auth.Present(accessToken) ==>
      BuildRequest(url, accessToken, options).headers["Authorization"] == "Bearer " + accessToken.value
  {
  }

  /** A caller's `headers` replace the defaults wholesale: any request that
      passes its own headers without `Authorization` goes out unsigned, even
      when a session exists. */
  lemma CallerHeadersDropBearer(url: string, accessToken: Option<string>, options: RequestOptions)
    requires options.headers.Some? && "Authorization" !in options.headers.value
    ensures "Authorization" !in BuildRequest(url, accessToken, options).headers
    ensures BuildRequest(url, accessToken, options).headers == options.headers.value
  {
  }

  // ---- the company and station helpers ----

  datatype Resource = Company | Station

  datatype CrudOp = List | Get(id: string) | Create(data: string) | Update(id: string, data: string) | Delete(id: string)

  function CollectionPath(resource: Resource): string {
    match resource
    case Company => "/company"
    case Station => "/station"
  }

  /** The endpoint and options a helper passes to `request`; `data` is the
      caller's object already serialised with `JSON.stringify`. */
  datatype ApiCall = ApiCall(endpoint: string, options: RequestOptions)

  function Call(resource: Resource, op: CrudOp): (c: ApiCall)
    ensures CollectionPath(resource) <= c.endpoint
    ensures c.options.headers.None?
  {
    var base := CollectionPath(resource);
    match op
    case List => ApiCall(base + "/all", NoOptions)
    case Get(id) => ApiCall(base + "/" + id, NoOptions)
    case Create(data) => ApiCall(base, RequestOptions(Some(POST), None, Some(data)))
    case Update(id, data) => ApiCall(base + "/" + id, RequestOptions(Some(PATCH), None, Some(data)))
    case Delete(id) => ApiCall(base + "/" + id, RequestOptions(Some(DELETE), None, None))
  }

  /** The helpers never pass headers, so each of their requests is signed
      whenever a session exists. */
  lemma HelpersSigned(baseURL: string, resource: Resource, op: CrudOp, accessToken: Option<string>)
    ensures BuildRequest(baseURL + Call(resource, op).endpoint, accessToken, Call(resource, op).options).headers
         == DefaultHeaders(accessToken)
  {
  }

  /** Listing and getting the item with id "all" send the same request. */
  lemma ListCollidesWithGetAll(resource: Resource)
    ensures Call(resource, List) == Call(resource, Get("all"))
  {
  }

  /** Apart from that collision, different helper calls send different
      requests. */
  lemma CallInjective(r1: Resource, o1: CrudOp, r2: Resource, o2: CrudOp)
    requires Call(r1, o1) == Call(r2, o2)
    ensures r1 == r2
    ensures o1 == o2 || {o1, o2} == {List, Get("all")}
  {
    var e := Call(r1, o1).endpoint;
    assert CollectionPath(r1)[1] == e[1] == CollectionPath(r2)[1];
    var base := CollectionPath(r1);
    assert |base| == 8;
    match o1
    case List =>
      if o2.Get? {
        assert e[9..] == "all" && e[9..] == o2.id;
      }
    case Get(id) =>
      if o2.Get? {
        assert e[9..] == id && e[9..] == o2.id;
      } else if o2.List? {
        assert e[9..] == id && e[9..] == "all";
      }
    case Create(_) =>
    case Update(id, _) =>
      assert e[9..] == id && e[9..] == o2.id;
    case Delete(id) =>
      assert e[9..] == id && e[9..] == o2.id;
  }

  class ApiClient {
    const baseURL: string
    /** The session manager the client borrows tokens from and renews through. */
    const auth: Auth.AuthManager

    /** `new ApiClient(baseURL = API_BASE_URL)`. */
    constructor (baseURL: Option<string>, auth: Auth.AuthManager)
      ensures this.baseURL == (if baseURL.Some? then baseURL.value else ApiBaseUrl)
      ensures this.auth == auth
    {
      this.baseURL := if baseURL.Some? then baseURL.value else ApiBaseUrl;
      this.auth := auth;
    }

    /** `request(endpoint, options)`. The replies of the first fetch, of the
        renewal call and of the retry are parameters; each is used only if
        the call gets that far. `sent` lists the API requests in the order they
        go out, `refreshes` counts the renewals started and `renewal` is the
        renewal call, if one went out. */
    method Request<T>(endpoint: string, options: RequestOptions,
                      first: FetchResult<T>, refreshReply: FetchResult<Auth.AuthTokens>, retry: FetchResult<T>)
      returns (r: Result<T, Failure>, sent: seq<HttpRequest>, refreshes: nat, renewal: Option<HttpRequest>)
      requires auth.Valid()
      modifies auth`localStorage, auth`cookies, auth`refreshTimeout, auth`timers, auth`nextHandle, auth`location
      ensures auth.Valid()
      ensures 1 <= |sent| <= 2 && refreshes <= 1
      ensures sent[0] == BuildRequest(baseURL + endpoint, old(auth.AccessToken()), options)
      // a renewal happens exactly on a 401 to a request sent with a token
      ensures refreshes == 1 <==> first.Responded? && first.status == 401 && old(auth.IsAuthenticated())
      // the renewal call goes out only when a refresh token is stored, and carries it
      ensures renewal == if refreshes == 1 && Auth.Present(old(auth.RefreshToken()))
                         then Some(Auth.RefreshRequest(auth.apiUrl, old(auth.RefreshToken()).value)) else None
      // no renewal: the first response decides and the session is untouched
      ensures refreshes == 0 ==> |sent| == 1 && r == Outcome(first) && unchanged(auth)
      // a retry goes out exactly when the renewal brought a new pair, and carries it
      ensures |sent| == 2 <==> refreshes == 1 && Auth.RefreshOutcome(old(auth.RefreshToken()), refreshReply).Some?
      ensures |sent| == 2 ==>
        sent[1] == WithBearer(sent[0], Auth.RefreshOutcome(old(auth.RefreshToken()), refreshReply).value.access)
      // the renewal failed: logged out, `Authentication failed`
      ensures refreshes == 1 && |sent| == 1 ==>
        && r == Err(AuthenticationFailed)
        && auth.Emptied(old(auth.localStorage), old(auth.cookies)) && auth.Disarmed()
        && auth.nextHandle == old(auth.nextHandle)
        && auth.location == auth.LocationAfterLogout(old(auth.location))
      // the retry decides; a 401 to it logs out, anything else keeps the renewed session
      ensures |sent| == 2 ==> r == Outcome(retry)
      ensures |sent| == 2 && retry.Responded? && retry.status == 401 ==>
        && auth.Emptied(old(auth.localStorage), old(auth.cookies)) && auth.Disarmed()
        && auth.nextHandle == old(auth.nextHandle) + 1
        && auth.location == auth.LocationAfterLogout(old(auth.location))
      ensures |sent| == 2 && !(retry.Responded? && retry.status == 401) ==>
        && auth.HoldsPair(Auth.RefreshOutcome(old(auth.RefreshToken()), refreshReply).value,
                          old(auth.localStorage), old(auth.cookies))
        && auth.ArmedWith(old(auth.nextHandle))
        && auth.location == old(auth.location)
    {
      var accessToken := auth.AccessToken();
      var config := BuildRequest(baseURL + endpoint, accessToken, options);
      sent := [config];
      refreshes := 0;
      renewal := None;
      match first
      case FetchFailed =>
        r := Err(NetworkError);
      case Responded(status, json) =>
        if status == 401 && Auth.Present(accessToken) {
          ghost var storage0, jar0 := auth.localStorage, auth.cookies;
          var refreshed;
          refreshed, renewal := auth.RefreshAccessToken(refreshReply);
          refreshes := 1;
          if refreshed.Some? {
            sent := sent + [WithBearer(config, refreshed.value.access)];
            match retry
            case FetchFailed =>
              r := Err(NetworkError);
            case Responded(retryStatus, retryJson) =>
              if !IsOk(retryStatus) {
                if retryStatus == 401 {
                  auth.Logout();
                  Auth.StorePairThenRemove(storage0, refreshed.value);
                  Auth.CookiesForThenRemove(jar0, refreshed.value);
                }
                r := Err(HttpError(retryStatus));
              } else if retryJson.None? {
                r := Err(InvalidJson);
              } else {
                r := Ok(retryJson.value);
              }
          } else {
            auth.Logout();
            Auth.RemoveTwice(storage0);
            Auth.RemoveTwice(jar0);
            r := Err(AuthenticationFailed);
          }
        } else if !IsOk(status) {
          r := Err(HttpError(status));
        } else if json.None? {
          r := Err(InvalidJson);
        } else {
          r := Ok(json.value);
        }
    }
  }
}
