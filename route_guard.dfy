/** The edge middleware that guards page navigation. It looks only at whether
    an `access_token` cookie with a non-empty value came with the request,
    never at what the token says. */
module RouteGuard {

  const LoginPath := "/login"
  const DashboardPath := "/protected/dashboard"
  const RootPath := "/"
  const ProtectedPrefix := "/protected"
  const AccessTokenCookie := "access_token"
  const RefreshTokenCookie := "refresh_token"

  /** What the middleware answers: a redirect to a path of the same origin,
      or `NextResponse.next()`, which lets the request through. */
  datatype Response = Redirect(location: string) | Next

  /** The cookie is there and its value is truthy (a non-empty string). */
  predicate HasAccessToken(cookies: map<string, string>) {
    AccessTokenCookie in cookies && cookies[AccessTokenCookie] != ""
  }

  /** The middleware, branch for branch in the order the source tests them. */
  function Middleware(pathname: string, cookies: map<string, string>): (r: Response)
    ensures r.Redirect? ==> r.location == LoginPath || r.location == DashboardPath
    ensures r.Redirect? ==> pathname == RootPath || pathname == LoginPath || ProtectedPrefix <= pathname
    ensures r == Redirect(LoginPath) <==> !HasAccessToken(cookies) && (ProtectedPrefix <= pathname || pathname == RootPath)
  {
    if ProtectedPrefix <= pathname && !HasAccessToken(cookies) then Redirect(LoginPath)
    else if pathname == LoginPath && HasAccessToken(cookies) then Redirect(DashboardPath)
    else if pathname == RootPath then
      (if HasAccessToken(cookies) then Redirect(DashboardPath) else Redirect(LoginPath))
    else Next
  }

  /** The paths `config.matcher` hands to the middleware: `/`, `/login` and
      `/protected/:path*` (the bare `/protected` and everything below it). */
  predicate Matched(pathname: string)
    // every path the matcher lists is one the middleware has a branch for
    ensures Matched(pathname) ==> pathname == RootPath || pathname == LoginPath || ProtectedPrefix <= pathname
  {
    pathname == RootPath || pathname == LoginPath || pathname == ProtectedPrefix || ProtectedPrefix + "/" <= pathname
  }

  /** What a navigation gets once the matcher is taken into account: paths the
      matcher does not list never reach the middleware. */
  function Route(pathname: string, cookies: map<string, string>): (r: Response)
    ensures r.Redirect? ==> Matched(pathname)
  {
    if Matched(pathname) then Middleware(pathname, cookies) else Next
  }

  lemma ProtectedNeedsToken(pathname: string, cookies: map<string, string>)
    requires ProtectedPrefix <= pathname
    ensures Middleware(pathname, cookies) == if HasAccessToken(cookies) then Next else Redirect(LoginPath)
  {
    assert pathname != RootPath by { assert |pathname| >= |ProtectedPrefix|; }
    assert pathname != LoginPath by { assert pathname[1] == 'p'; }
  }

  lemma LoginPageWhenSignedIn(cookies: map<string, string>)
    ensures Middleware(LoginPath, cookies) == if HasAccessToken(cookies) then Redirect(DashboardPath) else Next
  {
    assert !(ProtectedPrefix <= LoginPath) by { assert LoginPath[1] != ProtectedPrefix[1]; }
  }

  lemma RootNeverPassesThrough(cookies: map<string, string>)
    ensures Middleware(RootPath, cookies) == if HasAccessToken(cookies) then Redirect(DashboardPath) else Redirect(LoginPath)
  {
  }

  lemma OtherPathsPassThrough(pathname: string, cookies: map<string, string>)
    requires pathname != RootPath && pathname != LoginPath && !(ProtectedPrefix <= pathname)
    ensures Middleware(pathname, cookies) == Next
  {
  }

  /** The decision depends on the cookies only through the presence of a
      non-empty access token; in particular the refresh cookie is never read. */
  lemma OnlyAccessTokenConsulted(pathname: string, c1: map<string, string>, c2: map<string, string>)
    requires HasAccessToken(c1) == HasAccessToken(c2)
    ensures Middleware(pathname, c1) == Middleware(pathname, c2)
  {
  }

  lemma RefreshCookieIgnored(pathname: string, cookies: map<string, string>, value: string)
    ensures Middleware(pathname, cookies[RefreshTokenCookie := value]) == Middleware(pathname, cookies)
    ensures Middleware(pathname, cookies - {RefreshTokenCookie}) == Middleware(pathname, cookies)
  {
    var set1 := cookies[RefreshTokenCookie := value];
    var removed := cookies - {RefreshTokenCookie};
    assert AccessTokenCookie != RefreshTokenCookie by { assert AccessTokenCookie[0] != RefreshTokenCookie[0]; }
    assert HasAccessToken(set1) == HasAccessToken(cookies);
    assert HasAccessToken(removed) == HasAccessToken(cookies);
    OnlyAccessTokenConsulted(pathname, set1, cookies);
    OnlyAccessTokenConsulted(pathname, removed, cookies);
  }

  /** The guard tests a plain string prefix, so it would also guard
      `/protectedX`; the matcher never hands it such a path. */
  lemma PrefixWiderThanMatcher()
    ensures Middleware("/protectedX", map[]) == Redirect(LoginPath)
    ensures Route("/protectedX", map[]) == Next
  {
    assert ProtectedPrefix <= "/protectedX";
    assert !(ProtectedPrefix + "/" <= "/protectedX") by { assert "/protectedX"[10] != '/'; }
  }

  /** Where the matcher and the guard disagree: exactly the unmatched paths
      with the protected prefix, visited without a token. */
  lemma RouteDiffersFromMiddleware(pathname: string, cookies: map<string, string>)
    ensures Route(pathname, cookies) != Middleware(pathname, cookies)
        <==> !Matched(pathname) && ProtectedPrefix <= pathname && !HasAccessToken(cookies)
  {
    if !Matched(pathname) {
      assert pathname != RootPath && pathname != LoginPath;
    }
  }

  /** Following a redirect with the same cookies never redirects again, both
      for the bare middleware and for the matched route. */
  lemma NoRedirectLoop(pathname: string, cookies: map<string, string>)
    requires Middleware(pathname, cookies).Redirect?
    ensures Middleware(Middleware(pathname, cookies).location, cookies) == Next
    ensures Route(Middleware(pathname, cookies).location, cookies) == Next
  {
    var target := Middleware(pathname, cookies).location;
    if target == LoginPath {
      assert !HasAccessToken(cookies);
      LoginPageWhenSignedIn(cookies);
      assert Matched(LoginPath);
    } else {
      assert HasAccessToken(cookies);
      assert ProtectedPrefix <= DashboardPath && ProtectedPrefix + "/" <= DashboardPath;
      ProtectedNeedsToken(DashboardPath, cookies);
    }
  }
}
