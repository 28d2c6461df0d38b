/** src/middleware.ts: the request gate in front of every page, deciding
    from the path and the session cookie alone whether to redirect. */
module Middleware {
  import opened Wrappers

  /** The three outcomes: a redirect to the sign-in page carrying the
      requested path as `callbackUrl`, a redirect to `/`, or pass-through. */
  datatype Decision = RedirectToSignin(callbackUrl: string) | RedirectHome | Next

  const ProtectedRoutes: seq<string> := ["/dashboard", "/services", "/events"]
  const AuthRoutes: seq<string> := ["/signin", "/signup"]

  /** `s.startsWith(prefix)`. */
  predicate StartsWith(s: string, prefix: string)
  {
    |prefix| <= |s| && s[..|prefix|] == prefix
  }

  /** `routes.some(route => pathname.startsWith(route))`. */
  predicate StartsWithAny(s: string, routes: seq<string>)
  {
    exists i :: 0 <= i < |routes| && StartsWith(s, routes[i])
  }

  predicate IsProtectedRoute(pathname: string) { StartsWithAny(pathname, ProtectedRoutes) }
  predicate IsAuthRoute(pathname: string) { StartsWithAny(pathname, AuthRoutes) }

  /** A session token is present when the cookie exists and is not empty;
      its value is never checked. */
  predicate HasSession(sessionToken: Option<string>)
  {
    sessionToken.Some? && sessionToken.value != ""
  }

  /** `middleware(request)`. */
  function Gate(pathname: string, sessionToken: Option<string>): (d: Decision)
    ensures d.RedirectToSignin? <==> IsProtectedRoute(pathname) && !HasSession(sessionToken)
    ensures d.RedirectToSignin? ==> d.callbackUrl == pathname
    ensures d.RedirectHome? <==> IsAuthRoute(pathname) && HasSession(sessionToken)
    ensures d.Next? <==>
      !(IsProtectedRoute(pathname) && !HasSession(sessionToken))
      && !(IsAuthRoute(pathname) && HasSession(sessionToken))
  {
    ProtectedAndAuthExclusive(pathname);
    if IsProtectedRoute(pathname) && !HasSession(sessionToken) then RedirectToSignin(pathname)
    else if IsAuthRoute(pathname) && HasSession(sessionToken) then RedirectHome
    else Next
  }

  /** Two prefixes of one string agree on their common length. */
  lemma PrefixesAgree(s: string, a: string, b: string, k: nat)
    requires StartsWith(s, a) && StartsWith(s, b)
    requires k < |a| && k < |b|
    ensures a[k] == b[k]
  {
    assert a[k] == s[..|a|][k] == s[k] == s[..|b|][k] == b[k];
  }

  /** No path is both protected and an auth route, so at most one redirect
      branch can apply. */
  lemma ProtectedAndAuthExclusive(pathname: string)
    ensures !(IsProtectedRoute(pathname) && IsAuthRoute(pathname))
  {
    if IsProtectedRoute(pathname) && IsAuthRoute(pathname) {
      var i :| 0 <= i < |ProtectedRoutes| && StartsWith(pathname, ProtectedRoutes[i]);
      var j :| 0 <= j < |AuthRoutes| && StartsWith(pathname, AuthRoutes[j]);
      PrefixesAgree(pathname, ProtectedRoutes[i], AuthRoutes[j], 1);
      PrefixesAgree(pathname, ProtectedRoutes[i], AuthRoutes[j], 2);
      assert false;
    }
  }

  /** Matching is by prefix: anything appended to a protected path is
      protected too, and likewise for the auth routes. */
  lemma {:induction false} PrefixExtension(pathname: string, suffix: string)
    ensures IsProtectedRoute(pathname) ==> IsProtectedRoute(pathname + suffix)
    ensures IsAuthRoute(pathname) ==> IsAuthRoute(pathname + suffix)
  {
    forall routes: seq<string>, i | 0 <= i < |routes| && StartsWith(pathname, routes[i])
      ensures StartsWith(pathname + suffix, routes[i])
    {
      assert (pathname + suffix)[..|routes[i]|] == pathname[..|routes[i]|];
    }
  }

  /** An empty cookie value is the same as no cookie. */
  lemma EmptyCookieIsNoSession(pathname: string)
    ensures Gate(pathname, Some("")) == Gate(pathname, None)
  {
  }

  /** A signed-out request for a protected page goes to sign-in, a
      signed-in request for an auth page goes home, and any other page is
      served as requested. */
  lemma {:induction false} GateOnSamplePaths(token: string)
    requires token != ""
    ensures Gate("/services/new", None) == RedirectToSignin("/services/new")
    ensures Gate("/signin", Some(token)) == RedirectHome
    ensures Gate("/signin", None) == Next
    ensures Gate("/", None) == Next
  {
    assert StartsWith("/services/new", ProtectedRoutes[1]);
    assert StartsWith("/signin", AuthRoutes[0]);
    assert !IsProtectedRoute("/signin") by {
      ProtectedAndAuthExclusive("/signin");
    }
    assert !StartsWith("/", ProtectedRoutes[0]) && !StartsWith("/", ProtectedRoutes[1])
      && !StartsWith("/", ProtectedRoutes[2]);
  }

  /** The negative look-ahead of `config.matcher`, in order. The `.` of
      `favicon.ico` is a regular-expression wildcard. */
  const MatcherExclusions: seq<string> := ["api", "_next/static", "_next/image", "favicon.ico"]

  /** `pattern` matches the start of `s`, with `.` in the pattern matching any
      one character. */
  predicate PatternPrefix(s: string, pattern: string)
  {
    |pattern| <= |s| && forall k :: 0 <= k < |pattern| ==> pattern[k] == '.' || pattern[k] == s[k]
  }

  /** `/((?!api|_next/static|_next/image|favicon.ico).*)`: the path begins
      with `/` and what follows begins with none of the exclusions. */
  predicate MatcherRuns(pathname: string)
  {
    |pathname| >= 1 && pathname[0] == '/'
    && forall i :: 0 <= i < |MatcherExclusions| ==> !PatternPrefix(pathname[1..], MatcherExclusions[i])
  }

  /** What the site does with a request: the gate's decision where the
      matcher selects the path, pass-through elsewhere. */
  function Route(pathname: string, sessionToken: Option<string>): (d: Decision)
    ensures !MatcherRuns(pathname) ==> d == Next
    ensures MatcherRuns(pathname) ==> d == Gate(pathname, sessionToken)
  {
    if MatcherRuns(pathname) then Gate(pathname, sessionToken) else Next
  }

  /** The middleware never runs on the API, on static assets or on the
      favicon, whatever follows the excluded prefix. */
  lemma {:induction false} ExcludedPathsPass(rest: string, sessionToken: Option<string>)
    ensures Route("/api" + rest, sessionToken) == Next
    ensures Route("/_next/static" + rest, sessionToken) == Next
    ensures Route("/_next/image" + rest, sessionToken) == Next
    ensures Route("/favicon.ico" + rest, sessionToken) == Next
  {
    assert PatternPrefix(("/api" + rest)[1..], MatcherExclusions[0]);
    assert PatternPrefix(("/_next/static" + rest)[1..], MatcherExclusions[1]);
    assert PatternPrefix(("/_next/image" + rest)[1..], MatcherExclusions[2]);
    assert PatternPrefix(("/favicon.ico" + rest)[1..], MatcherExclusions[3]);
  }

  /** The look-ahead is a prefix test, not a path-segment test: a page whose
      name merely begins with `api` is skipped too, and so is one that
      differs from the favicon only where the unescaped `.` stands. */
  lemma ApiPrefixIsNotASegment()
    ensures !MatcherRuns("/apiary")
    ensures !MatcherRuns("/favicon-ico")
    ensures MatcherRuns("/services")
  {
    assert PatternPrefix("apiary", MatcherExclusions[0]);
    assert PatternPrefix("favicon-ico", MatcherExclusions[3]);
    assert !PatternPrefix("services", MatcherExclusions[0]) by { assert "services"[0] != 'a'; }
    assert !PatternPrefix("services", MatcherExclusions[1]) by { assert "services"[0] != '_'; }
    assert !PatternPrefix("services", MatcherExclusions[2]) by { assert "services"[0] != '_'; }
    assert !PatternPrefix("services", MatcherExclusions[3]) by { assert "services"[0] != 'f'; }
  }
}
