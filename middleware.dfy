/** The route guard of middleware.ts: a request is checked for a valid
    session only when its path and method match a protected route. Token
    verification is a parameter (`authenticated`). */
module Middleware {
  import opened Base

  datatype ProtectedRoute = ProtectedRoute(path: string, methods: seq<string>)

  /** `PROTECTED_ROUTES`. */
  const ProtectedRoutes: seq<ProtectedRoute> := [
    ProtectedRoute("/api/yandex/upload", ["POST"]),
    ProtectedRoute("/api/yandex/delete", ["DELETE"]),
    ProtectedRoute("/api/yandex/properties", ["PATCH"]),
    ProtectedRoute("/api/properties", ["POST", "PATCH", "DELETE"]),
    ProtectedRoute("/api/points", ["POST", "PATCH", "DELETE"])
  ]

  predicate Matches(route: ProtectedRoute, pathname: string, verb: string) {
    StartsWith(pathname, route.path) && verb in route.methods
  }

  /** `routes.some(route => pathname.startsWith(route.path) && route.methods.includes(method))`. */
  function AnyMatches(routes: seq<ProtectedRoute>, pathname: string, verb: string): (r: bool)
    ensures r <==> exists k :: 0 <= k < |routes| && Matches(routes[k], pathname, verb)
  {
    if routes == [] then false
    else Matches(routes[0], pathname, verb) || AnyMatches(routes[1..], pathname, verb)
  }

  predicate IsProtected(pathname: string, verb: string) {
    AnyMatches(ProtectedRoutes, pathname, verb)
  }

  datatype Outcome = Next | Unauthorized(status: nat, error: string)

  /** `middleware`; `authenticated` is the answer of `verifyAuth`, which is
      consulted only for protected requests. */
  function Guard(pathname: string, verb: string, authenticated: bool): (r: Outcome)
    ensures r.Unauthorized? <==> IsProtected(pathname, verb) && !authenticated
    ensures r.Unauthorized? ==> r == Unauthorized(401, "Unauthorized")
    ensures !IsProtected(pathname, verb) ==> r == Next
  {
    if !IsProtected(pathname, verb) then Next
    else if !authenticated then Unauthorized(401, "Unauthorized")
    else Next
  }

  /** No route lists GET, so reads are never guarded. */
  lemma ReadsAreOpen(pathname: string, authenticated: bool)
    ensures !IsProtected(pathname, "GET")
    ensures Guard(pathname, "GET", authenticated) == Next
  {
    forall k | 0 <= k < |ProtectedRoutes|
      ensures !Matches(ProtectedRoutes[k], pathname, "GET")
    {
      assert "GET" !in ProtectedRoutes[k].methods;
    }
  }

  /** The decision depends on the session only for protected requests. */
  lemma SessionIrrelevantWhenOpen(pathname: string, verb: string)
    requires !IsProtected(pathname, verb)
    ensures Guard(pathname, verb, false) == Guard(pathname, verb, true) == Next
  {
  }

  // ---------------------------------------------------------------------------
  // `config.matcher`: the framework runs `middleware` only on the listed
  // paths; `:path*` stands for zero or more further segments, a path without
  // it for itself alone.

  /** Below `base`: the path itself or one of its sub-paths. */
  predicate Below(pathname: string, base: string) {
    pathname == base || StartsWith(pathname, base + "/")
  }

  /** `['/api/yandex/:path*', '/api/properties', '/api/points']` as written. */
  predicate MatcherAsWritten(pathname: string) {
    Below(pathname, "/api/yandex") || pathname == "/api/properties" || pathname == "/api/points"
  }

  /** The matcher with `:path*` on all three entries, so that it reaches
      every path the route table protects. */
  predicate MatcherCovers(pathname: string) {
    Below(pathname, "/api/yandex") || Below(pathname, "/api/properties") || Below(pathname, "/api/points")
  }

  /** A request as the program handles it: the guard runs only where the
      written matcher reaches. */
  function HandleAsWritten(pathname: string, verb: string, authenticated: bool): (r: Outcome)
    ensures r.Unauthorized? <==> MatcherAsWritten(pathname) && IsProtected(pathname, verb) && !authenticated
    ensures !MatcherAsWritten(pathname) ==> r == Next
  {
    if MatcherAsWritten(pathname) then Guard(pathname, verb, authenticated) else Next
  }

  /** A request with the corrected matcher. */
  function Handle(pathname: string, verb: string, authenticated: bool): (r: Outcome)
    ensures r.Unauthorized? <==> MatcherCovers(pathname) && IsProtected(pathname, verb) && !authenticated
    ensures !MatcherCovers(pathname) ==> r == Next
  {
    if MatcherCovers(pathname) then Guard(pathname, verb, authenticated) else Next
  }

  /** Writing to the points collection without a session is refused. */
  lemma PointWritesGuarded(verb: string)
    requires verb == "POST" || verb == "PATCH" || verb == "DELETE"
    ensures HandleAsWritten("/api/points", verb, false) == Unauthorized(401, "Unauthorized")
  {
    assert Matches(ProtectedRoutes[4], "/api/points", verb);
  }

  /** The route table protects POST on /api/points/upload, but the written
      matcher never runs the guard there, so a request without a session
      passes. */
  lemma PointsUploadUnguarded()
    ensures IsProtected("/api/points/upload", "POST")
    ensures HandleAsWritten("/api/points/upload", "POST", false) == Next
  {
    assert Matches(ProtectedRoutes[4], "/api/points/upload", "POST");
    assert "/api/points/upload"[..12] == "/api/points/";
    assert "/api/points/upload"[..12] != "/api/yandex/";
  }

  /** With the corrected matcher, a listed method on a protected route or
      any path below it is refused without a session. */
  lemma CorrectedMatcherGuardsRoutes(k: nat, suffix: string, verb: string)
    requires k < |ProtectedRoutes|
    requires verb in ProtectedRoutes[k].methods
    requires suffix == [] || suffix[0] == '/'
    ensures Handle(ProtectedRoutes[k].path + suffix, verb, false) == Unauthorized(401, "Unauthorized")
  {
    var route := ProtectedRoutes[k];
    var pathname := route.path + suffix;
    assert pathname[..|route.path|] == route.path;
    assert Matches(route, pathname, verb);
    if k < 3 {
      var rest := route.path[11..] + suffix;
      assert route.path[..12] == "/api/yandex/";
      assert pathname == "/api/yandex" + rest;
      assert pathname[..12] == "/api/yandex/";
    } else if suffix != [] {
      assert pathname[..|route.path| + 1] == route.path + "/";
    }
  }
}
