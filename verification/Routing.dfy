// benchmarks/apache_like.go: the route table, its matching order, and header lookup.
module Routing {
  import opened Http

  datatype Route = Route(prefix: string, exact: bool, status: nat, contentType: string, body: string)

  const FALLBACK := Route("/", false, 404, "text/plain", "Not Found\n")

  predicate Matches(r: Route, path: string) {
    if r.exact then r.prefix == path else r.prefix <= path
  }

  /** What matching is: the whole path for an exact route, its beginning, byte for byte, for a prefix route. */
  ghost predicate Hits(r: Route, path: string) {
    && |r.prefix| <= |path| && (r.exact ==> |r.prefix| == |path|)
    && forall m :: 0 <= m < |r.prefix| ==> r.prefix[m] == path[m]
  }

  lemma MatchesIffHits(r: Route, path: string)
    ensures Matches(r, path) <==> Hits(r, path)
  {
  }

  /** i is the first route that matches, or the length of a table in which none does. */
  ghost predicate FirstMatch(routes: seq<Route>, path: string, i: nat) {
    && i <= |routes|
    && (i < |routes| ==> Matches(routes[i], path))
    && forall k :: 0 <= k < i ==> !Matches(routes[k], path)
  }

  /** The route the table gives for a path. */
  function RouteFor(routes: seq<Route>, path: string): Route {
    if routes == [] then FALLBACK
    else if Matches(routes[0], path) then routes[0]
    else RouteFor(routes[1..], path)
  }

  lemma {:induction false} RouteForIsFirst(routes: seq<Route>, path: string) returns (i: nat)
    ensures FirstMatch(routes, path, i)
    ensures i <= |routes| && (i < |routes| ==> Hits(routes[i], path))
    ensures forall k :: 0 <= k < i ==> !Hits(routes[k], path)
    ensures RouteFor(routes, path) ==
              if i < |routes| then routes[i] else Route("/", false, 404, "text/plain", "Not Found\n")
  {
    i := 0;
    forall k | 0 <= k < |routes|
      ensures Matches(routes[k], path) <==> Hits(routes[k], path)
    {
      MatchesIffHits(routes[k], path);
    }
    hide Matches, Hits;
    if routes != [] && !Matches(routes[0], path) {
      i := RouteForIsFirst(routes[1..], path);
      assert forall k :: 0 < k < |routes| ==> routes[k] == routes[1..][k - 1];
      i := i + 1;
    }
  }

  method MatchRoute(routes: seq<Route>, path: string) returns (r: Route)
    ensures r == RouteFor(routes, path)
  {
    for i := 0 to |routes|
      invariant RouteFor(routes, path) == RouteFor(routes[i..], path)
    {
      if Matches(routes[i], path) {
        return routes[i];
      }
      assert routes[i..][1..] == routes[i + 1..];
    }
    return FALLBACK;
  }

  // Order of the table.

  /** On every path the first match has the longest prefix of all matching routes. */
  ghost predicate FirstIsLongest(routes: seq<Route>) {
    forall path: string, i: nat, j: nat ::
      FirstMatch(routes, path, i) && i < j < |routes| && Matches(routes[j], path) ==>
        |routes[j].prefix| <= |routes[i].prefix|
  }

  predicate ProperPrefix(a: string, b: string) {
    a <= b && |a| < |b|
  }

  predicate Shadows(routes: seq<Route>, i: nat, j: nat)
    requires i < j < |routes|
  {
    !routes[i].exact && ProperPrefix(routes[i].prefix, routes[j].prefix)
  }

  /** Route k takes every path that route j matches. */
  predicate Covers(routes: seq<Route>, k: nat, j: nat)
    requires k < |routes| && j < |routes|
  {
    routes[k].prefix == routes[j].prefix && (routes[k].exact ==> routes[j].exact)
  }

  /**
   * A prefix route may only come before a route whose prefix extends its own if that route is already covered further
   * up.
   */
  ghost predicate WellOrdered(routes: seq<Route>) {
    forall i: nat, j: nat :: i < j < |routes| && Shadows(routes, i, j) ==>
      exists k: nat :: k < i && Covers(routes, k, j)
  }

  lemma CoveringMatches(routes: seq<Route>, k: nat, j: nat, path: string)
    requires k < |routes| && j < |routes| && Matches(routes[j], path)
    ensures Covers(routes, k, j) ==> Matches(routes[k], path)
  {
  }

  lemma UnshadowedIsNoLonger(routes: seq<Route>, i: nat, j: nat, path: string)
    requires i < j < |routes| && Matches(routes[i], path) && Matches(routes[j], path)
    requires !Shadows(routes, i, j)
    ensures |routes[j].prefix| <= |routes[i].prefix|
  {
  }

  lemma OrderSuffices(routes: seq<Route>, path: string, i: nat, j: nat)
    requires WellOrdered(routes)
    requires FirstMatch(routes, path, i) && i < j < |routes| && Matches(routes[j], path)
    ensures |routes[j].prefix| <= |routes[i].prefix|
  {
    forall k: nat | k < i
      ensures !Covers(routes, k, j)
    {
      CoveringMatches(routes, k, j, path);
    }
    assert !Shadows(routes, i, j);
    UnshadowedIsNoLonger(routes, i, j, path);
  }

  /** The path that shows a bad order: the later prefix, with a byte no route has put behind a prefix route. */
  function Witness(r: Route, spare: char): string {
    if r.exact then r.prefix else r.prefix + [spare]
  }

  lemma EndsBefore(p: string, q: string, c: char)
    requires p <= q + [c]
    ensures c in p || p <= q
  {
    if |p| == |q| + 1 { assert p[|q|] == (q + [c])[|q|]; }
  }

  lemma OrderNeeded(routes: seq<Route>, spare: char, i: nat, j: nat)
    requires forall k :: 0 <= k < |routes| ==> spare !in routes[k].prefix
    requires FirstIsLongest(routes) && i < j < |routes| && Shadows(routes, i, j)
    ensures exists k: nat :: k < i && Covers(routes, k, j)
  {
    var path := Witness(routes[j], spare);
    assert Matches(routes[j], path) && Matches(routes[i], path);
    var f := RouteForIsFirst(routes, path);
    assert f <= i;
    var p := routes[f].prefix;
    assert |routes[j].prefix| <= |p|;
    assert p <= path;
    if !routes[j].exact { EndsBefore(p, routes[j].prefix, spare); }
    assert p == routes[j].prefix;
    assert Covers(routes, f, j);
  }

  /**
   * For a table in whose prefixes some byte does not occur, the first match is the longest match on every path exactly
   * if the table is well ordered.
   */
  lemma FirstIsLongestIffWellOrdered(routes: seq<Route>, spare: char)
    requires forall k :: 0 <= k < |routes| ==> spare !in routes[k].prefix
    ensures FirstIsLongest(routes) <==> WellOrdered(routes)
  {
    if WellOrdered(routes) {
      forall path: string, i: nat, j: nat
        | FirstMatch(routes, path, i) && i < j < |routes| && Matches(routes[j], path)
        ensures |routes[j].prefix| <= |routes[i].prefix|
      {
        OrderSuffices(routes, path, i, j);
      }
    }
    if FirstIsLongest(routes) {
      forall i: nat, j: nat | i < j < |routes| && Shadows(routes, i, j)
        ensures exists k: nat :: k < i && Covers(routes, k, j)
      {
        OrderNeeded(routes, spare, i, j);
      }
    }
  }

  const HTML := "text/html; charset=utf-8"
  const JSON := "application/json"
  const PLAIN := "text/plain"

  const DEFAULT_ROUTES: seq<Route> := [
    Route("/", true, 200, HTML, "<html><body><h1>Welcome</h1></body></html>"),
    Route("/index.html", true, 200, HTML, "<html><body>Index</body></html>"),
    Route("/about", true, 200, HTML, "<html><body>About</body></html>"),
    Route("/contact", true, 200, HTML, "<html><body>Contact</body></html>"),
    Route("/login", true, 200, HTML, "<html><body>Login</body></html>"),
    Route("/logout", true, 302, PLAIN, "redirecting"),
    Route("/api/v1/users", false, 200, JSON, "{\"users\":[]}"),
    Route("/api/v1/orders", false, 200, JSON, "{\"orders\":[]}"),
    Route("/api/v1/products", false, 200, JSON, "{\"products\":[]}"),
    Route("/api/v2", false, 200, JSON, "{\"v\":2}"),
    Route("/static/css", false, 200, "text/css", "body{font:14px sans-serif}"),
    Route("/static/js", false, 200, "application/javascript", "console.log('hi');"),
    Route("/static/img", false, 200, "image/png", "PNGDATA"),
    Route("/static", false, 200, "application/octet-stream", "binary"),
    Route("/admin", false, 403, PLAIN, "Forbidden\n"),
    Route("/.git", false, 403, PLAIN, "Forbidden\n"),
    Route("/health", true, 200, PLAIN, "OK\n"),
    Route("/metrics", true, 200, PLAIN, "# metrics\n"),
    Route("/old", false, 301, PLAIN, "moved"),
    Route("/", false, 404, PLAIN, "Not Found\n")
  ]

  lemma Differ(a: string, b: string, k: nat)
    requires k < |a| && k < |b| && a[k] != b[k]
    ensures !ProperPrefix(a, b)
  {
  }

  lemma ApiRoutesShadowNothing(i: nat, j: nat)
    requires i < 10 && i < j < |DEFAULT_ROUTES|
    ensures !Shadows(DEFAULT_ROUTES, i, j)
  {
    if i >= 6 && |DEFAULT_ROUTES[i].prefix| < |DEFAULT_ROUTES[j].prefix| {
      Differ(DEFAULT_ROUTES[i].prefix, DEFAULT_ROUTES[j].prefix, if i == 6 || i == 7 then 8 else 1);
    }
  }

  lemma LaterRoutesShadowNothing(i: nat, j: nat)
    requires 10 <= i < j < |DEFAULT_ROUTES|
    ensures !Shadows(DEFAULT_ROUTES, i, j)
  {
    if !DEFAULT_ROUTES[i].exact && |DEFAULT_ROUTES[i].prefix| < |DEFAULT_ROUTES[j].prefix| {
      Differ(DEFAULT_ROUTES[i].prefix, DEFAULT_ROUTES[j].prefix, if i == 11 then 8 else 1);
    }
  }

  /** In the default table no prefix route comes before one that extends it. */
  lemma DefaultRoutesWellOrdered()
    ensures WellOrdered(DEFAULT_ROUTES)
  {
    hide Shadows;
    forall i: nat, j: nat | i < j < |DEFAULT_ROUTES|
      ensures !Shadows(DEFAULT_ROUTES, i, j)
    {
      if i < 10 { ApiRoutesShadowNothing(i, j); } else { LaterRoutesShadowNothing(i, j); }
    }
  }

  /** Every path that starts with a slash is routed by the table, and to the longest matching prefix. */
  lemma DefaultRoutesMatch(path: string)
    requires "/" <= path
    ensures exists i: nat ::
              && i < |DEFAULT_ROUTES| && FirstMatch(DEFAULT_ROUTES, path, i)
              && RouteFor(DEFAULT_ROUTES, path) == DEFAULT_ROUTES[i]
              && forall j: nat :: i < j < |DEFAULT_ROUTES| && Matches(DEFAULT_ROUTES[j], path) ==>
                   |DEFAULT_ROUTES[j].prefix| <= |DEFAULT_ROUTES[i].prefix|
  {
    var i := RouteForIsFirst(DEFAULT_ROUTES, path);
    assert Matches(DEFAULT_ROUTES[19], path);
    DefaultRoutesWellOrdered();
    forall j: nat | i < j < |DEFAULT_ROUTES| && Matches(DEFAULT_ROUTES[j], path)
      ensures |DEFAULT_ROUTES[j].prefix| <= |DEFAULT_ROUTES[i].prefix|
    {
      OrderSuffices(DEFAULT_ROUTES, path, i, j);
    }
  }

  // Lookup.

  function Lookup(headers: seq<Header>, want: string): string {
    if headers == [] then ""
    else if headers[0].name == want then headers[0].value
    else Lookup(headers[1..], want)
  }

  function Pairs(names: seq<string>, values: seq<string>): (hs: seq<Header>)
    requires |names| == |values|
    ensures |hs| == |names|
  {
    seq(|names|, k requires 0 <= k < |names| => Header(names[k], values[k]))
  }

  method LookupHeader(names: seq<string>, values: seq<string>, want: string) returns (value: string)
    requires |names| == |values|
    ensures value == Lookup(Pairs(names, values), want)
  {
    ghost var hs := Pairs(names, values);
    for i := 0 to |names|
      invariant Lookup(hs, want) == Lookup(hs[i..], want)
    {
      if names[i] == want {
        return values[i];
      }
      assert hs[i..][1..] == hs[i + 1..];
    }
    return "";
  }

  /** k is the first header whose raw name is want up to case, or the number of headers if none is. */
  ghost predicate FirstNamed(raw: seq<Header>, want: string, k: nat) {
    && k <= |raw|
    && (k < |raw| ==> SameName(raw[k].name, want))
    && forall m :: 0 <= m < k ==> !SameName(raw[m].name, want)
  }

  /** Looking up a canonical name finds the first header of that name, whatever case it was sent in. */
  lemma {:induction false} LookupIgnoresCase(raw: seq<Header>, recorded: seq<Header>, want: string) returns (k: nat)
    requires |raw| == |recorded| && forall m :: 0 <= m < |raw| ==> recorded[m].name == Canonical(raw[m].name)
    requires Canonical(want) == want
    ensures FirstNamed(raw, want, k)
    ensures Lookup(recorded, want) == if k < |raw| then recorded[k].value else ""
  {
    k := 0;
    if raw != [] {
      CanonicalIffSameName(raw[0].name, want);
      if recorded[0].name != want {
        k := LookupIgnoresCase(raw[1..], recorded[1..], want);
        assert forall m :: 0 < m < |raw| ==> raw[m] == raw[1..][m - 1];
        k := k + 1;
      }
    }
  }
}
