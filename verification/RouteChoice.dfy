/** Choosing among materialised routes: path matching, the four-level order, and the selection loop. */
module RouteChoice {
  import opened Options
  import opened Text

  datatype RouteKind = HTTP | HTTPS | GRPC | TLSTerminate | TLSPassthrough | TCP | UDP

  datatype Backend = Backend(namespace: string, name: string, address: string, port: nat)

  /** A materialised route; `id` is its binding's id and `backend` what the binding points to. */
  datatype Route = Route(kind: RouteKind, host: string, port: nat, path: string, exact: bool, order: nat, id: string,
                         backend: Backend)

  /** On normalised paths: equal, or for a prefix also everything below it. */
  predicate CoversPath(exact: bool, route: string, request: string) {
    if exact then request == route
    else route == "/" || request == route || (route <= request && |route| < |request| && request[|route|] == '/')
  }

  /** An exact route covers its own path; any other covers it and what continues it at a slash, and "/" covers all. */
  lemma CoversIff(exact: bool, route: string, request: string)
    ensures CoversPath(exact, route, request) <==>
            || request == route
            || (!exact && (route == "/" || exists rest: string :: request == route + "/" + rest))
  {
    if rest: string :| request == route + "/" + rest {
      assert request[..|route|] == route && request[|route|] == '/';
    }
    if route <= request && |route| < |request| && request[|route|] == '/' {
      assert request == route + "/" + request[|route| + 1..];
    }
  }

  predicate PathMatches(exact: bool, routePath: string, requestPath: string) {
    CoversPath(exact, NormalizePath(routePath), NormalizePath(requestPath))
  }

  /** Both paths count in their normal form. */
  lemma PathsCountNormal(exact: bool, routePath: string, requestPath: string)
    ensures PathMatches(exact, routePath, requestPath) <==>
            PathMatches(exact, NormalizePath(routePath), NormalizePath(requestPath))
    ensures NormalizedPath(routePath) && NormalizedPath(requestPath) ==>
              (PathMatches(exact, routePath, requestPath) <==> CoversPath(exact, routePath, requestPath))
  {
  }

  predicate Matches(r: Route, kind: RouteKind, request: string) {
    r.kind == kind && PathMatches(r.exact, r.path, request)
  }

  /** Exact before prefix, then the longer path, then the lower order, then the greater id. */
  function Compare(a: Route, b: Route): int {
    if a.exact != b.exact then (if a.exact then 1 else -1)
    else if |a.path| != |b.path| then (if |a.path| > |b.path| then 1 else -1)
    else if a.order != b.order then (if a.order < b.order then 1 else -1)
    else if a.id != b.id then (if Less(b.id, a.id) then 1 else -1)
    else 0
  }

  /** `a` does not stand behind `b`: exact routes first, then longer paths, then lower orders, then greater ids. */
  predicate NotBehind(a: Route, b: Route) {
    && (b.exact ==> a.exact)
    && (a.exact == b.exact ==> |a.path| >= |b.path|)
    && (a.exact == b.exact && |a.path| == |b.path| ==> a.order <= b.order)
    && (a.exact == b.exact && |a.path| == |b.path| && a.order == b.order ==> a.id == b.id || Less(b.id, a.id))
  }

  lemma RankIs(a: Route, b: Route)
    ensures Compare(a, b) >= 0 <==> NotBehind(a, b)
  {
    LessTotal(a.id, b.id);
  }

  lemma CompareIsOrder(a: Route, b: Route, c: Route)
    ensures Compare(a, a) == 0 && Compare(a, b) == -Compare(b, a)
    ensures Compare(a, b) >= 0 && Compare(b, c) >= 0 ==> Compare(a, c) >= 0
    ensures Compare(a, b) == 0 <==> a.exact == b.exact && |a.path| == |b.path| && a.order == b.order && a.id == b.id
  {
    LessTotal(a.id, b.id);
    LessTotal(b.id, c.id);
    LessTotal(a.id, c.id);
    if Less(c.id, b.id) && Less(b.id, a.id) {
      LessTransitive(c.id, b.id, a.id);
    }
  }

  ghost predicate SomeMatch(routes: seq<Route>, kind: RouteKind, request: string) {
    exists i :: 0 <= i < |routes| && Matches(routes[i], kind, request)
  }

  /** `r` matches and no matching route ranks above it. */
  ghost predicate Best(r: Route, routes: seq<Route>, kind: RouteKind, request: string) {
    && r in routes && Matches(r, kind, request)
    && forall i :: 0 <= i < |routes| && Matches(routes[i], kind, request) ==> Compare(r, routes[i]) >= 0
  }

  /** Which routes match, one flag per route. */
  function Flags(routes: seq<Route>, kind: RouteKind, request: string): (r: seq<bool>)
    ensures |r| == |routes|
  {
    seq(|routes|, i requires 0 <= i < |routes| => Matches(routes[i], kind, request))
  }

  /** The best flagged route among the first `n`. */
  ghost predicate BestOf(selected: Option<Route>, routes: seq<Route>, flags: seq<bool>, n: nat)
    requires n <= |routes| == |flags|
  {
    match selected
    case None => forall j :: 0 <= j < n ==> !flags[j]
    case Some(r) =>
      && (exists j :: 0 <= j < n && flags[j] && routes[j] == r)
      && forall j :: 0 <= j < n && flags[j] ==> Compare(r, routes[j]) >= 0
  }

  method SelectFlagged(routes: seq<Route>, flags: seq<bool>) returns (selected: Option<Route>)
    requires |flags| == |routes|
    ensures BestOf(selected, routes, flags, |routes|)
  {
    selected := None;
    for i := 0 to |routes|
      invariant BestOf(selected, routes, flags, i)
    {
      if !flags[i] {
        continue;
      }
      if selected.None? || Compare(routes[i], selected.value) > 0 {
        Overtakes(selected, routes, flags, i);
        selected := Some(routes[i]);
      } else {
        CompareIsOrder(selected.value, routes[i], routes[i]);
      }
    }
  }

  lemma Overtakes(selected: Option<Route>, routes: seq<Route>, flags: seq<bool>, i: nat)
    requires i < |routes| == |flags| && flags[i] && BestOf(selected, routes, flags, i)
    requires selected.None? || Compare(routes[i], selected.value) > 0
    ensures BestOf(Some(routes[i]), routes, flags, i + 1)
  {
    forall j | 0 <= j < i + 1 && flags[j] ensures Compare(routes[i], routes[j]) >= 0 {
      CompareIsOrder(routes[i], if selected.Some? then selected.value else routes[i], routes[j]);
    }
  }

  /** The selection loop: it finds a route exactly when one matches, and then a best one. */
  method SelectRoute(routes: seq<Route>, request: string, kind: RouteKind) returns (selected: Option<Route>)
    ensures selected.Some? <==> SomeMatch(routes, kind, request)
    ensures selected.Some? ==> Best(selected.value, routes, kind, request)
    ensures selected.Some? ==> forall r :: r in routes && Matches(r, kind, request) ==> NotBehind(selected.value, r)
  {
    var flags := Flags(routes, kind, request);
    selected := SelectFlagged(routes, flags);
    FlagsAre(routes, kind, request);
    if selected.Some? {
      forall r | r in routes && Matches(r, kind, request) ensures NotBehind(selected.value, r) {
        var i :| 0 <= i < |routes| && routes[i] == r;
        RankIs(selected.value, r);
      }
    }
  }

  lemma FlagsAre(routes: seq<Route>, kind: RouteKind, request: string)
    ensures forall i :: 0 <= i < |routes| ==> Flags(routes, kind, request)[i] == Matches(routes[i], kind, request)
  {
  }

  /** Two equally ranked routes that match one request have the same path. */
  lemma EqualRankSamePath(a: Route, b: Route, kind: RouteKind, request: string)
    requires NormalizedPath(a.path) && NormalizedPath(b.path)
    requires Matches(a, kind, request) && Matches(b, kind, request) && Compare(a, b) == 0
    ensures a.path == b.path
  {
    CompareIsOrder(a, b, b);
    SamePrefix(a.path, b.path, NormalizePath(request), a.exact);
  }

  lemma SamePrefix(p: string, q: string, r: string, exact: bool)
    requires p != "" && p[0] == '/' && q != "" && q[0] == '/' && r != "" && r[0] == '/' && |p| == |q|
    requires CoversPath(exact, p, r) && CoversPath(exact, q, r)
    ensures p == q
  {
    if !exact {
      PrefixOf(p, r);
      PrefixOf(q, r);
      assert p == r[..|p|] && q == r[..|q|];
    }
  }

  lemma PrefixOf(p: string, r: string)
    requires p != "" && p[0] == '/' && r != "" && r[0] == '/' && CoversPath(false, p, r)
    ensures p <= r
  {
  }

  /** Whatever order the tables were filled in, the choice ranks the same and has the same path. */
  lemma ChoiceIsOrderIndependent(a: Route, b: Route, xs: seq<Route>, ys: seq<Route>, kind: RouteKind, request: string)
    requires forall r :: r in xs <==> r in ys
    requires forall i :: 0 <= i < |xs| ==> NormalizedPath(xs[i].path)
    requires Best(a, xs, kind, request) && Best(b, ys, kind, request)
    ensures Compare(a, b) == 0 && a.path == b.path
  {
    assert b in xs && a in ys;
    CompareIsOrder(a, b, a);
    CompareIsOrder(b, a, b);
    EqualRankSamePath(a, b, kind, request);
  }
}
