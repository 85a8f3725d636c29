/** Writing materialised hosts into the repository: comparison, upsert, deletion and the sync of a host set. */
module IngressSync {
  import opened Options
  import opened Text
  import opened Sorting
  import opened PlanDiff
  import opened Repository
  import opened IngressModel
  import opened IngressRows

  /** A host ready to be written: backends without duplicate ids, by ascending id. */
  datatype Materialized = Materialized(endpoint: Endpoint, backends: seq<Backend>, routes: seq<Route>)

  predicate BackendBefore(a: Backend, b: Backend) { Less(a.id, b.id) }

  ghost predicate Carries(m: Materialized, item: Item) {
    && m.endpoint == item.endpoint && m.routes == RoutesIn(item.made)
    && Sorted(m.backends, BackendBefore) && ById(m.backends, BackendKey) == WantedBackends(item)
  }

  predicate DistinctRoutes(item: Item) {
    forall i, j :: 0 <= i < j < |item.made| ==> item.made[i].route.id != item.made[j].route.id
  }

  // ---- Counting ------------------------------------------------------------------------------------

  ghost predicate Distinct<T(!new)>(items: seq<T>, idOf: T -> string) {
    forall i, j :: 0 <= i < j < |items| ==> idOf(items[i]) != idOf(items[j])
  }

  lemma DistinctSnoc<T(!new)>(init: seq<T>, x: T, idOf: T -> string)
    ensures Distinct(init + [x], idOf)
           <==> Distinct(init, idOf) && forall i :: 0 <= i < |init| ==> idOf(init[i]) != idOf(x)
  {
    var items := init + [x];
    if Distinct(items, idOf) {
      forall i, j | 0 <= i < j < |init| ensures idOf(init[i]) != idOf(init[j]) {
        assert items[i] == init[i] && items[j] == init[j];
      }
      forall i | 0 <= i < |init| ensures idOf(init[i]) != idOf(x) {
        assert items[i] == init[i] && items[|init|] == x;
      }
    }
  }

  /** A list indexes to as many entries as it has items exactly when its ids are distinct. */
  lemma {:induction false} ByIdSize<T(!new)>(items: seq<T>, idOf: T -> string)
    ensures |ById(items, idOf)| <= |items|
    ensures |ById(items, idOf)| == |items| <==> Distinct(items, idOf)
  {
    if items != [] {
      var init, x := items[..|items| - 1], items[|items| - 1];
      assert items == init + [x];
      ByIdSize(init, idOf);
      ByIdHas(init, idOf, idOf(x));
      DistinctSnoc(init, x, idOf);
      KeySize(ById(init, idOf), idOf(x), x);
    }
  }

  lemma KeySize<T>(m: map<string, T>, k: string, x: T)
    ensures |m[k := x]| == if k in m then |m| else |m| + 1
  {
    assert m[k := x].Keys == m.Keys + {k};
  }

  lemma {:induction false} SameSize(a: set<string>, b: set<string>)
    requires a <= b && |a| == |b|
    ensures a == b
  {
    assert |b - a| == |b| - |a|;
  }

  /** Wanted routes and wanted backends correspond one to one. */
  lemma WantedSizes(h: string, item: Item)
    requires ItemFor(h, item)
    ensures |WantedRoutes(item)| == |WantedBackends(item)|
  {
    var f := map id | id in WantedRoutes(item) :: WantedRoutes(item)[id].backendId;
    forall id | id in f ensures f[id] in WantedBackends(item) {
      WantedRouteFacts(h, item, id);
    }
    forall b | b in WantedBackends(item) ensures exists id :: id in f && f[id] == b {
      var r := WantedBackendFacts(h, item, b);
      WantedRouteFacts(h, item, r);
      assert r in f && f[r] == b;
    }
    forall a, b | a in f && b in f && f[a] == f[b] ensures a == b {
      WantedRouteFacts(h, item, a);
      WantedRouteFacts(h, item, b);
      TwinOnce(a, b);
    }
    Bijection(f, WantedBackends(item).Keys);
    assert f.Keys == WantedRoutes(item).Keys;
  }

  lemma {:induction false} Bijection(f: map<string, string>, image: set<string>)
    requires forall a :: a in f ==> f[a] in image
    requires forall b :: b in image ==> exists a :: a in f && f[a] == b
    requires forall a, b :: a in f && b in f && f[a] == f[b] ==> a == b
    ensures |f| == |image|
  {
    if f == map[] {
      assert image == {};
    } else {
      var a :| a in f;
      var g := f - {a};
      assert f.Keys == g.Keys + {a};
      forall b | b in image - {f[a]} ensures exists x :: x in g && g[x] == b {
        var x :| x in f && f[x] == b;
        assert x in g;
      }
      Bijection(g, image - {f[a]});
    }
  }

  // ---- Comparing -----------------------------------------------------------------------------------

  /** The live routes of a host, each once, in some order. */
  ghost predicate ListsRoutes(rows: Rows, h: string, rs: seq<Route>) {
    && (forall i :: 0 <= i < |rs| ==> rs[i].id in RoutesOf(rows, h) && rows.routes[rs[i].id] == rs[i])
    && (forall id :: id in RoutesOf(rows, h) ==> rows.routes[id] in rs)
    && Distinct(rs, RouteKey)
  }

  /** The join of those routes with their live backends, one row per pair. */
  function Joined(backends: map<string, Backend>, rs: seq<Route>): seq<Backend> {
    if rs == [] then []
    else
      var n := |rs| - 1;
      Joined(backends, rs[..n]) + if rs[n].backendId in backends then [backends[rs[n].backendId]] else []
  }

  predicate Unchanged(existing: Option<Endpoint>, current: seq<Route>, joined: seq<Backend>, m: Materialized) {
    && existing == Some(m.endpoint)
    && |current| == |m.routes| && |joined| == |m.backends|
    && (forall i :: 0 <= i < |m.routes| ==> m.routes[i] in current)
    && (forall i :: 0 <= i < |m.backends| ==> m.backends[i] in joined)
  }

  ghost predicate Functional<T(!new)>(items: seq<T>, idOf: T -> string) {
    forall i, j :: 0 <= i < |items| && 0 <= j < |items| && idOf(items[i]) == idOf(items[j]) ==> items[i] == items[j]
  }

  method Covers<T(==, !new)>(wanted: seq<T>, current: seq<T>, idOf: T -> string) returns (r: bool)
    requires Functional(current, idOf)
    ensures r <==> forall i :: 0 <= i < |wanted| ==> wanted[i] in current
  {
    var index := IndexById(current, idOf);
    for i := 0 to |wanted|
      invariant forall j :: 0 <= j < i ==> wanted[j] in current
    {
      var id := idOf(wanted[i]);
      if id !in index || index[id] != wanted[i] {
        assert wanted[i] !in current;
        return false;
      }
    }
    return true;
  }

  method ManagedDomainUnchanged(existing: Option<Endpoint>, current: seq<Route>, joined: seq<Backend>, m: Materialized)
    returns (r: bool)
    requires Functional(current, RouteKey) && Functional(joined, BackendKey)
    ensures r == Unchanged(existing, current, joined, m)
  {
    if existing.None? {
      return false;
    }
    if existing.value != m.endpoint {
      return false;
    }
    if |current| != |m.routes| || |joined| != |m.backends| {
      return false;
    }
    r := Covers(m.routes, current, RouteKey);
    if !r {
      return false;
    }
    r := Covers(m.backends, joined, BackendKey);
  }

  lemma {:induction false} JoinedFacts(rows: Rows, rs: seq<Route>)
    requires Inv(rows) && forall i :: 0 <= i < |rs| ==> rs[i].id in rows.routes && rows.routes[rs[i].id] == rs[i]
    ensures |Joined(rows.backends, rs)| == |rs|
    ensures forall i :: 0 <= i < |rs| ==>
              rs[i].backendId in rows.backends && Joined(rows.backends, rs)[i] == rows.backends[rs[i].backendId]
    ensures Functional(Joined(rows.backends, rs), BackendKey)
  {
    if rs != [] {
      JoinedFacts(rows, rs[..|rs| - 1]);
      assert RouteOk(rows, rs[|rs| - 1].id);
    }
    forall i | 0 <= i < |rs| ensures BackendKey(Joined(rows.backends, rs)[i]) == rs[i].backendId {
      assert RouteOk(rows, rs[i].id) && BackendOk(rows, rs[i].backendId);
    }
  }

  lemma ListSize(rows: Rows, h: string, rs: seq<Route>)
    requires ListsRoutes(rows, h, rs)
    requires forall id :: id in rows.routes ==> rows.routes[id].id == id
    ensures |rs| == |RoutesOf(rows, h)|
  {
    ByIdSize(rs, RouteKey);
    var m := ById(rs, RouteKey);
    assert m.Keys == RoutesOf(rows, h) by {
      forall id | id in RoutesOf(rows, h) ensures id in m {
        assert rows.routes[id] in rs;
      }
    }
  }

  /** The comparison succeeds exactly when the stored rows are the item's and its route ids are distinct;
      with repeated ids the host is rewritten although nothing differs. */
  lemma UnchangedIff(rows: Rows, h: string, item: Item, m: Materialized, current: seq<Route>)
    requires Inv(rows) && ItemFor(h, item) && Carries(m, item) && ListsRoutes(rows, h, current)
    ensures Unchanged(Get(rows.endpoints, h), current, Joined(rows.backends, current), m)
            <==> Holds(rows, h, Some(item)) && DistinctRoutes(item)
  {
    JoinedFacts(rows, current);
    Sizes(rows, h, item, m, current);
    if Unchanged(Get(rows.endpoints, h), current, Joined(rows.backends, current), m) {
      UnchangedHolds(rows, h, item, m, current);
    } else if Holds(rows, h, Some(item)) && DistinctRoutes(item) {
      HoldsUnchanged(rows, h, item, m, current);
      assert false;
    }
  }

  lemma Sizes(rows: Rows, h: string, item: Item, m: Materialized, current: seq<Route>)
    requires Inv(rows) && ItemFor(h, item) && Carries(m, item) && ListsRoutes(rows, h, current)
    ensures |current| == |RoutesOf(rows, h)| && |m.backends| == |WantedBackends(item)| == |WantedRoutes(item)|
    ensures |m.routes| == |WantedRoutes(item)| <==> DistinctRoutes(item)
  {
    forall id | id in rows.routes ensures rows.routes[id].id == id {
      assert RouteOk(rows, id);
    }
    ListSize(rows, h, current);
    WantedSizes(h, item);
    ByIdSize(m.routes, RouteKey);
    ByIdSize(m.backends, BackendKey);
    SortedDistinct(m.backends);
    assert Distinct(m.routes, RouteKey) <==> DistinctRoutes(item);
  }

  lemma SortedDistinct(bs: seq<Backend>)
    requires Sorted(bs, BackendBefore)
    ensures Distinct(bs, BackendKey)
  {
    forall i, j | 0 <= i < j < |bs| ensures BackendKey(bs[i]) != BackendKey(bs[j]) {
      LessTotal(bs[i].id, bs[j].id);
    }
  }

  lemma UnchangedHolds(rows: Rows, h: string, item: Item, m: Materialized, current: seq<Route>)
    requires Inv(rows) && ItemFor(h, item) && Carries(m, item) && ListsRoutes(rows, h, current)
    requires |current| == |RoutesOf(rows, h)| && |m.backends| == |WantedRoutes(item)|
    requires |Joined(rows.backends, current)| == |current|
    requires forall i :: 0 <= i < |current| ==>
               && current[i].backendId in rows.backends
               && Joined(rows.backends, current)[i] == rows.backends[current[i].backendId]
    requires |m.routes| == |WantedRoutes(item)| <==> DistinctRoutes(item)
    requires Unchanged(Get(rows.endpoints, h), current, Joined(rows.backends, current), m)
    ensures Holds(rows, h, Some(item)) && DistinctRoutes(item)
  {
    forall id | id in WantedRoutes(item) ensures id in RoutesOf(rows, h) && rows.routes[id] == WantedRoutes(item)[id] {
      StoredRoute(rows, h, m.routes, current, id);
    }
    SameSize(WantedRoutes(item).Keys, RoutesOf(rows, h));
    forall id | id in WantedBackends(item)
      ensures id in rows.backends && rows.backends[id] == WantedBackends(item)[id]
    {
      StoredBackend(rows, m.backends, current, id);
    }
  }

  lemma StoredRoute(rows: Rows, h: string, wanted: seq<Route>, current: seq<Route>, id: string)
    requires ListsRoutes(rows, h, current) && id in ById(wanted, RouteKey)
    requires forall i :: 0 <= i < |wanted| ==> wanted[i] in current
    ensures id in RoutesOf(rows, h) && rows.routes[id] == ById(wanted, RouteKey)[id]
  {
    var i :| 0 <= i < |wanted| && wanted[i] == ById(wanted, RouteKey)[id];
    var j :| 0 <= j < |current| && current[j] == wanted[i];
  }

  lemma StoredBackend(rows: Rows, wanted: seq<Backend>, current: seq<Route>, id: string)
    requires Inv(rows) && id in ById(wanted, BackendKey) && |Joined(rows.backends, current)| == |current|
    requires forall i :: 0 <= i < |current| ==>
               && current[i].backendId in rows.backends
               && Joined(rows.backends, current)[i] == rows.backends[current[i].backendId]
    requires forall i :: 0 <= i < |wanted| ==> wanted[i] in Joined(rows.backends, current)
    ensures id in rows.backends && rows.backends[id] == ById(wanted, BackendKey)[id]
  {
    var i :| 0 <= i < |wanted| && wanted[i] == ById(wanted, BackendKey)[id];
    var j :| 0 <= j < |current| && Joined(rows.backends, current)[j] == wanted[i];
    assert BackendOk(rows, current[j].backendId);
  }

  lemma HoldsUnchanged(rows: Rows, h: string, item: Item, m: Materialized, current: seq<Route>)
    requires Inv(rows) && ItemFor(h, item) && Carries(m, item) && ListsRoutes(rows, h, current)
    requires |current| == |RoutesOf(rows, h)| && |m.backends| == |WantedRoutes(item)| == |m.routes|
    requires |Joined(rows.backends, current)| == |current|
    requires forall i :: 0 <= i < |current| ==>
               && current[i].backendId in rows.backends
               && Joined(rows.backends, current)[i] == rows.backends[current[i].backendId]
    requires Holds(rows, h, Some(item)) && DistinctRoutes(item)
    ensures Unchanged(Get(rows.endpoints, h), current, Joined(rows.backends, current), m)
  {
    ByIdSize(m.routes, RouteKey);
    forall i | 0 <= i < |m.routes| ensures m.routes[i] in current {
      ByIdLast(m.routes, RouteKey, i);
      assert rows.routes[m.routes[i].id] in current;
    }
    SortedDistinct(m.backends);
    forall i | 0 <= i < |m.backends| ensures m.backends[i] in Joined(rows.backends, current) {
      ByIdLast(m.backends, BackendKey, i);
      var r := WantedBackendFacts(h, item, m.backends[i].id);
      WantedRouteFacts(h, item, r);
      var j :| 0 <= j < |current| && current[j] == rows.routes[r];
      assert Joined(rows.backends, current)[j] == m.backends[i];
    }
  }
}
