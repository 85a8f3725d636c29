/** The repository operations the bridge performs, in place. */
module IngressRepo {
  import opened Options
  import opened Text
  import opened PlanDiff
  import opened Repository
  import opened IngressModel
  import opened IngressRows
  import opened IngressSync

  lemma ManagedTwin(id: string)
    requires RouteHead <= id
    ensures HasPrefix(BackendIdOf(id), ManagedPrefix)
  {
    assert BackendIdOf(id)[..|ManagedPrefix|] == ManagedPrefix;
  }

  ghost function Stale(current: seq<Route>, keep: set<string>): set<string> {
    set i | 0 <= i < |current| && current[i].id !in keep :: current[i].id
  }

  /** A backend the bridge manages and does not keep. */
  predicate Disposable(id: string, keepBackends: set<string>) { HasPrefix(id, ManagedPrefix) && id !in keepBackends }

  /** The bridge manages the backends whose id starts with "k8s:backend:", and disposes of no other. */
  lemma DisposableIs(id: string, keepBackends: set<string>)
    ensures Disposable(id, keepBackends) <==>
            id !in keepBackends && exists rest: string :: id == "k8s:backend:" + rest
  {
    if HasPrefix(id, ManagedPrefix) {
      assert id == "k8s:backend:" + id[|ManagedPrefix|..];
    }
    if rest: string :| id == "k8s:backend:" + rest {
      assert id[..|ManagedPrefix|] == ManagedPrefix;
    }
  }

  ghost function StaleBackends(current: seq<Route>, keep: set<string>, keepBackends: set<string>): set<string> {
    set i | 0 <= i < |current| && current[i].id !in keep && Disposable(current[i].backendId, keepBackends) ::
      current[i].backendId
  }

  lemma StaleNext(current: seq<Route>, i: nat, keep: set<string>, keepBackends: set<string>)
    requires i < |current|
    ensures Stale(current[..i + 1], keep)
             == Stale(current[..i], keep) + if current[i].id in keep then {} else {current[i].id}
    ensures StaleBackends(current[..i + 1], keep, keepBackends) == StaleBackends(current[..i], keep, keepBackends)
              + if current[i].id !in keep && Disposable(current[i].backendId, keepBackends) then {current[i].backendId}
              else {}
  {
    var a, b := current[..i], current[..i + 1];
    assert forall j :: 0 <= j < i ==> a[j] == b[j];
    assert b[i] == current[i];
    forall x | x in Stale(a, keep) ensures x in Stale(b, keep) {
      var j :| 0 <= j < |a| && a[j].id !in keep && a[j].id == x;
      assert b[j] == a[j];
    }
    forall x | x in StaleBackends(a, keep, keepBackends) ensures x in StaleBackends(b, keep, keepBackends) {
      var j :| 0 <= j < |a| && a[j].id !in keep && Disposable(a[j].backendId, keepBackends) && a[j].backendId == x;
      assert b[j] == a[j];
    }
  }

  lemma UpsertThenPrune<T>(m: map<string, T>, wanted: map<string, T>, owned: set<string>, pruned: set<string>)
    requires pruned !! wanted.Keys && pruned <= owned && owned <= pruned + wanted.Keys
    ensures m + wanted - pruned == m - owned + wanted
  {
  }

  lemma AddOne<T>(m: map<string, T>, w: map<string, T>, k: string, v: T)
    ensures (m + w)[k := v] == m + w[k := v]
  {
  }

  lemma DropMore<T>(m: map<string, T>, a: set<string>, k: string)
    ensures m - a - {k} == m - (a + {k})
    ensures m - {} == m
  {
  }

  /** Upserts a list in order. */
  method PutAll<T>(m: map<string, T>, items: seq<T>, idOf: T -> string) returns (r: map<string, T>)
    ensures r == m + ById(items, idOf)
  {
    r := m;
    for i := 0 to |items|
      invariant r == m + ById(items[..i], idOf)
    {
      assert items[..i + 1][..i] == items[..i];
      AddOne(m, ById(items[..i], idOf), idOf(items[i]), items[i]);
      r := r[idOf(items[i]) := items[i]];
    }
    assert items[..|items|] == items;
  }

  /** The rows of a host among those not yet visited are still to come. */
  ghost predicate ListedSoFar(routes: map<string, Route>, h: string, rs: seq<Route>, todo: set<string>) {
    && (forall i :: 0 <= i < |rs| ==>
          rs[i].id in routes && routes[rs[i].id] == rs[i] && rs[i].hostname == h && rs[i].id !in todo)
    && (forall id :: id in routes && routes[id].hostname == h && id !in todo ==> routes[id] in rs)
    && Distinct(rs, RouteKey)
  }

  lemma ListOne(routes: map<string, Route>, h: string, rs: seq<Route>, todo: set<string>, id: string)
    requires ListedSoFar(routes, h, rs, todo) && id in todo && id in routes && routes[id].id == id
    ensures ListedSoFar(routes, h, if routes[id].hostname == h then rs + [routes[id]] else rs, todo - {id})
  {
    if routes[id].hostname == h {
      DistinctSnoc(rs, routes[id], RouteKey);
    }
  }

  method RoutesWithHost(routes: map<string, Route>, h: string) returns (rs: seq<Route>)
    requires forall id :: id in routes ==> routes[id].id == id
    ensures ListedSoFar(routes, h, rs, {})
  {
    rs := [];
    var todo := routes.Keys;
    while todo != {}
      invariant todo <= routes.Keys && ListedSoFar(routes, h, rs, todo)
      decreases todo
    {
      var id :| id in todo;
      ListOne(routes, h, rs, todo, id);
      if routes[id].hostname == h {
        rs := rs + [routes[id]];
      }
      todo := todo - {id};
    }
  }

  lemma PutSame<T>(m: map<string, T>, owned: set<string>, wanted: map<string, T>)
    requires owned <= wanted.Keys && forall k :: k in wanted ==> k in m && m[k] == wanted[k]
    ensures m - owned + wanted == m
  {
  }

  /** The backends without a bound managed one that is not kept. */
  function Unbound(backends: map<string, Backend>, boundId: string, keepBackends: set<string>): map<string, Backend> {
    if boundId != "" && Disposable(boundId, keepBackends) then backends - {boundId} else backends
  }

  class Repo {
    var endpoints: map<string, Endpoint>
    var routes: map<string, Route>
    var backends: map<string, Backend>

    ghost function View(): Rows reads this { Rows(endpoints, routes, backends) }

    constructor ()
      ensures View() == NoRows
    {
      endpoints, routes, backends := map[], map[], map[];
    }

    method ListRoutesByHostname(h: string) returns (rs: seq<Route>)
      requires Inv(View())
      ensures ListsRoutes(View(), h, rs)
    {
      forall id | id in routes ensures routes[id].id == id {
        assert RouteOk(View(), id);
      }
      rs := RoutesWithHost(routes, h);
    }

    method ListBackendsByRoutes(rs: seq<Route>) returns (bs: seq<Backend>)
      ensures bs == Joined(backends, rs)
    {
      bs := [];
      for i := 0 to |rs|
        invariant bs == Joined(backends, rs[..i])
      {
        assert rs[..i + 1][..i] == rs[..i];
        if rs[i].backendId in backends {
          bs := bs + [backends[rs[i].backendId]];
        }
      }
      assert rs[..|rs|] == rs;
    }

    /** Flags the routes outside `keep` deleted, and their managed backends unless kept. */
    method Prune(current: seq<Route>, keep: set<string>, keepBackends: set<string>)
      modifies this`routes, this`backends
      ensures routes == old(routes) - Stale(current, keep)
      ensures backends == old(backends) - StaleBackends(current, keep, keepBackends)
    {
      DropMore(routes, {}, "");
      DropMore(backends, {}, "");
      for i := 0 to |current|
        invariant routes == old(routes) - Stale(current[..i], keep)
        invariant backends == old(backends) - StaleBackends(current[..i], keep, keepBackends)
      {
        StaleNext(current, i, keep, keepBackends);
        if current[i].id !in keep {
          DropMore(old(routes), Stale(current[..i], keep), current[i].id);
          routes := routes - {current[i].id};
          if Disposable(current[i].backendId, keepBackends) {
            DropMore(old(backends), StaleBackends(current[..i], keep, keepBackends), current[i].backendId);
            backends := backends - {current[i].backendId};
          }
        }
      }
      assert current[..|current|] == current;
    }

    /** Afterwards the host has exactly the item's rows; it reports a change unless it already had them
        and the item's route ids are distinct. */
    method UpsertManagedDomain(m: Materialized, ghost h: string, ghost item: Item) returns (changed: bool)
      requires Inv(View()) && ':' !in h && ItemFor(h, item) && Carries(m, item)
      modifies this
      ensures View() == Replace(old(View()), h, Some(item))
      ensures !changed <==> Holds(old(View()), h, Some(item)) && DistinctRoutes(item)
    {
      var host := m.endpoint.hostname;
      var existing := if host in endpoints then Some(endpoints[host]) else None;
      var current := ListRoutesByHostname(host);
      var joined := ListBackendsByRoutes(current);
      JoinedFacts(View(), current);
      var same := ManagedDomainUnchanged(existing, current, joined, m);
      UnchangedIff(View(), h, item, m, current);
      if same {
        ReplaceBySame(View(), h, item);
        return false;
      }
      NothingBound(View(), host);
      PrunedIsReplaced(View(), h, item, m, current);
      Rewrite(m, current, if existing.Some? then existing.value.boundId else "");
      return true;
    }

    /** Upserts the rows and flags the current ones that are not among them deleted, with their managed backends. */
    method Rewrite(m: Materialized, current: seq<Route>, boundId: string)
      modifies this
      ensures endpoints == old(endpoints)[m.endpoint.hostname := m.endpoint]
      ensures routes == old(routes) + ById(m.routes, RouteKey) - Stale(current, Ids(m.routes, RouteKey))
      ensures var keep := Ids(m.backends, BackendKey);
              var stale := StaleBackends(current, Ids(m.routes, RouteKey), keep);
              backends == Unbound(old(backends) + ById(m.backends, BackendKey) - stale, boundId, keep)
    {
      endpoints := endpoints[m.endpoint.hostname := m.endpoint];
      backends := PutAll(backends, m.backends, BackendKey);
      routes := PutAll(routes, m.routes, RouteKey);
      var keep, keepBackends := Ids(m.routes, RouteKey), Ids(m.backends, BackendKey);
      Prune(current, keep, keepBackends);
      backends := Unbound(backends, boundId, keepBackends);
    }

    method DeleteManagedDomain(h: string) returns (changed: bool)
      requires Inv(View()) && ':' !in h
      modifies this
      ensures View() == Replace(old(View()), h, None)
      ensures changed <==> h in old(endpoints)
    {
      AbsentHost(View(), h);
      if h !in endpoints {
        return false;
      }
      var current := ListRoutesByHostname(h);
      NothingBound(View(), h);
      AllStale(View(), h, current);
      Erase(h, current, endpoints[h].boundId);
      return true;
    }

    method Erase(h: string, current: seq<Route>, boundId: string)
      modifies this
      ensures endpoints == old(endpoints) - {h} && routes == old(routes) - Stale(current, {})
      ensures backends == Unbound(old(backends) - StaleBackends(current, {}, {}), boundId, {})
    {
      Prune(current, {}, {});
      backends := Unbound(backends, boundId, {});
      endpoints := endpoints - {h};
    }
  }

  function Ids<T>(items: seq<T>, idOf: T -> string): set<string> {
    set i | 0 <= i < |items| :: idOf(items[i])
  }

  lemma IdsAreKeys<T(!new)>(items: seq<T>, idOf: T -> string)
    ensures Ids(items, idOf) == ById(items, idOf).Keys
  {
    forall id ensures id in Ids(items, idOf) <==> id in ById(items, idOf) {
      ByIdHas(items, idOf, id);
    }
  }

  /** The bridge's own endpoints never bind a backend. */
  lemma NothingBound(rows: Rows, h: string)
    requires Inv(rows)
    ensures h in rows.endpoints ==> rows.endpoints[h].boundId == ""
  {
    assert h in rows.endpoints ==> EndpointOk(rows, h);
  }

  lemma CurrentIsManaged(rows: Rows, h: string, current: seq<Route>)
    requires Inv(rows) && ListsRoutes(rows, h, current)
    ensures forall i :: 0 <= i < |current| ==> HasPrefix(current[i].backendId, ManagedPrefix)
  {
    forall i | 0 <= i < |current| ensures HasPrefix(current[i].backendId, ManagedPrefix) {
      assert RouteOk(rows, current[i].id);
      ManagedTwin(current[i].id);
    }
  }

  lemma AbsentHost(rows: Rows, h: string)
    requires Inv(rows)
    ensures h !in rows.endpoints ==> Replace(rows, h, None) == rows
  {
    if h !in rows.endpoints {
      forall id | id in rows.routes ensures rows.routes[id].hostname != h {
        assert RouteOk(rows, id);
      }
      assert RoutesOf(rows, h) == {} && BackendsOf(rows, h) == {};
    }
  }

  lemma AllStale(rows: Rows, h: string, current: seq<Route>)
    requires Inv(rows) && ListsRoutes(rows, h, current)
    ensures Stale(current, {}) == RoutesOf(rows, h) && StaleBackends(current, {}, {}) == BackendsOf(rows, h)
  {
    forall id | id in rows.routes ensures rows.routes[id].id == id {
      assert RouteOk(rows, id);
    }
    CurrentIsManaged(rows, h, current);
    StaleRoutes(rows, h, current, {});
    forall b | b in BackendsOf(rows, h) ensures b in StaleBackends(current, {}, {}) {
      var id :| id in rows.routes && rows.routes[id].hostname == h && rows.routes[id].backendId == b;
      assert id in RoutesOf(rows, h);
      var i :| 0 <= i < |current| && current[i] == rows.routes[id];
    }
  }

  lemma ReplaceBySame(rows: Rows, h: string, item: Item)
    requires Inv(rows) && ItemFor(h, item) && Holds(rows, h, Some(item))
    ensures Replace(rows, h, Some(item)) == rows
  {
    PutSame(rows.routes, RoutesOf(rows, h), WantedRoutes(item));
    forall b ensures b in BackendsOf(rows, h) ==> b in WantedBackends(item) {
      if b in BackendsOf(rows, h) {
        var id :| id in rows.routes && rows.routes[id].hostname == h && rows.routes[id].backendId == b;
        assert id in RoutesOf(rows, h);
        WantedRouteFacts(h, item, id);
      }
    }
    PutSame(rows.backends, BackendsOf(rows, h), WantedBackends(item));
    assert rows.endpoints[h := item.endpoint] == rows.endpoints;
  }

  lemma StaleRoutes(rows: Rows, h: string, current: seq<Route>, keep: set<string>)
    requires ListsRoutes(rows, h, current) && forall id :: id in rows.routes ==> rows.routes[id].id == id
    ensures Stale(current, keep) == RoutesOf(rows, h) - keep
  {
    forall id | id in RoutesOf(rows, h) - keep ensures id in Stale(current, keep) {
      var i :| 0 <= i < |current| && current[i] == rows.routes[id];
    }
  }

  lemma StaleTwins(rows: Rows, h: string, item: Item, current: seq<Route>)
    requires Inv(rows) && ItemFor(h, item) && ListsRoutes(rows, h, current)
    ensures var pruned := StaleBackends(current, WantedRoutes(item).Keys, WantedBackends(item).Keys);
            pruned <= BackendsOf(rows, h) && BackendsOf(rows, h) <= pruned + WantedBackends(item).Keys
  {
    var pruned := StaleBackends(current, WantedRoutes(item).Keys, WantedBackends(item).Keys);
    CurrentIsManaged(rows, h, current);
    forall b | b in BackendsOf(rows, h) ensures b in pruned || b in WantedBackends(item) {
      var id :| id in rows.routes && rows.routes[id].hostname == h && rows.routes[id].backendId == b;
      assert id in RoutesOf(rows, h) && RouteOk(rows, id);
      if id in WantedRoutes(item) {
        WantedRouteFacts(h, item, id);
      } else {
        var i :| 0 <= i < |current| && current[i] == rows.routes[id];
      }
    }
  }

  lemma PrunedIsReplaced(rows: Rows, h: string, item: Item, m: Materialized, current: seq<Route>)
    requires Inv(rows) && ItemFor(h, item) && Carries(m, item) && ListsRoutes(rows, h, current)
    ensures rows.routes + ById(m.routes, RouteKey) - Stale(current, Ids(m.routes, RouteKey))
             == rows.routes - RoutesOf(rows, h) + WantedRoutes(item)
    ensures rows.backends + ById(m.backends, BackendKey)
              - StaleBackends(current, Ids(m.routes, RouteKey), Ids(m.backends, BackendKey))
         == rows.backends - BackendsOf(rows, h) + WantedBackends(item)
  {
    IdsAreKeys(m.routes, RouteKey);
    IdsAreKeys(m.backends, BackendKey);
    forall id | id in rows.routes ensures rows.routes[id].id == id {
      assert RouteOk(rows, id);
    }
    StaleRoutes(rows, h, current, WantedRoutes(item).Keys);
    UpsertThenPrune(rows.routes, WantedRoutes(item), RoutesOf(rows, h), RoutesOf(rows, h) - WantedRoutes(item).Keys);
    StaleTwins(rows, h, item, current);
    UpsertThenPrune(rows.backends, WantedBackends(item), BackendsOf(rows, h),
                    StaleBackends(current, WantedRoutes(item).Keys, WantedBackends(item).Keys));
  }
}
