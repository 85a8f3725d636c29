/** The bridge's rows in the repository: replacing what one host has by what it should have. */
module IngressRows {
  import opened Options
  import opened Repository
  import opened IngressModel

  /** The live rows of the three tables the bridge writes. */
  datatype Rows = Rows(endpoints: map<string, Endpoint>, routes: map<string, Route>, backends: map<string, Backend>)

  const NoRows := Rows(map[], map[], map[])

  ghost function RoutesOf(rows: Rows, h: string): set<string> {
    set id | id in rows.routes && rows.routes[id].hostname == h
  }

  ghost function BackendsOf(rows: Rows, h: string): set<string> {
    set id | id in rows.routes && rows.routes[id].hostname == h :: rows.routes[id].backendId
  }

  // ---- Invariant ----------------------------------------------------------------------------------

  ghost predicate EndpointOk(rows: Rows, h: string)
    requires h in rows.endpoints
  {
    rows.endpoints[h].hostname == h && rows.endpoints[h].boundId == "" && ':' !in h
  }

  /** Every live route belongs to a live endpoint and has its twin backend live. */
  ghost predicate RouteOk(rows: Rows, id: string)
    requires id in rows.routes
  {
    var r := rows.routes[id];
    && r.id == id && RouteHead <= id && r.backendId == BackendIdOf(id) && Names(RouteHead, r.hostname, id)
    && r.hostname in rows.endpoints && ':' !in r.hostname && r.backendId in rows.backends
  }

  ghost predicate BackendOk(rows: Rows, id: string)
    requires id in rows.backends
  {
    rows.backends[id].id == id && exists r :: r in rows.routes && rows.routes[r].backendId == id
  }

  ghost predicate Inv(rows: Rows) {
    && (forall h :: h in rows.endpoints ==> EndpointOk(rows, h))
    && (forall id :: id in rows.routes ==> RouteOk(rows, id))
    && (forall id :: id in rows.backends ==> BackendOk(rows, id))
  }

  /** Twin ids determine one another. */
  lemma TwinOnce(a: string, b: string)
    requires RouteHead <= a && RouteHead <= b && BackendIdOf(a) == BackendIdOf(b)
    ensures a == b
  {
    var x, y := a[|RouteHead|..], b[|RouteHead|..];
    assert BackendIdOf(a)[|BackendHead|..] == x && BackendIdOf(b)[|BackendHead|..] == y;
    assert a == RouteHead + x && b == RouteHead + y;
  }

  // ---- What the rows of a host are ------------------------------------------------------------------

  /** The host's live rows are exactly the item's, or it has none. */
  ghost predicate Holds(rows: Rows, h: string, item: Option<Item>) {
    match item
    case None => h !in rows.endpoints && RoutesOf(rows, h) == {}
    case Some(i) =>
      && h in rows.endpoints && rows.endpoints[h] == i.endpoint
      && RoutesOf(rows, h) == WantedRoutes(i).Keys
      && (forall id :: id in WantedRoutes(i) ==> id in rows.routes && rows.routes[id] == WantedRoutes(i)[id])
      && (forall id :: id in WantedBackends(i) ==> id in rows.backends && rows.backends[id] == WantedBackends(i)[id])
  }

  /** Dropping the host's rows and putting the item's in their place. */
  ghost function Replace(rows: Rows, h: string, item: Option<Item>): Rows {
    match item
    case None => Rows(rows.endpoints - {h}, rows.routes - RoutesOf(rows, h), rows.backends - BackendsOf(rows, h))
    case Some(i) => Rows(rows.endpoints[h := i.endpoint], rows.routes - RoutesOf(rows, h) + WantedRoutes(i),
                         rows.backends - BackendsOf(rows, h) + WantedBackends(i))
  }

  lemma WantedRouteFacts(h: string, item: Item, id: string)
    requires ItemFor(h, item) && id in WantedRoutes(item)
    ensures var r := WantedRoutes(item)[id];
            && r.id == id && r.hostname == h && RouteHead <= id && r.backendId == BackendIdOf(id)
            && Names(RouteHead, h, id) && r.backendId in WantedBackends(item)
  {
    var rs, bs := RoutesIn(item.made), BackendsIn(item.made);
    var i :| 0 <= i < |rs| && rs[i] == WantedRoutes(item)[id];
    assert item.made[i] in item.made && MadeFor(h, item.made[i]);
    assert bs[i] in bs;
  }

  lemma WantedBackendFacts(h: string, item: Item, id: string) returns (r: string)
    requires ItemFor(h, item) && id in WantedBackends(item)
    ensures WantedBackends(item)[id].id == id
    ensures r in WantedRoutes(item) && RouteHead <= r && BackendIdOf(r) == id
  {
    var rs, bs := RoutesIn(item.made), BackendsIn(item.made);
    var i :| 0 <= i < |bs| && bs[i] == WantedBackends(item)[id];
    assert item.made[i] in item.made && MadeFor(h, item.made[i]);
    assert rs[i] in rs;
    r := rs[i].id;
  }

  /** A live backend of another host is untouched. */
  lemma OtherBackend(rows: Rows, h: string, item: Option<Item>, id: string)
    requires Inv(rows) && ':' !in h && (item.Some? ==> ItemFor(h, item.value))
    requires id in rows.routes && rows.routes[id].hostname != h
    ensures var b := rows.routes[id].backendId;
            && b !in BackendsOf(rows, h)
            && (item.Some? ==> b !in WantedBackends(item.value) && id !in WantedRoutes(item.value))
  {
    assert RouteOk(rows, id);
    var b := rows.routes[id].backendId;
    if b in BackendsOf(rows, h) {
      var r :| r in rows.routes && rows.routes[r].hostname == h && rows.routes[r].backendId == b;
      assert RouteOk(rows, r);
      TwinOnce(r, id);
    }
    if item.Some? && b in WantedBackends(item.value) {
      var r := WantedBackendFacts(h, item.value, b);
      TwinOnce(r, id);
      WantedRouteFacts(h, item.value, id);
      NamesOnce(RouteHead, h, rows.routes[id].hostname, id);
    }
    if item.Some? && id in WantedRoutes(item.value) {
      WantedRouteFacts(h, item.value, id);
      NamesOnce(RouteHead, h, rows.routes[id].hostname, id);
    }
  }

  lemma ReplaceRouteOk(rows: Rows, h: string, item: Option<Item>, id: string)
    requires Inv(rows) && ':' !in h && (item.Some? ==> ItemFor(h, item.value)) && id in Replace(rows, h, item).routes
    ensures RouteOk(Replace(rows, h, item), id)
  {
    if item.Some? && id in WantedRoutes(item.value) {
      WantedRouteFacts(h, item.value, id);
    } else {
      assert RouteOk(rows, id);
      OtherBackend(rows, h, item, id);
    }
  }

  lemma ReplaceBackendOk(rows: Rows, h: string, item: Option<Item>, id: string)
    requires Inv(rows) && ':' !in h && (item.Some? ==> ItemFor(h, item.value)) && id in Replace(rows, h, item).backends
    ensures BackendOk(Replace(rows, h, item), id)
  {
    var after := Replace(rows, h, item);
    if item.Some? && id in WantedBackends(item.value) {
      var r := WantedBackendFacts(h, item.value, id);
      WantedRouteFacts(h, item.value, r);
      assert r in after.routes && after.routes[r].backendId == id;
    } else {
      assert BackendOk(rows, id);
      var r :| r in rows.routes && rows.routes[r].backendId == id;
      assert rows.routes[r].hostname != h;
      OtherBackend(rows, h, item, r);
      assert r in after.routes && after.routes[r].backendId == id;
    }
  }

  lemma ReplaceKeepsInv(rows: Rows, h: string, item: Option<Item>)
    requires Inv(rows) && ':' !in h && (item.Some? ==> ItemFor(h, item.value))
    ensures Inv(Replace(rows, h, item))
  {
    var after := Replace(rows, h, item);
    forall g | g in after.endpoints ensures EndpointOk(after, g) {
      if g in rows.endpoints {
        assert EndpointOk(rows, g);
      }
    }
    forall id | id in after.routes ensures RouteOk(after, id) { ReplaceRouteOk(rows, h, item, id); }
    forall id | id in after.backends ensures BackendOk(after, id) { ReplaceBackendOk(rows, h, item, id); }
  }

  lemma ReplaceHolds(rows: Rows, h: string, item: Option<Item>)
    requires item.Some? ==> ItemFor(h, item.value)
    ensures Holds(Replace(rows, h, item), h, item)
  {
    var after := Replace(rows, h, item);
    if item.Some? {
      forall id ensures id in RoutesOf(after, h) <==> id in WantedRoutes(item.value) {
        if id in WantedRoutes(item.value) {
          WantedRouteFacts(h, item.value, id);
        }
      }
    }
  }

  /** Replacing one host's rows changes no answer about another host. */
  lemma OtherHostHolds(rows: Rows, h: string, item: Option<Item>, g: string, other: Option<Item>)
    requires Inv(rows) && ':' !in h && g != h && (item.Some? ==> ItemFor(h, item.value))
    requires (other.Some? ==> ItemFor(g, other.value))
    ensures Holds(Replace(rows, h, item), g, other) <==> Holds(rows, g, other)
  {
    OtherRoutesSame(rows, h, item, g);
    if other.Some? && RoutesOf(rows, g) == WantedRoutes(other.value).Keys {
      forall id | id in WantedBackends(other.value)
        ensures Get(Replace(rows, h, item).backends, id) == Get(rows.backends, id)
      {
        var r := WantedBackendFacts(g, other.value, id);
        OtherBackendSame(rows, h, item, r);
        assert RouteOk(rows, r);
      }
      SameGetsHold(rows, Replace(rows, h, item), g, other.value);
    }
  }

  lemma SameGetsHold(rows: Rows, after: Rows, g: string, item: Item)
    requires Get(after.endpoints, g) == Get(rows.endpoints, g)
    requires RoutesOf(after, g) == RoutesOf(rows, g) == WantedRoutes(item).Keys
    requires forall id :: id in RoutesOf(rows, g) ==> after.routes[id] == rows.routes[id]
    requires forall id :: id in WantedBackends(item) ==> Get(after.backends, id) == Get(rows.backends, id)
    ensures Holds(after, g, Some(item)) <==> Holds(rows, g, Some(item))
  {
    forall id | id in WantedBackends(item)
      ensures (id in after.backends && after.backends[id] == WantedBackends(item)[id])
             <==> (id in rows.backends && rows.backends[id] == WantedBackends(item)[id])
    {
      assert Get(after.backends, id) == Get(rows.backends, id);
    }
    forall id | id in WantedRoutes(item)
      ensures id in after.routes && id in rows.routes && after.routes[id] == rows.routes[id]
    {
      assert id in RoutesOf(rows, g) && id in RoutesOf(after, g);
    }
  }

  lemma OtherBackendSame(rows: Rows, h: string, item: Option<Item>, id: string)
    requires Inv(rows) && ':' !in h && (item.Some? ==> ItemFor(h, item.value))
    requires id in rows.routes && rows.routes[id].hostname != h
    ensures Get(Replace(rows, h, item).backends, rows.routes[id].backendId)
             == Get(rows.backends, rows.routes[id].backendId)
  {
    OtherBackend(rows, h, item, id);
  }

  lemma OtherRoutesSame(rows: Rows, h: string, item: Option<Item>, g: string)
    requires Inv(rows) && ':' !in h && g != h && (item.Some? ==> ItemFor(h, item.value))
    ensures RoutesOf(Replace(rows, h, item), g) == RoutesOf(rows, g)
    ensures forall id :: id in RoutesOf(rows, g) ==> Replace(rows, h, item).routes[id] == rows.routes[id]
  {
    var after := Replace(rows, h, item);
    forall id | id in RoutesOf(rows, g) ensures id in after.routes && after.routes[id] == rows.routes[id] {
      OtherBackend(rows, h, item, id);
    }
    forall id | id in RoutesOf(after, g) ensures id in RoutesOf(rows, g) {
      if item.Some? && id in WantedRoutes(item.value) {
        WantedRouteFacts(h, item.value, id);
      }
    }
  }
}
