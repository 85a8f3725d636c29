/** The master's tables: soft-deleted rows, their live view, and the joined projection of a host. */
module Repository {
  import opened Options
  import opened Text
  import opened Sorting

  datatype BackendKind = Unset | L4Passthrough | L4Termination | L7Http | L7Https | L7Both

  predicate IsL4(k: BackendKind) { k.L4Passthrough? || k.L4Termination? }

  predicate IsL7(k: BackendKind) { k.L7Http? || k.L7Https? || k.L7Both? }

  /** Every kind that is set is an L4 or an L7 kind and not both. */
  lemma KindsAre(k: BackendKind)
    ensures IsL4(k) <==> k == L4Passthrough || k == L4Termination
    ensures IsL7(k) <==> k != Unset && !IsL4(k)
  {
  }

  datatype Endpoint = Endpoint(hostname: string, needCert: bool, kind: BackendKind, boundId: string)
  datatype Backend = Backend(id: string, svcType: string, endpoint: string, namespace: string, name: string, port: nat)
  datatype Route = Route(id: string, hostname: string, path: string, priority: int, backendId: string)
  datatype DnsRecord = DnsRecord(id: string, fqdn: string, recordType: string, routingKey: string, body: string)
  datatype Cert = Cert(id: string, hostname: string, revision: nat, body: string)

  /** The primary keys. */
  function EndpointKey(e: Endpoint): string { e.hostname }
  function BackendKey(b: Backend): string { b.id }
  function RouteKey(r: Route): string { r.id }
  function DnsKey(d: DnsRecord): string { d.id }

  // ---- Soft-delete tables ----------------------------------------------------------------------

  datatype Row<+T> = Row(value: T, deleted: bool)

  type Table<T> = map<string, Row<T>>

  function Upsert<T>(t: Table<T>, id: string, v: T): Table<T> { t[id := Row(v, false)] }

  function SoftDelete<T>(t: Table<T>, id: string): Table<T> {
    if id in t then t[id := t[id].(deleted := true)] else t
  }

  function Live<T>(t: Table<T>): map<string, T> {
    map id | id in t && !t[id].deleted :: t[id].value
  }

  lemma UpsertLive<T>(t: Table<T>, id: string, v: T)
    ensures Live(Upsert(t, id, v)) == Live(t)[id := v]
  {
  }

  lemma SoftDeleteLive<T>(t: Table<T>, id: string)
    ensures Live(SoftDelete(t, id)) == Live(t) - {id}
  {
  }

  /** The live rows of all tables. */
  datatype Db = Db(endpoints: map<string, Endpoint>, backends: map<string, Backend>, routes: map<string, Route>,
                   dns: map<string, DnsRecord>, certs: map<string, Cert>)

  const EmptyDb := Db(map[], map[], map[], map[], map[])

  // ---- The projection ---------------------------------------------------------------------------

  datatype RouteView = RouteView(id: string, path: string, priority: int, backend: Option<Backend>)

  datatype Projection = Projection(hostname: string, needCert: bool, kind: BackendKind, cert: Option<Cert>,
                                   routes: seq<RouteView>, bound: Option<Backend>)

  /** A joined backend as it is read: a missing or unnamed one is nil, a missing type means SVC. */
  function Shown(b: Option<Backend>): Option<Backend> {
    if b.None? || b.value.id == "" then None
    else if b.value.svcType == "" then Some(b.value.(svcType := "SVC"))
    else b
  }

  /** A backend with a name is shown with its own fields; only a missing type is filled in. */
  lemma ShownIs(b: Backend)
    ensures Shown(None) == None && (b.id == "" ==> Shown(Some(b)) == None)
    ensures b.id != "" ==>
              && Shown(Some(b)).Some?
              && var s := Shown(Some(b)).value;
                 && s.id == b.id && s.endpoint == b.endpoint && s.namespace == b.namespace && s.name == b.name
                 && s.port == b.port && s.svcType == if b.svcType == "" then "SVC" else b.svcType
  {
  }

  function ViewOf(db: Db, r: Route): RouteView {
    RouteView(r.id, r.path, r.priority, Shown(Get(db.backends, r.backendId)))
  }

  predicate Precedes(a: RouteView, b: RouteView) {
    || a.priority > b.priority
    || (a.priority == b.priority && |a.path| > |b.path|)
    || (a.priority == b.priority && |a.path| == |b.path| && Less(a.id, b.id))
  }

  /** Higher priority first, then the longer path, then the smaller id. */
  ghost predicate InListOrder(views: seq<RouteView>) {
    forall i, j :: 0 <= i < j < |views| ==>
      var a, b := views[i], views[j];
      && a.priority >= b.priority
      && (a.priority == b.priority ==> |a.path| >= |b.path|)
      && (a.priority == b.priority && |a.path| == |b.path| ==> Less(a.id, b.id))
  }

  lemma ListOrderIs(views: seq<RouteView>)
    ensures InListOrder(views) <==> Sorted(views, Precedes)
  {
    if InListOrder(views) {
      forall i, j | 0 <= i < j < |views| ensures Precedes(views[i], views[j]) {
        assert views[i].priority >= views[j].priority;
      }
    }
  }

  predicate IsRouteOf(db: Db, host: string, id: string) {
    id in db.routes && db.routes[id].hostname == host && id != ""
  }

  ghost predicate RoutesShown(db: Db, host: string, views: seq<RouteView>) {
    && InListOrder(views)
    && (forall v :: v in views ==> IsRouteOf(db, host, v.id) && v == ViewOf(db, db.routes[v.id]))
    && (forall id :: IsRouteOf(db, host, id) ==> ViewOf(db, db.routes[id]) in views)
  }

  /** A live certificate of the host with its greatest revision, if it has any. */
  ghost predicate LatestCert(db: Db, host: string, c: Option<Cert>) {
    match c
    case None => CertColumn(db, host, None) || exists cert: Cert :: cert.id == "" && IsLatest(db, host, cert)
    case Some(cert) => cert.id != "" && IsLatest(db, host, cert)
  }

  ghost predicate IsLatest(db: Db, host: string, cert: Cert) {
    && cert.id in db.certs && db.certs[cert.id] == cert && cert.hostname == host
    && forall id :: id in db.certs && db.certs[id].hostname == host ==> db.certs[id].revision <= cert.revision
  }

  /** The projection `p` is what the tables say about `host`. */
  ghost predicate Shows(db: Db, host: string, p: Projection)
    requires host in db.endpoints
  {
    var e := db.endpoints[host];
    && p.hostname == e.hostname && p.needCert == e.needCert && p.kind == e.kind
    && LatestCert(db, host, p.cert)
    && if IsL4(e.kind) then p.bound == Shown(Get(db.backends, e.boundId)) && p.routes == []
       else p.bound == None && RoutesShown(db, host, p.routes)
  }

  predicate KeyedByIds(db: Db) {
    && (forall id :: id in db.routes ==> db.routes[id].id == id)
    && (forall id :: id in db.certs ==> db.certs[id].id == id)
  }

  lemma BeforeIsStrict(a: RouteView, b: RouteView)
    ensures Precedes(a, b) ==> !Precedes(b, a)
    ensures Precedes(a, b) || Precedes(b, a) || a.id == b.id
  {
    LessTotal(a.id, b.id);
  }

  /** The tables and the choice among equal-revision certificates determine the projection. */
  lemma ProjectionIsDetermined(db: Db, host: string, p: Projection, q: Projection)
    requires host in db.endpoints && Shows(db, host, p) && Shows(db, host, q) && p.cert == q.cert
    ensures p == q
  {
    if !IsL4(db.endpoints[host].kind) {
      RoutesAreDetermined(db, host, p.routes, q.routes);
    }
  }

  lemma RoutesAreDetermined(db: Db, host: string, a: seq<RouteView>, b: seq<RouteView>)
    requires RoutesShown(db, host, a) && RoutesShown(db, host, b)
    ensures a == b
  {
    forall x, y | Precedes(x, y) ensures !Precedes(y, x) {
      BeforeIsStrict(x, y);
    }
    ListOrderIs(a);
    ListOrderIs(b);
    SortedUnique(a, b, Precedes);
  }

  // ---- Reading the join -------------------------------------------------------------------------

  datatype JoinRow = JoinRow(endpoint: Endpoint, cert: Option<Cert>, route: Option<Route>,
                             routeBackend: Option<Backend>, bound: Option<Backend>)

  ghost predicate CertColumn(db: Db, host: string, c: Option<Cert>) {
    match c
    case None => forall id :: id in db.certs ==> db.certs[id].hostname != host
    case Some(cert) => IsLatest(db, host, cert)
  }

  ghost predicate IsRow(db: Db, host: string, row: JoinRow)
    requires host in db.endpoints
  {
    && row.endpoint == db.endpoints[host]
    && row.bound == Get(db.backends, row.endpoint.boundId)
    && CertColumn(db, host, row.cert)
    && match row.route
       case None => row.routeBackend == None && forall id :: id in db.routes ==> db.routes[id].hostname != host
       case Some(r) =>
         && r.id in db.routes && db.routes[r.id] == r && r.hostname == host
         && row.routeBackend == Get(db.backends, r.backendId)
  }

  function RowView(row: JoinRow): RouteView
    requires row.route.Some?
  {
    var r := row.route.value;
    RouteView(r.id, r.path, r.priority, Shown(row.routeBackend))
  }

  /** The rows of the left join for a host: at least one if the host is live, every live route among them,
      ordered by priority, path length and id; equal certificate revisions repeat a route in any order. */
  ghost predicate IsJoin(db: Db, host: string, rows: seq<JoinRow>) {
    if host !in db.endpoints then rows == []
    else
      && rows != []
      && (forall i :: 0 <= i < |rows| ==> IsRow(db, host, rows[i]))
      && (forall id :: id in db.routes && db.routes[id].hostname == host ==>
            exists i :: 0 <= i < |rows| && rows[i].route == Some(db.routes[id]))
      && (forall i, j :: 0 <= i < j < |rows| && rows[i].route.Some? && rows[j].route.Some? ==>
            !Precedes(RowView(rows[j]), RowView(rows[i])))
  }

  /** The routes of the rows read so far, each once. */
  ghost predicate Gathered(rows: seq<JoinRow>, n: nat, routes: seq<RouteView>, seen: set<string>)
    requires n <= |rows|
  {
    && Sorted(routes, Precedes)
    && (forall v :: v in routes ==>
          v.id in seen && exists i :: 0 <= i < n && rows[i].route.Some? && RowView(rows[i]) == v)
    && (forall i :: 0 <= i < n && rows[i].route.Some? && rows[i].route.value.id != "" ==>
          rows[i].route.value.id in seen && RowView(rows[i]) in routes)
    && "" !in seen
    && (forall id :: id in seen ==> exists v :: v in routes && v.id == id)
  }

  method GetDomainEntryProjection(ghost db: Db, ghost host: string, rows: seq<JoinRow>) returns (p: Option<Projection>)
    requires KeyedByIds(db) && IsJoin(db, host, rows)
    ensures p.Some? <==> host in db.endpoints
    ensures p.Some? ==> Shows(db, host, p.value)
  {
    if |rows| == 0 {
      return None;
    }
    var first := rows[0];
    var cert := if first.cert.Some? && first.cert.value.id != "" then first.cert else None;
    var e := first.endpoint;
    if IsL4(e.kind) {
      return Some(Projection(e.hostname, e.needCert, e.kind, cert, [], Shown(first.bound)));
    }
    var routes := ReadRoutes(db, host, rows);
    return Some(Projection(e.hostname, e.needCert, e.kind, cert, routes, None));
  }

  method ReadRoutes(ghost db: Db, ghost host: string, rows: seq<JoinRow>) returns (routes: seq<RouteView>)
    requires KeyedByIds(db) && host in db.endpoints && IsJoin(db, host, rows)
    ensures RoutesShown(db, host, routes)
  {
    routes := [];
    var seen: set<string> := {};
    for i := 0 to |rows|
      invariant Gathered(rows, i, routes, seen)
    {
      var row := rows[i];
      if row.route.None? || row.route.value.id == "" || row.route.value.id in seen {
        GatherSkip(db, host, rows, i, routes, seen);
        continue;
      }
      GatherOne(db, host, rows, i, routes, seen);
      seen := seen + {row.route.value.id};
      routes := routes + [RowView(row)];
    }
    GatheredAll(db, host, rows, routes, seen);
  }

  lemma GatherSkip(db: Db, host: string, rows: seq<JoinRow>, n: nat, routes: seq<RouteView>, seen: set<string>)
    requires host in db.endpoints && IsJoin(db, host, rows) && n < |rows| && Gathered(rows, n, routes, seen)
    requires rows[n].route.None? || rows[n].route.value.id == "" || rows[n].route.value.id in seen
    ensures Gathered(rows, n + 1, routes, seen)
  {
    if rows[n].route.Some? && rows[n].route.value.id in seen {
      var v :| v in routes && v.id == rows[n].route.value.id;
      var i :| 0 <= i < n && rows[i].route.Some? && RowView(rows[i]) == v;
      SameRouteSameView(db, host, rows[i], rows[n]);
    }
  }

  lemma SameRouteSameView(db: Db, host: string, a: JoinRow, b: JoinRow)
    requires host in db.endpoints && IsRow(db, host, a) && IsRow(db, host, b)
    requires a.route.Some? && b.route.Some? && a.route.value.id == b.route.value.id
    ensures RowView(a) == RowView(b)
  {
  }

  lemma GatherOne(db: Db, host: string, rows: seq<JoinRow>, n: nat, routes: seq<RouteView>, seen: set<string>)
    requires host in db.endpoints && IsJoin(db, host, rows) && n < |rows| && Gathered(rows, n, routes, seen)
    requires rows[n].route.Some? && rows[n].route.value.id != "" && rows[n].route.value.id !in seen
    ensures Gathered(rows, n + 1, routes + [RowView(rows[n])], seen + {rows[n].route.value.id})
  {
    var v := RowView(rows[n]);
    forall j | 0 <= j < |routes| ensures Precedes(routes[j], v) {
      assert routes[j] in routes;
      var i :| 0 <= i < n && rows[i].route.Some? && RowView(rows[i]) == routes[j];
      BeforeIsStrict(routes[j], v);
    }
    assert v in routes + [v];
  }

  lemma GatheredAll(db: Db, host: string, rows: seq<JoinRow>, routes: seq<RouteView>, seen: set<string>)
    requires KeyedByIds(db) && host in db.endpoints && IsJoin(db, host, rows) && Gathered(rows, |rows|, routes, seen)
    ensures RoutesShown(db, host, routes)
  {
    ListOrderIs(routes);
    forall v | v in routes ensures IsRouteOf(db, host, v.id) && v == ViewOf(db, db.routes[v.id]) {
      var i :| 0 <= i < |rows| && rows[i].route.Some? && RowView(rows[i]) == v;
      assert IsRow(db, host, rows[i]);
    }
    forall id | IsRouteOf(db, host, id) ensures ViewOf(db, db.routes[id]) in routes {
      var i :| 0 <= i < |rows| && rows[i].route == Some(db.routes[id]);
      assert IsRow(db, host, rows[i]);
    }
  }
}
