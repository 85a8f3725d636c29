/** Query, build, apply: what a round does to the tables and to what the next query shows. */
module PlanRounds {
  import opened Options
  import opened Text
  import opened PlanDiff
  import opened Repository
  import opened Planning

  function ApplyPlan(db: Db, plan: Plan): Db {
    Db(ApplyChanges(db.endpoints, plan.endpoints, EndpointKey), ApplyChanges(db.backends, plan.backends, BackendKey),
       ApplyChanges(db.routes, plan.routes, RouteKey), ApplyChanges(db.dns, plan.dns, DnsKey), db.certs)
  }

  // ---- Whose row is it? -------------------------------------------------------------------------

  ghost predicate Owned(prefix: string, host: string, id: string) {
    exists part: string :: ':' !in part && id == IdOf(prefix, host, part)
  }

  /** Identifiers are injective in the host. */
  lemma OwnedOnce(prefix: string, h1: string, h2: string, id: string)
    requires Owned(prefix, h1, id) && Owned(prefix, h2, id)
    ensures h1 == h2
  {
    var p1: string :| ':' !in p1 && id == IdOf(prefix, h1, p1);
    var p2: string :| ':' !in p2 && id == IdOf(prefix, h2, p2);
    IdsAreInjective(prefix, h1, p1, h2, p2);
  }

  /** Identifiers are injective in host and sanitised key together. */
  lemma IdsAreInjective(prefix: string, h1: string, p1: string, h2: string, p2: string)
    requires ':' !in p1 && ':' !in p2
    ensures IdOf(prefix, h1, p1) == IdOf(prefix, h2, p2) <==> h1 == h2 && p1 == p2
  {
    if IdOf(prefix, h1, p1) == IdOf(prefix, h2, p2) {
      LastSeparator(prefix + h1, p1, prefix + h2, p2, ':');
      assert (prefix + h1)[|prefix|..] == h1 && (prefix + h2)[|prefix|..] == h2;
    }
  }

  /** The backend id that belongs to a route id, and back. */
  function BackendOf(routeId: string): string
    requires RoutePrefix <= routeId
  {
    BackendPrefix + routeId[|RoutePrefix|..]
  }

  function RouteOf(backendId: string): string
    requires BackendPrefix <= backendId
  {
    RoutePrefix + backendId[|BackendPrefix|..]
  }

  lemma OwnedPrefix(prefix: string, host: string, id: string)
    requires Owned(prefix, host, id)
    ensures prefix <= id
  {
    var part: string :| ':' !in part && id == IdOf(prefix, host, part);
    assert id[..|prefix|] == prefix;
  }

  lemma Twins(host: string, id: string)
    ensures Owned(RoutePrefix, host, id) ==>
              RoutePrefix <= id && Owned(BackendPrefix, host, BackendOf(id)) && RouteOf(BackendOf(id)) == id
    ensures Owned(BackendPrefix, host, id) ==>
              BackendPrefix <= id && Owned(RoutePrefix, host, RouteOf(id)) && BackendOf(RouteOf(id)) == id
  {
    if Owned(RoutePrefix, host, id) {
      OwnedPrefix(RoutePrefix, host, id);
      var part: string :| ':' !in part && id == IdOf(RoutePrefix, host, part);
      assert id[|RoutePrefix|..] == host + ":" + part;
      assert BackendOf(id) == IdOf(BackendPrefix, host, part);
      assert BackendOf(id)[|BackendPrefix|..] == id[|RoutePrefix|..];
    }
    if Owned(BackendPrefix, host, id) {
      OwnedPrefix(BackendPrefix, host, id);
      var part: string :| ':' !in part && id == IdOf(BackendPrefix, host, part);
      assert id[|BackendPrefix|..] == host + ":" + part;
      assert RouteOf(id) == IdOf(RoutePrefix, host, part);
      assert RouteOf(id)[|RoutePrefix|..] == id[|BackendPrefix|..];
    }
  }

  lemma PartsAreOwned(host: string, part: string)
    requires ':' !in part
    ensures var r, b := IdOf(RoutePrefix, host, part), IdOf(BackendPrefix, host, part);
            Owned(RoutePrefix, host, r) && Owned(BackendPrefix, host, b) && RoutePrefix <= r && BackendOf(r) == b
  {
    var r := IdOf(RoutePrefix, host, part);
    OwnedPrefix(RoutePrefix, host, r);
    assert r[|RoutePrefix|..] == host + ":" + part;
  }

  lemma IdsAreOwned(host: string, key: string)
    ensures Owned(RoutePrefix, host, RouteId(host, key)) && Owned(BackendPrefix, host, BackendId(host, key))
    ensures RoutePrefix <= RouteId(host, key) && BackendOf(RouteId(host, key)) == BackendId(host, key)
  {
    PartsAreOwned(host, SanitizePart(key));
  }

  // ---- The invariant of repositories written by plans ---------------------------------------------

  ghost predicate EndpointOk(db: Db, h: string)
    requires h in db.endpoints
  {
    var e := db.endpoints[h];
    e.hostname == h && e.boundId == if IsL4(e.kind) then L4Id(h) else ""
  }

  ghost predicate RouteOk(db: Db, id: string)
    requires id in db.routes
  {
    var r := db.routes[id];
    && r.id == id == RouteId(r.hostname, r.path) && Owned(RoutePrefix, r.hostname, id)
    && RoutePrefix <= id && r.backendId == BackendOf(id)
    && r.hostname in db.endpoints && !IsL4(db.endpoints[r.hostname].kind)
  }

  /** A live backend is in use: bound by its host's L4 endpoint or referred to by its twin route. */
  ghost predicate InUse(db: Db, h: string, id: string) {
    && h in db.endpoints
    && if IsL4(db.endpoints[h].kind) then id == L4Id(h)
       else BackendPrefix <= id && RouteOf(id) in db.routes && db.routes[RouteOf(id)].hostname == h
  }

  ghost predicate BackendOk(db: Db, id: string)
    requires id in db.backends
  {
    && db.backends[id].id == id && db.backends[id].svcType != ""
    && exists h :: Owned(BackendPrefix, h, id) && InUse(db, h, id)
  }

  ghost predicate Inv(db: Db) {
    && (forall h :: h in db.endpoints ==> EndpointOk(db, h))
    && (forall id :: id in db.routes ==> RouteOk(db, id))
    && (forall id :: id in db.backends ==> BackendOk(db, id))
    && (forall id :: id in db.certs ==> db.certs[id].id == id)
  }

  ghost function RoutesOf(db: Db, h: string): set<string> {
    set id | id in db.routes && db.routes[id].hostname == h
  }

  ghost function BackendsOf(db: Db, h: string): set<string> {
    set id | id in db.backends && Owned(BackendPrefix, h, id)
  }

  // ---- What the query saw -------------------------------------------------------------------------

  /** `p` is an answer of the projection query for `h`. */
  ghost predicate Queried(db: Db, h: string, p: Option<Projection>) {
    if h in db.endpoints then p.Some? && Shows(db, h, p.value) else p.None?
  }

  lemma NoRoutesUnlessL7(db: Db, h: string)
    requires Inv(db)
    ensures RoutesOf(db, h) != {} ==> h in db.endpoints && !IsL4(db.endpoints[h].kind)
  {
    if RoutesOf(db, h) != {} {
      var id :| id in RoutesOf(db, h);
      assert RouteOk(db, id);
    }
  }

  /** The routes the builder takes for current are the host's live routes, right except for a lost backend. */
  lemma CurrentRoutesAre(db: Db, h: string, p: Option<Projection>)
    requires Inv(db) && Queried(db, h, p)
    ensures ById(CurrentRoutes(p), RouteKey).Keys == RoutesOf(db, h)
    ensures forall id :: id in RoutesOf(db, h) ==>
              var r := ById(CurrentRoutes(p), RouteKey)[id]; r == db.routes[id] || r.backendId == ""
  {
    NoRoutesUnlessL7(db, h);
    var m := ById(CurrentRoutes(p), RouteKey);
    forall id | id in m ensures id in RoutesOf(db, h) && (m[id] == db.routes[id] || m[id].backendId == "") {
      CurrentIsLive(db, h, p, id);
    }
    forall id | id in RoutesOf(db, h) ensures id in m {
      LiveIsCurrent(db, h, p, id);
    }
  }

  lemma CurrentIsLive(db: Db, h: string, p: Option<Projection>, id: string)
    requires Inv(db) && Queried(db, h, p) && id in ById(CurrentRoutes(p), RouteKey)
    ensures id in RoutesOf(db, h)
    ensures var r := ById(CurrentRoutes(p), RouteKey)[id]; r == db.routes[id] || r.backendId == ""
  {
    var r := ById(CurrentRoutes(p), RouteKey)[id];
    var i :| 0 <= i < |CurrentRoutes(p)| && CurrentRoutes(p)[i] == r;
    var v := Views(p)[i];
    assert v in p.value.routes;
    assert IsRouteOf(db, h, id) && v == ViewOf(db, db.routes[id]);
    RouteSeen(db, h, id);
  }

  lemma LiveIsCurrent(db: Db, h: string, p: Option<Projection>, id: string)
    requires Inv(db) && Queried(db, h, p) && id in RoutesOf(db, h)
    ensures id in ById(CurrentRoutes(p), RouteKey)
  {
    NoRoutesUnlessL7(db, h);
    assert RouteOk(db, id);
    OwnedPrefix(RoutePrefix, h, id);
    assert IsRouteOf(db, h, id);
    var v := ViewOf(db, db.routes[id]);
    var i :| 0 <= i < |p.value.routes| && p.value.routes[i] == v;
    assert CurrentRoutes(p)[i] in CurrentRoutes(p);
  }

  lemma RouteSeen(db: Db, h: string, id: string)
    requires Inv(db) && id in RoutesOf(db, h) && h in db.endpoints
    ensures var r := CurrentRoute(db.endpoints[h].hostname, ViewOf(db, db.routes[id]));
            r == db.routes[id] || r.backendId == ""
    ensures var b := ViewOf(db, db.routes[id]).backend;
            b == Get(db.backends, BackendOf(id)) && (b.Some? ==> b.value.id == BackendOf(id) && b.value.id != "")
  {
    assert EndpointOk(db, h) && RouteOk(db, id);
    var k := BackendOf(id);
    if k in db.backends {
      assert BackendOk(db, k);
    }
  }

  /** The backends the builder takes for current L7 backends are the live backends of an L7 host. */
  lemma CurrentBackendsAre(db: Db, h: string, p: Option<Projection>)
    requires Inv(db) && Queried(db, h, p)
    ensures var m := ById(CurrentL7Backends(Views(p)), BackendKey);
            && (forall id :: id in m ==> id in BackendsOf(db, h) && m[id] == db.backends[id])
            && (if p.Some? && !IsL4(p.value.kind) then m.Keys == BackendsOf(db, h) else m == map[])
  {
    var m := ById(CurrentL7Backends(Views(p)), BackendKey);
    forall id | id in m ensures id in BackendsOf(db, h) && m[id] == db.backends[id] {
      var i :| 0 <= i < |Views(p)| && Views(p)[i].backend == Some(m[id]);
      var v := Views(p)[i];
      assert v in p.value.routes && IsRouteOf(db, h, v.id);
      RouteSeen(db, h, v.id);
      assert RouteOk(db, v.id);
      Twins(h, v.id);
    }
    if p.Some? && !IsL4(p.value.kind) {
      forall id | id in BackendsOf(db, h) ensures id in m {
        BackendSeen(db, h, p.value, id);
      }
    }
  }

  lemma BackendSeen(db: Db, h: string, p: Projection, id: string)
    requires Inv(db) && h in db.endpoints && Shows(db, h, p) && !IsL4(p.kind) && id in BackendsOf(db, h)
    ensures id in ById(CurrentL7Backends(p.routes), BackendKey)
  {
    BackendInUse(db, h, id);
    var r := RouteOf(id);
    assert RouteOk(db, r);
    Twins(h, id);
    assert IsRouteOf(db, h, r);
    RouteSeen(db, h, r);
    var v := ViewOf(db, db.routes[r]);
    assert v in p.routes && v.backend.Some? && v.backend.value.id == id;
    assert v.backend.value in CurrentL7Backends(p.routes);
  }

  lemma BackendInUse(db: Db, h: string, id: string)
    requires Inv(db) && id in BackendsOf(db, h)
    ensures InUse(db, h, id) && db.backends[id].id == id && db.backends[id].svcType != ""
  {
    assert BackendOk(db, id);
    var g :| Owned(BackendPrefix, g, id) && InUse(db, g, id);
    OwnedOnce(BackendPrefix, g, h, id);
  }

  lemma L4IdOwned(h: string)
    ensures Owned(BackendPrefix, h, L4Id(h)) && L4Id(h) != ""
  {
    PartsAreOwned(h, L4Part);
  }

  lemma AtMostL4Backend(db: Db, h: string)
    requires Inv(db) && (h in db.endpoints ==> IsL4(db.endpoints[h].kind))
    ensures forall id :: id in BackendsOf(db, h) ==> id == L4Id(h) && h in db.endpoints
  {
    forall id | id in BackendsOf(db, h) ensures id == L4Id(h) && h in db.endpoints {
      BackendInUse(db, h, id);
    }
  }

  lemma OnlyL4Backend(db: Db, h: string)
    requires Inv(db) && (h in db.endpoints ==> IsL4(db.endpoints[h].kind))
    ensures BackendsOf(db, h) == if L4Id(h) in db.backends then {L4Id(h)} else {}
    ensures L4Id(h) in db.backends ==> h in db.endpoints
  {
    L4IdOwned(h);
    AtMostL4Backend(db, h);
    assert L4Id(h) in BackendsOf(db, h) <==> L4Id(h) in db.backends;
  }

  lemma BoundShown(db: Db, h: string, id: string)
    requires Inv(db) && (id in db.backends ==> id in BackendsOf(db, h)) && id != ""
    ensures Shown(Get(db.backends, id)) == Get(db.backends, id)
    ensures id in db.backends ==> db.backends[id].id == id
  {
    if id in db.backends {
      BackendInUse(db, h, id);
    }
  }

  /** What the builder takes for the current L4 backend is the only live backend an L4 host can have. */
  lemma CurrentL4Is(db: Db, h: string, p: Option<Projection>)
    requires Inv(db) && Queried(db, h, p)
    ensures CurrentL4(p) == if p.Some? && IsL4(p.value.kind) then Get(db.backends, L4Id(h)) else None
    ensures CurrentL4(p).Some? ==> CurrentL4(p).value.id == L4Id(h)
    ensures p.None? || IsL4(p.value.kind) ==> BackendsOf(db, h) == if CurrentL4(p).Some? then {L4Id(h)} else {}
  {
    if p.None? || IsL4(p.value.kind) {
      OnlyL4Backend(db, h);
      BoundShown(db, h, L4Id(h));
      if p.Some? {
        assert EndpointOk(db, h);
      }
    }
  }

  // ---- What the plan does -------------------------------------------------------------------------

  /** The backends wanted for the host, likewise. */
  function WantedBackends(w: Wish): map<string, Backend>
    requires Accepted(w)
  {
    if IsL4(w.kind) then map[L4Id(w.hostname) := BackendFor(w.hostname, L4Part, w.l4.value)]
    else ById(DesiredBackends(w), BackendKey)
  }

  /** The plan would delete the very backend id it also writes: a switch between L4 and L7 while a route's path
      sanitises to the key of the L4 backend. A caller can see it from the projection and the wish. */
  predicate Clash(p: Option<Projection>, w: Wish) {
    if IsL4(w.kind) then
      exists i :: 0 <= i < |Views(p)| && Views(p)[i].backend.Some? && Views(p)[i].backend.value.id == L4Id(w.hostname)
    else
      CurrentL4(p).Some? && exists i :: 0 <= i < |w.routes| && SanitizePart(w.routes[i].path) == L4Part
  }

  function Lost(p: Option<Projection>, w: Wish): set<string> {
    if Clash(p, w) then {L4Id(w.hostname)} else {}
  }

  lemma RouteEffect(db: Db, w: Wish, p: Option<Projection>, dns: seq<DnsRecord>, plan: Plan)
    requires Inv(db) && Accepted(w) && Queried(db, w.hostname, p) && IsPlan(w, p, dns, plan)
    ensures ApplyPlan(db, plan).routes == db.routes - RoutesOf(db, w.hostname) + WantedRoutes(w)
  {
    var current, desired := ById(CurrentRoutes(p), RouteKey), WantedRoutes(w);
    CurrentRoutesAre(db, w.hostname, p);
    forall id | id in current && !Differs(current, desired, id)
      ensures id in db.routes && db.routes[id] == current[id]
    {
      WantedRouteHasBackend(w, id);
      assert current[id] == desired[id];
    }
    DiffReplays(db.routes, plan.routes, current, desired, RouteKey);
  }

  lemma RouteForOwned(host: string, spec: RouteSpec)
    ensures var r := RouteFor(host, spec);
            r.backendId != "" && Owned(RoutePrefix, host, r.id) && RoutePrefix <= r.id && r.backendId == BackendOf(r.id)
  {
    IdsAreOwned(host, spec.path);
  }

  lemma WantedRouteHasBackend(w: Wish, id: string)
    requires id in WantedRoutes(w)
    ensures var r := WantedRoutes(w)[id];
            && r.id == id == RouteId(w.hostname, r.path) && r.hostname == w.hostname && r.backendId != ""
            && !IsL4(w.kind)
            && Owned(RoutePrefix, w.hostname, id) && RoutePrefix <= id && r.backendId == BackendOf(id)
  {
    var r := WantedRoutes(w)[id];
    var i :| 0 <= i < |w.routes| && DesiredRoutes(w)[i] == r;
    RouteForOwned(w.hostname, w.routes[i]);
  }

  /** The single-item diff, replayed on a table that is right about the item if nothing is to change. */
  lemma ApplyDiffOne<T>(m: map<string, T>, current: Option<T>, desired: Option<T>, idOf: T -> string, id: string)
    requires current.Some? ==> idOf(current.value) == id
    requires desired.Some? ==> idOf(desired.value) == id
    requires current.Some? && current == desired ==> id in m && m[id] == current.value
    ensures ApplyChanges(m, DiffOne(current, desired), idOf) ==
            if desired.Some? then m[id := desired.value] else if current.Some? then m - {id} else m
  {
    var out := DiffOne(current, desired);
    if out != [] {
      assert out[..0] == [] && out == [out[0]];
      assert ApplyChanges(m, out, idOf) == ApplyChange(ApplyChanges(m, out[..0], idOf), out[0], idOf);
    }
  }

  lemma EndpointEffect(db: Db, w: Wish, p: Option<Projection>, dns: seq<DnsRecord>, plan: Plan)
    requires Inv(db) && Accepted(w) && Queried(db, w.hostname, p) && IsPlan(w, p, dns, plan)
    ensures ApplyPlan(db, plan).endpoints == db.endpoints[w.hostname := DesiredEndpoint(w)]
  {
    EndpointSeen(db, w.hostname, p);
    ApplyDiffOne(db.endpoints, CurrentEndpoint(p), Some(DesiredEndpoint(w)), EndpointKey, w.hostname);
  }

  lemma EndpointSeen(db: Db, h: string, p: Option<Projection>)
    requires Inv(db) && Queried(db, h, p)
    ensures CurrentEndpoint(p).Some? ==> h in db.endpoints && CurrentEndpoint(p).value.hostname == h
    ensures CurrentEndpoint(p).Some? && (IsL4(p.value.kind) ==> CurrentEndpoint(p).value.boundId != "") ==>
              CurrentEndpoint(p).value == db.endpoints[h]
  {
    CurrentL4Is(db, h, p);
    if p.Some? {
      assert EndpointOk(db, h);
    }
  }

  lemma SplitPrefix<T>(a: seq<T>, b: seq<T>)
    requires a <= b
    ensures b == a + b[|a|..]
  {
  }

  lemma SplitAt<T>(b: seq<T>, n: nat)
    requires n <= |b|
    ensures b == b[..n] + b[n..]
  {
  }

  lemma ReplayL4(m: map<string, Backend>, l4: Option<Backend>, wanted: Backend, gone: seq<Change<Backend>>,
                 current: map<string, Backend>)
    requires l4.Some? ==> l4.value.id == wanted.id
    requires l4 == Some(wanted) ==> wanted.id in m && m[wanted.id] == wanted
    requires Keyed(current, BackendKey) && IsDiff(gone, current, map[], BackendKey)
    ensures ApplyChanges(m, DiffOne(l4, Some(wanted)) + gone, BackendKey) == m[wanted.id := wanted] - current.Keys
  {
    ApplyConcat(m, DiffOne(l4, Some(wanted)), gone, BackendKey);
    ApplyDiffOne(m, l4, Some(wanted), BackendKey, wanted.id);
    var written := m[wanted.id := wanted];
    DiffReplays(written, gone, current, map[], BackendKey);
    assert written - current.Keys + map[] == written - current.Keys;
  }

  /** Wishing for L4: the L4 backend is written, then the projected L7 backends are deleted. */
  lemma L4BackendEffect(m: map<string, Backend>, w: Wish, p: Option<Projection>, changes: seq<Change<Backend>>)
    requires Accepted(w) && IsL4(w.kind) && PlansBackends(w, p, changes)
    requires CurrentL4(p).Some? ==>
               CurrentL4(p) == Get(m, L4Id(w.hostname)) && CurrentL4(p).value.id == L4Id(w.hostname)
    ensures ApplyChanges(m, changes, BackendKey)
         == m[L4Id(w.hostname) := BackendFor(w.hostname, L4Part, w.l4.value)]
            - ById(CurrentL7Backends(Views(p)), BackendKey).Keys
  {
    var wanted := BackendFor(w.hostname, L4Part, w.l4.value);
    var head := DiffOne(CurrentL4(p), Some(wanted));
    SplitPrefix(head, changes);
    ReplayL4(m, CurrentL4(p), wanted, changes[|head|..], ById(CurrentL7Backends(Views(p)), BackendKey));
  }

  lemma ReplayL7(m: map<string, Backend>, l4: Option<Backend>, id: string, body: seq<Change<Backend>>,
                 current: map<string, Backend>, desired: map<string, Backend>)
    requires l4.Some? ==> l4.value.id == id
    requires Keyed(current, BackendKey) && Keyed(desired, BackendKey) && IsDiff(body, current, desired, BackendKey)
    requires forall k :: k in current ==> k in m && m[k] == current[k]
    ensures ApplyChanges(m, body + DiffOne(l4, None), BackendKey)
             == m - current.Keys + desired - (if l4.Some? then {id} else {})
  {
    ApplyConcat(m, body, DiffOne(l4, None), BackendKey);
    DiffReplays(m, body, current, desired, BackendKey);
    var r := m - current.Keys + desired;
    ApplyDiffOne(r, l4, None, BackendKey, id);
    assert r - {} == r;
  }

  /** Wishing for L7: the diff of the L7 backends is applied, then a current L4 backend is deleted. */
  lemma L7BackendEffect(m: map<string, Backend>, w: Wish, p: Option<Projection>, changes: seq<Change<Backend>>)
    requires Accepted(w) && !IsL4(w.kind) && PlansBackends(w, p, changes)
    requires CurrentL4(p).Some? ==> CurrentL4(p).value.id == L4Id(w.hostname)
    requires var current := ById(CurrentL7Backends(Views(p)), BackendKey);
             forall k :: k in current ==> k in m && m[k] == current[k]
    ensures ApplyChanges(m, changes, BackendKey)
         == m - ById(CurrentL7Backends(Views(p)), BackendKey).Keys + WantedBackends(w)
            - (if CurrentL4(p).Some? then {L4Id(w.hostname)} else {})
  {
    var tail := DiffOne(CurrentL4(p), None);
    var body := changes[..|changes| - |tail|];
    SplitAt(changes, |body|);
    ReplayL7(m, CurrentL4(p), L4Id(w.hostname), body, ById(CurrentL7Backends(Views(p)), BackendKey), WantedBackends(w));
  }

  lemma ClashMeaning(p: Option<Projection>, w: Wish)
    requires Accepted(w)
    ensures Clash(p, w) <==>
            if IsL4(w.kind) then L4Id(w.hostname) in ById(CurrentL7Backends(Views(p)), BackendKey)
            else CurrentL4(p).Some? && L4Id(w.hostname) in WantedBackends(w)
  {
    var h := w.hostname;
    if IsL4(w.kind) {
      L4IdOwned(h);
      var current := ById(CurrentL7Backends(Views(p)), BackendKey);
      if i :| 0 <= i < |Views(p)| && Views(p)[i].backend.Some? && Views(p)[i].backend.value.id == L4Id(h) {
        assert Views(p)[i].backend.value in CurrentL7Backends(Views(p));
      }
      if L4Id(h) in current {
        assert current[L4Id(h)] in CurrentL7Backends(Views(p));
      }
    } else {
      WantsL4Id(w);
    }
  }

  lemma WantsL4Id(w: Wish)
    requires Accepted(w) && !IsL4(w.kind)
    ensures L4Id(w.hostname) in WantedBackends(w) <==>
            exists i :: 0 <= i < |w.routes| && SanitizePart(w.routes[i].path) == L4Part
  {
    var bs := DesiredBackends(w);
    ByIdHas(bs, BackendKey, L4Id(w.hostname));
    forall i | 0 <= i < |w.routes|
      ensures BackendKey(bs[i]) == L4Id(w.hostname) <==> SanitizePart(w.routes[i].path) == L4Part
    {
      IsL4Part(w.hostname, w.routes[i]);
    }
  }

  lemma IsL4Part(h: string, spec: RouteSpec)
    ensures BackendFor(h, SanitizePart(spec.path), spec.target).id == L4Id(h) <==> SanitizePart(spec.path) == L4Part
  {
    IdsAreInjective(BackendPrefix, h, SanitizePart(spec.path), h, L4Part);
  }

  /** Writing `k`, then deleting `current`, for an L7 host (all its backends are current) or another. */
  lemma WriteThenDelete(m: map<string, Backend>, owned: set<string>, current: set<string>, k: string, b: Backend)
    requires current == owned || (current == {} && owned <= {k})
    ensures m[k := b] - current == m - owned + (map[k := b] - if k in current then {k} else {})
  {
  }

  /** Merging `wanted`, then deleting the L4 backend `l4`, likewise. */
  lemma MergeThenDelete(m: map<string, Backend>, owned: set<string>, current: set<string>, l4: set<string>,
                        wanted: map<string, Backend>)
    requires (current == owned && l4 == {}) || (current == {} && owned == l4)
    ensures m - current + wanted - l4 == m - owned + (wanted - l4)
  {
  }

  lemma DropAbsent(wanted: map<string, Backend>, k: string)
    requires k !in wanted
    ensures wanted - {k} == wanted - {}
  {
  }

  /** The host's backends become the wanted ones, short of the L4 backend when the plan clashes. */
  lemma BackendEffect(db: Db, w: Wish, p: Option<Projection>, dns: seq<DnsRecord>, plan: Plan)
    requires Inv(db) && Accepted(w) && Queried(db, w.hostname, p) && IsPlan(w, p, dns, plan)
    ensures ApplyPlan(db, plan).backends == db.backends - BackendsOf(db, w.hostname) + (WantedBackends(w) - Lost(p, w))
  {
    if IsL4(w.kind) {
      L4BackendResult(db, w, p, dns, plan);
    } else {
      L7BackendResult(db, w, p, dns, plan);
    }
  }

  lemma L4BackendResult(db: Db, w: Wish, p: Option<Projection>, dns: seq<DnsRecord>, plan: Plan)
    requires Inv(db) && Accepted(w) && IsL4(w.kind) && Queried(db, w.hostname, p) && IsPlan(w, p, dns, plan)
    ensures ApplyPlan(db, plan).backends == db.backends - BackendsOf(db, w.hostname) + (WantedBackends(w) - Lost(p, w))
  {
    var h := w.hostname;
    CurrentL4Is(db, h, p);
    L4BackendEffect(db.backends, w, p, plan.backends);
    ClashMeaning(p, w);
    CurrentOrL4(db, h, p);
    WriteThenDelete(db.backends, BackendsOf(db, h), ById(CurrentL7Backends(Views(p)), BackendKey).Keys, L4Id(h),
                    BackendFor(h, L4Part, w.l4.value));
  }

  lemma CurrentOrL4(db: Db, h: string, p: Option<Projection>)
    requires Inv(db) && Queried(db, h, p)
    ensures var current := ById(CurrentL7Backends(Views(p)), BackendKey).Keys;
            current == BackendsOf(db, h) || (current == {} && BackendsOf(db, h) <= {L4Id(h)})
  {
    CurrentL4Is(db, h, p);
    CurrentBackendsAre(db, h, p);
  }

  lemma L7BackendResult(db: Db, w: Wish, p: Option<Projection>, dns: seq<DnsRecord>, plan: Plan)
    requires Inv(db) && Accepted(w) && !IsL4(w.kind) && Queried(db, w.hostname, p) && IsPlan(w, p, dns, plan)
    ensures ApplyPlan(db, plan).backends == db.backends - BackendsOf(db, w.hostname) + (WantedBackends(w) - Lost(p, w))
  {
    var h := w.hostname;
    var current := ById(CurrentL7Backends(Views(p)), BackendKey);
    var l4 := if CurrentL4(p).Some? then {L4Id(h)} else {};
    CurrentL4Is(db, h, p);
    CurrentBackendsAre(db, h, p);
    ClashMeaning(p, w);
    L7BackendEffect(db.backends, w, p, plan.backends);
    MergeThenDelete(db.backends, BackendsOf(db, h), current.Keys, l4, WantedBackends(w));
    if CurrentL4(p).Some? && !Clash(p, w) {
      DropAbsent(WantedBackends(w), L4Id(h));
    }
  }

  // ---- The tables after a round -------------------------------------------------------------------

  /** The host's rows are replaced by the wanted ones, all but the `lost` backends; nothing else changes. */
  ghost predicate Rewrites(db: Db, w: Wish, lost: set<string>, after: Db)
    requires Accepted(w)
  {
    && after.endpoints == db.endpoints[w.hostname := DesiredEndpoint(w)]
    && after.routes == db.routes - RoutesOf(db, w.hostname) + WantedRoutes(w)
    && after.backends == db.backends - BackendsOf(db, w.hostname) + (WantedBackends(w) - lost)
    && after.certs == db.certs
  }

  lemma WantedBackendFacts(w: Wish, id: string)
    requires Accepted(w) && id in WantedBackends(w)
    ensures var b := WantedBackends(w)[id];
            && b.id == id && b.svcType != "" && Owned(BackendPrefix, w.hostname, id) && BackendPrefix <= id && id != ""
            && if IsL4(w.kind) then id == L4Id(w.hostname) else RouteOf(id) in WantedRoutes(w)
  {
    if IsL4(w.kind) {
      L4IdOwned(w.hostname);
    } else {
      var bs, rs := DesiredBackends(w), DesiredRoutes(w);
      var i :| 0 <= i < |bs| && bs[i] == WantedBackends(w)[id];
      IdsAreOwned(w.hostname, w.routes[i].path);
      Twins(w.hostname, rs[i].id);
      assert rs[i] in rs;
    }
    OwnedPrefix(BackendPrefix, w.hostname, id);
  }

  lemma AfterEndpoints(db: Db, w: Wish, lost: set<string>, after: Db, h: string)
    requires Inv(db) && Accepted(w) && Rewrites(db, w, lost, after) && h in after.endpoints
    ensures EndpointOk(after, h)
  {
    if h != w.hostname {
      assert EndpointOk(db, h);
    }
  }

  lemma AfterRoute(db: Db, w: Wish, lost: set<string>, after: Db, id: string)
    requires Inv(db) && Accepted(w) && Rewrites(db, w, lost, after) && id in after.routes
    ensures RouteOk(after, id)
    ensures id in WantedRoutes(w) <==> after.routes[id].hostname == w.hostname
    ensures id !in WantedRoutes(w) ==> id in db.routes && after.routes[id] == db.routes[id]
  {
    if id in WantedRoutes(w) {
      WantedRouteHasBackend(w, id);
    } else {
      KeptRoute(db, w, lost, after, id);
    }
  }

  lemma KeptRoute(db: Db, w: Wish, lost: set<string>, after: Db, id: string)
    requires Inv(db) && Accepted(w) && Rewrites(db, w, lost, after) && id in after.routes && id !in WantedRoutes(w)
    ensures RouteOk(after, id) && after.routes[id].hostname != w.hostname
    ensures id in db.routes && after.routes[id] == db.routes[id]
  {
    assert RouteOk(db, id);
  }

  /** A row of another host survives. */
  lemma OtherRoute(db: Db, w: Wish, lost: set<string>, after: Db, id: string)
    requires Inv(db) && Accepted(w) && Rewrites(db, w, lost, after) && id in db.routes
    requires db.routes[id].hostname != w.hostname
    ensures id in after.routes && after.routes[id] == db.routes[id]
  {
    assert RouteOk(db, id);
    if id in WantedRoutes(w) {
      WantedRouteHasBackend(w, id);
      OwnedOnce(RoutePrefix, db.routes[id].hostname, w.hostname, id);
    }
  }

  lemma OtherBackend(db: Db, w: Wish, lost: set<string>, after: Db, g: string, id: string)
    requires Accepted(w) && Rewrites(db, w, lost, after) && g != w.hostname && Owned(BackendPrefix, g, id)
    ensures Get(after.backends, id) == Get(db.backends, id)
  {
    if Owned(BackendPrefix, w.hostname, id) {
      OwnedOnce(BackendPrefix, g, w.hostname, id);
    }
    if id in WantedBackends(w) {
      WantedBackendFacts(w, id);
    }
  }

  lemma AfterWantedBackend(db: Db, w: Wish, lost: set<string>, after: Db, id: string)
    requires Accepted(w) && Rewrites(db, w, lost, after) && id in WantedBackends(w) - lost
    ensures id in after.backends && after.backends[id] == WantedBackends(w)[id] && BackendOk(after, id)
  {
    WantedBackendFacts(w, id);
    if !IsL4(w.kind) {
      WantedRouteHasBackend(w, RouteOf(id));
    }
    assert InUse(after, w.hostname, id);
  }

  lemma AfterOtherBackend(db: Db, w: Wish, lost: set<string>, after: Db, id: string)
    requires Inv(db) && Accepted(w) && Rewrites(db, w, lost, after) && id in db.backends
    requires id !in BackendsOf(db, w.hostname)
    requires id in after.backends && after.backends[id] == db.backends[id]
    ensures BackendOk(after, id)
  {
    assert BackendOk(db, id);
    var g :| Owned(BackendPrefix, g, id) && InUse(db, g, id);
    assert g != w.hostname;
    StillInUse(db, w, lost, after, g, id);
  }

  lemma StillInUse(db: Db, w: Wish, lost: set<string>, after: Db, g: string, id: string)
    requires Inv(db) && Accepted(w) && Rewrites(db, w, lost, after) && g != w.hostname && InUse(db, g, id)
    ensures InUse(after, g, id)
  {
    if !IsL4(db.endpoints[g].kind) {
      OtherRoute(db, w, lost, after, RouteOf(id));
    }
  }

  lemma AfterBackend(db: Db, w: Wish, lost: set<string>, after: Db, id: string)
    requires Inv(db) && Accepted(w) && Rewrites(db, w, lost, after) && id in after.backends
    ensures BackendOk(after, id)
  {
    if id in WantedBackends(w) - lost {
      AfterWantedBackend(db, w, lost, after, id);
    } else {
      AfterOtherBackend(db, w, lost, after, id);
    }
  }

  lemma RewriteKeepsInv(db: Db, w: Wish, lost: set<string>, after: Db)
    requires Inv(db) && Accepted(w) && Rewrites(db, w, lost, after)
    ensures Inv(after)
  {
    forall h | h in after.endpoints ensures EndpointOk(after, h) { AfterEndpoints(db, w, lost, after, h); }
    forall id | id in after.routes ensures RouteOk(after, id) { AfterRoute(db, w, lost, after, id); }
    forall id | id in after.backends ensures BackendOk(after, id) { AfterBackend(db, w, lost, after, id); }
  }

  lemma PlanRewrites(db: Db, w: Wish, p: Option<Projection>, dns: seq<DnsRecord>, plan: Plan)
    requires Inv(db) && Accepted(w) && Queried(db, w.hostname, p) && IsPlan(w, p, dns, plan)
    ensures Rewrites(db, w, Lost(p, w), ApplyPlan(db, plan))
  {
    RouteEffect(db, w, p, dns, plan);
    EndpointEffect(db, w, p, dns, plan);
    BackendEffect(db, w, p, dns, plan);
  }
}
