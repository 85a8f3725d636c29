/** A plan is empty exactly when the projection already shows the wish, so repeating a wish changes nothing. */
module PlanRepeats {
  import opened Options
  import opened PlanDiff
  import opened Repository
  import opened Planning
  import opened PlanRounds
  import opened PlanRuns

  /** The plan changes neither the endpoint nor a route nor a backend. */
  predicate ChangesNothing(plan: Plan) { plan.endpoints == [] && plan.routes == [] && plan.backends == [] }

  /** What the builder takes for current is what it wants. */
  ghost predicate Settled(w: Wish, p: Option<Projection>)
    requires Accepted(w)
  {
    && CurrentEndpoint(p) == Some(DesiredEndpoint(w))
    && ById(CurrentRoutes(p), RouteKey) == WantedRoutes(w)
    && CurrentL4(p) == (if IsL4(w.kind) then Some(BackendFor(w.hostname, L4Part, w.l4.value)) else None)
    && ById(CurrentL7Backends(Views(p)), BackendKey)
       == if IsL4(w.kind) then map[] else ById(DesiredBackends(w), BackendKey)
  }

  lemma EmptyIsSettled(w: Wish, p: Option<Projection>, dns: seq<DnsRecord>, plan: Plan)
    requires Accepted(w) && IsPlan(w, p, dns, plan)
    ensures ChangesNothing(plan) <==> Settled(w, p)
  {
    DiffOneIs(CurrentEndpoint(p), Some(DesiredEndpoint(w)));
    DiffIsExact(plan.routes, ById(CurrentRoutes(p), RouteKey), WantedRoutes(w), RouteKey);
    BackendsSettled(w, p, plan.backends);
  }

  lemma BackendsSettled(w: Wish, p: Option<Projection>, changes: seq<Change<Backend>>)
    requires Accepted(w) && PlansBackends(w, p, changes)
    ensures changes == [] <==>
            && CurrentL4(p) == (if IsL4(w.kind) then Some(BackendFor(w.hostname, L4Part, w.l4.value)) else None)
            && ById(CurrentL7Backends(Views(p)), BackendKey)
               == if IsL4(w.kind) then map[] else ById(DesiredBackends(w), BackendKey)
  {
    if IsL4(w.kind) {
      BackendsSettledL4(w, p, changes);
    } else {
      BackendsSettledL7(w, p, changes);
    }
  }

  lemma BackendsSettledL4(w: Wish, p: Option<Projection>, changes: seq<Change<Backend>>)
    requires Accepted(w) && IsL4(w.kind) && PlansBackends(w, p, changes)
    ensures changes == [] <==>
            && CurrentL4(p) == Some(BackendFor(w.hostname, L4Part, w.l4.value))
            && ById(CurrentL7Backends(Views(p)), BackendKey) == map[]
  {
    var wanted := Some(BackendFor(w.hostname, L4Part, w.l4.value));
    DiffOneIs(CurrentL4(p), wanted);
    var current := ById(CurrentL7Backends(Views(p)), BackendKey);
    HeadThenDiff(changes, DiffOne(CurrentL4(p), wanted), current, map[], BackendKey);
  }

  lemma HeadThenDiff<T(!new)>(changes: seq<Change<T>>, head: seq<Change<T>>, current: map<string, T>,
                              desired: map<string, T>, idOf: T -> string)
    requires Keyed(current, idOf) && Keyed(desired, idOf)
    requires head <= changes && IsDiff(changes[|head|..], current, desired, idOf)
    ensures changes == [] <==> head == [] && current == desired
  {
    DiffIsExact(changes[|head|..], current, desired, idOf);
  }

  lemma DiffThenTail<T(!new)>(changes: seq<Change<T>>, n: nat, current: map<string, T>, desired: map<string, T>,
                              idOf: T -> string)
    requires Keyed(current, idOf) && Keyed(desired, idOf)
    requires n <= |changes| && IsDiff(changes[..n], current, desired, idOf)
    ensures changes == [] <==> n == |changes| && current == desired
  {
    DiffIsExact(changes[..n], current, desired, idOf);
  }

  lemma BackendsSettledL7(w: Wish, p: Option<Projection>, changes: seq<Change<Backend>>)
    requires Accepted(w) && !IsL4(w.kind) && PlansBackends(w, p, changes)
    ensures changes == [] <==>
            && CurrentL4(p) == None
            && ById(CurrentL7Backends(Views(p)), BackendKey) == ById(DesiredBackends(w), BackendKey)
  {
    DiffOneIs(CurrentL4(p), None);
    var n := |changes| - |DiffOne(CurrentL4(p), None)|;
    var current := ById(CurrentL7Backends(Views(p)), BackendKey);
    DiffThenTail(changes, n, current, ById(DesiredBackends(w), BackendKey), BackendKey);
  }

  // ---- From agreement to the wish -----------------------------------------------------------------

  /** A projected route stands for the live route of its id, alone. */
  lemma CurrentAt(db: Db, h: string, p: Option<Projection>, v: RouteView)
    requires Inv(db) && Queried(db, h, p) && v in Views(p)
    ensures IsRouteOf(db, h, v.id) && v == ViewOf(db, db.routes[v.id])
    ensures var m := ById(CurrentRoutes(p), RouteKey); v.id in m && m[v.id] == CurrentRoute(p.value.hostname, v)
  {
    var m := ById(CurrentRoutes(p), RouteKey);
    var j :| 0 <= j < |Views(p)| && Views(p)[j] == v;
    assert CurrentRoutes(p)[j] in CurrentRoutes(p);
    var k :| 0 <= k < |CurrentRoutes(p)| && CurrentRoutes(p)[k] == m[v.id];
    assert Views(p)[k] in p.value.routes;
  }

  lemma BackendAt(db: Db, h: string, p: Option<Projection>, v: RouteView)
    requires Inv(db) && Queried(db, h, p) && v in Views(p) && v.backend.Some? && v.backend.value.id != ""
    ensures var m := ById(CurrentL7Backends(Views(p)), BackendKey);
            v.backend.value.id in m && m[v.backend.value.id] == v.backend.value
  {
    CurrentBackendsAre(db, h, p);
    CurrentAt(db, h, p, v);
    RouteSeen(db, h, v.id);
    assert v.backend.value in CurrentL7Backends(Views(p));
  }

  lemma SettledView(db: Db, w: Wish, p: Option<Projection>, v: RouteView) returns (i: nat)
    requires Inv(db) && Accepted(w) && !IsL4(w.kind) && Queried(db, w.hostname, p) && Settled(w, p) && v in Views(p)
    ensures IsLast(w, i) && v == SpecView(w, i)
  {
    CurrentAt(db, w.hostname, p, v);
    i := WantedHasLast(w, v.id);
    WantedOfLast(w, i);
    assert CurrentRoute(p.value.hostname, v) == RouteFor(w.hostname, w.routes[i]);
    NamedBackend(w.hostname, w.routes[i].path);
    BackendAt(db, w.hostname, p, v);
  }

  lemma NamedBackend(h: string, path: string)
    ensures BackendId(h, path) != ""
  {
    IdsAreOwned(h, path);
    OwnedPrefix(BackendPrefix, h, BackendId(h, path));
  }

  lemma OneLast(w: Wish, i: nat, j: nat)
    requires IsLast(w, i) && IsLast(w, j)
    requires RouteId(w.hostname, w.routes[i].path) == RouteId(w.hostname, w.routes[j].path)
    ensures i == j
  {
    var a, b := SanitizePart(w.routes[i].path), SanitizePart(w.routes[j].path);
    IdsAreInjective(RoutePrefix, w.hostname, a, w.hostname, b);
  }

  lemma SettledIsBuilt(db: Db, w: Wish, p: Option<Projection>)
    requires Inv(db) && Accepted(w) && Queried(db, w.hostname, p) && Settled(w, p)
    ensures p.Some? && Built(w, p.value)
  {
    if !IsL4(w.kind) {
      forall v | v in p.value.routes ensures exists i: nat :: IsLast(w, i) && v == SpecView(w, i) {
        var i := SettledView(db, w, p, v);
      }
      forall i: nat | IsLast(w, i) ensures SpecView(w, i) in p.value.routes {
        SettledSpec(db, w, p, i);
      }
    }
  }

  lemma SettledSpec(db: Db, w: Wish, p: Option<Projection>, i: nat)
    requires Inv(db) && Accepted(w) && !IsL4(w.kind) && Queried(db, w.hostname, p) && Settled(w, p) && IsLast(w, i)
    ensures SpecView(w, i) in Views(p)
  {
    WantedOfLast(w, i);
    var m, id := ById(CurrentRoutes(p), RouteKey), RouteId(w.hostname, w.routes[i].path);
    var k :| 0 <= k < |CurrentRoutes(p)| && CurrentRoutes(p)[k] == m[id];
    var v := Views(p)[k];
    var j := SettledView(db, w, p, v);
    OneLast(w, i, j);
  }

  // ---- From the wish to agreement -----------------------------------------------------------------

  lemma BuiltRoutes(w: Wish, p: Projection)
    requires Accepted(w) && !IsL4(w.kind) && Built(w, p)
    ensures ById(CurrentRoutes(Some(p)), RouteKey) == WantedRoutes(w)
  {
    forall id ensures Get(ById(CurrentRoutes(Some(p)), RouteKey), id) == Get(WantedRoutes(w), id) {
      if id in ById(CurrentRoutes(Some(p)), RouteKey) {
        BuiltRoute(w, p, id);
      } else if id in WantedRoutes(w) {
        WantedRouteBuilt(w, p, id);
      }
    }
    SameGets(ById(CurrentRoutes(Some(p)), RouteKey), WantedRoutes(w));
  }

  lemma BuiltRoute(w: Wish, p: Projection, id: string)
    requires Accepted(w) && !IsL4(w.kind) && Built(w, p) && id in ById(CurrentRoutes(Some(p)), RouteKey)
    ensures Get(WantedRoutes(w), id) == Some(ById(CurrentRoutes(Some(p)), RouteKey)[id])
  {
    var r := ById(CurrentRoutes(Some(p)), RouteKey)[id];
    var k :| 0 <= k < |CurrentRoutes(Some(p))| && CurrentRoutes(Some(p))[k] == r;
    assert p.routes[k] in p.routes;
    var i: nat :| IsLast(w, i) && p.routes[k] == SpecView(w, i);
    WantedOfLast(w, i);
  }

  lemma WantedRouteBuilt(w: Wish, p: Projection, id: string)
    requires Accepted(w) && !IsL4(w.kind) && Built(w, p) && id in WantedRoutes(w)
    ensures id in ById(CurrentRoutes(Some(p)), RouteKey)
  {
    var i := WantedHasLast(w, id);
    var k :| 0 <= k < |p.routes| && p.routes[k] == SpecView(w, i);
    assert CurrentRoutes(Some(p))[k] in CurrentRoutes(Some(p));
  }

  lemma BuiltBackends(w: Wish, p: Projection)
    requires Accepted(w) && !IsL4(w.kind) && Built(w, p)
    ensures ById(CurrentL7Backends(p.routes), BackendKey) == ById(DesiredBackends(w), BackendKey)
  {
    var m, wanted := ById(CurrentL7Backends(p.routes), BackendKey), ById(DesiredBackends(w), BackendKey);
    forall id ensures Get(m, id) == Get(wanted, id) {
      if id in m {
        BuiltBackend(w, p, id);
      } else if id in wanted {
        WantedIsBuilt(w, p, id);
      }
    }
    SameGets(m, wanted);
  }

  lemma BuiltBackend(w: Wish, p: Projection, id: string)
    requires Accepted(w) && !IsL4(w.kind) && Built(w, p) && id in ById(CurrentL7Backends(p.routes), BackendKey)
    ensures Get(ById(DesiredBackends(w), BackendKey), id) == Some(ById(CurrentL7Backends(p.routes), BackendKey)[id])
  {
    var b := ById(CurrentL7Backends(p.routes), BackendKey)[id];
    var k :| 0 <= k < |p.routes| && p.routes[k].backend == Some(b);
    assert p.routes[k] in p.routes;
    var i: nat :| IsLast(w, i) && p.routes[k] == SpecView(w, i);
    WantedOfLast(w, i);
  }

  lemma WantedIsBuilt(w: Wish, p: Projection, id: string)
    requires Accepted(w) && !IsL4(w.kind) && Built(w, p) && id in ById(DesiredBackends(w), BackendKey)
    ensures id in ById(CurrentL7Backends(p.routes), BackendKey)
  {
    var j :| 0 <= j < |DesiredBackends(w)| && DesiredBackends(w)[j] == ById(DesiredBackends(w), BackendKey)[id];
    var i := LastExists(w, j);
    assert SpecView(w, i) in p.routes;
    NamedBackend(w.hostname, w.routes[i].path);
    var k :| 0 <= k < |p.routes| && p.routes[k] == SpecView(w, i);
    assert p.routes[k].backend == Some(SpecView(w, i).backend.value);
    assert SpecView(w, i).backend.value in CurrentL7Backends(p.routes);
  }

  lemma BuiltIsSettled(w: Wish, p: Projection)
    requires Accepted(w) && Built(w, p)
    ensures Settled(w, Some(p))
  {
    if IsL4(w.kind) {
      assert CurrentRoutes(Some(p)) == [] && CurrentL7Backends(Views(Some(p))) == [];
    } else {
      BuiltRoutes(w, p);
      BuiltBackends(w, p);
    }
  }

  /** In a repository written by plans: a plan changes nothing if and only if the query already showed the wish. */
  lemma EmptyPlanIff(db: Db, w: Wish, p: Option<Projection>, dns: seq<DnsRecord>, plan: Plan)
    requires Inv(db) && Accepted(w) && Queried(db, w.hostname, p) && IsPlan(w, p, dns, plan)
    ensures ChangesNothing(plan) <==> p.Some? && Fulfils(w, p.value)
  {
    EmptyIsSettled(w, p, dns, plan);
    if Settled(w, p) {
      SettledIsBuilt(db, w, p);
    }
    if p.Some? {
      FulfilsIsBuilt(w, p.value);
      if Built(w, p.value) {
        BuiltIsSettled(w, p.value);
      }
    }
  }

  /** Every run: a round that repeats the wish of the round before changes nothing if and only if that round did not
      clash. */
  lemma RepeatedWishChangesNothing(dbs: seq<Db>, steps: seq<Step>, n: nat)
    requires IsRun(dbs, steps) && n + 1 < |steps| && steps[n].Round? && steps[n + 1].Round?
    requires Accepted(steps[n].w) && steps[n + 1].w == steps[n].w
    ensures ChangesNothing(steps[n + 1].plan) <==> !Clash(steps[n].p, steps[n].w)
  {
    var m := n + 1;
    assert IsStep(dbs[m], steps[m], dbs[m + 1]);
    RunKeepsInv(dbs, steps, m);
    RoundLeavesNothingElse(dbs, steps, n);
    RoundShowsWish(dbs, steps, n, steps[m].p.value);
    EmptyPlanIff(dbs[m], steps[m].w, steps[m].p, steps[m].dns, steps[m].plan);
  }

  // ---- DNS records --------------------------------------------------------------------------------

  /** The plan stores every wished record, the last of each id, with its own fields under its own or the default id. */
  lemma WishedRecordsStored(db: Db, w: Wish, p: Option<Projection>, dns: seq<DnsRecord>, plan: Plan, i: nat)
    requires Accepted(w) && IsPlan(w, p, dns, plan) && i < |w.dns|
    requires forall id :: id in ById(dns, DnsKey) ==> id in db.dns && db.dns[id] == ById(dns, DnsKey)[id]
    requires forall j :: i < j < |w.dns| ==> DesiredDns(w)[j].id != DesiredDns(w)[i].id
    ensures exists id :: id in ApplyPlan(db, plan).dns && StoredAs(ApplyPlan(db, plan).dns[id], w.dns[i])
  {
    DnsEffect(db, w, p, dns, plan);
    DesiredDnsIs(w, i);
    ByIdLast(DesiredDns(w), DnsKey, i);
    assert ApplyPlan(db, plan).dns[DesiredDns(w)[i].id] == DesiredDns(w)[i];
  }
}
