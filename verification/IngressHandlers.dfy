/** The ingress bridge as it runs: nested-loop materialisation, host-set sync and the event handlers. */
module IngressHandlers {
  import opened Options
  import opened Text
  import opened Sorting
  import opened PlanDiff
  import opened Repository
  import opened IngressModel
  import opened IngressRows
  import opened IngressSync
  import opened IngressRepo
  import opened IngressBridge

  // ---- Materialisation --------------------------------------------------------------------------------

  method PathRows(services: Services, ing: Ingress, h: string, paths: seq<PathRule>) returns (made: seq<Made>)
    ensures made == FromPaths(services, ing, h, paths)
  {
    made := [];
    for idx := 0 to |paths|
      invariant made == FromPaths(services, ing, h, paths[..idx])
    {
      assert paths[..idx + 1][..idx] == paths[..idx];
      if paths[idx].service.Some? {
        made := made + [MakePath(services, ing, h, idx, paths[idx])];
      }
    }
    assert paths[..|paths|] == paths;
  }

  ghost predicate Tracks(services: Services, ing: Ingress, list: seq<string>, hosts: set<string>,
                         before: map<string, Item>, n: nat, out: map<string, Item>)
    requires n <= |ing.rules| == |list|
  {
    out.Keys <= hosts && forall h :: h in hosts ==> Get(out, h) == AddRules(services, ing, list, h, n, Get(before, h))
  }

  lemma TrackRule(services: Services, ing: Ingress, list: seq<string>, hosts: set<string>, before: map<string, Item>,
                  n: nat, out: map<string, Item>)
    requires n < |ing.rules| == |list| && Tracks(services, ing, list, hosts, before, n, out)
    ensures var host := list[n];
            Tracks(services, ing, list, hosts, before, n + 1,
                   if host !in hosts then out
                   else
                     var made := MadeSoFar(Get(out, host)) + FromPaths(services, ing, host, ing.rules[n].http);
                     out[host := Item(EndpointFor(ing, host), made)])
  {
  }

  method AddRuleList(services: Services, ing: Ingress, list: seq<string>, hosts: set<string>, before: map<string, Item>)
    returns (out: map<string, Item>)
    requires |list| == |ing.rules| && before.Keys <= hosts && "" !in hosts
    ensures Tracks(services, ing, list, hosts, before, |ing.rules|, out)
  {
    out := before;
    for n := 0 to |ing.rules|
      invariant Tracks(services, ing, list, hosts, before, n, out)
    {
      TrackRule(services, ing, list, hosts, before, n, out);
      var host := list[n];
      if host == "" || host !in hosts {
        continue;
      }
      var made := PathRows(services, ing, host, ing.rules[n].http);
      out := out[host := Item(EndpointFor(ing, host), MadeSoFar(Get(out, host)) + made)];
    }
  }

  /** One ingress: every rule whose host is wanted updates that host's item. */
  method AddIngressRules(services: Services, ing: Ingress, hosts: set<string>, before: map<string, Item>)
    returns (out: map<string, Item>)
    requires "" !in hosts && before.Keys <= hosts
    ensures out.Keys <= hosts && forall h :: h in hosts ==> Get(out, h) == AddIngress(services, ing, h, Get(before, h))
  {
    out := AddRuleList(services, ing, HostList(ing), hosts, before);
  }

  /** The index of a list, listed again without repetition and sorted by id. */
  method DedupBackends(item: Item) returns (m: Materialized)
    ensures Carries(m, item)
  {
    var index := IndexById(BackendsIn(item.made), BackendKey);
    var raw := ListValues(index);
    var bs := SortByKey(raw, BackendKey);
    ListedById(bs, index);
    m := Materialized(item.endpoint, bs, RoutesIn(item.made));
  }

  method ListValues(index: map<string, Backend>) returns (raw: seq<Backend>)
    requires Keyed(index, BackendKey)
    ensures Distinct(raw, BackendKey) && forall b :: b in raw <==> b.id in index && index[b.id] == b
  {
    raw := [];
    var todo := index.Keys;
    while todo != {}
      invariant todo <= index.Keys && Distinct(raw, BackendKey)
      invariant forall b :: b in raw <==> b.id in index && b.id !in todo && index[b.id] == b
      decreases todo
    {
      var id :| id in todo;
      DistinctSnoc(raw, index[id], BackendKey);
      raw := raw + [index[id]];
      todo := todo - {id};
    }
  }

  lemma ListedById(bs: seq<Backend>, index: map<string, Backend>)
    requires Keyed(index, BackendKey) && forall b :: b in bs <==> b.id in index && index[b.id] == b
    ensures ById(bs, BackendKey) == index
  {
    var m := ById(bs, BackendKey);
    forall id ensures Get(m, id) == Get(index, id) {
      if id in index {
        assert index[id] in bs;
      }
      if id in m {
        assert m[id] in bs;
      }
    }
    SameGets(m, index);
  }

  method ListHosts(hosts: set<string>) returns (r: seq<string>)
    ensures forall h :: h in r <==> h in hosts
  {
    var raw: seq<string> := [];
    var todo := hosts;
    while todo != {}
      invariant todo <= hosts && forall h :: h in raw <==> h in hosts && h !in todo
      invariant forall i, j :: 0 <= i < j < |raw| ==> raw[i] != raw[j]
      decreases todo
    {
      var h :| h in todo;
      assert h !in raw;
      raw := raw + [h];
      todo := todo - {h};
    }
    r := SortByKey(raw, (h: string) => h);
  }

  // ---- Syncing a set of hosts ---------------------------------------------------------------------------

  function HostSet(hosts: seq<string>): set<string> { set i | 0 <= i < |hosts| && hosts[i] != "" :: hosts[i] }

  /** Where a sync stands: the hosts in `seen` are done and their changes reported. */
  ghost predicate Done(before: Rows, rows: Rows, goals: Goals, seen: set<string>, changedAffected: seq<string>,
                       changedRemoved: seq<string>) {
    && seen <= goals.Keys && Synced(before, rows, goals, seen)
    && Reported(changedAffected, before, goals, seen, true) && Reported(changedRemoved, before, goals, seen, false)
  }

  method SyncAffected(repo: Repo, next: map<string, Materialized>, affected: seq<string>, ghost goals: Goals)
    returns (changedAffected: seq<string>, changedRemoved: seq<string>, seen: set<string>)
    requires GoodGoals(goals) && Serves(next, goals) && Inv(repo.View()) && HostSet(affected) <= goals.Keys
    modifies repo
    ensures seen == HostSet(affected)
    ensures Done(old(repo.View()), repo.View(), goals, seen, changedAffected, changedRemoved)
  {
    ghost var before := repo.View();
    seen, changedAffected, changedRemoved := {}, [], [];
    for i := 0 to |affected|
      invariant seen == HostSet(affected[..i])
      invariant Done(before, repo.View(), goals, seen, changedAffected, changedRemoved)
    {
      HostSetNext(affected, i);
      var host := affected[i];
      if host == "" || host in seen {
        continue;
      }
      changedAffected, changedRemoved :=
        SyncAndReport(repo, next, host, goals, before, seen, changedAffected, changedRemoved);
      seen := seen + {host};
    }
    assert affected[..|affected|] == affected;
  }

  method SyncAndReport(repo: Repo, next: map<string, Materialized>, h: string, ghost goals: Goals, ghost before: Rows,
                       ghost seen: set<string>, changedAffected: seq<string>, changedRemoved: seq<string>)
    returns (ca: seq<string>, cr: seq<string>)
    requires GoodGoals(goals) && Serves(next, goals) && h in goals && h !in seen
    requires Done(before, repo.View(), goals, seen, changedAffected, changedRemoved)
    modifies repo
    ensures Done(before, repo.View(), goals, seen + {h}, ca, cr)
  {
    ca, cr := changedAffected, changedRemoved;
    var changed := SyncHost(repo, next, h, goals, before, seen);
    ReportBoth(ca, cr, before, goals, seen, h, changed);
    if changed {
      if h in next {
        ca := ca + [h];
      } else {
        cr := cr + [h];
      }
    }
  }

  lemma ReportBoth(ca: seq<string>, cr: seq<string>, before: Rows, goals: Goals, seen: set<string>, h: string,
                   changed: bool)
    requires seen <= goals.Keys && h in goals && h !in seen && (changed <==> Reports(before, h, goals[h]))
    requires Reported(ca, before, goals, seen, true) && Reported(cr, before, goals, seen, false)
    ensures Reported(if changed && goals[h].Some? then ca + [h] else ca, before, goals, seen + {h}, true)
    ensures Reported(if changed && goals[h].None? then cr + [h] else cr, before, goals, seen + {h}, false)
  {
    ReportOne(ca, before, goals, seen, true, h, changed && goals[h].Some?);
    ReportOne(cr, before, goals, seen, false, h, changed && goals[h].None?);
  }

  /** Each affected host holds its materialisation or nothing, each removed-only host nothing, every other host
      what it held; and each host whose sync changed something is reported once. */
  method SyncDomainSet(repo: Repo, next: map<string, Materialized>, affected: seq<string>, removed: seq<string>,
                       ghost goals: Goals)
    returns (changedAffected: seq<string>, changedRemoved: seq<string>)
    requires GoodGoals(goals) && Serves(next, goals) && Inv(repo.View())
    requires goals.Keys == HostSet(NormalizeAll(affected)) + HostSet(NormalizeAll(removed))
    modifies repo
    ensures Done(old(repo.View()), repo.View(), goals, goals.Keys, changedAffected, changedRemoved)
  {
    changedAffected, changedRemoved := SyncNormalized(repo, next, NormalizeAll(affected), NormalizeAll(removed), goals);
  }

  method SyncNormalized(repo: Repo, next: map<string, Materialized>, affected: seq<string>, removed: seq<string>,
                        ghost goals: Goals)
    returns (changedAffected: seq<string>, changedRemoved: seq<string>)
    requires GoodGoals(goals) && Serves(next, goals) && Inv(repo.View())
    requires goals.Keys == HostSet(affected) + HostSet(removed)
    modifies repo
    ensures Done(old(repo.View()), repo.View(), goals, goals.Keys, changedAffected, changedRemoved)
  {
    ghost var before := repo.View();
    var seen;
    changedAffected, changedRemoved, seen := SyncAffected(repo, next, affected, goals);
    for i := 0 to |removed|
      invariant seen == HostSet(affected) + HostSet(removed[..i])
      invariant Done(before, repo.View(), goals, seen, changedAffected, changedRemoved)
    {
      HostSetNext(removed, i);
      var host := removed[i];
      if host == "" || host in seen {
        continue;
      }
      changedAffected, changedRemoved :=
        SyncAndReport(repo, next, host, goals, before, seen, changedAffected, changedRemoved);
      seen := seen + {host};
    }
    assert removed[..|removed|] == removed;
  }

  lemma HostSetNext(hosts: seq<string>, i: nat)
    requires i < |hosts|
    ensures HostSet(hosts[..i + 1]) == HostSet(hosts[..i]) + if hosts[i] == "" then {} else {hosts[i]}
    ensures hosts[i] != "" ==> hosts[i] in HostSet(hosts)
  {
    var a, b := hosts[..i], hosts[..i + 1];
    assert forall j :: 0 <= j < i ==> a[j] == b[j];
    forall h | h in HostSet(a) ensures h in HostSet(b) {
      var j :| 0 <= j < |a| && a[j] != "" && a[j] == h;
      assert b[j] == h;
    }
    assert b[i] == hosts[i];
  }

  /** One host of a sync: written when it was materialised, deleted otherwise. */
  method SyncHost(repo: Repo, next: map<string, Materialized>, h: string, ghost goals: Goals, ghost before: Rows,
                  ghost seen: set<string>)
    returns (changed: bool)
    requires GoodGoals(goals) && Serves(next, goals) && Synced(before, repo.View(), goals, seen) && h in goals
    requires h !in seen
    modifies repo
    ensures Synced(before, repo.View(), goals, seen + {h})
    ensures changed <==> Reports(before, h, goals[h])
  {
    SyncOne(before, repo.View(), goals, seen, h);
    if h !in next {
      changed := repo.DeleteManagedDomain(h);
    } else {
      assert Fitting(h, goals[h]);
      changed := repo.UpsertManagedDomain(next[h], h, goals[h].value);
    }
  }

  // ---- The bridge ---------------------------------------------------------------------------------------

  /** Walks the ingresses in whatever order the map yields them. */
  method MaterializeItems(services: Services, ingresses: Ingresses, hosts: set<string>)
    returns (out: map<string, Item>, ghost order: seq<ObjectKey>)
    requires "" !in hosts
    ensures IsOrder(order, ingresses) && out.Keys <= hosts
    ensures forall h :: h in hosts ==> Get(out, h) == Materialize(services, ingresses, order, h)
  {
    out, order := map[], [];
    var todo := ingresses.Keys;
    while todo != {}
      invariant todo <= ingresses.Keys && out.Keys <= hosts
      invariant (forall k :: k in order <==> k in ingresses && k !in todo)
      invariant forall i, j :: 0 <= i < j < |order| ==> order[i] != order[j]
      invariant forall h :: h in hosts ==> Get(out, h) == Materialize(services, ingresses, order, h)
      decreases todo
    {
      var k :| k in todo;
      out := AddIngressRules(services, ingresses[k], hosts, out);
      todo := todo - {k};
      assert k !in order;
      assert (order + [k])[..|order|] == order;
      order := order + [k];
    }
  }

  method MaterializeByHost(services: Services, ingresses: Ingresses, hosts: set<string>)
    returns (next: map<string, Materialized>, ghost order: seq<ObjectKey>)
    requires "" !in hosts
    ensures next.Keys <= hosts && IsOrder(order, ingresses)
    ensures forall h :: h in next <==> h in hosts && Materialize(services, ingresses, order, h).Some?
    ensures forall h :: h in next ==> Carries(next[h], Materialize(services, ingresses, order, h).value)
  {
    var out;
    out, order := MaterializeItems(services, ingresses, hosts);
    next := DedupAll(out);
    forall h ensures h in next <==> h in hosts && Materialize(services, ingresses, order, h).Some? {
      assert h in hosts ==> Get(out, h) == Materialize(services, ingresses, order, h);
    }
    forall h | h in next ensures Carries(next[h], Materialize(services, ingresses, order, h).value) {
      assert Get(out, h) == Materialize(services, ingresses, order, h);
    }
  }

  method DedupAll(out: map<string, Item>) returns (next: map<string, Materialized>)
    ensures next.Keys == out.Keys && forall h :: h in next ==> Carries(next[h], out[h])
  {
    next := map[];
    var todo := out.Keys;
    while todo != {}
      invariant todo <= out.Keys && next.Keys == out.Keys - todo && forall h :: h in next ==> Carries(next[h], out[h])
      decreases todo
    {
      var h :| h in todo;
      var m := DedupBackends(out[h]);
      next := next[h := m];
      todo := todo - {h};
    }
  }

  /** The hosts a list stands for once it is normalised. */
  lemma ListedAgain(list: seq<string>, hosts: set<string>)
    requires forall h :: h in list <==> h in hosts
    ensures HostSet(NormalizeAll(list)) == Again(hosts)
  {
    var again := NormalizeAll(list);
    forall h | h in Again(hosts) ensures h in HostSet(again) {
      var g :| g in hosts && NormalizeHost(g) == h;
      var i :| 0 <= i < |list| && list[i] == g;
      assert again[i] == h;
    }
    forall h | h in HostSet(again) ensures h in Again(hosts) {
      var i :| 0 <= i < |again| && again[i] == h;
      assert list[i] in list;
    }
  }

  /** Materialises and syncs the handed hosts, and returns those to be announced, written ones first. */
  method SyncHosts(repo: Repo, services: Services, ingresses: Ingresses, affected: set<string>, removed: set<string>)
    returns (updates: seq<string>, ghost order: seq<ObjectKey>)
    requires Inv(repo.View())
    modifies repo
    ensures IsOrder(order, ingresses)
    ensures var goals := GoalsFor(services, ingresses, order, Again(affected), Again(removed) - Again(affected));
            Synced(old(repo.View()), repo.View(), goals, goals.Keys) && Announces(updates, old(repo.View()), goals)
  {
    var a := ListHosts(affected);
    var r := ListHosts(removed);
    ListedAgain(a, affected);
    ListedAgain(r, removed);
    updates, order := SyncLists(repo, services, ingresses, a, r);
  }

  method SyncLists(repo: Repo, services: Services, ingresses: Ingresses, affected: seq<string>, removed: seq<string>)
    returns (updates: seq<string>, ghost order: seq<ObjectKey>)
    requires Inv(repo.View())
    modifies repo
    ensures IsOrder(order, ingresses)
    ensures var hosts, gone := HostSet(NormalizeAll(affected)), HostSet(NormalizeAll(removed));
            var goals := GoalsFor(services, ingresses, order, hosts, gone - hosts);
            Synced(old(repo.View()), repo.View(), goals, goals.Keys) && Announces(updates, old(repo.View()), goals)
  {
    var hosts := HostSet(NormalizeAll(affected));
    ghost var gone := HostSet(NormalizeAll(removed));
    NormalHosts(affected);
    NormalHosts(removed);
    var next;
    next, order := MaterializeByHost(services, ingresses, hosts);
    ghost var goals := GoalsFor(services, ingresses, order, hosts, gone - hosts);
    GoalsAreGood(services, ingresses, order, hosts, gone - hosts);
    assert goals.Keys == hosts + gone;
    var written, deleted := SyncDomainSet(repo, next, affected, removed, goals);
    AnnounceBoth(written, deleted, old(repo.View()), goals);
    updates := written + deleted;
  }

  lemma NormalHosts(list: seq<string>)
    ensures forall h :: h in HostSet(NormalizeAll(list)) ==> h != "" && ':' !in h
  {
    var again := NormalizeAll(list);
    forall h | h in HostSet(again) ensures ':' !in h {
      var i :| 0 <= i < |again| && again[i] == h;
      assert h == NormalizeHost(list[i]);
    }
  }

  class Bridge {
    const ingressClass: string
    const repo: Repo
    var ingresses: Ingresses
    var services: Services

    ghost function View(): State reads this, repo { State(ingressClass, ingresses, services, repo.View()) }

    ghost predicate Valid() reads this, repo { Inv(repo.View()) }

    constructor (className: string)
      ensures Valid() && fresh(repo) && View() == State(TrimSpace(className), map[], map[], NoRows)
    {
      ingressClass := TrimSpace(className);
      repo := new Repo();
      ingresses, services := map[], map[];
    }

    method HandleStoreIngress(ing: Ingress) returns (updates: seq<string>, ghost order: seq<ObjectKey>)
      requires Valid()
      modifies this, repo
      ensures Valid() && Step(old(View()), StoreIngress(ing), order, View())
      ensures Announces(updates, old(View()).rows, GoalsOf(old(View()), StoreIngress(ing), order))
    {
      var oldHosts := OldHosts(ingresses, ing.key);
      if !MatchesClass(ing, ingressClass) {
        ingresses := ingresses - {ing.key};
        assert oldHosts - {} == oldHosts;
        updates, order := SyncHosts(repo, services, ingresses, {}, oldHosts);
        return;
      }
      ingresses := ingresses[ing.key := ing];
      updates, order := SyncHosts(repo, services, ingresses, Hosts(ing), oldHosts - Hosts(ing));
    }

    method HandleDeleteIngress(key: ObjectKey) returns (updates: seq<string>, ghost order: seq<ObjectKey>)
      requires Valid()
      modifies this, repo
      ensures Valid() && Step(old(View()), DeleteIngress(key), order, View())
      ensures Announces(updates, old(View()).rows, GoalsOf(old(View()), DeleteIngress(key), order))
    {
      var oldHosts := OldHosts(ingresses, key);
      ingresses := ingresses - {key};
      updates, order := SyncHosts(repo, services, ingresses, {}, oldHosts);
    }

    method HandleStoreService(svc: Service) returns (updates: seq<string>, ghost order: seq<ObjectKey>)
      requires Valid()
      modifies this, repo
      ensures Valid() && Step(old(View()), StoreService(svc), order, View())
      ensures Announces(updates, old(View()).rows, GoalsOf(old(View()), StoreService(svc), order))
    {
      services := services[svc.key := svc];
      updates, order := SyncHosts(repo, services, ingresses, HostsUsing(ingresses, svc.key), {});
    }

    method HandleDeleteService(key: ObjectKey) returns (updates: seq<string>, ghost order: seq<ObjectKey>)
      requires Valid()
      modifies this, repo
      ensures Valid() && Step(old(View()), DeleteService(key), order, View())
      ensures Announces(updates, old(View()).rows, GoalsOf(old(View()), DeleteService(key), order))
    {
      services := services - {key};
      updates, order := SyncHosts(repo, services, ingresses, HostsUsing(ingresses, key), {});
    }
  }
}
