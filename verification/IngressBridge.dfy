/** The ingress bridge: event handlers that re-materialise only the hosts an event can affect. */
module IngressBridge {
  import opened Options
  import opened IngressModel
  import opened IngressRows
  import opened IngressSync
  import opened IngressRepo

  /** What each host named in a sync is to hold. */
  type Goals = map<string, Option<Item>>

  ghost predicate GoodGoals(goals: Goals) {
    forall h :: h in goals ==> h != "" && ':' !in h && Fitting(h, goals[h])
  }

  /** The hosts in `seen` hold their goals; about every other host nothing changed. */
  ghost predicate Synced(before: Rows, after: Rows, goals: Goals, seen: set<string>) {
    && Inv(after) && seen <= goals.Keys
    && (forall h :: h in seen ==> Holds(after, h, goals[h]))
    && (forall h, item :: h !in seen && Fitting(h, item) ==> (Holds(after, h, item) <==> Holds(before, h, item)))
    && (forall h :: h !in seen ==> (h in after.endpoints <==> h in before.endpoints))
  }

  lemma SyncOne(before: Rows, rows: Rows, goals: Goals, seen: set<string>, h: string)
    requires GoodGoals(goals) && Synced(before, rows, goals, seen) && h in goals && h !in seen
    ensures Synced(before, Replace(rows, h, goals[h]), goals, seen + {h})
  {
    var after := Replace(rows, h, goals[h]);
    ReplaceKeepsInv(rows, h, goals[h]);
    ReplaceHolds(rows, h, goals[h]);
    forall g | g in seen ensures Holds(after, g, goals[g]) {
      OtherHostHolds(rows, h, goals[h], g, goals[g]);
    }
    forall g, item | g !in seen + {h} && Fitting(g, item) ensures Holds(after, g, item) <==> Holds(before, g, item) {
      OtherHostHolds(rows, h, goals[h], g, item);
    }
  }

  /** Whether syncing a host reports it: a deleted host if it was there, a written one unless it already held
      the item and the item's route ids are distinct. */
  ghost predicate Reports(before: Rows, h: string, goal: Option<Item>) {
    match goal
    case None => h in before.endpoints
    case Some(item) => !(Holds(before, h, goal) && DistinctRoutes(item))
  }

  /** Syncing the same goals again leaves every row as it is, and reports only hosts whose item repeats a route id. */
  lemma ResyncChangesNothing(before: Rows, rows: Rows, goals: Goals, h: string)
    requires GoodGoals(goals) && Synced(before, rows, goals, goals.Keys) && h in goals
    ensures Replace(rows, h, goals[h]) == rows
    ensures Reports(rows, h, goals[h]) <==> goals[h].Some? && !DistinctRoutes(goals[h].value)
  {
    match goals[h]
    case None => AbsentHost(rows, h);
    case Some(item) => ReplaceBySame(rows, h, item);
  }

  /** `out` lists each reported host of `seen` with the given kind of goal once. */
  ghost predicate Reported(out: seq<string>, before: Rows, goals: Goals, seen: set<string>, written: bool)
    requires seen <= goals.Keys
  {
    && (forall i, j :: 0 <= i < j < |out| ==> out[i] != out[j])
    && (forall h :: h in out <==> h in seen && goals[h].Some? == written && Reports(before, h, goals[h]))
  }

  lemma ReportOne(out: seq<string>, before: Rows, goals: Goals, seen: set<string>, written: bool, h: string,
                  changed: bool)
    requires seen <= goals.Keys && h in goals && h !in seen && Reported(out, before, goals, seen, written)
    requires changed <==> Reports(before, h, goals[h]) && goals[h].Some? == written
    ensures Reported(if changed then out + [h] else out, before, goals, seen + {h}, written)
  {
    if changed {
      assert h !in out;
      var next := out + [h];
      forall g ensures g in next <==> g in seen + {h} && goals[g].Some? == written && Reports(before, g, goals[g]) {
        assert g in next <==> g in out || g == h;
      }
    }
  }

  /** `next` is the materialisation of the goals that are not deletions. */
  ghost predicate Serves(next: map<string, Materialized>, goals: Goals) {
    && (forall h :: h in next ==> h in goals && goals[h].Some? && Carries(next[h], goals[h].value))
    && (forall h :: h in goals && goals[h].Some? ==> h in next)
  }

  // ---- Events ---------------------------------------------------------------------------------------

  datatype State = State(ingressClass: string, ingresses: Ingresses, services: Services, rows: Rows)

  datatype Event =
    | StoreIngress(ing: Ingress)
    | DeleteIngress(key: ObjectKey)
    | StoreService(svc: Service)
    | DeleteService(key: ObjectKey)

  /** Some order in which the ingress map can be walked. */
  ghost predicate IsOrder(order: seq<ObjectKey>, ingresses: Ingresses) {
    && (forall k :: k in order <==> k in ingresses)
    && (forall i, j :: 0 <= i < j < |order| ==> order[i] != order[j])
  }

  function OldHosts(ingresses: Ingresses, key: ObjectKey): set<string> {
    if key in ingresses then Hosts(ingresses[key]) else {}
  }

  predicate Refers(ing: Ingress, key: ObjectKey) {
    ing.key.namespace == key.namespace && References(ing, key.name)
  }

  /** Every host of an ingress that refers to the service. */
  function HostsUsing(ingresses: Ingresses, key: ObjectKey): set<string> {
    set k, h | k in ingresses && Refers(ingresses[k], key) && h in Hosts(ingresses[k]) :: h
  }

  /** A service concerns a host if an ingress of its namespace names it in some path and declares the host. */
  lemma UsersAre(ingresses: Ingresses, key: ObjectKey, h: string)
    ensures h in HostsUsing(ingresses, key) <==>
            exists k, i, j ::
              && k in ingresses && 0 <= i < |ingresses[k].rules| && 0 <= j < |ingresses[k].rules[i].http|
              && h in Hosts(ingresses[k]) && ingresses[k].key.namespace == key.namespace && key.name != ""
              && ingresses[k].rules[i].http[j].service.Some?
              && ingresses[k].rules[i].http[j].service.value.name == key.name
  {
    if h in HostsUsing(ingresses, key) {
      var k :| k in ingresses && Refers(ingresses[k], key) && h in Hosts(ingresses[k]);
      var i, j :| 0 <= i < |ingresses[k].rules| && 0 <= j < |ingresses[k].rules[i].http|
                  && ingresses[k].rules[i].http[j].service.Some?
                  && ingresses[k].rules[i].http[j].service.value.name == key.name;
    }
  }

  function NextIngresses(b: State, e: Event): Ingresses {
    match e
    case StoreIngress(ing) =>
      if MatchesClass(ing, b.ingressClass) then b.ingresses[ing.key := ing] else b.ingresses - {ing.key}
    case DeleteIngress(key) => b.ingresses - {key}
    case _ => b.ingresses
  }

  function NextServices(b: State, e: Event): Services {
    match e
    case StoreService(svc) => b.services[svc.key := svc]
    case DeleteService(key) => b.services - {key}
    case _ => b.services
  }

  /** The hosts an event is about: those to materialise again, and those to delete outright. */
  function Declared(b: State, e: Event): set<string> {
    match e
    case StoreIngress(ing) => if MatchesClass(ing, b.ingressClass) then Hosts(ing) else {}
    case DeleteIngress(_) => {}
    case StoreService(svc) => HostsUsing(b.ingresses, svc.key)
    case DeleteService(key) => HostsUsing(b.ingresses, key)
  }

  function Withdrawn(b: State, e: Event): set<string> {
    match e
    case StoreIngress(ing) => OldHosts(b.ingresses, ing.key) - Declared(b, e)
    case DeleteIngress(key) => OldHosts(b.ingresses, key)
    case _ => {}
  }

  /** A host that a second normalisation leaves alone, as it does every host the Kubernetes API admits. */
  predicate Stable(h: string) { NormalizeHost(h) == h }

  /** Materialisation and sync normalise the hosts they are handed once more. */
  function Again(hosts: set<string>): set<string> {
    set h | h in hosts && NormalizeHost(h) != "" :: NormalizeHost(h)
  }

  lemma AgainHas(hosts: set<string>, h: string)
    requires h in hosts && Stable(h) && h != ""
    ensures h in Again(hosts)
  {
  }

  lemma AgainFrom(hosts: set<string>, h: string)
    requires h in Again(hosts)
    ensures h != "" && ':' !in h
  {
  }

  function Affected(b: State, e: Event): set<string> { Again(Declared(b, e)) }

  function Removed(b: State, e: Event): set<string> { Again(Withdrawn(b, e)) - Affected(b, e) }

  function GoalsFor(services: Services, ingresses: Ingresses, order: seq<ObjectKey>, affected: set<string>,
                    removed: set<string>): Goals
    requires forall k :: k in order ==> k in ingresses
  {
    map h | h in affected + removed :: if h in affected then Materialize(services, ingresses, order, h) else None
  }

  lemma GoalsAreGood(services: Services, ingresses: Ingresses, order: seq<ObjectKey>, affected: set<string>,
                     removed: set<string>)
    requires IsOrder(order, ingresses) && forall h :: h in affected + removed ==> h != "" && ':' !in h
    ensures GoodGoals(GoalsFor(services, ingresses, order, affected, removed))
  {
    var goals := GoalsFor(services, ingresses, order, affected, removed);
    forall h | h in goals ensures h != "" && ':' !in h && Fitting(h, goals[h]) {
      MaterializeIsFor(services, ingresses, order, h);
    }
  }

  ghost function GoalsOf(b: State, e: Event, order: seq<ObjectKey>): Goals
    requires IsOrder(order, NextIngresses(b, e))
  {
    GoalsFor(NextServices(b, e), NextIngresses(b, e), order, Affected(b, e), Removed(b, e))
  }

  /** The handler's effect, whatever order it walked the ingress map in. */
  ghost predicate Step(b: State, e: Event, order: seq<ObjectKey>, after: State) {
    && after.ingressClass == b.ingressClass
    && after.ingresses == NextIngresses(b, e) && after.services == NextServices(b, e)
    && IsOrder(order, after.ingresses)
    && Synced(b.rows, after.rows, GoalsOf(b, e, order), Affected(b, e) + Removed(b, e))
  }

  /** The hosts the handler passes on as updated: each that the sync reports, once. */
  ghost predicate Announces(updates: seq<string>, before: Rows, goals: Goals) {
    && (forall i, j :: 0 <= i < j < |updates| ==> updates[i] != updates[j])
    && (forall h :: h in updates <==> h in goals && Reports(before, h, goals[h]))
  }

  lemma AnnounceBoth(written: seq<string>, deleted: seq<string>, before: Rows, goals: Goals)
    requires Reported(written, before, goals, goals.Keys, true) && Reported(deleted, before, goals, goals.Keys, false)
    ensures Announces(written + deleted, before, goals)
  {
    var all := written + deleted;
    forall i, j | 0 <= i < j < |all| ensures all[i] != all[j] {
      if i < |written| <= j {
        assert all[i] in written && all[j] in deleted;
      }
    }
    forall h ensures h in all <==> h in goals && Reports(before, h, goals[h]) {
      assert h in all <==> h in written || h in deleted;
    }
  }
}
