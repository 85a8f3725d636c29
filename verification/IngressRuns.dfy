/** Incremental maintenance against full materialisation, over every sequence of events. */
module IngressRuns {
  import opened Options
  import opened IngressModel
  import opened IngressRows
  import opened IngressBridge

  /** The host's rows are those of a full materialisation of the present resources. */
  ghost predicate Agrees(b: State, h: string) {
    exists order :: IsOrder(order, b.ingresses) && Holds(b.rows, h, Materialize(b.services, b.ingresses, order, h))
  }

  ghost predicate AllAgree(b: State) {
    Inv(b.rows) && forall h :: Agrees(b, h)
  }

  ghost predicate Ruled(ingresses: Ingresses, h: string) {
    exists k :: k in ingresses && h in RuleHosts(ingresses[k])
  }

  /** No host the event deletes outright is still ruled by a remaining ingress. */
  ghost predicate NoOrphan(b: State, e: Event) {
    forall h :: h in Removed(b, e) ==> !Ruled(NextIngresses(b, e), h)
  }

  /** The event changes rules for the host, or a service that an ingress with rules for it refers to. */
  ghost predicate Touches(b: State, e: Event, h: string) {
    match e
    case StoreIngress(ing) => Rules(b.ingresses, ing.key, h) || Rules(NextIngresses(b, e), ing.key, h)
    case DeleteIngress(key) => Rules(b.ingresses, key, h)
    case StoreService(svc) => Uses(b.ingresses, svc.key, h)
    case DeleteService(key) => Uses(b.ingresses, key, h)
  }

  predicate Rules(ingresses: Ingresses, key: ObjectKey, h: string) {
    key in ingresses && h in RuleHosts(ingresses[key])
  }

  ghost predicate Uses(ingresses: Ingresses, key: ObjectKey, h: string) {
    exists k :: k in ingresses && h in RuleHosts(ingresses[k]) && Refers(ingresses[k], key)
  }

  /** The rows the host has before the event are what the resources after it make of the host. */
  ghost predicate Suits(b: State, e: Event, h: string) {
    exists order :: IsOrder(order, NextIngresses(b, e)) &&
                    Holds(b.rows, h, Materialize(NextServices(b, e), NextIngresses(b, e), order, h))
  }

  /** A host the event touches is synchronised, unless its rows need no change. */
  ghost predicate NoStray(b: State, e: Event) {
    forall h :: Touches(b, e, h) && h !in Affected(b, e) + Removed(b, e) ==> Suits(b, e, h)
  }

  ghost predicate Keeps(b: State, e: Event) { NoOrphan(b, e) && NoStray(b, e) }

  /** Every rule host is one a second normalisation leaves alone. */
  ghost predicate RulesStable(ingresses: Ingresses) {
    forall k, h :: k in ingresses && h in RuleHosts(ingresses[k]) ==> Stable(h)
  }

  /** Every rule host of a stored ingress is still there when the handler has normalised its hosts once more. */
  ghost predicate RulesReached(b: State, e: Event) {
    e.StoreIngress? && MatchesClass(e.ing, b.ingressClass) ==> forall h :: h in RuleHosts(e.ing) ==> h in Affected(b, e)
  }

  /** Service names are never empty in Kubernetes. */
  predicate Named(e: Event) {
    (e.StoreService? ==> e.svc.key.name != "") && (e.DeleteService? ==> e.key.name != "")
  }

  // ---- What materialisation depends on ----------------------------------------------------------------

  lemma {:induction false} FromPathsSame(s1: Services, s2: Services, ing: Ingress, h: string, paths: seq<PathRule>)
    requires forall i :: 0 <= i < |paths| && paths[i].service.Some? ==>
               var key := ObjectKey(ing.key.namespace, paths[i].service.value.name);
               ExternalAddress(s1, key) == ExternalAddress(s2, key)
    ensures FromPaths(s1, ing, h, paths) == FromPaths(s2, ing, h, paths)
  {
    if paths != [] {
      FromPathsSame(s1, s2, ing, h, paths[..|paths| - 1]);
    }
  }

  lemma {:induction false} AddRulesSame(s1: Services, s2: Services, ing: Ingress, hosts: seq<string>, h: string,
                                        n: nat, key: ObjectKey, item: Option<Item>)
    requires forall k :: k != key ==> ExternalAddress(s1, k) == ExternalAddress(s2, k)
    requires n <= |ing.rules| == |hosts| && !Refers(ing, key) && key.name != ""
    ensures AddRules(s1, ing, hosts, h, n, item) == AddRules(s2, ing, hosts, h, n, item)
  {
    if n > 0 {
      AddRulesSame(s1, s2, ing, hosts, h, n - 1, key, item);
      FromPathsSame(s1, s2, ing, h, ing.rules[n - 1].http);
    }
  }

  /** A change of one service leaves hosts alone that no ingress referring to it has a rule for. */
  lemma {:induction false} ServiceIrrelevant(s1: Services, s2: Services, ingresses: Ingresses, order: seq<ObjectKey>,
                                             h: string, key: ObjectKey)
    requires (forall k :: k in order ==> k in ingresses) && key.name != ""
    requires forall k :: k in ingresses && h in RuleHosts(ingresses[k]) ==> !Refers(ingresses[k], key)
    requires forall k :: k != key ==> ExternalAddress(s1, k) == ExternalAddress(s2, k)
    ensures Materialize(s1, ingresses, order, h) == Materialize(s2, ingresses, order, h)
  {
    if order != [] {
      var n := |order| - 1;
      ServiceIrrelevant(s1, s2, ingresses, order[..n], h, key);
      var ing := ingresses[order[n]];
      var item := Materialize(s1, ingresses, order[..n], h);
      if h in RuleHosts(ing) {
        AddRulesSame(s1, s2, ing, HostList(ing), h, |ing.rules|, key, item);
      } else {
        UnruledIngress(s1, ing, h, item);
        UnruledIngress(s2, ing, h, item);
      }
    }
  }

  /** An ingress that has no rule for the host may be replaced by another such ingress. */
  lemma {:induction false} IngressIrrelevant(services: Services, a: Ingresses, b: Ingresses, order: seq<ObjectKey>,
                                             h: string)
    requires forall k :: k in order ==> k in a && k in b
    requires forall k :: k in order ==> a[k] == b[k] || (h !in RuleHosts(a[k]) && h !in RuleHosts(b[k]))
    ensures Materialize(services, a, order, h) == Materialize(services, b, order, h)
  {
    if order != [] {
      var n := |order| - 1;
      IngressIrrelevant(services, a, b, order[..n], h);
      if a[order[n]] != b[order[n]] {
        UnruledIngress(services, a[order[n]], h, Materialize(services, a, order[..n], h));
        UnruledIngress(services, b[order[n]], h, Materialize(services, a, order[..n], h));
      }
    }
  }

  function Without(order: seq<ObjectKey>, key: ObjectKey): (r: seq<ObjectKey>)
    ensures forall k :: k in r <==> k in order && k != key
  {
    if order == [] then []
    else
      var n := |order| - 1;
      Without(order[..n], key) + if order[n] == key then [] else [order[n]]
  }

  lemma {:induction false} WithoutDistinct(order: seq<ObjectKey>, key: ObjectKey)
    requires forall i, j :: 0 <= i < j < |order| ==> order[i] != order[j]
    ensures forall i, j :: 0 <= i < j < |Without(order, key)| ==> Without(order, key)[i] != Without(order, key)[j]
  {
    if order != [] {
      var n := |order| - 1;
      WithoutDistinct(order[..n], key);
      assert order[n] !in order[..n];
    }
  }

  lemma {:induction false} WithoutIrrelevant(services: Services, a: Ingresses, order: seq<ObjectKey>, h: string,
                                             key: ObjectKey)
    requires (forall k :: k in order ==> k in a) && (key in a ==> h !in RuleHosts(a[key]))
    ensures Materialize(services, a, Without(order, key), h) == Materialize(services, a, order, h)
  {
    if order != [] {
      var n := |order| - 1;
      WithoutIrrelevant(services, a, order[..n], h, key);
      var w := Without(order, key);
      if order[n] == key {
        assert w == Without(order[..n], key);
        UnruledIngress(services, a[key], h, Materialize(services, a, order[..n], h));
      } else {
        assert w[..|w| - 1] == Without(order[..n], key) && w[|w| - 1] == order[n];
      }
    }
  }

  // ---- One event --------------------------------------------------------------------------------------

  lemma OtherHostAfterIngress(b: State, e: Event, h: string, order: seq<ObjectKey>) returns (next: seq<ObjectKey>)
    requires e.StoreIngress? || e.DeleteIngress?
    requires IsOrder(order, b.ingresses) && !Touches(b, e, h)
    ensures IsOrder(next, NextIngresses(b, e))
    ensures Materialize(b.services, NextIngresses(b, e), next, h) == Materialize(b.services, b.ingresses, order, h)
  {
    var key := if e.StoreIngress? then e.ing.key else e.key;
    assert NextIngresses(b, e) - {key} == b.ingresses - {key};
    next := Reordered(b.services, b.ingresses, NextIngresses(b, e), key, h, order);
  }

  lemma OldReached(b: State, e: Event, h: string, key: ObjectKey)
    requires (e.StoreIngress? && key == e.ing.key) || (e.DeleteIngress? && key == e.key)
    requires key in b.ingresses && h in RuleHosts(b.ingresses[key]) && Stable(h)
    ensures h in Affected(b, e) + Removed(b, e)
  {
    if h in Declared(b, e) {
      AgainHas(Declared(b, e), h);
    } else {
      AgainHas(Withdrawn(b, e), h);
    }
  }

  /** Taking out or replacing one ingress that has no rule for the host leaves the host's materialisation. */
  lemma Reordered(services: Services, a: Ingresses, after: Ingresses, key: ObjectKey, h: string, order: seq<ObjectKey>)
    returns (next: seq<ObjectKey>)
    requires IsOrder(order, a) && after - {key} == a - {key}
    requires key in a ==> h !in RuleHosts(a[key])
    requires key in after ==> h !in RuleHosts(after[key])
    ensures IsOrder(next, after)
    ensures Materialize(services, after, next, h) == Materialize(services, a, order, h)
  {
    var rest := Without(order, key);
    WithoutDistinct(order, key);
    WithoutIrrelevant(services, a, order, h, key);
    forall k | k in rest ensures k in after && a[k] == after[k] {
      assert k in a - {key} && (a - {key})[k] == a[k];
    }
    IngressIrrelevant(services, a, after, rest, h);
    next := if key in after then rest + [key] else rest;
    forall k ensures k in next <==> k in after {
      assert k in after - {key} <==> k in a - {key};
    }
    if key in after {
      UnruledLast(services, after, rest, key, h);
    }
  }

  lemma UnruledLast(services: Services, ingresses: Ingresses, init: seq<ObjectKey>, k: ObjectKey, h: string)
    requires (forall x :: x in init ==> x in ingresses) && k in ingresses && h !in RuleHosts(ingresses[k])
    ensures Materialize(services, ingresses, init + [k], h) == Materialize(services, ingresses, init, h)
  {
    MaterializeSnoc(services, ingresses, init, k, h);
    UnruledIngress(services, ingresses[k], h, Materialize(services, ingresses, init, h));
  }

  lemma MaterializeSnoc(services: Services, ingresses: Ingresses, init: seq<ObjectKey>, k: ObjectKey, h: string)
    requires (forall x :: x in init ==> x in ingresses) && k in ingresses
    ensures Materialize(services, ingresses, init + [k], h)
             == AddIngress(services, ingresses[k], h, Materialize(services, ingresses, init, h))
  {
    var order := init + [k];
    assert order[..|order| - 1] == init;
  }

  /** What the event does not touch needs no change. */
  lemma UntouchedHost(b: State, e: Event, h: string)
    requires Named(e) && Agrees(b, h) && !Touches(b, e, h)
    ensures Suits(b, e, h)
  {
    var o :| IsOrder(o, b.ingresses) && Holds(b.rows, h, Materialize(b.services, b.ingresses, o, h));
    if e.StoreIngress? || e.DeleteIngress? {
      var next := OtherHostAfterIngress(b, e, h, o);
      assert Holds(b.rows, h, Materialize(NextServices(b, e), NextIngresses(b, e), next, h));
    } else {
      var key := if e.StoreService? then e.svc.key else e.key;
      ServiceIrrelevant(b.services, NextServices(b, e), b.ingresses, o, h, key);
      assert Holds(b.rows, h, Materialize(NextServices(b, e), NextIngresses(b, e), o, h));
    }
  }

  /** A host the event does not synchronise agrees afterwards exactly if its rows needed no change. */
  lemma UnreachedHost(b: State, e: Event, order: seq<ObjectKey>, after: State, h: string)
    requires Step(b, e, order, after) && h !in Affected(b, e) + Removed(b, e)
    ensures Agrees(after, h) <==> Suits(b, e, h)
  {
    forall o | IsOrder(o, after.ingresses)
      ensures var item := Materialize(after.services, after.ingresses, o, h);
              Holds(after.rows, h, item) <==> Holds(b.rows, h, item)
    {
      MaterializeIsFor(after.services, after.ingresses, o, h);
      assert Fitting(h, Materialize(after.services, after.ingresses, o, h));
    }
  }

  lemma ReferringReached(ingresses: Ingresses, h: string, key: ObjectKey, k: ObjectKey)
    requires k in ingresses && h in RuleHosts(ingresses[k]) && Refers(ingresses[k], key) && Stable(h)
    ensures h in Again(HostsUsing(ingresses, key))
  {
    assert h in Hosts(ingresses[k]);
    AgainHas(HostsUsing(ingresses, key), h);
  }

  lemma AffectedHost(b: State, e: Event, order: seq<ObjectKey>, after: State, h: string)
    requires Step(b, e, order, after) && h in Affected(b, e)
    ensures Agrees(after, h)
  {
    assert Holds(after.rows, h, GoalsOf(b, e, order)[h]);
  }

  /** A host deleted outright agrees with full materialisation exactly if nothing rules it any more. */
  lemma RemovedHost(b: State, e: Event, order: seq<ObjectKey>, after: State, h: string)
    requires Step(b, e, order, after) && h in Removed(b, e)
    ensures Agrees(after, h) <==> !Ruled(after.ingresses, h)
  {
    assert h !in Affected(b, e);
    assert Holds(after.rows, h, GoalsOf(b, e, order)[h]);
    if Ruled(after.ingresses, h) {
      forall o | IsOrder(o, after.ingresses)
        ensures !Holds(after.rows, h, Materialize(after.services, after.ingresses, o, h))
      {
        MaterializeIsFor(after.services, after.ingresses, o, h);
      }
    } else {
      MaterializeIsFor(after.services, after.ingresses, order, h);
      assert Holds(after.rows, h, Materialize(after.services, after.ingresses, order, h));
    }
  }

  /** A rule host the handler does not reach and nothing ruled before has no rows, and needs some. */
  lemma MissedHost(b: State, e: Event, order: seq<ObjectKey>, after: State, h: string)
    requires Step(b, e, order, after) && Agrees(b, h) && !Ruled(b.ingresses, h) && e.StoreIngress?
    requires MatchesClass(e.ing, b.ingressClass) && h in RuleHosts(e.ing) && h !in Affected(b, e) + Removed(b, e)
    ensures !Agrees(after, h)
  {
    var o :| IsOrder(o, b.ingresses) && Holds(b.rows, h, Materialize(b.services, b.ingresses, o, h));
    MaterializeIsFor(b.services, b.ingresses, o, h);
    assert Holds(after.rows, h, None);
    assert after.ingresses[e.ing.key] == e.ing;
    forall n | IsOrder(n, after.ingresses)
      ensures !Holds(after.rows, h, Materialize(after.services, after.ingresses, n, h))
    {
      MaterializeIsFor(after.services, after.ingresses, n, h);
    }
  }

  /** From a state that agrees everywhere, an event leads to one that agrees everywhere if and only if it orphans no
      ruled host and synchronises every host it touches whose rows need a change. */
  lemma EventKeepsAgreement(b: State, e: Event, order: seq<ObjectKey>, after: State)
    requires AllAgree(b) && Step(b, e, order, after) && Named(e)
    ensures AllAgree(after) <==> Keeps(b, e)
  {
    forall h
      ensures Agrees(after, h) <==>
              && (h in Removed(b, e) ==> !Ruled(after.ingresses, h))
              && (Touches(b, e, h) && h !in Affected(b, e) + Removed(b, e) ==> Suits(b, e, h))
    {
      HostKept(b, e, order, after, h);
    }
  }

  lemma HostKept(b: State, e: Event, order: seq<ObjectKey>, after: State, h: string)
    requires Agrees(b, h) && Step(b, e, order, after) && Named(e)
    ensures Agrees(after, h) <==>
            && (h in Removed(b, e) ==> !Ruled(after.ingresses, h))
            && (Touches(b, e, h) && h !in Affected(b, e) + Removed(b, e) ==> Suits(b, e, h))
  {
    if h in Affected(b, e) {
      AffectedHost(b, e, order, after, h);
    } else if h in Removed(b, e) {
      RemovedHost(b, e, order, after, h);
    } else {
      UnreachedHost(b, e, order, after, h);
      if !Touches(b, e, h) {
        UntouchedHost(b, e, h);
      }
    }
  }

  // ---- Rule hosts that a second normalisation leaves alone ------------------------------------------

  /** They are synchronised whenever they are touched. */
  lemma StableReached(b: State, e: Event, h: string)
    requires RulesStable(b.ingresses) && RulesReached(b, e) && Touches(b, e, h)
    ensures h in Affected(b, e) + Removed(b, e)
  {
    match e
    case StoreIngress(ing) => if Rules(b.ingresses, ing.key, h) { OldReached(b, e, h, ing.key); }
    case DeleteIngress(key) => OldReached(b, e, h, key);
    case StoreService(svc) => UserReached(b, h, svc.key);
    case DeleteService(key) => UserReached(b, h, key);
  }

  lemma UserReached(b: State, h: string, key: ObjectKey)
    requires RulesStable(b.ingresses) && Uses(b.ingresses, key, h)
    ensures h in Again(HostsUsing(b.ingresses, key))
  {
    var k :| k in b.ingresses && h in RuleHosts(b.ingresses[k]) && Refers(b.ingresses[k], key);
    ReferringReached(b.ingresses, h, key, k);
  }

  /** If the stored rule hosts are such, agreement is kept if and only if the event orphans no ruled host and reaches
      every rule host it stores. */
  lemma StableKeepsAgreement(b: State, e: Event, order: seq<ObjectKey>, after: State)
    requires AllAgree(b) && RulesStable(b.ingresses) && Step(b, e, order, after) && Named(e)
    ensures AllAgree(after) <==> NoOrphan(b, e) && RulesReached(b, e)
  {
    EventKeepsAgreement(b, e, order, after);
    if RulesReached(b, e) {
      StableNeverStrays(b, e);
    } else {
      var h :| h in RuleHosts(e.ing) && h !in Affected(b, e);
      UnstableMissed(b, e, order, after, h);
    }
  }

  lemma StableNeverStrays(b: State, e: Event)
    requires RulesStable(b.ingresses) && RulesReached(b, e)
    ensures NoStray(b, e)
  {
    forall h | Touches(b, e, h) ensures h in Affected(b, e) + Removed(b, e) {
      StableReached(b, e, h);
    }
  }

  lemma UnstableMissed(b: State, e: Event, order: seq<ObjectKey>, after: State, h: string)
    requires Step(b, e, order, after) && Agrees(b, h) && RulesStable(b.ingresses) && e.StoreIngress?
    requires MatchesClass(e.ing, b.ingressClass) && h in RuleHosts(e.ing) && h !in Affected(b, e)
    ensures !Agrees(after, h)
  {
    assert after.ingresses[e.ing.key] == e.ing && Ruled(after.ingresses, h);
    if h in Removed(b, e) {
      RemovedHost(b, e, order, after, h);
    } else {
      NotRuledBefore(b, e, h);
      MissedHost(b, e, order, after, h);
    }
  }

  lemma NotRuledBefore(b: State, e: Event, h: string)
    requires RulesStable(b.ingresses) && e.StoreIngress? && MatchesClass(e.ing, b.ingressClass)
    requires h in RuleHosts(e.ing) && h !in Affected(b, e)
    ensures !Ruled(b.ingresses, h)
  {
    if Stable(h) {
      AgainHas(Hosts(e.ing), h);
    }
  }

  lemma StableStores(b: State, e: Event)
    requires RulesStable(NextIngresses(b, e))
    ensures RulesReached(b, e)
  {
    if e.StoreIngress? && MatchesClass(e.ing, b.ingressClass) {
      assert NextIngresses(b, e)[e.ing.key] == e.ing;
      forall h | h in RuleHosts(e.ing) ensures h in Affected(b, e) {
        assert Stable(h);
        AgainHas(Hosts(e.ing), h);
      }
    }
  }

  // ---- Whole runs -------------------------------------------------------------------------------------

  /** The states a bridge goes through from empty, with the order each handler happened to use. */
  ghost predicate IsRun(states: seq<State>, events: seq<Event>, orders: seq<seq<ObjectKey>>) {
    && |states| == |events| + 1 == |orders| + 1
    && states[0].ingresses == map[] && states[0].services == map[] && states[0].rows == NoRows
    && forall i :: 0 <= i < |events| ==> Named(events[i]) && Step(states[i], events[i], orders[i], states[i + 1])
  }

  lemma EmptyAgrees(b: State)
    requires b.ingresses == map[] && b.rows == NoRows
    ensures AllAgree(b)
  {
    forall h ensures Agrees(b, h) {
      assert IsOrder([], b.ingresses);
      assert Holds(b.rows, h, Materialize(b.services, b.ingresses, [], h));
    }
  }

  /** In every run: every host's rows equal a full materialisation throughout, if and only if every event orphans no
      ruled host and synchronises every host it touches whose rows need a change. */
  lemma {:induction false} IncrementalEqualsFull(states: seq<State>, events: seq<Event>, orders: seq<seq<ObjectKey>>,
                                                 n: nat)
    requires IsRun(states, events, orders) && n < |states|
    ensures (forall i :: 0 <= i <= n ==> AllAgree(states[i])) <==>
            (forall i :: 0 <= i < n ==> Keeps(states[i], events[i]))
  {
    if n == 0 {
      EmptyAgrees(states[0]);
    } else {
      var m := n - 1;
      IncrementalEqualsFull(states, events, orders, m);
      if AllAgree(states[m]) {
        EventKeepsAgreement(states[m], events[m], orders[m], states[m + 1]);
      }
    }
  }

  /** Over rule hosts that a second normalisation leaves alone, that no event orphans a ruled host is enough. */
  lemma StableRunsEqualFull(states: seq<State>, events: seq<Event>, orders: seq<seq<ObjectKey>>)
    requires IsRun(states, events, orders)
    requires forall i :: 0 <= i < |states| ==> RulesStable(states[i].ingresses)
    requires forall i :: 0 <= i < |events| ==> NoOrphan(states[i], events[i])
    ensures forall i :: 0 <= i < |states| ==> AllAgree(states[i])
  {
    forall i | 0 <= i < |events| ensures Keeps(states[i], events[i]) {
      assert RulesStable(states[i + 1].ingresses) && Step(states[i], events[i], orders[i], states[i + 1]);
      StableStores(states[i], events[i]);
      StableNeverStrays(states[i], events[i]);
    }
    IncrementalEqualsFull(states, events, orders, |events|);
  }

  lemma NextAgrees(b: State, e: Event, order: seq<ObjectKey>, after: State)
    requires AllAgree(b) && Step(b, e, order, after) && Named(e) && NoOrphan(b, e)
    requires RulesStable(b.ingresses) && RulesStable(after.ingresses)
    ensures AllAgree(after)
  {
    StableStores(b, e);
    StableKeepsAgreement(b, e, order, after);
  }

  /** No host is declared by two ingresses, and each is one a second normalisation leaves alone. */
  ghost predicate Disjoint(ingresses: Ingresses) {
    && (forall j, k :: j in ingresses && k in ingresses && j != k ==> Hosts(ingresses[j]) !! Hosts(ingresses[k]))
    && (forall k, h :: k in ingresses && h in Hosts(ingresses[k]) ==> Stable(h))
  }

  lemma DisjointHasNoOrphan(b: State, e: Event)
    requires Disjoint(b.ingresses)
    ensures NoOrphan(b, e)
  {
    var after := NextIngresses(b, e);
    forall h | h in Removed(b, e) ensures !Ruled(after, h) {
      var key := if e.StoreIngress? then e.ing.key else e.key;
      RemovedWasOld(b, e, h, key);
      forall k | k in after ensures h !in RuleHosts(after[k]) {
        if k != key {
          assert k in b.ingresses && after[k] == b.ingresses[k];
        } else if h in RuleHosts(after[k]) {
          AgainHas(Declared(b, e), h);
          assert false;
        }
      }
    }
  }

  lemma RemovedWasOld(b: State, e: Event, h: string, key: ObjectKey)
    requires Disjoint(b.ingresses) && h in Removed(b, e)
    requires (e.StoreIngress? && key == e.ing.key) || (e.DeleteIngress? && key == e.key)
    ensures key in b.ingresses && h in Hosts(b.ingresses[key]) && Stable(h) && h != ""
  {
    var g :| g in Withdrawn(b, e) && NormalizeHost(g) == h;
    assert g in Hosts(b.ingresses[key]);
    assert Stable(g);
  }

  /** If one ingress alone has rules for the host, the order of the walk does not matter. */
  lemma {:induction false} SoleIngress(services: Services, ingresses: Ingresses, order: seq<ObjectKey>, h: string,
                                       k: ObjectKey)
    requires (forall x :: x in order ==> x in ingresses) && k in ingresses
    requires forall x :: x in order && x != k ==> h !in RuleHosts(ingresses[x])
    requires forall i, j :: 0 <= i < j < |order| ==> order[i] != order[j]
    ensures Materialize(services, ingresses, order, h)
             == if k in order then Materialize(services, ingresses, [k], h) else None
  {
    if order != [] {
      var n := |order| - 1;
      var init, last := order[..n], order[n];
      assert order == init + [last] && last !in init;
      SoleIngress(services, ingresses, init, h, k);
      if last == k {
        SnocToNone(services, ingresses, init, k, h);
      } else {
        UnruledLast(services, ingresses, init, last, h);
      }
    }
  }

  lemma SnocToNone(services: Services, ingresses: Ingresses, init: seq<ObjectKey>, k: ObjectKey, h: string)
    requires (forall x :: x in init ==> x in ingresses) && k in ingresses
    requires Materialize(services, ingresses, init, h) == None
    ensures Materialize(services, ingresses, init + [k], h) == Materialize(services, ingresses, [k], h)
  {
    MaterializeSnoc(services, ingresses, init, k, h);
    MaterializeSnoc(services, ingresses, [], k, h);
    assert [] + [k] == [k];
  }

  /** No host is ruled by two ingresses. */
  ghost predicate SoleRules(ingresses: Ingresses) {
    forall j, k :: j in ingresses && k in ingresses && j != k ==> RuleHosts(ingresses[j]) !! RuleHosts(ingresses[k])
  }

  /** For every host and every order of a full materialisation, the rows are exactly that materialisation's. */
  ghost predicate Full(b: State) {
    && Inv(b.rows)
    && forall h, order :: IsOrder(order, b.ingresses) ==>
         Holds(b.rows, h, Materialize(b.services, b.ingresses, order, h))
  }

  lemma FullIffAgree(b: State)
    requires SoleRules(b.ingresses)
    ensures Full(b) <==> AllAgree(b)
  {
    if Full(b) {
      var o := OrderExists(b.ingresses.Keys);
      assert IsOrder(o, b.ingresses);
    }
    if AllAgree(b) {
      forall h, order | IsOrder(order, b.ingresses)
        ensures Holds(b.rows, h, Materialize(b.services, b.ingresses, order, h))
      {
        assert Agrees(b, h);
        var o :| IsOrder(o, b.ingresses) && Holds(b.rows, h, Materialize(b.services, b.ingresses, o, h));
        SameMaterialization(b, o, order, h);
      }
    }
  }

  lemma {:induction false} OrderExists(keys: set<ObjectKey>) returns (order: seq<ObjectKey>)
    ensures (forall k :: k in order <==> k in keys) && forall i, j :: 0 <= i < j < |order| ==> order[i] != order[j]
  {
    if keys == {} {
      order := [];
    } else {
      var k :| k in keys;
      var rest := OrderExists(keys - {k});
      order := rest + [k];
    }
  }

  /** In every run in which no host is ruled by two ingresses at a time: the rows are those of a full materialisation in
      every order of the ingress map throughout, if and only if every event keeps agreement. */
  lemma SoleRunsEqualFull(states: seq<State>, events: seq<Event>, orders: seq<seq<ObjectKey>>)
    requires IsRun(states, events, orders) && forall i :: 0 <= i < |states| ==> SoleRules(states[i].ingresses)
    ensures (forall i :: 0 <= i < |states| ==> Full(states[i])) <==>
            (forall i :: 0 <= i < |events| ==> Keeps(states[i], events[i]))
  {
    IncrementalEqualsFull(states, events, orders, |events|);
    forall i | 0 <= i < |states| ensures Full(states[i]) <==> AllAgree(states[i]) {
      FullIffAgree(states[i]);
    }
  }

  /** Every event sequence over host-disjoint ingresses: for every host and every order of a full
      materialisation of the present resources, the maintained rows are exactly that materialisation's. */
  lemma DisjointRunsEqualFull(states: seq<State>, events: seq<Event>, orders: seq<seq<ObjectKey>>)
    requires IsRun(states, events, orders) && forall i :: 0 <= i < |states| ==> Disjoint(states[i].ingresses)
    ensures forall i :: 0 <= i < |states| ==> Full(states[i])
  {
    forall i | 0 <= i < |events| ensures NoOrphan(states[i], events[i]) {
      DisjointHasNoOrphan(states[i], events[i]);
    }
    forall i | 0 <= i < |states| ensures RulesStable(states[i].ingresses) && SoleRules(states[i].ingresses) {
      DisjointIsStable(states[i].ingresses);
    }
    StableRunsEqualFull(states, events, orders);
    forall i | 0 <= i < |states| ensures Full(states[i]) {
      FullIffAgree(states[i]);
    }
  }

  lemma DisjointIsStable(ingresses: Ingresses)
    requires Disjoint(ingresses)
    ensures RulesStable(ingresses) && SoleRules(ingresses)
  {
    forall j, k | j in ingresses && k in ingresses && j != k
      ensures RuleHosts(ingresses[j]) !! RuleHosts(ingresses[k])
    {
      assert Hosts(ingresses[j]) !! Hosts(ingresses[k]);
    }
    forall k, h | k in ingresses && h in RuleHosts(ingresses[k]) ensures Stable(h) {
      assert h in Hosts(ingresses[k]);
    }
  }

  lemma SameMaterialization(b: State, a: seq<ObjectKey>, c: seq<ObjectKey>, h: string)
    requires SoleRules(b.ingresses) && IsOrder(a, b.ingresses) && IsOrder(c, b.ingresses)
    ensures Materialize(b.services, b.ingresses, a, h) == Materialize(b.services, b.ingresses, c, h)
  {
    MaterializeIsFor(b.services, b.ingresses, a, h);
    MaterializeIsFor(b.services, b.ingresses, c, h);
    if k :| k in b.ingresses && h in RuleHosts(b.ingresses[k]) {
      forall x | x in b.ingresses && x != k ensures h !in RuleHosts(b.ingresses[x]) {
        assert RuleHosts(b.ingresses[x]) !! RuleHosts(b.ingresses[k]);
      }
      SoleIngress(b.services, b.ingresses, a, h, k);
      SoleIngress(b.services, b.ingresses, c, h, k);
    }
  }
}
