/** Events after which the maintained rows differ from a full materialisation, and items the comparison cannot match. */
module IngressLimits {
  import opened Options
  import opened Text
  import opened IngressModel
  import opened IngressRows
  import opened IngressSync
  import opened IngressBridge
  import opened IngressRuns

  // ---- Every event sequence has a run ---------------------------------------------------------------

  lemma {:induction false} SyncExists(before: Rows, goals: Goals, seen: set<string>) returns (rows: Rows)
    requires Inv(before) && GoodGoals(goals) && seen <= goals.Keys
    ensures Synced(before, rows, goals, seen)
  {
    if seen == {} {
      SyncNothing(before, goals);
      rows := before;
    } else {
      var h :| h in seen;
      var rest := seen - {h};
      assert rest + {h} == seen;
      var done := SyncExists(before, goals, rest);
      rows := SyncMore(before, done, goals, rest, h);
    }
  }

  lemma SyncNothing(before: Rows, goals: Goals)
    requires Inv(before)
    ensures Synced(before, before, goals, {})
  {
  }

  lemma SyncMore(before: Rows, done: Rows, goals: Goals, seen: set<string>, h: string) returns (rows: Rows)
    requires GoodGoals(goals) && Synced(before, done, goals, seen) && h in goals && h !in seen
    ensures Synced(before, rows, goals, seen + {h})
  {
    rows := Replace(done, h, goals[h]);
    SyncOne(before, done, goals, seen, h);
  }

  lemma StepExists(b: State, e: Event) returns (order: seq<ObjectKey>, after: State)
    requires Inv(b.rows)
    ensures Step(b, e, order, after) && Inv(after.rows)
  {
    order := OrderExists(NextIngresses(b, e).Keys);
    forall h | h in Affected(b, e) + Removed(b, e) ensures h != "" && ':' !in h {
      AgainFrom(if h in Affected(b, e) then Declared(b, e) else Withdrawn(b, e), h);
    }
    GoalsAreGood(NextServices(b, e), NextIngresses(b, e), order, Affected(b, e), Removed(b, e));
    var rows := SyncExists(b.rows, GoalsOf(b, e, order), Affected(b, e) + Removed(b, e));
    after := State(b.ingressClass, NextIngresses(b, e), NextServices(b, e), rows);
  }

  lemma {:induction false} RunExists(class': string, events: seq<Event>)
    returns (states: seq<State>, orders: seq<seq<ObjectKey>>)
    requires forall i :: 0 <= i < |events| ==> Named(events[i])
    ensures IsRun(states, events, orders) && states[0].ingressClass == class' && Inv(states[|events|].rows)
  {
    if events == [] {
      states, orders := [State(class', map[], map[], NoRows)], [];
    } else {
      var init, last := events[..|events| - 1], events[|events| - 1];
      assert events == init + [last];
      var before, done := RunExists(class', init);
      var order, after := StepExists(before[|init|], last);
      RunSnoc(before, init, done, last, order, after);
      states, orders := before + [after], done + [order];
    }
  }

  lemma RunSnoc(states: seq<State>, events: seq<Event>, orders: seq<seq<ObjectKey>>, e: Event, order: seq<ObjectKey>,
                after: State)
    requires IsRun(states, events, orders) && Named(e) && Step(states[|events|], e, order, after)
    ensures IsRun(states + [after], events + [e], orders + [order])
  {
    var ss, es, os := states + [after], events + [e], orders + [order];
    forall i | 0 <= i < |es| ensures Named(es[i]) && Step(ss[i], es[i], os[i], ss[i + 1]) {
      if i < |events| {
        assert Step(states[i], events[i], orders[i], states[i + 1]);
      }
    }
  }

  // ---- A shared host is orphaned --------------------------------------------------------------------

  /** Storing two ingresses that rule one host and deleting the first. */
  function StoreBothDeleteFirst(a: Ingress,
                                c: Ingress): seq<Event> { [StoreIngress(a), StoreIngress(c), DeleteIngress(a.key)] }

  /** Whenever two ingresses rule a host, deleting one of them orphans it. */
  lemma DeletionOrphans(b: State, j: ObjectKey, k: ObjectKey, h: string)
    requires j in b.ingresses && k in b.ingresses && j != k
    requires h in RuleHosts(b.ingresses[j]) && h in RuleHosts(b.ingresses[k]) && Stable(h)
    ensures !NoOrphan(b, DeleteIngress(j))
  {
    DeletedIsRemoved(b, j, h);
    StillRuled(b, DeleteIngress(j), k, h);
  }

  lemma DeletedIsRemoved(b: State, j: ObjectKey, h: string)
    requires j in b.ingresses && h in RuleHosts(b.ingresses[j]) && Stable(h)
    ensures h in Removed(b, DeleteIngress(j))
  {
    OldReached(b, DeleteIngress(j), h, j);
    NothingDeclared(b, j);
  }

  lemma NothingDeclared(b: State, j: ObjectKey)
    ensures Affected(b, DeleteIngress(j)) == {}
  {
    assert Declared(b, DeleteIngress(j)) == {};
  }

  lemma StillRuled(b: State, e: Event, k: ObjectKey, h: string)
    requires k in NextIngresses(b, e) && h in RuleHosts(NextIngresses(b, e)[k])
    ensures Ruled(NextIngresses(b, e), h)
  {
  }

  lemma FirstStoreOrphansNothing(b: State, ing: Ingress)
    requires ing.key !in b.ingresses
    ensures NoOrphan(b, StoreIngress(ing))
  {
    assert OldHosts(b.ingresses, ing.key) == {};
    assert Withdrawn(b, StoreIngress(ing)) == {};
    assert Removed(b, StoreIngress(ing)) == {};
  }

  ghost predicate StableRules(ing: Ingress) { forall h :: h in RuleHosts(ing) ==> Stable(h) }

  /** Any two ingresses of the class that rule a common host: there is such a run, and it does not end in agreement. */
  lemma SharedHostLosesRows(class': string, a: Ingress, c: Ingress, h: string)
    returns (states: seq<State>, orders: seq<seq<ObjectKey>>)
    requires a.key != c.key && MatchesClass(a, class') && MatchesClass(c, class') && StableRules(a) && StableRules(c)
    requires h in RuleHosts(a) && h in RuleHosts(c)
    ensures IsRun(states, StoreBothDeleteFirst(a, c), orders) && AllAgree(states[2]) && !AllAgree(states[3])
  {
    states, orders := SharedRunExists(class', a, c);
    SharedRun(class', states, orders, a, c, h);
  }

  lemma SharedRunExists(class': string, a: Ingress, c: Ingress)
    returns (states: seq<State>, orders: seq<seq<ObjectKey>>)
    ensures IsRun(states, StoreBothDeleteFirst(a, c), orders) && states[0].ingressClass == class'
  {
    var events := StoreBothDeleteFirst(a, c);
    assert forall i :: 0 <= i < |events| ==> Named(events[i]);
    states, orders := RunExists(class', events);
  }

  lemma RunStep(states: seq<State>, events: seq<Event>, orders: seq<seq<ObjectKey>>, i: nat)
    requires IsRun(states, events, orders) && i < |events|
    ensures |states| == |events| + 1 == |orders| + 1 && Step(states[i], events[i], orders[i], states[i + 1])
    ensures states[0].ingresses == map[] && states[0].rows == NoRows
  {
  }

  lemma SharedRun(class': string, states: seq<State>, orders: seq<seq<ObjectKey>>, a: Ingress, c: Ingress, h: string)
    requires IsRun(states, StoreBothDeleteFirst(a, c), orders) && states[0].ingressClass == class'
    requires a.key != c.key && MatchesClass(a, class') && MatchesClass(c, class') && StableRules(a) && StableRules(c)
    requires h in RuleHosts(a) && h in RuleHosts(c)
    ensures AllAgree(states[2]) && !AllAgree(states[3])
  {
    var e, s, o := StoreBothDeleteFirst(a, c), states, orders;
    RunStep(s, e, o, 0);
    RunStep(s, e, o, 1);
    RunStep(s, e, o, 2);
    SharedSteps(s[0], s[1], s[2], s[3], o[0], o[1], o[2], a, c, h);
  }

  lemma SharedSteps(s0: State, s1: State, s2: State, s3: State, o0: seq<ObjectKey>, o1: seq<ObjectKey>,
                    o2: seq<ObjectKey>, a: Ingress, c: Ingress, h: string)
    requires s0.ingresses == map[] && s0.rows == NoRows && Step(s0, StoreIngress(a), o0, s1)
    requires Step(s1, StoreIngress(c), o1, s2) && Step(s2, DeleteIngress(a.key), o2, s3)
    requires a.key != c.key && MatchesClass(a, s0.ingressClass) && MatchesClass(c, s0.ingressClass)
    requires StableRules(a) && StableRules(c) && h in RuleHosts(a) && h in RuleHosts(c)
    ensures AllAgree(s2) && !AllAgree(s3)
  {
    EmptyAgrees(s0);
    AgreeAfterStore(s0, a, o0, s1);
    AgreeAfterStore(s1, c, o1, s2);
    DisagreeAfterDelete(s2, a.key, c.key, h, o2, s3);
  }

  lemma AgreeAfterStore(b: State, ing: Ingress, order: seq<ObjectKey>, after: State)
    requires AllAgree(b) && RulesStable(b.ingresses) && ing.key !in b.ingresses && StableRules(ing)
    requires MatchesClass(ing, b.ingressClass) && Step(b, StoreIngress(ing), order, after)
    ensures AllAgree(after) && after.ingresses == b.ingresses[ing.key := ing] && after.ingressClass == b.ingressClass
    ensures RulesStable(after.ingresses)
  {
    StoredIsStable(b.ingresses, ing);
    FirstStoreOrphansNothing(b, ing);
    NextAgrees(b, StoreIngress(ing), order, after);
  }

  lemma StoredIsStable(ingresses: Ingresses, ing: Ingress)
    requires RulesStable(ingresses) && StableRules(ing)
    ensures RulesStable(ingresses[ing.key := ing])
  {
    var after := ingresses[ing.key := ing];
    forall k, h | k in after && h in RuleHosts(after[k]) ensures Stable(h) {
      if k != ing.key {
        assert after[k] == ingresses[k];
      }
    }
  }

  lemma DisagreeAfterDelete(b: State, j: ObjectKey, k: ObjectKey, h: string, order: seq<ObjectKey>, after: State)
    requires AllAgree(b) && Step(b, DeleteIngress(j), order, after) && Stable(h)
    requires j in b.ingresses && k in b.ingresses && j != k && h in RuleHosts(b.ingresses[j])
    requires h in RuleHosts(b.ingresses[k])
    ensures !AllAgree(after)
  {
    DeletionOrphans(b, j, k, h);
    EventKeepsAgreement(b, DeleteIngress(j), order, after);
  }

  // ---- A repeated route id ----------------------------------------------------------------------------

  /** One ingress with two rules for one host, each with one path. */
  function TwoRules(key: ObjectKey, host: string, p: PathRule, q: PathRule): Ingress {
    Ingress(key, None, None, [Rule(host, [p]), Rule(host, [q])], [])
  }

  /** Its materialisation repeats a route id, so the comparison never finds the host unchanged. */
  lemma TwoRulesRepeatId(services: Services, key: ObjectKey, host: string, p: PathRule, q: PathRule)
    requires p.service.Some? && q.service.Some? && NormalizeHost(host) != ""
    ensures var ing := TwoRules(key, host, p, q);
            var item := Materialize(services, map[key := ing], [key], NormalizeHost(host));
            item.Some? && !DistinctRoutes(item.value)
  {
    var h, ing := NormalizeHost(host), TwoRules(key, host, p, q);
    assert HostList(ing) == [h, h];
    TwoRulesMake(services, ing, [h, h], h, p, q);
    MaterializeSnoc(services, map[key := ing], [], key, h);
    assert [] + [key] == [key];
  }

  lemma TwoRulesMake(services: Services, ing: Ingress, hosts: seq<string>, h: string, p: PathRule, q: PathRule)
    requires hosts == [h, h] && |ing.rules| == 2 && ing.rules[0].http == [p] && ing.rules[1].http == [q]
    requires p.service.Some? && q.service.Some?
    ensures var item := AddRules(services, ing, hosts, h, 2, None); item.Some? && !DistinctRoutes(item.value)
  {
    OnePath(services, ing, h, p);
    OnePath(services, ing, h, q);
    var first := AddRules(services, ing, hosts, h, 1, None);
    assert AddRules(services, ing, hosts, h, 0, None) == None;
    assert first.Some? && first.value.made == [MakePath(services, ing, h, 0, p)];
    var item := AddRules(services, ing, hosts, h, 2, None).value;
    assert item.made == [MakePath(services, ing, h, 0, p), MakePath(services, ing, h, 0, q)];
    assert item.made[0].route.id == item.made[1].route.id;
  }

  lemma OnePath(services: Services, ing: Ingress, h: string, p: PathRule)
    requires p.service.Some?
    ensures FromPaths(services, ing, h, [p]) == [MakePath(services, ing, h, 0, p)]
  {
    assert [p][..0] == [];
  }

  // ---- Inputs ---------------------------------------------------------------------------------------

  /** Lower-case text without blanks at its ends and without a colon. */
  predicate Tidy(h: string) {
    h != "" && ToLower(h) == h && !IsSpace(h[0]) && !IsSpace(h[|h| - 1]) && ':' !in h
  }

  lemma TidyIsTrimmed(h: string)
    requires Tidy(h)
    ensures NormalizeHost(h) == TrimSuffix(h, ".")
  {
    assert TrimSpace(h) == h;
    NoScheme(h);
    BeforeAll(h, ':');
  }

  lemma PlainIsStable(h: string)
    requires Tidy(h) && h[|h| - 1] != '.'
    ensures NormalizeHost(h) == h
  {
    TidyIsTrimmed(h);
    NoDot(h);
  }

  lemma DotDrops(h: string)
    requires Tidy(h)
    ensures NormalizeHost(h + ".") == h && Tidy(h + ".")
  {
    var t := h + ".";
    assert t[0] == h[0] && t[|t| - 1] == '.';
    assert ToLower(t) == ToLower(h) + ".";
    TidyIsTrimmed(t);
    OneDot(h);
  }

  lemma OneDot(h: string)
    ensures TrimSuffix(h + ".", ".") == h
  {
    var t := h + ".";
    assert t[|t| - 1..] == "." && t[..|t| - 1] == h;
  }

  lemma NoScheme(h: string)
    requires ':' !in h
    ensures TrimPrefix(h, "http://") == h && TrimPrefix(h, "https://") == h
  {
    if "http://" <= h {
      PrefixHas(h, "http://", ':');
    }
    if "https://" <= h {
      PrefixHas(h, "https://", ':');
    }
  }

  lemma PrefixHas(h: string, p: string, c: char)
    requires p <= h && c in p
    ensures c in h
  {
    var i :| 0 <= i < |p| && p[i] == c;
    assert h[i] == c;
  }

  lemma NoDot(h: string)
    requires h != "" && h[|h| - 1] != '.'
    ensures TrimSuffix(h, ".") == h
  {
  }

  const HostH: string := "h"

  lemma HIsStable()
    ensures Stable(HostH) && HostH != ""
  {
    assert ToLower(HostH) == HostH;
    PlainIsStable(HostH);
  }

  /** An ingress of the class with one rule for "h" and no path. */
  function RulingH(class': string, name: string): Ingress {
    Ingress(ObjectKey("default", name), Some(class'), None, [Rule(HostH, [])], [])
  }

  lemma RulesOnlyH(class': string, name: string)
    ensures RuleHosts(RulingH(class', name)) == {HostH}
  {
    HIsStable();
    var h := HostH;
    assert HostList(RulingH(class', name)) == [h];
    OneHost(h);
  }

  lemma OneHost(h: string)
    requires h != ""
    ensures NonEmpty([h]) == {h}
  {
    assert [h][0] == h;
  }

  /** Two ingresses ruling the host "h", and the deletion of one. */
  lemma SharedHLosesRows(class': string) returns (states: seq<State>, orders: seq<seq<ObjectKey>>)
    requires class' != ""
    ensures IsRun(states, StoreBothDeleteFirst(RulingH(class', "a"), RulingH(class', "b")), orders)
    ensures AllAgree(states[2]) && !AllAgree(states[3])
  {
    RulesOnlyH(class', "a");
    RulesOnlyH(class', "b");
    HIsStable();
    states, orders := SharedHostLosesRows(class', RulingH(class', "a"), RulingH(class', "b"), HostH);
  }

  /** An ingress of the class whose only rule host ends in two dots. */
  function DoubleDotted(class': string, key: ObjectKey, h: string): Ingress {
    Ingress(key, Some(class'), None, [Rule(h + "." + ".", [])], [])
  }

  /** Normalising drops one dot at a time, so the rule's host is not among the hosts synced. */
  lemma DoubleDottedIsMissed(b: State, key: ObjectKey, h: string)
    requires b.ingressClass != "" && Tidy(h)
    ensures !RulesReached(b, StoreIngress(DoubleDotted(b.ingressClass, key, h)))
  {
    DoubleDottedRules(b, key, h);
  }

  /** Storing it where nothing rules its host yet leaves the host without the rows it needs. */
  lemma DoubleDottedDisagrees(b: State, key: ObjectKey, h: string, order: seq<ObjectKey>, after: State)
    requires b.ingressClass != "" && Tidy(h) && AllAgree(b) && !Ruled(b.ingresses, h + ".")
    requires Step(b, StoreIngress(DoubleDotted(b.ingressClass, key, h)), order, after)
    ensures !AllAgree(after)
  {
    var ing, once := DoubleDotted(b.ingressClass, key, h), h + ".";
    DoubleDottedRules(b, key, h);
    assert Agrees(b, once);
    assert after.ingresses[key] == ing && Ruled(after.ingresses, once);
    if once in Removed(b, StoreIngress(ing)) {
      RemovedHost(b, StoreIngress(ing), order, after, once);
    } else {
      MissedHost(b, StoreIngress(ing), order, after, once);
    }
  }

  lemma DoubleDottedRules(b: State, key: ObjectKey, h: string)
    requires b.ingressClass != "" && Tidy(h)
    ensures var ing := DoubleDotted(b.ingressClass, key, h);
            && MatchesClass(ing, b.ingressClass) && h + "." in RuleHosts(ing)
            && h + "." !in Affected(b, StoreIngress(ing))
  {
    var ing, once := DoubleDotted(b.ingressClass, key, h), h + ".";
    DotDrops(h);
    DotDrops(once);
    assert HostList(ing) == [once];
    OneHost(once);
    NoTls(ing);
    OnlyAgain(once, h);
  }

  lemma NoTls(ing: Ingress)
    requires ing.tls == []
    ensures Hosts(ing) == RuleHosts(ing)
  {
    assert NormalizeAll([]) == [];
  }

  lemma OnlyAgain(g: string, h: string)
    requires NormalizeHost(g) == h && g != h
    ensures g !in Again({g})
  {
  }

  /** One ingress with two rules for "h" of one path each. */
  lemma TwoRulesForH(services: Services, key: ObjectKey, p: PathRule, q: PathRule)
    requires p.service.Some? && q.service.Some?
    ensures var item := Materialize(services, map[key := TwoRules(key, HostH, p, q)], [key], HostH);
            item.Some? && !DistinctRoutes(item.value)
  {
    HIsStable();
    TwoRulesRepeatId(services, key, HostH, p, q);
  }
}
