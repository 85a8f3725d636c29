/** What materialisation puts into a host's rows, read off the ingresses field by field. */
module IngressContent {
  import opened Options
  import opened Text
  import opened Repository
  import opened IngressModel

  /** A path of a rule of the ingress at a position of the walk. */
  datatype Source = Source(pos: nat, rule: nat, path: nat)

  predicate Earlier(a: Source, b: Source) {
    a.pos < b.pos || (a.pos == b.pos && (a.rule < b.rule || (a.rule == b.rule && a.path < b.path)))
  }

  predicate RulesHost(ing: Ingress, r: nat, host: string) {
    r < |ing.rules| && NormalizeHost(ing.rules[r].host) == host
  }

  predicate NamesUnderTls(ing: Ingress, host: string) {
    exists i :: 0 <= i < |ing.tls| && NormalizeHost(ing.tls[i]) == host
  }

  /** The path has a service and its rule is for the host. */
  ghost predicate IsSource(ingresses: Ingresses, order: seq<ObjectKey>, host: string, s: Source) {
    && s.pos < |order| && order[s.pos] in ingresses
    && var ing := ingresses[order[s.pos]];
       && RulesHost(ing, s.rule, host)
       && s.path < |ing.rules[s.rule].http| && ing.rules[s.rule].http[s.path].service.Some?
  }

  /** The name an external service goes by, without blanks and a closing dot. */
  function ExternalName(services: Services, key: ObjectKey): string {
    if key in services && services[key].isExternal then TrimSuffix(TrimSpace(services[key].externalName), ".") else ""
  }

  /** The route and the backend that one path of an ingress asks for. */
  ghost predicate IsMade(services: Services, key: ObjectKey, host: string, idx: nat, rule: PathRule, m: Made)
    requires rule.service.Some?
  {
    var svc, tail := rule.service.value, key.namespace + ":" + key.name + ":" + host + ":" + Decimal(idx);
    var external := ExternalName(services, ObjectKey(key.namespace, svc.name));
    && m.route.id == "k8s:route:ingress:" + tail && m.route.hostname == host
    && m.route.path == NormalizePath(rule.path)
    && m.route.priority == Int32(|NormalizePath(rule.path)| + if rule.exact then 100000 else 0)
    && m.route.backendId == m.backend.id == "k8s:backend:ingress:" + tail
    && m.backend.port == (if svc.port > 0 then svc.port else 80)
    && if external != "" then
         && m.backend.svcType == "EXTERNAL" && m.backend.endpoint == external
         && m.backend.namespace == "" && m.backend.name == ""
       else
         && m.backend.svcType == "SVC" && m.backend.endpoint == ""
         && m.backend.namespace == key.namespace && m.backend.name == svc.name
  }

  lemma MakePathMakes(services: Services, ing: Ingress, host: string, idx: nat, rule: PathRule)
    requires rule.service.Some?
    ensures IsMade(services, ing.key, host, idx, rule, MakePath(services, ing, host, idx, rule))
  {
    IdsAre(ing, host, idx);
    AddWraps(|NormalizePath(rule.path)|, 100000);
    ExternalIs(services, ObjectKey(ing.key.namespace, rule.service.value.name));
  }

  lemma IdsAre(ing: Ingress, host: string, idx: nat)
    ensures var tail := ing.key.namespace + ":" + ing.key.name + ":" + host + ":" + Decimal(idx);
            && RowId(RouteHead, ing, host, idx) == "k8s:route:ingress:" + tail
            && RowId(BackendHead, ing, host, idx) == "k8s:backend:ingress:" + tail
  {
    IdIs(RouteHead, "k8s:route:ingress:", ing.key, host, Decimal(idx));
    IdIs(BackendHead, "k8s:backend:ingress:", ing.key, host, Decimal(idx));
  }

  lemma ExternalIs(services: Services, key: ObjectKey)
    ensures ExternalAddress(services, key) ==
            if ExternalName(services, key) == "" then None else Some(ExternalName(services, key))
  {
  }

  lemma IdIs(head: string, text: string, key: ObjectKey, host: string, index: string)
    requires head == text
    ensures head + Suffix(key.namespace + ":" + key.name, host, index)
         == text + (key.namespace + ":" + key.name + ":" + host + ":" + index)
  {
  }

  lemma AddWraps(n: int, d: int)
    ensures Int32(Int32(n) + d) == Int32(n + d)
  {
    Int32Is(n, Int32(n));
    Int32Is(n + d, Int32(n + d));
    Int32Is(Int32(n) + d, Int32(n + d));
  }

  // ---- The made rows ----------------------------------------------------------------------------------

  /** Rule `r` of the ingress at `n`, or an earlier one. */
  predicate Before(s: Source, n: nat, r: nat) { s.pos < n || (s.pos == n && s.rule < r) }

  /** The rows made so far are those of the sources up to a rule, in walking order, each once. */
  ghost predicate Accounts(isSource: Source -> bool, makes: (Source, Made) -> bool, made: seq<Made>, src: seq<Source>,
                           n: nat, r: nat) {
    && |src| == |made|
    && (forall j :: 0 <= j < |src| ==> Before(src[j], n, r) && isSource(src[j]) && makes(src[j], made[j]))
    && (forall j, k :: 0 <= j < k < |src| ==> Earlier(src[j], src[k]))
    && (forall s :: isSource(s) && Before(s, n, r) ==> s in src)
  }

  /** The sources of one rule's paths. */
  function Sources(paths: seq<PathRule>, n: nat, r: nat): (src: seq<Source>)
    ensures forall s :: s in src <==> s.pos == n && s.rule == r && s.path < |paths| && paths[s.path].service.Some?
    ensures forall j, k :: 0 <= j < k < |src| ==> src[j].path < src[k].path
  {
    if paths == [] then []
    else
      var m := |paths| - 1;
      Sources(paths[..m], n, r) + if paths[m].service.Some? then [Source(n, r, m)] else []
  }

  lemma {:induction false} PathsMake(services: Services, ing: Ingress, host: string, paths: seq<PathRule>, n: nat,
                                     r: nat)
    ensures |Sources(paths, n, r)| == |FromPaths(services, ing, host, paths)|
    ensures forall j :: 0 <= j < |Sources(paths, n, r)| ==>
              var s := Sources(paths, n, r)[j];
              && s in Sources(paths, n, r)
              && FromPaths(services, ing, host, paths)[j] == MakePath(services, ing, host, s.path, paths[s.path])
  {
    if paths != [] {
      var m := |paths| - 1;
      PathsMake(services, ing, host, paths[..m], n, r);
      var src, init := Sources(paths, n, r), Sources(paths[..m], n, r);
      forall j | 0 <= j < |src| ensures src[j] in src && (j < |init| ==> src[j] == init[j] && src[j] in init) {
      }
    }
  }

  lemma Extend(isSource: Source -> bool, makes: (Source, Made) -> bool, made: seq<Made>, src: seq<Source>,
               rows: seq<Made>, more: seq<Source>, n: nat, r: nat)
    requires Accounts(isSource, makes, made, src, n, r) && |more| == |rows|
    requires forall j :: 0 <= j < |more| ==>
               more[j].pos == n && more[j].rule == r && isSource(more[j]) && makes(more[j], rows[j])
    requires forall j, k :: 0 <= j < k < |more| ==> more[j].path < more[k].path
    requires forall s :: isSource(s) && s.pos == n && s.rule == r ==> s in more
    ensures Accounts(isSource, makes, made + rows, src + more, n, r + 1)
  {
    var all := src + more;
    forall j, k | 0 <= j < k < |all| ensures Earlier(all[j], all[k]) {
      OrderedConcat(src, more, n, r, j, k);
    }
    forall j | 0 <= j < |all| ensures Before(all[j], n, r + 1) && isSource(all[j]) && makes(all[j], (made + rows)[j]) {
      assert j < |src| ==> all[j] == src[j] && Before(src[j], n, r);
    }
    forall s | isSource(s) && Before(s, n, r + 1) ensures s in all {
      assert s in src || s in more;
    }
  }

  lemma OrderedConcat(src: seq<Source>, more: seq<Source>, n: nat, r: nat, j: nat, k: nat)
    requires forall i :: 0 <= i < |src| ==> Before(src[i], n, r)
    requires forall i, l :: 0 <= i < l < |src| ==> Earlier(src[i], src[l])
    requires forall i :: 0 <= i < |more| ==> more[i].pos == n && more[i].rule == r
    requires forall i, l :: 0 <= i < l < |more| ==> more[i].path < more[l].path
    requires j < k < |src + more|
    ensures Earlier((src + more)[j], (src + more)[k])
  {
    assert j < |src| ==> Before(src[j], n, r);
  }

  /** Which sources the ingress at `n` has, given the normal hosts of its rules, and what they make. */
  ghost predicate Describes(isSource: Source -> bool, makes: (Source, Made) -> bool, services: Services, ing: Ingress,
                            hosts: seq<string>, host: string, n: nat)
    requires |hosts| == |ing.rules|
  {
    && (forall s: Source :: s.pos == n ==>
          (isSource(s) <==>
             && s.rule < |hosts| && hosts[s.rule] == host && s.path < |ing.rules[s.rule].http|
             && ing.rules[s.rule].http[s.path].service.Some?))
    && (forall s: Source :: s.pos == n && isSource(s) ==>
          makes(s, MakePath(services, ing, host, s.path, ing.rules[s.rule].http[s.path])))
  }

  /** A rule for the host adds the rows of its paths, any other rule none. */
  lemma RuleAccounts(isSource: Source -> bool, makes: (Source, Made) -> bool, services: Services, ing: Ingress,
                     hosts: seq<string>, host: string, made: seq<Made>, src: seq<Source>, n: nat, r: nat)
    returns (all: seq<Source>)
    requires r < |hosts| == |ing.rules| && Describes(isSource, makes, services, ing, hosts, host, n)
    requires Accounts(isSource, makes, made, src, n, r)
    ensures hosts[r] == host ==>
              Accounts(isSource, makes, made + FromPaths(services, ing, host, ing.rules[r].http), all, n, r + 1)
    ensures hosts[r] != host ==> Accounts(isSource, makes, made, all, n, r + 1)
  {
    if hosts[r] == host {
      var paths := ing.rules[r].http;
      var more := Sources(paths, n, r);
      PathsMake(services, ing, host, paths, n, r);
      Extend(isSource, makes, made, src, FromPaths(services, ing, host, paths), more, n, r);
      all := src + more;
    } else {
      Extend(isSource, makes, made, src, [], [], n, r);
      all := src;
      assert made + [] == made && src + [] == src;
    }
  }

  /** Some list of sources accounts for the rows made up to rule `r`. */
  ghost predicate Accounted(isSource: Source -> bool, makes: (Source, Made) -> bool, item: Option<Item>, n: nat,
                            r: nat) {
    exists src :: Accounts(isSource, makes, MadeSoFar(item), src, n, r)
  }

  lemma {:induction false} RulesAccount(isSource: Source -> bool, makes: (Source, Made) -> bool, services: Services,
                                        ing: Ingress, hosts: seq<string>, host: string, item: Option<Item>, n: nat,
                                        r: nat)
    requires r <= |hosts| == |ing.rules| && Describes(isSource, makes, services, ing, hosts, host, n)
    requires Accounted(isSource, makes, item, n, 0)
    ensures Accounted(isSource, makes, AddRules(services, ing, hosts, host, r, item), n, r)
  {
    if r > 0 {
      RulesAccount(isSource, makes, services, ing, hosts, host, item, n, r - 1);
      OneMore(isSource, makes, services, ing, hosts, host, item, n, r - 1);
    }
  }

  lemma OneMore(isSource: Source -> bool, makes: (Source, Made) -> bool, services: Services, ing: Ingress,
                hosts: seq<string>, host: string, item: Option<Item>, n: nat, r: nat)
    requires r < |hosts| == |ing.rules| && Describes(isSource, makes, services, ing, hosts, host, n)
    requires Accounted(isSource, makes, AddRules(services, ing, hosts, host, r, item), n, r)
    ensures Accounted(isSource, makes, AddRules(services, ing, hosts, host, r + 1, item), n, r + 1)
  {
    var made := MadeSoFar(AddRules(services, ing, hosts, host, r, item));
    var src :| Accounts(isSource, makes, made, src, n, r);
    var all := RuleAccounts(isSource, makes, services, ing, hosts, host, made, src, n, r);
    MadeByRule(services, ing, hosts, host, item, r);
    assert made + [] == made;
    assert Accounts(isSource, makes, MadeSoFar(AddRules(services, ing, hosts, host, r + 1, item)), all, n, r + 1);
  }

  lemma MadeByRule(services: Services, ing: Ingress, hosts: seq<string>, host: string, item: Option<Item>, r: nat)
    requires r < |hosts| == |ing.rules|
    ensures MadeSoFar(AddRules(services, ing, hosts, host, r + 1, item))
         == MadeSoFar(AddRules(services, ing, hosts, host, r, item))
            + if hosts[r] == host then FromPaths(services, ing, host, ing.rules[r].http) else []
  {
  }

  lemma NextPosition(isSource: Source -> bool, makes: (Source, Made) -> bool, item: Option<Item>, n: nat, r: nat)
    requires Accounted(isSource, makes, item, n, r) && forall s :: isSource(s) && s.pos == n ==> s.rule < r
    ensures Accounted(isSource, makes, item, n + 1, 0)
  {
    var src :| Accounts(isSource, makes, MadeSoFar(item), src, n, r);
    assert Accounts(isSource, makes, MadeSoFar(item), src, n + 1, 0) by {
      AfterRules(isSource, makes, MadeSoFar(item), src, n, r);
    }
  }

  lemma AfterRules(isSource: Source -> bool, makes: (Source, Made) -> bool, made: seq<Made>, src: seq<Source>, n: nat,
                   r: nat)
    requires Accounts(isSource, makes, made, src, n, r) && forall s :: isSource(s) && s.pos == n ==> s.rule < r
    ensures Accounts(isSource, makes, made, src, n + 1, 0)
  {
    forall s | isSource(s) && Before(s, n + 1, 0) ensures s in src {
      assert Before(s, n, r);
    }
  }

  lemma {:induction false} WalkAccounts(isSource: Source -> bool, makes: (Source, Made) -> bool, services: Services,
                                        ingresses: Ingresses, order: seq<ObjectKey>, host: string, n: nat)
    requires host != "" && n <= |order| && forall k :: k in order ==> k in ingresses
    requires forall i :: 0 <= i < |order| ==>
               Describes(isSource, makes, services, ingresses[order[i]], HostList(ingresses[order[i]]), host, i)
    ensures Accounted(isSource, makes, Materialize(services, ingresses, order[..n], host), n, 0)
  {
    if n == 0 {
      assert order[..0] == [] && MadeSoFar(None) == [];
      assert Accounts(isSource, makes, MadeSoFar(Materialize(services, ingresses, order[..0], host)), [], 0, 0);
    } else {
      var m := n - 1;
      WalkAccounts(isSource, makes, services, ingresses, order, host, m);
      assert order[..n][..m] == order[..m] && order[m] in order;
      var ing, before := ingresses[order[m]], Materialize(services, ingresses, order[..m], host);
      RulesAccount(isSource, makes, services, ing, HostList(ing), host, before, m, |ing.rules|);
      NextPosition(isSource, makes, AddRules(services, ing, HostList(ing), host, |ing.rules|, before), m, |ing.rules|);
    }
  }

  lemma HostAt(ing: Ingress, r: nat)
    requires r < |ing.rules|
    ensures HostList(ing)[r] == NormalizeHost(ing.rules[r].host)
  {
  }

  /** The path's rule is for the host and its row is the one made. */
  ghost predicate MadeAt(services: Services, ingresses: Ingresses, order: seq<ObjectKey>, host: string, s: Source,
                         m: Made) {
    && IsSource(ingresses, order, host, s)
    && var ing := ingresses[order[s.pos]];
       IsMade(services, ing.key, host, s.path, ing.rules[s.rule].http[s.path], m)
  }

  lemma Described(services: Services, ingresses: Ingresses, order: seq<ObjectKey>, host: string, i: nat)
    requires i < |order| && order[i] in ingresses
    ensures var ing := ingresses[order[i]];
            Describes(s => IsSource(ingresses, order, host, s),
                      (s, m) => MadeAt(services, ingresses, order, host, s, m), services, ing, HostList(ing), host, i)
  {
    var ing := ingresses[order[i]];
    forall s: Source | s.pos == i
      ensures IsSource(ingresses, order, host, s) <==>
              && s.rule < |ing.rules| && HostList(ing)[s.rule] == host && s.path < |ing.rules[s.rule].http|
              && ing.rules[s.rule].http[s.path].service.Some?
    {
      if s.rule < |ing.rules| {
        HostAt(ing, s.rule);
      }
    }
    forall s: Source | s.pos == i && IsSource(ingresses, order, host, s)
      ensures MadeAt(services, ingresses, order, host, s,
                     MakePath(services, ing, host, s.path, ing.rules[s.rule].http[s.path]))
    {
      MakePathMakes(services, ing, host, s.path, ing.rules[s.rule].http[s.path]);
    }
  }

  /** For every host and order of the walk: the made rows are one route and backend for each path with a service of a
      rule for the host, in walking order, with the fields that path asks for. */
  lemma MaterializedRows(services: Services, ingresses: Ingresses, order: seq<ObjectKey>, host: string)
    returns (src: seq<Source>)
    requires host != "" && forall k :: k in order ==> k in ingresses
    ensures var made := MadeSoFar(Materialize(services, ingresses, order, host));
            && |src| == |made|
            && (forall j :: 0 <= j < |src| ==> MadeAt(services, ingresses, order, host, src[j], made[j]))
            && (forall j, k :: 0 <= j < k < |src| ==> Earlier(src[j], src[k]))
            && (forall s :: s in src <==> IsSource(ingresses, order, host, s))
  {
    var isSource := s => IsSource(ingresses, order, host, s);
    var makes := (s, m) => MadeAt(services, ingresses, order, host, s, m);
    forall i | 0 <= i < |order|
      ensures Describes(isSource, makes, services, ingresses[order[i]], HostList(ingresses[order[i]]), host, i)
    {
      Described(services, ingresses, order, host, i);
    }
    assert order[..|order|] == order;
    WalkAccounts(isSource, makes, services, ingresses, order, host, |order|);
    src :| Accounts(isSource, makes, MadeSoFar(Materialize(services, ingresses, order, host)), src, |order|, 0);
    forall s ensures s in src <==> IsSource(ingresses, order, host, s) {
      if s in src {
        var j :| 0 <= j < |src| && src[j] == s;
        assert isSource(src[j]);
      } else if isSource(s) {
        assert Before(s, |order|, 0);
      }
    }
    forall j | 0 <= j < |src|
      ensures MadeAt(services, ingresses, order, host, src[j],
                     MadeSoFar(Materialize(services, ingresses, order, host))[j])
    {
      assert makes(src[j], MadeSoFar(Materialize(services, ingresses, order, host))[j]);
    }
  }

  // ---- The endpoint -----------------------------------------------------------------------------------

  ghost predicate RuledBy(ing: Ingress, host: string) { exists r: nat :: RulesHost(ing, r, host) }

  lemma {:induction false} EndpointOf(services: Services, ing: Ingress, hosts: seq<string>, host: string,
                                      item: Option<Item>, n: nat)
    requires n <= |hosts| == |ing.rules|
    ensures var after := AddRules(services, ing, hosts, host, n, item);
            if host in hosts[..n] then after.Some? && after.value.endpoint == EndpointFor(ing, host) else after == item
  {
    if n > 0 {
      EndpointOf(services, ing, hosts, host, item, n - 1);
      assert hosts[..n] == hosts[..n - 1] + [hosts[n - 1]];
    }
  }

  lemma RuledIs(ing: Ingress, host: string)
    ensures RuledBy(ing, host) <==> host in HostList(ing)
  {
    if RuledBy(ing, host) {
      var r: nat :| RulesHost(ing, r, host);
      HostAt(ing, r);
    }
    if host in HostList(ing) {
      var r :| 0 <= r < |HostList(ing)| && HostList(ing)[r] == host;
      HostAt(ing, r);
      assert RulesHost(ing, r, host);
    }
  }

  lemma {:induction false} LastRulerDecides(services: Services, ingresses: Ingresses, order: seq<ObjectKey>,
                                            host: string, n: nat)
    requires host != "" && n < |order| && forall k :: k in order ==> k in ingresses
    requires host in HostList(ingresses[order[n]])
    requires forall m :: n < m < |order| ==> host !in HostList(ingresses[order[m]])
    ensures var item := Materialize(services, ingresses, order, host);
            item.Some? && item.value.endpoint == EndpointFor(ingresses[order[n]], host)
  {
    var m := |order| - 1;
    LastOfWalk(services, ingresses, order, host);
    if n < m {
      var init := order[..m];
      assert forall k :: n < k < |init| ==> init[k] == order[k];
      LastRulerDecides(services, ingresses, init, host, n);
    }
  }

  lemma LastOfWalk(services: Services, ingresses: Ingresses, order: seq<ObjectKey>, host: string)
    requires host != "" && order != [] && forall k :: k in order ==> k in ingresses
    ensures var m := |order| - 1;
            var item, ing := Materialize(services, ingresses, order, host), ingresses[order[m]];
            if host in HostList(ing) then item.Some? && item.value.endpoint == EndpointFor(ing, host)
            else item == Materialize(services, ingresses, order[..m], host)
  {
    var m := |order| - 1;
    var ing, before := ingresses[order[m]], Materialize(services, ingresses, order[..m], host);
    EndpointOf(services, ing, HostList(ing), host, before, |ing.rules|);
    assert HostList(ing)[..|ing.rules|] == HostList(ing);
  }

  /** The endpoint is HTTPS and needs a certificate exactly if the last ingress of the walk that rules the host names it
      under TLS, and plain HTTP otherwise. */
  lemma MaterializedEndpoint(services: Services, ingresses: Ingresses, order: seq<ObjectKey>, host: string, n: nat)
    requires host != "" && n < |order| && forall k :: k in order ==> k in ingresses
    requires RuledBy(ingresses[order[n]], host)
    requires forall m :: n < m < |order| ==> !RuledBy(ingresses[order[m]], host)
    ensures var item := Materialize(services, ingresses, order, host);
            && item.Some?
            && var e := item.value.endpoint;
               && e.hostname == host && e.boundId == ""
               && (e.needCert <==> NamesUnderTls(ingresses[order[n]], host))
               && e.kind == if e.needCert then L7Https else L7Http
  {
    RuledIs(ingresses[order[n]], host);
    forall m | n < m < |order| ensures host !in HostList(ingresses[order[m]]) {
      RuledIs(ingresses[order[m]], host);
    }
    LastRulerDecides(services, ingresses, order, host, n);
    TlsIs(ingresses[order[n]], host);
  }

  lemma TlsIs(ing: Ingress, host: string)
    requires host != ""
    ensures host in TlsHosts(ing) <==> NamesUnderTls(ing, host)
  {
    var named := NormalizeAll(ing.tls);
    if NamesUnderTls(ing, host) {
      var i :| 0 <= i < |ing.tls| && NormalizeHost(ing.tls[i]) == host;
      assert named[i] == host;
    }
    if host in TlsHosts(ing) {
      var i :| 0 <= i < |named| && named[i] == host;
      assert NormalizeHost(ing.tls[i]) == host;
    }
  }
}
