/** Kubernetes ingresses and services, and the rows the master derives from them for one host. */
module IngressModel {
  import opened Options
  import opened Text
  import opened PlanDiff
  import opened Repository

  datatype ObjectKey = ObjectKey(namespace: string, name: string)

  datatype ServiceRef = ServiceRef(name: string, port: int)
  datatype PathRule = PathRule(path: string, exact: bool, service: Option<ServiceRef>)
  /** `http` is empty both for a rule without an HTTP section and for one without paths. */
  datatype Rule = Rule(host: string, http: seq<PathRule>)
  datatype Ingress = Ingress(key: ObjectKey, className: Option<string>, annotation: Option<string>, rules: seq<Rule>,
                             tls: seq<string>)
  datatype Service = Service(key: ObjectKey, isExternal: bool, externalName: string)

  type Ingresses = map<ObjectKey, Ingress>
  type Services = map<ObjectKey, Service>

  // ---- Normalisation ------------------------------------------------------------------------------

  function NormalizeHost(host: string): (r: string)
    ensures ':' !in r
  {
    TrimSuffix(BareHost(host), ".")
  }

  /** A lower-case name stays but for one closing dot, and loses a scheme before it and a port behind it. */
  lemma NormalizeHostIs(scheme: string, name: string, port: string)
    requires name != "" && ':' !in name && !IsSpace(name[0]) && !IsSpace(name[|name| - 1]) && ToLower(name) == name
    requires scheme in {"", "http://", "https://"} && (port == "" || (port[0] == ':' && Digital(port[1..])))
    ensures NormalizeHost(scheme + name + port) == if name[|name| - 1] == '.' then name[..|name| - 1] else name
  {
    BareHostIs(scheme, name, port);
    TrimDot(name);
  }

  lemma TrimDot(name: string)
    requires name != ""
    ensures TrimSuffix(name, ".") == if name[|name| - 1] == '.' then name[..|name| - 1] else name
  {
    assert name[|name| - 1..] == [name[|name| - 1]];
  }

  /** Blanks around a host and letter case do not count. */
  lemma NormalizeHostBlind(a: string, host: string, b: string)
    requires All(a, IsSpace) && All(b, IsSpace)
    ensures NormalizeHost(a + host + b) == NormalizeHost(host) == NormalizeHost(ToLower(host))
  {
    BareHostBlind(a, host, b);
  }

  // ---- Hosts --------------------------------------------------------------------------------------

  function NormalizeAll(hosts: seq<string>): (r: seq<string>)
    ensures |r| == |hosts|
  {
    seq(|hosts|, i requires 0 <= i < |hosts| => NormalizeHost(hosts[i]))
  }

  function RawHosts(rules: seq<Rule>): (r: seq<string>)
    ensures |r| == |rules|
  {
    seq(|rules|, i requires 0 <= i < |rules| => rules[i].host)
  }

  /** The normalised host of each rule, rule by rule. */
  function HostList(ing: Ingress): (r: seq<string>)
    ensures |r| == |ing.rules|
  {
    NormalizeAll(RawHosts(ing.rules))
  }

  function NonEmpty(hosts: seq<string>): set<string> {
    set i | 0 <= i < |hosts| && hosts[i] != "" :: hosts[i]
  }

  function RuleHosts(ing: Ingress): set<string> { NonEmpty(HostList(ing)) }

  function TlsHosts(ing: Ingress): set<string> { NonEmpty(NormalizeAll(ing.tls)) }

  /** Every host the ingress declares. */
  function Hosts(ing: Ingress): set<string> { RuleHosts(ing) + TlsHosts(ing) }

  predicate MatchesClass(ing: Ingress, expected: string) {
    if expected == "" then false
    else if ing.className.Some? && ing.className.value != "" then ing.className.value == expected
    else ing.annotation == Some(expected)
  }

  /** An ingress declares the normal forms of its rules' hosts and of its TLS hosts, as far as they are not empty. */
  lemma DeclaredAre(ing: Ingress, h: string)
    ensures h in Hosts(ing) <==>
            && h != ""
            && (|| (exists i :: 0 <= i < |ing.rules| && NormalizeHost(ing.rules[i].host) == h)
                || (exists i :: 0 <= i < |ing.tls| && NormalizeHost(ing.tls[i]) == h))
  {
    RuleHostsAre(ing, h);
    NormalizedAre(ing.tls, h);
  }

  lemma RuleHostsAre(ing: Ingress, h: string)
    ensures h in RuleHosts(ing) <==>
            h != "" && exists i :: 0 <= i < |ing.rules| && NormalizeHost(ing.rules[i].host) == h
  {
    var raw := RawHosts(ing.rules);
    NormalizedAre(raw, h);
    if i :| 0 <= i < |ing.rules| && NormalizeHost(ing.rules[i].host) == h {
      assert raw[i] == ing.rules[i].host;
    }
    if i :| 0 <= i < |raw| && NormalizeHost(raw[i]) == h {
      assert raw[i] == ing.rules[i].host;
    }
  }

  lemma NormalizedAre(hosts: seq<string>, h: string)
    ensures h in NonEmpty(NormalizeAll(hosts)) <==>
            h != "" && exists i :: 0 <= i < |hosts| && NormalizeHost(hosts[i]) == h
  {
    var all := NormalizeAll(hosts);
    if i :| 0 <= i < |hosts| && NormalizeHost(hosts[i]) == h {
      assert all[i] == h;
    }
    if i :| 0 <= i < |all| && all[i] == h {
      assert NormalizeHost(hosts[i]) == h;
    }
  }

  /** The class name counts if there is one, the annotation only if there is none; no class takes nothing in. */
  lemma ClassIs(ing: Ingress, expected: string)
    ensures expected == "" ==> !MatchesClass(ing, expected)
    ensures expected != "" && ing.className.Some? && ing.className.value != "" ==>
              (MatchesClass(ing, expected) <==> ing.className.value == expected)
    ensures expected != "" && (ing.className.None? || ing.className.value == "") ==>
              (MatchesClass(ing, expected) <==> ing.annotation == Some(expected))
  {
  }

  predicate References(ing: Ingress, service: string) {
    service != "" &&
    exists i, j :: 0 <= i < |ing.rules| && 0 <= j < |ing.rules[i].http|
      && ing.rules[i].http[j].service.Some? && ing.rules[i].http[j].service.value.name == service
  }

  // ---- Rows of one host ---------------------------------------------------------------------------

  const ManagedPrefix: string := "k8s:backend:"
  const BackendHead: string := ManagedPrefix + "ingress:"
  const RouteHead: string := "k8s:route:ingress:"

  function Suffix(front: string, host: string, index: string): string { front + ":" + host + ":" + index }

  function RowId(head: string, ing: Ingress, host: string, idx: nat): string {
    head + Suffix(ing.key.namespace + ":" + ing.key.name, host, Decimal(idx))
  }

  function ExternalAddress(services: Services, key: ObjectKey): Option<string> {
    if key !in services || !services[key].isExternal then None
    else
      var address := TrimSuffix(TrimSpace(services[key].externalName), ".");
      if address == "" then None else Some(address)
  }

  datatype Made = Made(backend: Backend, route: Route)

  function MakePath(services: Services, ing: Ingress, host: string, idx: nat, rule: PathRule): Made
    requires rule.service.Some?
  {
    var id := RowId(BackendHead, ing, host, idx);
    var svc := rule.service.value;
    var port := if svc.port > 0 then svc.port else 80;
    var backend := match ExternalAddress(services, ObjectKey(ing.key.namespace, svc.name))
      case Some(address) => Backend(id, "EXTERNAL", address, "", "", port)
      case None => Backend(id, "SVC", "", ing.key.namespace, svc.name, port);
    var path := NormalizePath(rule.path);
    var priority := if rule.exact then Int32(Int32(|path|) + 100000) else Int32(|path|);
    Made(backend, Route(RowId(RouteHead, ing, host, idx), host, path, priority, id))
  }

  function FromPaths(services: Services, ing: Ingress, host: string, paths: seq<PathRule>): seq<Made> {
    if paths == [] then []
    else
      var n := |paths| - 1;
      FromPaths(services, ing, host, paths[..n]) +
      if paths[n].service.Some? then [MakePath(services, ing, host, n, paths[n])] else []
  }

  /** An endpoint and the backends and routes behind it, in the order they are produced. */
  datatype Item = Item(endpoint: Endpoint, made: seq<Made>)

  function EndpointFor(ing: Ingress, host: string): Endpoint {
    if host in TlsHosts(ing) then Endpoint(host, true, L7Https, "") else Endpoint(host, false, L7Http, "")
  }

  function MadeSoFar(item: Option<Item>): seq<Made> { if item.Some? then item.value.made else [] }

  /** The host's item after the first `n` rules, whose normalised hosts are `hosts`: a rule for the host sets
      the endpoint and adds rows. */
  function AddRules(services: Services, ing: Ingress, hosts: seq<string>, host: string, n: nat,
                    item: Option<Item>): Option<Item>
    requires n <= |ing.rules| == |hosts|
  {
    if n == 0 then item
    else
      var prev := AddRules(services, ing, hosts, host, n - 1, item);
      if hosts[n - 1] != host then prev
      else Some(Item(EndpointFor(ing, host), MadeSoFar(prev) + FromPaths(services, ing, host, ing.rules[n - 1].http)))
  }

  function AddIngress(services: Services, ing: Ingress, host: string, item: Option<Item>): Option<Item> {
    if host == "" then item else AddRules(services, ing, HostList(ing), host, |ing.rules|, item)
  }

  /** Full materialisation of one host, the ingresses taken in the given order. */
  function Materialize(services: Services, ingresses: Ingresses, order: seq<ObjectKey>, host: string): Option<Item>
    requires forall k :: k in order ==> k in ingresses
  {
    if order == [] then None
    else
      var n := |order| - 1;
      AddIngress(services, ingresses[order[n]], host, Materialize(services, ingresses, order[..n], host))
  }

  function BackendsIn(made: seq<Made>): (r: seq<Backend>)
    ensures |r| == |made| && forall i :: 0 <= i < |r| ==> r[i] == made[i].backend
  {
    seq(|made|, i requires 0 <= i < |made| => made[i].backend)
  }

  function RoutesIn(made: seq<Made>): (r: seq<Route>)
    ensures |r| == |made| && forall i :: 0 <= i < |r| ==> r[i] == made[i].route
  {
    seq(|made|, i requires 0 <= i < |made| => made[i].route)
  }

  /** The item's rows as tables by id; a later row replaces an earlier one with its id. */
  function WantedRoutes(item: Item): map<string, Route> { ById(RoutesIn(item.made), RouteKey) }

  function WantedBackends(item: Item): map<string, Backend> { ById(BackendsIn(item.made), BackendKey) }

  // ---- Facts about made rows ------------------------------------------------------------------------

  /** `id` carries `host` as its last part but one. */
  ghost predicate Names(head: string, host: string, id: string) {
    exists front: string, index: string :: ':' !in index && id == head + Suffix(front, host, index)
  }

  lemma NamesOnce(head: string, h1: string, h2: string, id: string)
    requires ':' !in h1 && ':' !in h2 && Names(head, h1, id) && Names(head, h2, id)
    ensures h1 == h2
  {
    var f1: string, i1: string :| ':' !in i1 && id == head + Suffix(f1, h1, i1);
    var f2: string, i2: string :| ':' !in i2 && id == head + Suffix(f2, h2, i2);
    assert id[|head|..] == Suffix(f1, h1, i1) && id[|head|..] == Suffix(f2, h2, i2);
    SuffixOnce(f1, h1, i1, f2, h2, i2);
  }

  lemma SuffixOnce(f1: string, h1: string, i1: string, f2: string, h2: string, i2: string)
    requires ':' !in h1 && ':' !in h2 && ':' !in i1 && ':' !in i2 && Suffix(f1, h1, i1) == Suffix(f2, h2, i2)
    ensures h1 == h2
  {
    LastSeparator(f1 + ":" + h1, i1, f2 + ":" + h2, i2, ':');
    LastSeparator(f1, h1, f2, h2, ':');
  }

  /** The backend id that goes with a route id, and back. */
  function BackendIdOf(routeId: string): string
    requires RouteHead <= routeId
  {
    BackendHead + routeId[|RouteHead|..]
  }

  /** A made pair: twin ids that name the host. */
  ghost predicate MadeFor(host: string, m: Made) {
    && m.route.hostname == host && m.backend.id == m.route.backendId
    && RouteHead <= m.route.id && m.route.backendId == BackendIdOf(m.route.id) && Names(RouteHead, host, m.route.id)
  }

  lemma MakePathIsFor(services: Services, ing: Ingress, host: string, idx: nat, rule: PathRule)
    requires rule.service.Some?
    ensures MadeFor(host, MakePath(services, ing, host, idx, rule))
  {
    var front, index := ing.key.namespace + ":" + ing.key.name, Decimal(idx);
    RowIdShape(front, host, index);
  }

  lemma RowIdShape(front: string, host: string, index: string)
    requires forall i :: 0 <= i < |index| ==> IsDigit(index[i])
    ensures var r := RouteHead + Suffix(front, host, index);
            RouteHead <= r && Names(RouteHead, host, r) && BackendIdOf(r) == BackendHead + Suffix(front, host, index)
  {
    var r := RouteHead + Suffix(front, host, index);
    assert r[..|RouteHead|] == RouteHead && r[|RouteHead|..] == Suffix(front, host, index);
  }

  lemma {:induction false} FromPathsAreFor(services: Services, ing: Ingress, host: string, paths: seq<PathRule>)
    ensures forall m :: m in FromPaths(services, ing, host, paths) ==> MadeFor(host, m)
  {
    if paths != [] {
      var n := |paths| - 1;
      FromPathsAreFor(services, ing, host, paths[..n]);
      if paths[n].service.Some? {
        MakePathIsFor(services, ing, host, n, paths[n]);
      }
    }
  }

  ghost predicate ItemFor(host: string, item: Item) {
    item.endpoint.hostname == host && item.endpoint.boundId == "" && forall m :: m in item.made ==> MadeFor(host, m)
  }

  /** An item that can belong to `h`. */
  ghost predicate Fitting(h: string, item: Option<Item>) { item.Some? ==> ItemFor(h, item.value) }

  lemma {:induction false} AddRulesFits(services: Services, ing: Ingress, hosts: seq<string>, host: string, n: nat,
                                        item: Option<Item>)
    requires n <= |ing.rules| == |hosts| && Fitting(host, item)
    ensures Fitting(host, AddRules(services, ing, hosts, host, n, item))
    ensures AddRules(services, ing, hosts, host, n, item).Some? <==> item.Some? || host in hosts[..n]
  {
    if n > 0 {
      AddRulesFits(services, ing, hosts, host, n - 1, item);
      FromPathsAreFor(services, ing, host, ing.rules[n - 1].http);
      assert hosts[..n] == hosts[..n - 1] + [hosts[n - 1]];
    }
  }

  lemma {:induction false} UnruledRules(services: Services, ing: Ingress, hosts: seq<string>, host: string, n: nat,
                                        item: Option<Item>)
    requires n <= |ing.rules| == |hosts| && host !in hosts
    ensures AddRules(services, ing, hosts, host, n, item) == item
  {
    if n > 0 {
      UnruledRules(services, ing, hosts, host, n - 1, item);
    }
  }

  /** An ingress without a rule for the host adds nothing to it. */
  lemma UnruledIngress(services: Services, ing: Ingress, host: string, item: Option<Item>)
    requires host !in RuleHosts(ing)
    ensures AddIngress(services, ing, host, item) == item
  {
    if host != "" {
      UnruledRules(services, ing, HostList(ing), host, |ing.rules|, item);
    }
  }

  lemma AddIngressFits(services: Services, ing: Ingress, host: string, item: Option<Item>)
    requires Fitting(host, item)
    ensures Fitting(host, AddIngress(services, ing, host, item))
    ensures AddIngress(services, ing, host, item).Some? <==> item.Some? || host in RuleHosts(ing)
  {
    var hosts := HostList(ing);
    AddRulesFits(services, ing, hosts, host, |ing.rules|, item);
    assert hosts[..|ing.rules|] == hosts;
  }

  ghost predicate RuledIn(ingresses: Ingresses, order: seq<ObjectKey>, host: string) {
    exists k :: k in order && k in ingresses && host in RuleHosts(ingresses[k])
  }

  lemma RuledSnoc(ingresses: Ingresses, init: seq<ObjectKey>, k: ObjectKey, host: string)
    requires k in ingresses
    ensures RuledIn(ingresses, init + [k], host) <==> RuledIn(ingresses, init, host) || host in RuleHosts(ingresses[k])
  {
    if RuledIn(ingresses, init, host) {
      var j :| j in init && j in ingresses && host in RuleHosts(ingresses[j]);
      assert j in init + [k];
    }
    if host in RuleHosts(ingresses[k]) {
      assert k in init + [k];
    }
  }

  /** A host is materialised exactly when some ingress has a rule for it, and into rows of its own. */
  lemma {:induction false} MaterializeIsFor(services: Services, ingresses: Ingresses, order: seq<ObjectKey>,
                                            host: string)
    requires forall k :: k in order ==> k in ingresses
    ensures Fitting(host, Materialize(services, ingresses, order, host))
    ensures Materialize(services, ingresses, order, host).Some? <==> RuledIn(ingresses, order, host)
  {
    if order != [] {
      var n := |order| - 1;
      var init, k := order[..n], order[n];
      assert order == init + [k];
      MaterializeIsFor(services, ingresses, init, host);
      AddIngressFits(services, ingresses[k], host, Materialize(services, ingresses, init, host));
      RuledSnoc(ingresses, init, k, host);
    }
  }
}
