/** What the ingresses and gateway routes emit into the per-host and per-port route tables. */
module RouteTables {
  import opened Options
  import opened Text
  import opened CertPaths
  import opened RouteChoice
  import K = IngressModel

  // ---- Resources ----------------------------------------------------------------------------------------

  datatype BackendRef = BackendRef(namespace: string, name: string, port: nat)
  datatype ParentRef = ParentRef(gateway: string, section: string)
  datatype Rule = Rule(path: string, exact: bool, backend: BackendRef)
  datatype Listener = Listener(name: string, hostname: string, port: nat, passthrough: bool, kind: RouteKind)
  datatype Family = HttpFamily | GrpcFamily | TlsFamily | TcpFamily | UdpFamily
  /** An HTTP or GRPC route has rules; a TLS, TCP or UDP route has the one backend. */
  datatype GatewayRoute = GatewayRoute(family: Family, namespace: string, name: string, hostnames: seq<string>,
                                       parents: seq<ParentRef>, rules: seq<Rule>, backend: BackendRef)

  type Gateway = map<string, Listener>
  type RouteKey = (Family, string)

  /** `routes` is the five route maps as one. */
  datatype Resources = Resources(ingresses: K.Ingresses, services: K.Services,
                                 gateways: map<string, Gateway>, routes: map<RouteKey, GatewayRoute>)

  // ---- Slots and emissions ------------------------------------------------------------------------------

  datatype Table = HttpTable | HttpsTable | GrpcTable | TlsTable | TcpTable | UdpTable

  datatype Slot = HostSlot(table: Table, host: string) | PortSlot(table: Table, port: nat)

  datatype Emission = Emission(slot: Slot, route: Route)

  function TableOf(k: RouteKind): Table {
    match k
    case HTTP => HttpTable
    case HTTPS => HttpsTable
    case GRPC => GrpcTable
    case TLSTerminate => TlsTable
    case TLSPassthrough => TlsTable
    case TCP => TcpTable
    case UDP => UdpTable
  }

  function KindName(k: RouteKind): string {
    match k
    case HTTP => "http"
    case HTTPS => "https"
    case GRPC => "grpc"
    case TLSTerminate => "tls-terminate"
    case TLSPassthrough => "tls-passthrough"
    case TCP => "tcp"
    case UDP => "udp"
  }

  function RouteHost(host: string): string { Sanitize(BareHost(host)) }

  /** A sanitised name stays, and loses a scheme before it and a port behind it; what is no name becomes empty. */
  lemma RouteHostIs(scheme: string, name: string, port: string)
    requires Sanitized(name) && scheme in {"", "http://", "https://"}
    requires port == "" || (port[0] == ':' && Digital(port[1..]))
    ensures RouteHost(scheme + name + port) == name
  {
    SanitizedText(name);
    SanitizeFixed(name);
    NoColon(name);
    BareHostIs(scheme, name, port);
  }

  lemma NoColon(name: string)
    requires Sanitized(name)
    ensures ':' !in name && name != "" && !IsSpace(name[0]) && !IsSpace(name[|name| - 1])
  {
    SanitizedShape(name);
    if Plain(name) {
      LabelChars(name);
    } else {
      LabelChars(name[2..]);
      assert name == Star + name[2..];
    }
  }

  /** Blanks around a host and letter case do not count. */
  lemma RouteHostBlind(a: string, host: string, b: string)
    requires All(a, IsSpace) && All(b, IsSpace)
    ensures RouteHost(a + host + b) == RouteHost(host) == RouteHost(ToLower(host))
  {
    BareHostBlind(a, host, b);
  }

  function RouteHosts(hosts: seq<string>): (r: seq<string>)
    ensures |r| == |hosts|
  {
    seq(|hosts|, i requires 0 <= i < |hosts| => RouteHost(hosts[i]))
  }

  function NonEmpty(hosts: seq<string>): seq<string> {
    if hosts == [] then []
    else NonEmpty(hosts[..|hosts| - 1]) + if hosts[|hosts| - 1] == "" then [] else [hosts[|hosts| - 1]]
  }

  /** The route's own hosts, or the listener's if it names none. */
  function EffectiveHosts(routeHosts: seq<string>, listenerHost: string): seq<string> {
    NonEmpty(RouteHosts(Chosen(routeHosts, listenerHost)))
  }

  function Chosen(routeHosts: seq<string>, listenerHost: string): seq<string> {
    if routeHosts != [] then routeHosts else [listenerHost]
  }

  function ServiceAddress(name: string, namespace: string): string { name + "." + namespace + ".svc.cluster.local" }

  // ---- Gateway routes -----------------------------------------------------------------------------------

  function BindingId(kind: RouteKind, r: GatewayRoute, backend: string, order: nat): string {
    "k8s:" + KindName(kind) + ":" + r.namespace + ":" + r.name + ":" + backend + ":" + Decimal(order)
  }

  function Target(b: BackendRef): Backend { Backend(b.namespace, b.name, ServiceAddress(b.name, b.namespace), b.port) }

  predicate InSection(l: Listener, p: ParentRef) { p.section == "" || l.name == p.section }

  predicate HasRules(f: Family) { f.HttpFamily? || f.GrpcFamily? }

  /** The kind a listener gives the routes of a family, if it admits them. */
  function EmittedKind(family: Family, l: Listener): Option<RouteKind> {
    match family
    case HttpFamily => if l.kind == HTTP || l.kind == HTTPS then Some(l.kind) else None
    case GrpcFamily => if l.kind == GRPC || l.kind == HTTP then Some(GRPC) else None
    case TlsFamily => if l.kind == TLSTerminate then Some(if l.passthrough then TLSPassthrough else TLSTerminate)
    else None
    case TcpFamily => if l.kind == TCP then Some(TCP) else None
    case UdpFamily => if l.kind == UDP then Some(UDP) else None
  }

  /** The hosts a route is emitted for on a listener. */
  function EmittedHosts(r: GatewayRoute, l: Listener): seq<string> {
    var hosts := EffectiveHosts(r.hostnames, l.hostname);
    if HasRules(r.family) || hosts != [] then hosts else [l.hostname]
  }

  /** Rule `i` of an HTTP or GRPC route on one host. */
  function RuleEmission(r: GatewayRoute, l: Listener, kind: RouteKind, host: string, i: nat): Emission
    requires i < |r.rules|
  {
    var rule := r.rules[i];
    Emission(HostSlot(TableOf(kind), host),
             Route(kind, host, l.port, NormalizePath(rule.path), rule.exact, i,
                   BindingId(kind, r, rule.backend.name, i), Target(rule.backend)))
  }

  /** A TLS route is kept by host, a TCP or UDP route by port; a passed-through TLS route keeps its terminating id. */
  function L4Emission(r: GatewayRoute, l: Listener, kind: RouteKind, host: string): Emission {
    var named := if r.family.TlsFamily? then TLSTerminate else kind;
    Emission(if r.family.TlsFamily? then HostSlot(TlsTable, host) else PortSlot(TableOf(kind), l.port),
             Route(kind, host, l.port, "/", false, 0, BindingId(named, r, r.backend.name, 0), Target(r.backend)))
  }

  function RuleEmissions(r: GatewayRoute, l: Listener, kind: RouteKind, host: string): (es: seq<Emission>)
    ensures |es| == |r.rules|
    ensures forall i :: 0 <= i < |es| ==> es[i] == RuleEmission(r, l, kind, host, i)
  {
    seq(|r.rules|, i requires 0 <= i < |r.rules| => RuleEmission(r, l, kind, host, i))
  }

  /** Everything one host contributes, in order. */
  function OnHost(r: GatewayRoute, l: Listener, kind: RouteKind, host: string): seq<Emission> {
    if HasRules(r.family) then RuleEmissions(r, l, kind, host)
    else if r.family.TlsFamily? && host == "" then []
    else [L4Emission(r, l, kind, host)]
  }

  function OnHosts(r: GatewayRoute, l: Listener, kind: RouteKind, hosts: seq<string>, n: nat): set<Emission>
    requires n <= |hosts|
  {
    set i, e | 0 <= i < n && e in OnHost(r, l, kind, hosts[i]) :: e
  }

  function OnListener(r: GatewayRoute, p: ParentRef, l: Listener): set<Emission> {
    if !InSection(l, p) then {} else
    match EmittedKind(r.family, l)
    case None => {}
    case Some(kind) => var hosts := EmittedHosts(r, l); OnHosts(r, l, kind, hosts, |hosts|)
  }

  function OnGateway(r: GatewayRoute, p: ParentRef, g: Gateway, names: set<string>): set<Emission>
    requires names <= g.Keys
  {
    set n, e | n in names && e in OnListener(r, p, g[n]) :: e
  }

  function OnParent(r: GatewayRoute, p: ParentRef, gateways: map<string, Gateway>): set<Emission> {
    if p.gateway in gateways then OnGateway(r, p, gateways[p.gateway], gateways[p.gateway].Keys) else {}
  }

  function OfParents(r: GatewayRoute, gateways: map<string, Gateway>, n: nat): set<Emission>
    requires n <= |r.parents|
  {
    set i, e | 0 <= i < n && e in OnParent(r, r.parents[i], gateways) :: e
  }

  function OfRoutes(routes: map<RouteKey, GatewayRoute>, keys: set<RouteKey>,
                    gateways: map<string, Gateway>): set<Emission>
    requires keys <= routes.Keys
  {
    set k, e | k in keys && e in OfParents(routes[k], gateways, |routes[k].parents|) :: e
  }

  // ---- Ingresses ----------------------------------------------------------------------------------------

  /** An external service is reached under its own name, any other under its cluster name. */
  function IngressAddress(services: K.Services, key: K.ObjectKey): string {
    var external := if key in services && services[key].isExternal then RouteHost(services[key].externalName) else "";
    if external != "" then external else ServiceAddress(key.name, key.namespace)
  }

  function PathEmission(ing: K.Ingress, services: K.Services, host: string, paths: seq<K.PathRule>, i: nat): Emission
    requires i < |paths| && paths[i].service.Some?
  {
    var service := paths[i].service.value;
    var id := "k8s:ingress:" + ing.key.namespace + ":" + ing.key.name + ":" + host + ":" + Decimal(i);
    var port := if service.port > 0 then service.port else 80;
    Emission(HostSlot(HttpTable, host),
             Route(HTTP, host, 80, NormalizePath(paths[i].path), paths[i].exact, 0, id,
                   Backend(ing.key.namespace, service.name,
                           IngressAddress(services, K.ObjectKey(ing.key.namespace, service.name)), port)))
  }

  function OfPaths(ing: K.Ingress, services: K.Services, host: string, paths: seq<K.PathRule>, n: nat): set<Emission>
    requires n <= |paths|
  {
    set i | 0 <= i < n && paths[i].service.Some? :: PathEmission(ing, services, host, paths, i)
  }

  function RuleHosts(rules: seq<K.Rule>): (r: seq<string>)
    ensures |r| == |rules|
  {
    seq(|rules|, i requires 0 <= i < |rules| => RouteHost(rules[i].host))
  }

  /** A rule counts under the normal form of its host, if it has one. */
  function OfRule(ing: K.Ingress, services: K.Services, host: string, paths: seq<K.PathRule>): set<Emission> {
    if host == "" then {} else OfPaths(ing, services, host, paths, |paths|)
  }

  function OfRules(ing: K.Ingress, services: K.Services, hosts: seq<string>, n: nat): set<Emission>
    requires n <= |ing.rules| == |hosts|
  {
    set i, e | 0 <= i < n && e in OfRule(ing, services, hosts[i], ing.rules[i].http) :: e
  }

  function OfIngress(ing: K.Ingress, services: K.Services): set<Emission> {
    OfRules(ing, services, RuleHosts(ing.rules), |ing.rules|)
  }

  function PerIngress(ingresses: K.Ingresses, services: K.Services): map<K.ObjectKey, set<Emission>> {
    map k | k in ingresses :: OfIngress(ingresses[k], services)
  }

  function Union(parts: map<K.ObjectKey, set<Emission>>, keys: set<K.ObjectKey>): set<Emission>
    requires keys <= parts.Keys
  {
    set k, e | k in keys && e in parts[k] :: e
  }

  function OfIngresses(ingresses: K.Ingresses, services: K.Services): set<Emission> {
    var parts := PerIngress(ingresses, services);
    Union(parts, parts.Keys)
  }

  function Emitted(s: Resources): set<Emission> {
    OfIngresses(s.ingresses, s.services) + OfRoutes(s.routes, s.routes.Keys, s.gateways)
  }

  // ---- What the resources ask for -------------------------------------------------------------------------

  predicate ByHost(kind: RouteKind) { kind != TCP && kind != UDP }

  lemma KindNamesAre()
    ensures KindName(HTTP) == "http" && KindName(HTTPS) == "https" && KindName(GRPC) == "grpc"
    ensures KindName(TLSTerminate) == "tls-terminate" && KindName(TLSPassthrough) == "tls-passthrough"
    ensures KindName(TCP) == "tcp" && KindName(UDP) == "udp"
  {
  }

  /** The backend is the service of this name: an external one under its own name, any other under its cluster name. */
  predicate IsIngressBackend(services: K.Services, namespace: string, service: K.ServiceRef, b: Backend) {
    && b.namespace == namespace && b.name == service.name && b.port == (if service.port > 0 then service.port else 80)
    && var key := K.ObjectKey(namespace, service.name);
       if key in services && services[key].isExternal && RouteHost(services[key].externalName) != "" then
         b.address == RouteHost(services[key].externalName)
       else b.address == service.name + "." + namespace + ".svc.cluster.local"
  }

  /** What path `j` of an ingress rule for the host asks for. */
  predicate IsPathRoute(ing: K.Ingress, services: K.Services, host: string, paths: seq<K.PathRule>, j: nat, r: Route) {
    && j < |paths| && paths[j].service.Some?
    && r.kind == HTTP && r.host == host && r.port == 80
    && r.path == NormalizePath(paths[j].path) && r.exact == paths[j].exact && r.order == 0
    && r.id == "k8s:ingress:" + ing.key.namespace + ":" + ing.key.name + ":" + host + ":" + Decimal(j)
    && IsIngressBackend(services, ing.key.namespace, paths[j].service.value, r.backend)
  }

  /** The backend is the service referred to, under its cluster name. */
  predicate IsBackend(ref: BackendRef, b: Backend) {
    && b.namespace == ref.namespace && b.name == ref.name && b.port == ref.port
    && b.address == ref.name + "." + ref.namespace + ".svc.cluster.local"
  }

  /** What rule `i` of an HTTP or GRPC route asks for on a host of a listener. */
  predicate IsRuleRoute(g: GatewayRoute, l: Listener, host: string, i: nat, r: Route) {
    && i < |g.rules| && r.host == host && r.port == l.port
    && r.path == NormalizePath(g.rules[i].path) && r.exact == g.rules[i].exact && r.order == i
    && r.id == RouteText(KindName(r.kind), g, g.rules[i].backend.name, i) && IsBackend(g.rules[i].backend, r.backend)
  }

  /** What a TLS, TCP or UDP route asks for. A passed-through TLS route keeps its terminating id. */
  predicate IsL4Route(g: GatewayRoute, l: Listener, host: string, r: Route) {
    && r.host == host && r.port == l.port && r.path == "/" && !r.exact && r.order == 0
    && r.id == RouteText(if r.kind == TLSPassthrough then "tls-terminate" else KindName(r.kind), g, g.backend.name, 0)
    && IsBackend(g.backend, r.backend)
  }

  function RouteText(kind: string, g: GatewayRoute, backend: string, order: nat): string {
    "k8s:" + kind + ":" + g.namespace + ":" + g.name + ":" + backend + ":" + Decimal(order)
  }

  predicate Ruled(f: Family) { f == HttpFamily || f == GrpcFamily }

  /** The listener takes routes of the family in, as routes of this kind. */
  predicate Admits(l: Listener, f: Family, kind: RouteKind) {
    || (f == HttpFamily && l.kind == kind && (kind == HTTP || kind == HTTPS))
    || (f == GrpcFamily && kind == GRPC && (l.kind == GRPC || l.kind == HTTP))
    || (f == TlsFamily && l.kind == TLSTerminate && kind == if l.passthrough then TLSPassthrough else TLSTerminate)
    || (f == TcpFamily && l.kind == kind == TCP)
    || (f == UdpFamily && l.kind == kind == UDP)
  }

  /** The names a route goes by on a listener: its own, or if it has none the listener's. */
  function Names(g: GatewayRoute, l: Listener): seq<string> {
    Chosen(g.hostnames, l.hostname)
  }

  lemma NamesAre(g: GatewayRoute, l: Listener)
    ensures g.hostnames == [] ==> Names(g, l) == [l.hostname]
    ensures g.hostnames != [] ==> Names(g, l) == g.hostnames
  {
  }

  /** The route goes by this host, given the normal forms of its names. A route without rules none of whose names is
      valid takes the listener's name as it is. */
  ghost predicate GoesBy(g: GatewayRoute, l: Listener, named: seq<string>, host: string) {
    if exists i :: 0 <= i < |named| && named[i] != "" then host != "" && host in named
    else !Ruled(g.family) && host == l.hostname
  }

  /** What the route asks for through a listener of a parent's section. */
  ghost predicate ListenerAsks(g: GatewayRoute, p: ParentRef, l: Listener, r: Route) {
    && (p.section == "" || l.name == p.section) && Admits(l, g.family, r.kind)
    && GoesBy(g, l, RouteHosts(Names(g, l)), r.host)
    && if Ruled(g.family) then exists i: nat :: IsRuleRoute(g, l, r.host, i, r)
       else IsL4Route(g, l, r.host, r) && (g.family == TlsFamily ==> r.host != "")
  }

  ghost predicate ParentAsks(g: GatewayRoute, p: ParentRef, gateways: map<string, Gateway>, r: Route) {
    && p.gateway in gateways
    && exists n :: n in gateways[p.gateway] && ListenerAsks(g, p, gateways[p.gateway][n], r)
  }

  ghost predicate RouteAsks(g: GatewayRoute, gateways: map<string, Gateway>, r: Route) {
    exists i :: 0 <= i < |g.parents| && ParentAsks(g, g.parents[i], gateways, r)
  }

  /** What some rule of an ingress for a valid host asks for, given the normal hosts of its rules. */
  ghost predicate IngressAsks(ing: K.Ingress, services: K.Services, hosts: seq<string>, r: Route)
    requires |hosts| == |ing.rules|
  {
    exists i, j: nat :: 0 <= i < |hosts| && hosts[i] == r.host && r.host != "" &&
                        IsPathRoute(ing, services, r.host, ing.rules[i].http, j, r)
  }

  /** Some ingress path, or some gateway route through a parent and a listener, asks for the route. */
  ghost predicate AsksFor(s: Resources, r: Route) {
    || (exists k :: k in s.ingresses && IngressAsks(s.ingresses[k], s.services, RuleHosts(s.ingresses[k].rules), r))
    || (exists k :: k in s.routes && RouteAsks(s.routes[k], s.gateways, r))
  }

  /** The table a route stands in: by host, or for TCP and UDP by port. */
  function SlotOf(r: Route): Slot {
    if ByHost(r.kind) then HostSlot(TableOf(r.kind), r.host) else PortSlot(TableOf(r.kind), r.port)
  }

  lemma HostsAre(hosts: seq<string>, rules: seq<K.Rule>, i: nat)
    ensures i < |hosts| ==> RouteHosts(hosts)[i] == RouteHost(hosts[i])
    ensures i < |rules| ==> RuleHosts(rules)[i] == RouteHost(rules[i].host)
  {
  }

  // ---- Emissions are what is asked for ----------------------------------------------------------------------

  lemma PathEmissionIs(ing: K.Ingress, services: K.Services, host: string, paths: seq<K.PathRule>, j: nat, r: Route)
    requires j < |paths| && paths[j].service.Some?
    ensures IsPathRoute(ing, services, host, paths, j, r) <==> r == PathEmission(ing, services, host, paths, j).route
    ensures var e := PathEmission(ing, services, host, paths, j); e.slot == SlotOf(e.route)
  {
    BackendIs(services, ing.key.namespace, paths[j].service.value, r.backend);
  }

  lemma BackendIs(services: K.Services, namespace: string, service: K.ServiceRef, b: Backend)
    ensures IsIngressBackend(services, namespace, service, b) <==>
            b == Backend(namespace, service.name, IngressAddress(services, K.ObjectKey(namespace, service.name)),
                         if service.port > 0 then service.port else 80)
  {
  }

  lemma OfPathsIs(ing: K.Ingress, services: K.Services, host: string, paths: seq<K.PathRule>, slot: Slot, r: Route)
    ensures Emission(slot, r) in OfPaths(ing, services, host, paths, |paths|) <==>
            slot == SlotOf(r) && exists j: nat :: IsPathRoute(ing, services, host, paths, j, r)
  {
    var es := OfPaths(ing, services, host, paths, |paths|);
    if Emission(slot, r) in es {
      var j :| 0 <= j < |paths| && paths[j].service.Some? &&
               Emission(slot, r) == PathEmission(ing, services, host, paths, j);
      PathEmissionIs(ing, services, host, paths, j, r);
    }
    if j: nat :| IsPathRoute(ing, services, host, paths, j, r) {
      PathEmissionIs(ing, services, host, paths, j, r);
      assert PathEmission(ing, services, host, paths, j) in es;
    }
  }

  lemma OfRulesIs(ing: K.Ingress, services: K.Services, hosts: seq<string>, slot: Slot, r: Route)
    requires |hosts| == |ing.rules|
    ensures Emission(slot, r) in OfRules(ing, services, hosts, |ing.rules|) <==>
            slot == SlotOf(r) && IngressAsks(ing, services, hosts, r)
  {
    var es := OfRules(ing, services, hosts, |ing.rules|);
    if Emission(slot, r) in es {
      var i :| 0 <= i < |hosts| && Emission(slot, r) in OfRule(ing, services, hosts[i], ing.rules[i].http);
      OfPathsIs(ing, services, hosts[i], ing.rules[i].http, slot, r);
      var j: nat :| IsPathRoute(ing, services, hosts[i], ing.rules[i].http, j, r);
      assert hosts[i] == r.host && IsPathRoute(ing, services, r.host, ing.rules[i].http, j, r);
    }
    if slot == SlotOf(r) && IngressAsks(ing, services, hosts, r) {
      var i, j: nat :| 0 <= i < |hosts| && hosts[i] == r.host && r.host != "" &&
                       IsPathRoute(ing, services, r.host, ing.rules[i].http, j, r);
      OfPathsIs(ing, services, hosts[i], ing.rules[i].http, slot, r);
      assert Emission(slot, r) in OfRule(ing, services, hosts[i], ing.rules[i].http);
    }
  }

  lemma OfIngressesIs(ingresses: K.Ingresses, services: K.Services, slot: Slot, r: Route)
    ensures Emission(slot, r) in OfIngresses(ingresses, services) <==>
            && slot == SlotOf(r)
            && exists k :: k in ingresses && IngressAsks(ingresses[k], services, RuleHosts(ingresses[k].rules), r)
  {
    var parts := PerIngress(ingresses, services);
    if Emission(slot, r) in OfIngresses(ingresses, services) {
      var k :| k in parts && Emission(slot, r) in parts[k];
      OfRulesIs(ingresses[k], services, RuleHosts(ingresses[k].rules), slot, r);
    }
    if k :| k in ingresses && IngressAsks(ingresses[k], services, RuleHosts(ingresses[k].rules), r) {
      OfRulesIs(ingresses[k], services, RuleHosts(ingresses[k].rules), SlotOf(r), r);
      assert slot == SlotOf(r) ==> Emission(slot, r) in parts[k];
    }
  }

  lemma {:induction false} NonEmptyHas(hosts: seq<string>, h: string)
    ensures h in NonEmpty(hosts) <==> h in hosts && h != ""
  {
    if hosts != [] {
      var n := |hosts| - 1;
      NonEmptyHas(hosts[..n], h);
      assert hosts == hosts[..n] + [hosts[n]];
    }
  }

  lemma AllEmpty(named: seq<string>)
    ensures NonEmpty(named) != [] <==> exists i :: 0 <= i < |named| && named[i] != ""
  {
    forall i | 0 <= i < |named| ensures NonEmpty(named) == [] ==> named[i] == "" {
      NonEmptyHas(named, named[i]);
    }
    if NonEmpty(named) != [] {
      NonEmptyHas(named, NonEmpty(named)[0]);
    }
  }

  /** The hosts a route is emitted for are the names it goes by. */
  lemma EmittedForNames(g: GatewayRoute, l: Listener, host: string)
    ensures host in EmittedHosts(g, l) <==> GoesBy(g, l, RouteHosts(Names(g, l)), host)
  {
    var named := RouteHosts(Names(g, l));
    NonEmptyHas(named, host);
    AllEmpty(named);
    EmittedAre(g, l, named);
  }

  lemma EmittedAre(g: GatewayRoute, l: Listener, named: seq<string>)
    requires NonEmpty(named) == EffectiveHosts(g.hostnames, l.hostname)
    ensures EmittedHosts(g, l) == if Ruled(g.family) || NonEmpty(named) != [] then NonEmpty(named) else [l.hostname]
  {
  }

  lemma AdmittedKind(l: Listener, f: Family, kind: RouteKind)
    ensures Admits(l, f, kind) <==> EmittedKind(f, l) == Some(kind)
  {
  }

  lemma RuleEmissionIs(g: GatewayRoute, l: Listener, kind: RouteKind, host: string, i: nat, r: Route)
    requires i < |g.rules| && ByHost(kind)
    ensures r == RuleEmission(g, l, kind, host, i).route <==> r.kind == kind && IsRuleRoute(g, l, host, i, r)
    ensures RuleEmission(g, l, kind, host, i).slot == SlotOf(RuleEmission(g, l, kind, host, i).route)
  {
  }

  lemma L4EmissionIs(g: GatewayRoute, l: Listener, kind: RouteKind, host: string, r: Route)
    requires !Ruled(g.family) && Admits(l, g.family, kind)
    ensures r == L4Emission(g, l, kind, host).route <==> r.kind == kind && IsL4Route(g, l, host, r)
    ensures L4Emission(g, l, kind, host).slot == SlotOf(L4Emission(g, l, kind, host).route)
  {
  }

  lemma OnHostIs(g: GatewayRoute, l: Listener, kind: RouteKind, host: string, slot: Slot, r: Route)
    requires Admits(l, g.family, kind)
    ensures Emission(slot, r) in OnHost(g, l, kind, host) <==>
            && slot == SlotOf(r) && r.kind == kind
            && if Ruled(g.family) then exists i: nat :: IsRuleRoute(g, l, host, i, r)
               else IsL4Route(g, l, host, r) && (g.family == TlsFamily ==> host != "")
  {
    if Ruled(g.family) {
      RuleEmissionsAre(g, l, kind, host, slot, r);
    } else {
      L4EmissionIs(g, l, kind, host, r);
    }
  }

  lemma RuleEmissionsAre(g: GatewayRoute, l: Listener, kind: RouteKind, host: string, slot: Slot, r: Route)
    requires ByHost(kind)
    ensures Emission(slot, r) in RuleEmissions(g, l, kind, host) <==>
            slot == SlotOf(r) && r.kind == kind && exists i: nat :: IsRuleRoute(g, l, host, i, r)
  {
    var es := RuleEmissions(g, l, kind, host);
    if Emission(slot, r) in es {
      var i :| 0 <= i < |g.rules| && es[i] == Emission(slot, r);
      RuleEmissionIs(g, l, kind, host, i, r);
    }
    if i: nat :| IsRuleRoute(g, l, host, i, r) && slot == SlotOf(r) && r.kind == kind {
      RuleEmissionIs(g, l, kind, host, i, r);
      assert es[i] in es;
    }
  }

  lemma OnListenerIs(g: GatewayRoute, p: ParentRef, l: Listener, slot: Slot, r: Route)
    ensures Emission(slot, r) in OnListener(g, p, l) <==> slot == SlotOf(r) && ListenerAsks(g, p, l, r)
  {
    AdmittedKind(l, g.family, r.kind);
    if EmittedKind(g.family, l).Some? && InSection(l, p) {
      var kind, hosts := EmittedKind(g.family, l).value, EmittedHosts(g, l);
      AdmittedKind(l, g.family, kind);
      EmittedForNames(g, l, r.host);
      OnHostsIs(g, l, kind, hosts, slot, r);
    }
  }

  lemma OnHostsIs(g: GatewayRoute, l: Listener, kind: RouteKind, hosts: seq<string>, slot: Slot, r: Route)
    requires Admits(l, g.family, kind)
    ensures Emission(slot, r) in OnHosts(g, l, kind, hosts, |hosts|) <==>
            && slot == SlotOf(r) && r.kind == kind && r.host in hosts
            && if Ruled(g.family) then exists i: nat :: IsRuleRoute(g, l, r.host, i, r)
               else IsL4Route(g, l, r.host, r) && (g.family == TlsFamily ==> r.host != "")
  {
    var es := OnHosts(g, l, kind, hosts, |hosts|);
    OnHostIs(g, l, kind, r.host, slot, r);
    if Emission(slot, r) in es {
      var i :| 0 <= i < |hosts| && Emission(slot, r) in OnHost(g, l, kind, hosts[i]);
      OnHostIs(g, l, kind, hosts[i], slot, r);
    }
    if r.host in hosts && Emission(slot, r) in OnHost(g, l, kind, r.host) {
      var i :| 0 <= i < |hosts| && hosts[i] == r.host;
      assert Emission(slot, r) in es;
    }
  }

  lemma OnParentIs(g: GatewayRoute, p: ParentRef, gateways: map<string, Gateway>, slot: Slot, r: Route)
    ensures Emission(slot, r) in OnParent(g, p, gateways) <==> slot == SlotOf(r) && ParentAsks(g, p, gateways, r)
  {
    if p.gateway in gateways {
      var listeners := gateways[p.gateway];
      forall n | n in listeners
        ensures Emission(slot, r) in OnListener(g, p, listeners[n]) <==>
                slot == SlotOf(r) && ListenerAsks(g, p, listeners[n], r)
      {
        OnListenerIs(g, p, listeners[n], slot, r);
      }
    }
  }

  lemma OfParentsIs(g: GatewayRoute, gateways: map<string, Gateway>, slot: Slot, r: Route)
    ensures Emission(slot, r) in OfParents(g, gateways, |g.parents|) <==> slot == SlotOf(r) && RouteAsks(g, gateways, r)
  {
    forall i | 0 <= i < |g.parents|
      ensures Emission(slot, r) in OnParent(g, g.parents[i], gateways) <==>
              slot == SlotOf(r) && ParentAsks(g, g.parents[i], gateways, r)
    {
      OnParentIs(g, g.parents[i], gateways, slot, r);
    }
  }

  lemma OfRoutesIs(routes: map<RouteKey, GatewayRoute>, gateways: map<string, Gateway>, slot: Slot, r: Route)
    ensures Emission(slot, r) in OfRoutes(routes, routes.Keys, gateways) <==>
            slot == SlotOf(r) && exists k :: k in routes && RouteAsks(routes[k], gateways, r)
  {
    forall k | k in routes
      ensures Emission(slot, r) in OfParents(routes[k], gateways, |routes[k].parents|) <==>
              slot == SlotOf(r) && RouteAsks(routes[k], gateways, r)
    {
      OfParentsIs(routes[k], gateways, slot, r);
    }
  }

  /** A route is emitted exactly if the resources ask for it, and into its own table. */
  lemma EmittedIff(s: Resources, slot: Slot, r: Route)
    ensures Emission(slot, r) in Emitted(s) <==> slot == SlotOf(r) && AsksFor(s, r)
  {
    OfIngressesIs(s.ingresses, s.services, slot, r);
    OfRoutesIs(s.routes, s.gateways, slot, r);
  }

  // ---- Emitted paths ------------------------------------------------------------------------------------------

  lemma EmittedPathNormal(s: Resources, e: Emission)
    requires e in Emitted(s)
    ensures NormalizedPath(e.route.path)
  {
    if e in OfRoutes(s.routes, s.routes.Keys, s.gateways) {
      var k :| k in s.routes && e in OfParents(s.routes[k], s.gateways, |s.routes[k].parents|);
      RoutePathNormal(s.routes[k], s.gateways, e);
    } else {
      var parts := PerIngress(s.ingresses, s.services);
      var k :| k in parts && e in parts[k];
      IngressPathNormal(s.ingresses[k], s.services, RuleHosts(s.ingresses[k].rules), e);
    }
  }

  lemma IngressPathNormal(ing: K.Ingress, services: K.Services, hosts: seq<string>, e: Emission)
    requires |hosts| == |ing.rules| && e in OfRules(ing, services, hosts, |ing.rules|)
    ensures NormalizedPath(e.route.path)
  {
    var i :| 0 <= i < |hosts| && e in OfRule(ing, services, hosts[i], ing.rules[i].http);
  }

  lemma RoutePathNormal(r: GatewayRoute, gateways: map<string, Gateway>, e: Emission)
    requires e in OfParents(r, gateways, |r.parents|)
    ensures NormalizedPath(e.route.path)
  {
    var i :| 0 <= i < |r.parents| && e in OnParent(r, r.parents[i], gateways);
    var g := gateways[r.parents[i].gateway];
    var n :| n in g && e in OnListener(r, r.parents[i], g[n]);
    ListenerPathNormal(r, r.parents[i], g[n], e);
  }

  lemma ListenerPathNormal(r: GatewayRoute, p: ParentRef, l: Listener, e: Emission)
    requires e in OnListener(r, p, l)
    ensures NormalizedPath(e.route.path)
  {
    var kind, hosts := EmittedKind(r.family, l).value, EmittedHosts(r, l);
    var i :| 0 <= i < |hosts| && e in OnHost(r, l, kind, hosts[i]);
  }
}
