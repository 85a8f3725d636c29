/** Rebuilding the route tables after every change, and looking routes up in them. */
module RouteBridge {
  import opened Options
  import opened Text
  import opened RouteChoice
  import opened RouteTables
  import K = IngressModel

  type Tables = map<Slot, seq<Route>>

  function Contents(t: Tables, s: Slot): seq<Route> { if s in t then t[s] else [] }

  /** The tables hold exactly the emitted routes, each in its slot. */
  ghost predicate Hold(t: Tables, es: set<Emission>) {
    forall s, r :: r in Contents(t, s) <==> Emission(s, r) in es
  }

  function Append(t: Tables, e: Emission): Tables { t[e.slot := Contents(t, e.slot) + [e.route]] }

  lemma CoverOne(t: Tables, es: set<Emission>, e: Emission)
    requires Hold(t, es)
    ensures Hold(Append(t, e), es + {e})
  {
    forall s, r ensures r in Contents(Append(t, e), s) <==> Emission(s, r) in es + {e} {
      assert r in Contents(t, s) <==> Emission(s, r) in es;
    }
  }

  // ---- The nested loops ---------------------------------------------------------------------------------

  ghost function Elements(es: seq<Emission>): set<Emission> { set e | e in es }

  method AppendAll(t: Tables, news: seq<Emission>, ghost es: set<Emission>) returns (out: Tables)
    requires Hold(t, es)
    ensures Hold(out, es + Elements(news))
  {
    out := t;
    assert es + Elements([]) == es;
    for i := 0 to |news|
      invariant Hold(out, es + Elements(news[..i]))
    {
      CoverOne(out, es + Elements(news[..i]), news[i]);
      assert news[..i + 1] == news[..i] + [news[i]];
      assert es + Elements(news[..i]) + {news[i]} == es + Elements(news[..i + 1]);
      out := Append(out, news[i]);
    }
    assert news[..|news|] == news;
  }

  method AddHosts(t: Tables, r: GatewayRoute, l: Listener, kind: RouteKind, hosts: seq<string>, ghost es: set<Emission>)
    returns (out: Tables)
    requires Hold(t, es)
    ensures Hold(out, es + OnHosts(r, l, kind, hosts, |hosts|))
  {
    out := t;
    assert es + OnHosts(r, l, kind, hosts, 0) == es;
    for i := 0 to |hosts|
      invariant Hold(out, es + OnHosts(r, l, kind, hosts, i))
    {
      var news := OnHost(r, l, kind, hosts[i]);
      out := AppendAll(out, news, es + OnHosts(r, l, kind, hosts, i));
      NextHost(r, l, kind, hosts, i, es);
    }
  }

  lemma NextHost(r: GatewayRoute, l: Listener, kind: RouteKind, hosts: seq<string>, i: nat, es: set<Emission>)
    requires i < |hosts|
    ensures es + OnHosts(r, l, kind, hosts, i) + Elements(OnHost(r, l, kind, hosts[i]))
             == es + OnHosts(r, l, kind, hosts, i + 1)
  {
  }

  method AddListener(t: Tables, r: GatewayRoute, p: ParentRef, l: Listener, ghost es: set<Emission>)
    returns (out: Tables)
    requires Hold(t, es)
    ensures Hold(out, es + OnListener(r, p, l))
  {
    if !InSection(l, p) || EmittedKind(r.family, l).None? {
      assert es + {} == es;
      return t;
    }
    out := AddHosts(t, r, l, EmittedKind(r.family, l).value, EmittedHosts(r, l), es);
  }

  method AddListeners(t: Tables, r: GatewayRoute, p: ParentRef, g: Gateway, ghost es: set<Emission>)
    returns (out: Tables)
    requires Hold(t, es)
    ensures Hold(out, es + OnGateway(r, p, g, g.Keys))
  {
    out := t;
    var rest := g.Keys;
    assert es + OnGateway(r, p, g, {}) == es;
    while rest != {}
      invariant rest <= g.Keys
      invariant Hold(out, es + OnGateway(r, p, g, g.Keys - rest))
    {
      var n :| n in rest;
      out := AddListener(out, r, p, g[n], es + OnGateway(r, p, g, g.Keys - rest));
      NextListener(r, p, g, rest, n, es);
      rest := rest - {n};
    }
    assert g.Keys - {} == g.Keys;
  }

  lemma NextListener(r: GatewayRoute, p: ParentRef, g: Gateway, rest: set<string>, n: string, es: set<Emission>)
    requires n in rest && rest <= g.Keys
    ensures es + OnGateway(r, p, g, g.Keys - rest) + OnListener(r, p, g[n])
             == es + OnGateway(r, p, g, g.Keys - (rest - {n}))
  {
  }

  method AddParents(t: Tables, r: GatewayRoute, gateways: map<string, Gateway>, ghost es: set<Emission>)
    returns (out: Tables)
    requires Hold(t, es)
    ensures Hold(out, es + OfParents(r, gateways, |r.parents|))
  {
    out := t;
    assert es + OfParents(r, gateways, 0) == es;
    for i := 0 to |r.parents|
      invariant Hold(out, es + OfParents(r, gateways, i))
    {
      NextParent(r, gateways, i, es);
      if r.parents[i].gateway !in gateways {
        assert es + OfParents(r, gateways, i) + {} == es + OfParents(r, gateways, i);
        continue;
      }
      out := AddListeners(out, r, r.parents[i], gateways[r.parents[i].gateway], es + OfParents(r, gateways, i));
    }
  }

  lemma NextParent(r: GatewayRoute, gateways: map<string, Gateway>, i: nat, es: set<Emission>)
    requires i < |r.parents|
    ensures es + OfParents(r, gateways, i) + OnParent(r, r.parents[i], gateways) == es + OfParents(r, gateways, i + 1)
  {
  }

  method AddRoutes(t: Tables, routes: map<RouteKey, GatewayRoute>, gateways: map<string, Gateway>,
                   ghost es: set<Emission>)
    returns (out: Tables)
    requires Hold(t, es)
    ensures Hold(out, es + OfRoutes(routes, routes.Keys, gateways))
  {
    out := t;
    var rest := routes.Keys;
    assert es + OfRoutes(routes, {}, gateways) == es;
    while rest != {}
      invariant rest <= routes.Keys
      invariant Hold(out, es + OfRoutes(routes, routes.Keys - rest, gateways))
    {
      var k :| k in rest;
      out := AddParents(out, routes[k], gateways, es + OfRoutes(routes, routes.Keys - rest, gateways));
      NextRoute(routes, gateways, rest, k, es);
      rest := rest - {k};
    }
    assert routes.Keys - {} == routes.Keys;
  }

  lemma NextRoute(routes: map<RouteKey, GatewayRoute>, gateways: map<string, Gateway>, rest: set<RouteKey>,
                  k: RouteKey, es: set<Emission>)
    requires k in rest && rest <= routes.Keys
    ensures es + OfRoutes(routes, routes.Keys - rest, gateways) + OfParents(routes[k], gateways, |routes[k].parents|)
         == es + OfRoutes(routes, routes.Keys - (rest - {k}), gateways)
  {
  }

  method AddPaths(t: Tables, ing: K.Ingress, services: K.Services, host: string, paths: seq<K.PathRule>,
                  ghost es: set<Emission>)
    returns (out: Tables)
    requires Hold(t, es)
    ensures Hold(out, es + OfPaths(ing, services, host, paths, |paths|))
  {
    out := t;
    assert es + OfPaths(ing, services, host, paths, 0) == es;
    for i := 0 to |paths|
      invariant Hold(out, es + OfPaths(ing, services, host, paths, i))
    {
      NextPath(ing, services, host, paths, i, es);
      if paths[i].service.None? {
        continue;
      }
      var e := PathEmission(ing, services, host, paths, i);
      CoverOne(out, es + OfPaths(ing, services, host, paths, i), e);
      out := Append(out, e);
    }
  }

  lemma NextPath(ing: K.Ingress, services: K.Services, host: string, paths: seq<K.PathRule>, i: nat, es: set<Emission>)
    requires i < |paths|
    ensures es + OfPaths(ing, services, host, paths, i)
              + (if paths[i].service.Some? then {PathEmission(ing, services, host, paths, i)} else {})
         == es + OfPaths(ing, services, host, paths, i + 1)
  {
  }

  method AddRules(t: Tables, ing: K.Ingress, services: K.Services, hosts: seq<string>, ghost es: set<Emission>)
    returns (out: Tables)
    requires Hold(t, es) && |hosts| == |ing.rules|
    ensures Hold(out, es + OfRules(ing, services, hosts, |ing.rules|))
  {
    out := t;
    assert es + OfRules(ing, services, hosts, 0) == es;
    for i := 0 to |ing.rules|
      invariant Hold(out, es + OfRules(ing, services, hosts, i))
    {
      NextRule(ing, services, hosts, i, es);
      if hosts[i] == "" {
        assert es + OfRules(ing, services, hosts, i) + {} == es + OfRules(ing, services, hosts, i);
        continue;
      }
      out := AddPaths(out, ing, services, hosts[i], ing.rules[i].http, es + OfRules(ing, services, hosts, i));
    }
  }

  lemma NextRule(ing: K.Ingress, services: K.Services, hosts: seq<string>, i: nat, es: set<Emission>)
    requires i < |ing.rules| == |hosts|
    ensures es + OfRules(ing, services, hosts, i) + OfRule(ing, services, hosts[i], ing.rules[i].http)
             == es + OfRules(ing, services, hosts, i + 1)
  {
  }

  method AddIngress(t: Tables, ing: K.Ingress, services: K.Services, ghost es: set<Emission>) returns (out: Tables)
    requires Hold(t, es)
    ensures Hold(out, es + OfIngress(ing, services))
  {
    var hosts := RuleHosts(ing.rules);
    out := AddRules(t, ing, services, hosts, es);
  }

  method AddIngresses(t: Tables, ingresses: K.Ingresses, services: K.Services, ghost es: set<Emission>)
    returns (out: Tables)
    requires Hold(t, es)
    ensures Hold(out, es + OfIngresses(ingresses, services))
  {
    out := t;
    ghost var parts := PerIngress(ingresses, services);
    var rest := ingresses.Keys;
    assert parts.Keys == rest;
    assert es + Union(parts, {}) == es;
    while rest != {}
      invariant rest <= ingresses.Keys
      invariant Hold(out, es + Union(parts, parts.Keys - rest))
    {
      var k :| k in rest;
      out := AddIngress(out, ingresses[k], services, es + Union(parts, parts.Keys - rest));
      NextIngress(parts, rest, k, es);
      rest := rest - {k};
    }
    assert parts.Keys - {} == parts.Keys;
  }

  lemma NextIngress(parts: map<K.ObjectKey, set<Emission>>, rest: set<K.ObjectKey>, k: K.ObjectKey, es: set<Emission>)
    requires k in rest && rest <= parts.Keys
    ensures es + Union(parts, parts.Keys - rest) + parts[k] == es + Union(parts, parts.Keys - (rest - {k}))
  {
  }

  // ---- Lookups ------------------------------------------------------------------------------------------

  /** `r` is emitted for the host and answers the request. */
  ghost predicate Answers(es: set<Emission>, kind: RouteKind, host: string, path: string, r: Route) {
    Emission(HostSlot(TableOf(kind), host), r) in es && Matches(r, kind, path)
  }

  /** A bridge to Kubernetes: the resources it has seen and the tables rebuilt from them. */
  class K8sBridge {
    const ingressClass: string
    var resources: Resources
    var tables: Tables

    ghost predicate Valid()
      reads this
    {
      Hold(tables, Emitted(resources))
    }

    constructor (className: string)
      ensures Valid() && ingressClass == TrimSpace(className) && resources == Resources(map[], map[], map[], map[])
    {
      ingressClass, resources, tables := TrimSpace(className), Resources(map[], map[], map[], map[]), map[];
    }

    method Rebuild()
      modifies this`tables
      ensures Valid()
    {
      var t := AddIngresses(map[], resources.ingresses, resources.services, {});
      ghost var es := OfIngresses(resources.ingresses, resources.services);
      assert {} + es == es;
      tables := AddRoutes(t, resources.routes, resources.gateways, es);
    }

    /** An ingress of another class is dropped. */
    method StoreIngress(ing: K.Ingress)
      modifies this
      ensures Valid()
      ensures K.MatchesClass(ing, ingressClass) ==>
                resources == old(resources).(ingresses := old(resources).ingresses[ing.key := ing])
      ensures !K.MatchesClass(ing, ingressClass) ==>
                resources == old(resources).(ingresses := old(resources).ingresses - {ing.key})
    {
      if K.MatchesClass(ing, ingressClass) {
        resources := resources.(ingresses := resources.ingresses[ing.key := ing]);
      } else {
        resources := resources.(ingresses := resources.ingresses - {ing.key});
      }
      Rebuild();
    }

    method DeleteIngress(key: K.ObjectKey)
      modifies this
      ensures Valid() && resources == old(resources).(ingresses := old(resources).ingresses - {key})
    {
      resources := resources.(ingresses := resources.ingresses - {key});
      Rebuild();
    }

    method StoreService(svc: K.Service)
      modifies this
      ensures Valid() && resources == old(resources).(services := old(resources).services[svc.key := svc])
    {
      resources := resources.(services := resources.services[svc.key := svc]);
      Rebuild();
    }

    method DeleteService(key: K.ObjectKey)
      modifies this
      ensures Valid() && resources == old(resources).(services := old(resources).services - {key})
    {
      resources := resources.(services := resources.services - {key});
      Rebuild();
    }

    method StoreGateway(key: string, g: Gateway)
      modifies this
      ensures Valid() && resources == old(resources).(gateways := old(resources).gateways[key := g])
    {
      resources := resources.(gateways := resources.gateways[key := g]);
      Rebuild();
    }

    method DeleteGateway(key: string)
      modifies this
      ensures Valid() && resources == old(resources).(gateways := old(resources).gateways - {key})
    {
      resources := resources.(gateways := resources.gateways - {key});
      Rebuild();
    }

    method StoreRoute(key: string, r: GatewayRoute)
      modifies this
      ensures Valid() && resources == old(resources).(routes := old(resources).routes[(r.family, key) := r])
    {
      resources := resources.(routes := resources.routes[(r.family, key) := r]);
      Rebuild();
    }

    method DeleteRoute(family: Family, key: string)
      modifies this
      ensures Valid() && resources == old(resources).(routes := old(resources).routes - {(family, key)})
    {
      resources := resources.(routes := resources.routes - {(family, key)});
      Rebuild();
    }

    /** It succeeds exactly when the resources ask for a route of this kind and host that covers the path, and then
        with one that stands behind no other. */
    method ResolveHostPath(kind: RouteKind, host: string, path: string) returns (selected: Option<Route>)
      requires Valid()
      ensures selected.Some?
             <==> RouteHost(host) != "" && ByHost(kind) && exists r :: Serves(resources, kind, RouteHost(host), path, r)
      ensures selected.Some? ==> Serves(resources, kind, RouteHost(host), path, selected.value)
      ensures selected.Some? ==>
                forall r :: Serves(resources, kind, RouteHost(host), path, r) ==> NotBehind(selected.value, r)
    {
      var name := RouteHost(host);
      if name == "" || !ByHost(kind) {
        return None;
      }
      var routes := Contents(tables, HostSlot(TableOf(kind), name));
      selected := SelectRoute(routes, path, kind);
      Looked(tables, Emitted(resources), kind, name, path, selected);
      forall r ensures Serves(resources, kind, name, path, r) <==> Answers(Emitted(resources), kind, name, path, r) {
        ServesIff(resources, kind, name, path, r);
      }
    }

    /** Some route the resources ask for on the port, if there is one. */
    method ResolvePort(kind: RouteKind, port: nat) returns (selected: Option<Route>)
      requires Valid()
      ensures selected.Some? <==> !ByHost(kind) && exists r :: ServesPort(resources, kind, port, r)
      ensures selected.Some? ==> ServesPort(resources, kind, port, selected.value)
    {
      if ByHost(kind) {
        return None;
      }
      var routes := Contents(tables, PortSlot(TableOf(kind), port));
      OnPort(tables, resources, kind, port);
      selected := if routes == [] then None else Some(routes[0]);
    }
  }

  lemma OnPort(t: Tables, s: Resources, kind: RouteKind, port: nat)
    requires Hold(t, Emitted(s)) && !ByHost(kind)
    ensures var routes := Contents(t, PortSlot(TableOf(kind), port));
            && (routes != [] ==> ServesPort(s, kind, port, routes[0]))
            && (forall r :: ServesPort(s, kind, port, r) ==> routes != [])
  {
    var routes := Contents(t, PortSlot(TableOf(kind), port));
    if routes != [] {
      OnPortIff(t, s, kind, port, routes[0]);
    }
    forall r | ServesPort(s, kind, port, r) ensures routes != [] {
      OnPortIff(t, s, kind, port, r);
    }
  }

  lemma OnPortIff(t: Tables, s: Resources, kind: RouteKind, port: nat, r: Route)
    requires Hold(t, Emitted(s)) && !ByHost(kind)
    ensures r in Contents(t, PortSlot(TableOf(kind), port)) <==> ServesPort(s, kind, port, r)
  {
    Held(t, Emitted(s), PortSlot(TableOf(kind), port));
    ServesPortIff(s, kind, port, r);
  }

  lemma ServesPortIff(s: Resources, kind: RouteKind, port: nat, r: Route)
    requires !ByHost(kind)
    ensures ServesPort(s, kind, port, r) <==> Emission(PortSlot(TableOf(kind), port), r) in Emitted(s)
  {
    PortSlotIs(r, kind, port);
    EmittedIff(s, PortSlot(TableOf(kind), port), r);
  }

  lemma PortSlotIs(r: Route, kind: RouteKind, port: nat)
    requires !ByHost(kind)
    ensures SlotOf(r) == PortSlot(TableOf(kind), port) <==> r.kind == kind && r.port == port
  {
  }

  lemma HostSlotIs(r: Route, kind: RouteKind, host: string)
    requires ByHost(kind) && r.kind == kind
    ensures SlotOf(r) == HostSlot(TableOf(kind), host) <==> r.host == host
  {
  }

  /** The resources ask for the route, and it answers the request. */
  ghost predicate Serves(s: Resources, kind: RouteKind, host: string, path: string, r: Route) {
    AsksFor(s, r) && r.kind == kind && r.host == host && PathMatches(r.exact, r.path, path)
  }

  ghost predicate ServesPort(s: Resources, kind: RouteKind, port: nat, r: Route) {
    AsksFor(s, r) && r.kind == kind && r.port == port
  }

  lemma ServesIff(s: Resources, kind: RouteKind, host: string, path: string, r: Route)
    requires ByHost(kind)
    ensures Serves(s, kind, host, path, r) <==> Answers(Emitted(s), kind, host, path, r)
  {
    if r.kind == kind {
      HostSlotIs(r, kind, host);
    }
    EmittedIff(s, HostSlot(TableOf(kind), host), r);
  }

  lemma Held(t: Tables, es: set<Emission>, slot: Slot)
    requires Hold(t, es)
    ensures forall r :: r in Contents(t, slot) <==> Emission(slot, r) in es
    ensures Contents(t, slot) != [] <==> exists r :: Emission(slot, r) in es
  {
    var c := Contents(t, slot);
    if c != [] {
      assert c[0] in c;
    }
  }

  lemma Looked(t: Tables, es: set<Emission>, kind: RouteKind, host: string, path: string, selected: Option<Route>)
    requires Hold(t, es)
    requires selected.Some? <==> SomeMatch(Contents(t, HostSlot(TableOf(kind), host)), kind, path)
    requires selected.Some? ==> Best(selected.value, Contents(t, HostSlot(TableOf(kind), host)), kind, path)
    ensures selected.Some? <==> exists r :: Answers(es, kind, host, path, r)
    ensures selected.Some? ==> Answers(es, kind, host, path, selected.value)
    ensures selected.Some? ==> forall r :: Answers(es, kind, host, path, r) ==> NotBehind(selected.value, r)
  {
    var slot := HostSlot(TableOf(kind), host);
    var c := Contents(t, slot);
    Held(t, es, slot);
    assert selected.Some? ==> Answers(es, kind, host, path, selected.value);
    forall r | Answers(es, kind, host, path, r)
      ensures selected.Some? && NotBehind(selected.value, r)
    {
      Ranked(c, kind, path, selected, r);
    }
  }

  lemma Ranked(c: seq<Route>, kind: RouteKind, path: string, selected: Option<Route>, r: Route)
    requires selected.Some? <==> SomeMatch(c, kind, path)
    requires selected.Some? ==> Best(selected.value, c, kind, path)
    requires r in c && Matches(r, kind, path)
    ensures selected.Some? && NotBehind(selected.value, r)
  {
    var i :| 0 <= i < |c| && c[i] == r;
    assert Matches(c[i], kind, path);
    RankIs(selected.value, r);
  }

  /** Two rebuilds of the same resources, whatever order the maps came in, answer with equal rank and the same path. */
  lemma RebuildsAgree(t: Tables, u: Tables, s: Resources, kind: RouteKind, host: string, path: string, a: Route,
                      b: Route)
    requires Hold(t, Emitted(s)) && Hold(u, Emitted(s))
    requires Best(a, Contents(t, HostSlot(TableOf(kind), host)), kind, path)
    requires Best(b, Contents(u, HostSlot(TableOf(kind), host)), kind, path)
    ensures Compare(a, b) == 0 && a.path == b.path
  {
    var slot := HostSlot(TableOf(kind), host);
    var xs, ys := Contents(t, slot), Contents(u, slot);
    Held(t, Emitted(s), slot);
    Held(u, Emitted(s), slot);
    forall i | 0 <= i < |xs| ensures NormalizedPath(xs[i].path) {
      assert xs[i] in xs;
      EmittedPathNormal(s, Emission(slot, xs[i]));
    }
    ChoiceIsOrderIndependent(a, b, xs, ys, kind, path);
  }
}
