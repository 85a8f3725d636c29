/** The plan builder: from a host's current projection and a wish to the changes between them. */
module Planning {
  import opened Options
  import opened Text
  import opened PlanDiff
  import opened Repository

  datatype Target = Target(svcType: string, endpoint: string, namespace: string, name: string, port: nat)

  datatype RouteSpec = RouteSpec(path: string, target: Target)

  /** What a builder has been told: the fields it collects before `Build`. */
  datatype Wish = Wish(hostname: string, kind: BackendKind, needCert: bool, l4: Option<Target>, routes: seq<RouteSpec>,
                       dns: seq<DnsRecord>)

  datatype Plan = Plan(hostname: string, dns: seq<Change<DnsRecord>>, endpoints: seq<Change<Endpoint>>,
                       backends: seq<Change<Backend>>, routes: seq<Change<Route>>)

  datatype BuildError = NoHostname | NoBackendType | NoL4Backend | NoRoute

  datatype Result<+T> = Success(value: T) | Failure(error: BuildError)

  // ---- Identifiers --------------------------------------------------------------------------------

  function ReplaceChar(c: char): string {
    if c in {'/', '.', ':', ' '} then "_" else if c == '*' then "wildcard" else [c]
  }

  function ReplaceAll(s: string): (r: string)
    ensures ':' !in r
  {
    if s == "" then "" else ReplaceAll(s[..|s| - 1]) + ReplaceChar(s[|s| - 1])
  }

  predicate IsUnderscore(c: char) { c == '_' }

  function SanitizePart(value: string): (r: string)
    ensures ':' !in r && r != ""
  {
    var replaced := ReplaceAll(TrimSpace(ToLower(value)));
    TrimHasNone(replaced, IsUnderscore, ':');
    var trimmed := Trim(replaced, IsUnderscore);
    if trimmed == "" then "root" else trimmed
  }

  /** Each character is replaced on its own. */
  lemma {:induction false} ReplaceConcat(a: string, b: string)
    ensures ReplaceAll(a + b) == ReplaceAll(a) + ReplaceAll(b)
  {
    if b == "" {
      assert a + b == a;
    } else {
      var init, last := b[..|b| - 1], b[|b| - 1];
      assert b == init + [last] && a + b == (a + init) + [last];
      ReplaceConcat(a, init);
      ReplaceSnoc(a + init, last);
      ReplaceSnoc(init, last);
      Associate(ReplaceAll(a), ReplaceAll(init), ReplaceChar(b[|b| - 1]));
    }
  }

  lemma ReplaceSnoc(s: string, c: char)
    ensures ReplaceAll(s + [c]) == ReplaceAll(s) + ReplaceChar(c)
  {
    assert (s + [c])[..|s|] == s;
  }

  lemma Associate(a: string, b: string, c: string)
    ensures (a + b) + c == a + (b + c)
  {
  }

  lemma ReplaceOne(c: char)
    ensures ReplaceAll([c]) ==
            if c == '/' || c == '.' || c == ':' || c == ' ' then "_" else if c == '*' then "wildcard" else [c]
  {
    assert [c][..0] == "";
  }

  /** The sanitised form is the replaced lower-case text without the underscores around it, or "root" if there is
      nothing else. */
  lemma SanitizePartIs(value: string) returns (a: string, b: string)
    ensures var all, r := ReplaceAll(TrimSpace(ToLower(value))), SanitizePart(value);
            if All(all, c => c == '_') then r == "root"
            else all == a + r + b && All(a, c => c == '_') && All(b, c => c == '_') && r[0] != '_' && r[|r| - 1] != '_'
  {
    var all := ReplaceAll(TrimSpace(ToLower(value)));
    a, b := TrimSlice(all, IsUnderscore);
    OnlyUnderscores(all, a, Trim(all, IsUnderscore), b);
  }

  lemma OnlyUnderscores(all: string, a: string, r: string, b: string)
    requires all == a + r + b && All(a, IsUnderscore) && All(b, IsUnderscore) && (r != "" ==> !IsUnderscore(r[0]))
    ensures All(all, c => c == '_') <==> r == ""
    ensures All(a, c => c == '_') && All(b, c => c == '_')
  {
    if r != "" {
      assert all[|a|] == r[0];
    } else {
      assert all == a + b;
    }
  }

  const RoutePrefix := "route:"
  const BackendPrefix := "backend:"

  function IdOf(prefix: string, host: string, part: string): string { prefix + host + ":" + part }

  function BackendId(host: string, key: string): string { IdOf(BackendPrefix, host, SanitizePart(key)) }

  function RouteId(host: string, key: string): string { IdOf(RoutePrefix, host, SanitizePart(key)) }

  /** The key of the L4 backend, which sanitising leaves as it is. */
  const L4Part: string := "l4"

  function L4Id(host: string): string { IdOf(BackendPrefix, host, L4Part) }

  function DefaultDnsId(d: DnsRecord): string {
    "dns:" + SanitizePart(d.fqdn) + ":" + SanitizePart(d.recordType)
    + if TrimSpace(d.routingKey) != "" then ":" + SanitizePart(d.routingKey) else ""
  }

  // ---- Desired and current resources ----------------------------------------------------------------

  function BackendFor(host: string, part: string, t: Target): Backend {
    Backend(IdOf(BackendPrefix, host, part), if t.svcType == "" then "SVC" else t.svcType,
            TrimSpace(t.endpoint), TrimSpace(t.namespace), TrimSpace(t.name), t.port)
  }

  function RouteFor(host: string, spec: RouteSpec): Route {
    Route(RouteId(host, spec.path), host, spec.path, Int32(|spec.path|), BackendId(host, spec.path))
  }

  function DesiredEndpoint(w: Wish): Endpoint {
    Endpoint(w.hostname, w.needCert, w.kind, if w.l4.Some? then L4Id(w.hostname) else "")
  }

  function DesiredRoutes(w: Wish): (r: seq<Route>)
    ensures |r| == |w.routes| && forall i :: 0 <= i < |r| ==> r[i] == RouteFor(w.hostname, w.routes[i])
  {
    seq(|w.routes|, i requires 0 <= i < |w.routes| => RouteFor(w.hostname, w.routes[i]))
  }

  function DesiredBackends(w: Wish): (r: seq<Backend>)
    ensures |r| == |w.routes|
    ensures forall i :: 0 <= i < |r| ==>
              r[i] == BackendFor(w.hostname, SanitizePart(w.routes[i].path), w.routes[i].target)
  {
    seq(|w.routes|, i requires 0 <= i < |w.routes| =>
      BackendFor(w.hostname, SanitizePart(w.routes[i].path), w.routes[i].target))
  }

  function DesiredDns(w: Wish): (r: seq<DnsRecord>)
    ensures |r| == |w.dns|
  {
    seq(|w.dns|, i requires 0 <= i < |w.dns| =>
      if TrimSpace(w.dns[i].id) == "" then w.dns[i].(id := DefaultDnsId(w.dns[i])) else w.dns[i])
  }

  /** The record is the wished one, under its own id or, if that is blank, one made of name, type and routing key. */
  predicate StoredAs(d: DnsRecord, wished: DnsRecord) {
    && d.fqdn == wished.fqdn && d.recordType == wished.recordType && d.routingKey == wished.routingKey
    && d.body == wished.body
    && if TrimSpace(wished.id) != "" then d.id == wished.id
       else
         var base := "dns:" + SanitizePart(wished.fqdn) + ":" + SanitizePart(wished.recordType);
         d.id == if TrimSpace(wished.routingKey) == "" then base else base + (":" + SanitizePart(wished.routingKey))
  }

  lemma DesiredDnsIs(w: Wish, i: nat)
    requires i < |w.dns|
    ensures StoredAs(DesiredDns(w)[i], w.dns[i])
  {
    var base := "dns:" + SanitizePart(w.dns[i].fqdn) + ":" + SanitizePart(w.dns[i].recordType);
    assert base + "" == base;
  }

  function CurrentEndpoint(p: Option<Projection>): Option<Endpoint> {
    if p.None? then None
    else Some(Endpoint(p.value.hostname, p.value.needCert, p.value.kind,
                       if p.value.bound.Some? then p.value.bound.value.id else ""))
  }

  function CurrentL4(p: Option<Projection>): Option<Backend> {
    if p.None? then None else p.value.bound
  }

  function Views(p: Option<Projection>): seq<RouteView> {
    if p.None? then [] else p.value.routes
  }

  function CurrentRoute(host: string, v: RouteView): Route {
    Route(v.id, host, v.path, v.priority, if v.backend.Some? then v.backend.value.id else "")
  }

  function CurrentRoutes(p: Option<Projection>): (r: seq<Route>)
    ensures |r| == |Views(p)|
    ensures forall i :: 0 <= i < |r| ==> r[i] == CurrentRoute(p.value.hostname, Views(p)[i])
  {
    if p.None? then []
    else
      seq(|p.value.routes|, i requires 0 <= i < |p.value.routes| =>
        CurrentRoute(p.value.hostname, p.value.routes[i]))
  }

  /** The backends the projected routes carry, in route order. */
  function CurrentL7Backends(views: seq<RouteView>): (r: seq<Backend>)
    ensures forall b :: b in r <==> exists i :: 0 <= i < |views| && views[i].backend == Some(b) && b.id != ""
  {
    if views == [] then []
    else
      var init, v := CurrentL7Backends(views[..|views| - 1]), views[|views| - 1];
      if v.backend.None? || v.backend.value.id == "" then init else init + [v.backend.value]
  }

  // ---- The plan -------------------------------------------------------------------------------------

  function DiffOne<T(==)>(current: Option<T>, desired: Option<T>): seq<Change<T>> {
    if current == desired then []
    else if current.None? then [Change(Create, None, desired)]
    else if desired.None? then [Change(Delete, current, None)]
    else [Change(Update, current, desired)]
  }

  /** No change exactly if the two agree, else one that says what is there and what is wanted. */
  lemma DiffOneIs<T>(current: Option<T>, desired: Option<T>)
    ensures DiffOne(current, desired) == [] <==> current == desired
    ensures current != desired ==>
              && |DiffOne(current, desired)| == 1
              && var c := DiffOne(current, desired)[0];
                 && c.current == current && c.desired == desired
                 && (c.action == Create <==> current.None?) && (c.action == Delete <==> desired.None?)
  {
  }

  /** The rows wanted for the host; of specs with one id the last wins. */
  function WantedRoutes(w: Wish): map<string, Route> {
    if IsL4(w.kind) then map[] else ById(DesiredRoutes(w), RouteKey)
  }

  /** An L4 backend is changed first and the L7 backends are deleted after it, or the L7 backends are changed
      and a current L4 backend is deleted after them. */
  ghost predicate PlansBackends(w: Wish, p: Option<Projection>, changes: seq<Change<Backend>>)
    requires IsL4(w.kind) ==> w.l4.Some?
  {
    var current := ById(CurrentL7Backends(Views(p)), BackendKey);
    if IsL4(w.kind) then
      var head := DiffOne(CurrentL4(p), Some(BackendFor(w.hostname, L4Part, w.l4.value)));
      head <= changes && IsDiff(changes[|head|..], current, map[], BackendKey)
    else
      var tail := DiffOne(CurrentL4(p), None);
      && |tail| <= |changes| && changes[|changes| - |tail|..] == tail
      && IsDiff(changes[..|changes| - |tail|], current, ById(DesiredBackends(w), BackendKey), BackendKey)
  }

  /** `plan` is the plan for wish `w` given what was queried: sorted diffs per table. */
  ghost predicate IsPlan(w: Wish, p: Option<Projection>, dns: seq<DnsRecord>, plan: Plan)
    requires IsL4(w.kind) ==> w.l4.Some?
  {
    && plan.hostname == w.hostname
    && plan.endpoints == DiffOne(CurrentEndpoint(p), Some(DesiredEndpoint(w)))
    && IsDiff(plan.routes, ById(CurrentRoutes(p), RouteKey), WantedRoutes(w), RouteKey)
    && PlansBackends(w, p, plan.backends)
    && IsDiff(plan.dns, ById(dns, DnsKey), ById(DesiredDns(w), DnsKey), DnsKey)
  }

  /** A wish the builder accepts. */
  predicate Accepted(w: Wish) {
    && w.hostname != "" && w.kind != Unset && (w.l4.Some? <==> IsL4(w.kind))
    && (!IsL4(w.kind) ==> w.routes != [])
  }

  class Builder {
    var hostname: string
    var existing: Option<Projection>
    var existingDns: seq<DnsRecord>
    var kind: BackendKind
    var needCert: bool
    var l4: Option<Target>
    var routes: seq<RouteSpec>
    var dns: seq<DnsRecord>

    ghost function Wished(): Wish reads this { Wish(hostname, kind, needCert, l4, routes, dns) }

    /** An L4 target is set exactly for the L4 kinds. */
    ghost predicate Valid() reads this { l4.Some? <==> IsL4(kind) }

    constructor (host: string)
      ensures Valid() && Wished() == Wish(TrimSpace(host), Unset, false, None, [], []) && existing == None
      ensures existingDns == []
    {
      hostname, existing, existingDns := TrimSpace(host), None, [];
      kind, needCert, l4, routes, dns := Unset, false, None, [], [];
    }

    method WithExisting(p: Option<Projection>, records: seq<DnsRecord>)
      modifies this
      ensures existing == p && existingDns == records && Wished() == old(Wished())
    {
      existing, existingDns := p, records;
    }

    method AsL4(newKind: BackendKind, target: Target)
      requires IsL4(newKind)
      modifies this
      ensures Valid() && existing == old(existing) && existingDns == old(existingDns)
      ensures Wished()
               == old(Wished()).(kind := newKind, needCert := newKind.L4Termination?, l4 := Some(target), routes := [])
    {
      kind, needCert, l4, routes := newKind, newKind.L4Termination?, Some(target), [];
    }

    method AsL7(newKind: BackendKind)
      requires IsL7(newKind)
      modifies this
      ensures Valid() && existing == old(existing) && existingDns == old(existingDns)
      ensures Wished() == old(Wished()).(kind := newKind, needCert := !newKind.L7Http?, l4 := None)
    {
      kind, needCert, l4 := newKind, !newKind.L7Http?, None;
    }

    method AddRoute(path: string, target: Target)
      requires Valid()
      modifies this
      ensures Valid() && existing == old(existing) && existingDns == old(existingDns)
      ensures Wished() == old(Wished()).(routes := old(routes) + [RouteSpec(NormalizePath(path), target)])
    {
      routes := routes + [RouteSpec(NormalizePath(path), target)];
    }

    method WantDns(record: DnsRecord)
      requires Valid()
      modifies this
      ensures Valid() && existing == old(existing) && existingDns == old(existingDns)
      ensures Wished() == old(Wished()).(dns := old(dns) + [record])
    {
      dns := dns + [record];
    }

    method Build() returns (r: Result<Plan>)
      requires Valid()
      ensures hostname == "" ==> r == Failure(NoHostname)
      ensures hostname != "" && kind == Unset ==> r == Failure(NoBackendType)
      ensures hostname != "" && kind != Unset && !IsL4(kind) && routes == [] ==> r == Failure(NoRoute)
      ensures r.Success? <==> Accepted(Wished())
      ensures r.Success? ==> IsPlan(Wished(), existing, existingDns, r.value)
    {
      if hostname == "" { return Failure(NoHostname); }
      if kind.Unset? { return Failure(NoBackendType); }
      if IsL4(kind) && l4.None? { return Failure(NoL4Backend); }
      if IsL7(kind) && routes == [] { return Failure(NoRoute); }
      var w := Wish(hostname, kind, needCert, l4, routes, dns);
      var endpoints := DiffOne(CurrentEndpoint(existing), Some(DesiredEndpoint(w)));
      var current := CurrentL7Backends(Views(existing));
      var backends, routeChanges;
      if IsL4(kind) {
        var head := DiffOne(CurrentL4(existing), Some(BackendFor(hostname, L4Part, l4.value)));
        routeChanges := DiffById(CurrentRoutes(existing), [], RouteKey);
        var gone := DiffById(current, [], BackendKey);
        backends := head + gone;
        assert backends[|head|..] == gone;
      } else {
        routeChanges := DiffById(CurrentRoutes(existing), DesiredRoutes(w), RouteKey);
        var changes := DiffById(current, DesiredBackends(w), BackendKey);
        var tail := DiffOne(CurrentL4(existing), None);
        backends := changes + tail;
        assert backends[..|backends| - |tail|] == changes && backends[|backends| - |tail|..] == tail;
      }
      var dnsChanges := DiffById(existingDns, DesiredDns(w), DnsKey);
      return Success(Plan(hostname, dnsChanges, endpoints, backends, routeChanges));
    }
  }
}
