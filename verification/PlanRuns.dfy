/** Whole runs of query, build and apply rounds from an empty repository. */
module PlanRuns {
  import opened Options
  import opened Text
  import opened Sorting
  import opened PlanDiff
  import opened Repository
  import opened Planning
  import opened PlanRounds

  // ---- What a wish asks the projection to be ------------------------------------------------------

  /** Among the specs whose paths give one id, the last one counts. */
  predicate IsLast(w: Wish, i: nat) {
    i < |w.routes| && forall j :: i < j < |w.routes| ==>
        SanitizePart(w.routes[j].path) != SanitizePart(w.routes[i].path)
  }

  /** The backend has this id and says what the target says, blanks around its names aside. */
  predicate IsTarget(b: Backend, id: string, t: Target) {
    && b.id == id && b.svcType == (if t.svcType == "" then "SVC" else t.svcType)
    && b.endpoint == TrimSpace(t.endpoint) && b.namespace == TrimSpace(t.namespace) && b.name == TrimSpace(t.name)
    && b.port == t.port
  }

  /** The projected route is what the spec asks for, with its path's length as its priority. */
  predicate ShowsSpec(v: RouteView, host: string, spec: RouteSpec) {
    && v.id == "route:" + host + ":" + SanitizePart(spec.path) && v.path == spec.path
    && v.priority == Int32(|spec.path|)
    && v.backend.Some? && IsTarget(v.backend.value, "backend:" + host + ":" + SanitizePart(spec.path), spec.target)
  }

  lemma TargetIs(b: Backend, host: string, part: string, t: Target)
    ensures b == BackendFor(host, part, t) <==> IsTarget(b, "backend:" + host + ":" + part, t)
  {
  }

  lemma SpecViewIs(v: RouteView, w: Wish, i: nat)
    requires i < |w.routes|
    ensures v == SpecView(w, i) <==> ShowsSpec(v, w.hostname, w.routes[i])
  {
    if v.backend.Some? {
      TargetIs(v.backend.value, w.hostname, SanitizePart(w.routes[i].path), w.routes[i].target);
    }
  }

  function SpecView(w: Wish, i: nat): RouteView
    requires i < |w.routes|
  {
    var spec := w.routes[i];
    RouteView(RouteId(w.hostname, spec.path), spec.path, Int32(|spec.path|),
              Some(BackendFor(w.hostname, SanitizePart(spec.path), spec.target)))
  }

  /** The projection is exactly the wished one: its L4 backend, or one route per id from the last spec that
      gives it, each with its backend, in priority, length and id order. */
  ghost predicate Fulfils(w: Wish, p: Projection)
    requires Accepted(w)
  {
    && p.hostname == w.hostname && p.needCert == w.needCert && p.kind == w.kind
    && if IsL4(w.kind) then
         p.bound.Some? && IsTarget(p.bound.value, "backend:" + w.hostname + ":l4", w.l4.value) && p.routes == []
       else
         && p.bound == None && InListOrder(p.routes)
         && (forall v :: v in p.routes ==> Asked(w, v))
         && (forall i: nat :: IsLast(w, i) ==> Answered(w, i, p.routes))
  }

  ghost predicate Asked(w: Wish, v: RouteView) {
    exists i: nat :: IsLast(w, i) && ShowsSpec(v, w.hostname, w.routes[i])
  }

  ghost predicate Answered(w: Wish, i: nat, routes: seq<RouteView>)
    requires i < |w.routes|
  {
    exists v :: v in routes && ShowsSpec(v, w.hostname, w.routes[i])
  }

  /** The same through the rows the builder makes. */
  ghost predicate Built(w: Wish, p: Projection)
    requires Accepted(w)
  {
    && p.hostname == w.hostname && p.needCert == w.needCert && p.kind == w.kind
    && if IsL4(w.kind) then p.bound == Some(BackendFor(w.hostname, L4Part, w.l4.value)) && p.routes == []
       else
         && p.bound == None && InListOrder(p.routes)
         && (forall v :: v in p.routes ==> exists i: nat :: IsLast(w, i) && v == SpecView(w, i))
         && (forall i: nat :: IsLast(w, i) ==> SpecView(w, i) in p.routes)
  }

  lemma FulfilsIsBuilt(w: Wish, p: Projection)
    requires Accepted(w)
    ensures Fulfils(w, p) <==> Built(w, p)
  {
    if IsL4(w.kind) {
      if p.bound.Some? {
        L4TargetIs(p.bound.value, w.hostname, w.l4.value);
      }
    } else {
      forall v ensures Asked(w, v) <==> exists i: nat :: IsLast(w, i) && v == SpecView(w, i) {
        AskedIs(w, v);
      }
      forall i: nat | IsLast(w, i) ensures Answered(w, i, p.routes) <==> SpecView(w, i) in p.routes {
        AnsweredIs(w, i, p.routes);
      }
    }
  }

  lemma L4TargetIs(b: Backend, host: string, t: Target)
    ensures b == BackendFor(host, L4Part, t) <==> IsTarget(b, "backend:" + host + ":l4", t)
  {
    TargetIs(b, host, L4Part, t);
    L4IdIs(host);
  }

  lemma AskedIs(w: Wish, v: RouteView)
    ensures Asked(w, v) <==> exists i: nat :: IsLast(w, i) && v == SpecView(w, i)
  {
    if Asked(w, v) {
      var i: nat :| IsLast(w, i) && ShowsSpec(v, w.hostname, w.routes[i]);
      SpecViewIs(v, w, i);
    }
    if i: nat :| IsLast(w, i) && v == SpecView(w, i) {
      SpecViewIs(v, w, i);
    }
  }

  lemma AnsweredIs(w: Wish, i: nat, routes: seq<RouteView>)
    requires i < |w.routes|
    ensures Answered(w, i, routes) <==> SpecView(w, i) in routes
  {
    SpecViewIs(SpecView(w, i), w, i);
    if Answered(w, i, routes) {
      var v :| v in routes && ShowsSpec(v, w.hostname, w.routes[i]);
      SpecViewIs(v, w, i);
    }
  }

  lemma L4IdIs(host: string)
    ensures "backend:" + host + ":l4" == "backend:" + host + ":" + L4Part == L4Id(host)
  {
    assert ":l4" == ":" + L4Part;
    assert "backend:" + host + ":l4" == "backend:" + host + (":" + L4Part);
  }

  lemma {:induction false} LastExists(w: Wish, i: nat) returns (k: nat)
    requires i < |w.routes|
    ensures IsLast(w, k) && SanitizePart(w.routes[k].path) == SanitizePart(w.routes[i].path)
    decreases |w.routes| - i
  {
    if j :| i < j < |w.routes| && SanitizePart(w.routes[j].path) == SanitizePart(w.routes[i].path) {
      k := LastExists(w, j);
    } else {
      k := i;
    }
  }

  /** The wanted rows of a last spec. */
  lemma WantedOfLast(w: Wish, i: nat)
    requires Accepted(w) && !IsL4(w.kind) && IsLast(w, i)
    ensures var id, path := RouteId(w.hostname, w.routes[i].path), w.routes[i].path;
            && id in WantedRoutes(w) && WantedRoutes(w)[id] == RouteFor(w.hostname, w.routes[i])
            && BackendId(w.hostname, path) in WantedBackends(w)
            && WantedBackends(w)[BackendId(w.hostname, path)]
            == BackendFor(w.hostname, SanitizePart(path), w.routes[i].target)
  {
    var h := w.hostname;
    var rs, bs := DesiredRoutes(w), DesiredBackends(w);
    forall j | i < j < |w.routes| ensures RouteKey(rs[j]) != RouteKey(rs[i]) && BackendKey(bs[j]) != BackendKey(bs[i]) {
      IdsAreInjective(RoutePrefix, h, SanitizePart(w.routes[j].path), h, SanitizePart(w.routes[i].path));
      IdsAreInjective(BackendPrefix, h, SanitizePart(w.routes[j].path), h, SanitizePart(w.routes[i].path));
    }
    ByIdLast(rs, RouteKey, i);
    ByIdLast(bs, BackendKey, i);
  }

  lemma WantedHasLast(w: Wish, id: string) returns (k: nat)
    requires !IsL4(w.kind) && id in WantedRoutes(w)
    ensures IsLast(w, k) && RouteId(w.hostname, w.routes[k].path) == id
  {
    var rs := DesiredRoutes(w);
    var i :| 0 <= i < |rs| && rs[i] == WantedRoutes(w)[id];
    k := LastExists(w, i);
  }

  // ---- One round ----------------------------------------------------------------------------------

  lemma AfterView(db: Db, w: Wish, lost: set<string>, after: Db, i: nat)
    requires Inv(db) && Accepted(w) && !IsL4(w.kind) && Rewrites(db, w, lost, after) && IsLast(w, i)
    ensures var id, k := RouteId(w.hostname, w.routes[i].path), BackendId(w.hostname, w.routes[i].path);
            && IsRouteOf(after, w.hostname, id)
            && (k !in lost ==> ViewOf(after, after.routes[id]) == SpecView(w, i))
            && (k in lost ==> ViewOf(after, after.routes[id]).backend == None)
  {
    var spec := w.routes[i];
    WantedOfLast(w, i);
    RouteForOwned(w.hostname, spec);
    AfterBackendOf(db, w, lost, after, BackendId(w.hostname, spec.path));
    assert after.routes[RouteId(w.hostname, spec.path)] == RouteFor(w.hostname, spec);
  }

  lemma AfterBackendOf(db: Db, w: Wish, lost: set<string>, after: Db, k: string)
    requires Accepted(w) && Rewrites(db, w, lost, after) && k in WantedBackends(w)
    ensures Shown(Get(after.backends, k)) == if k in lost then None else Some(WantedBackends(w)[k])
  {
    WantedBackendFacts(w, k);
  }

  /** When nothing is lost the next query shows exactly the wish. */
  lemma CleanRoundFulfils(db: Db, w: Wish, after: Db, q: Projection)
    requires Inv(db) && Accepted(w) && Rewrites(db, w, {}, after) && Inv(after)
    requires w.hostname in after.endpoints && Shows(after, w.hostname, q)
    ensures Built(w, q)
  {
    var h := w.hostname;
    if IsL4(w.kind) {
      WantedBackendFacts(w, L4Id(h));
    } else {
      forall v | v in q.routes ensures exists i: nat :: IsLast(w, i) && v == SpecView(w, i) {
        assert IsRouteOf(after, h, v.id);
        AfterRoute(db, w, {}, after, v.id);
        var i := WantedHasLast(w, v.id);
        AfterView(db, w, {}, after, i);
      }
      forall i: nat | IsLast(w, i) ensures SpecView(w, i) in q.routes {
        AfterView(db, w, {}, after, i);
      }
    }
  }

  /** When the L4 backend is lost, no answer of the next query is the wish. */
  lemma ClashingRoundFails(db: Db, w: Wish, p: Option<Projection>, after: Db, q: Projection)
    requires Inv(db) && Accepted(w) && Clash(p, w) && Rewrites(db, w, {L4Id(w.hostname)}, after)
    requires w.hostname in after.endpoints && Shows(after, w.hostname, q)
    ensures !Built(w, q)
  {
    var h := w.hostname;
    if IsL4(w.kind) {
      L4IdOwned(h);
      assert L4Id(h) !in after.backends;
    } else {
      var j :| 0 <= j < |w.routes| && SanitizePart(w.routes[j].path) == L4Part;
      var i := LastExists(w, j);
      AfterView(db, w, {L4Id(h)}, after, i);
    }
  }

  /** The rows of every other host, and so every answer about it, are untouched. */
  lemma OtherHostsUnchanged(db: Db, w: Wish, lost: set<string>, after: Db, g: string)
    requires Inv(db) && Accepted(w) && Rewrites(db, w, lost, after) && Inv(after) && g != w.hostname
    ensures Get(after.endpoints, g) == Get(db.endpoints, g)
    ensures forall id :: IsRouteOf(after, g, id) <==> IsRouteOf(db, g, id)
    ensures forall id :: IsRouteOf(db, g, id) ==> ViewOf(after, after.routes[id]) == ViewOf(db, db.routes[id])
    ensures Get(after.backends, L4Id(g)) == Get(db.backends, L4Id(g))
  {
    forall id ensures IsRouteOf(after, g, id) <==> IsRouteOf(db, g, id) {
      if IsRouteOf(after, g, id) {
        AfterRoute(db, w, lost, after, id);
      }
      if IsRouteOf(db, g, id) {
        OtherRoute(db, w, lost, after, id);
      }
    }
    forall id | IsRouteOf(db, g, id) ensures ViewOf(after, after.routes[id]) == ViewOf(db, db.routes[id]) {
      OtherRoute(db, w, lost, after, id);
      assert RouteOk(db, id);
      Twins(g, id);
      OtherBackend(db, w, lost, after, g, BackendOf(id));
    }
    L4IdOwned(g);
    OtherBackend(db, w, lost, after, g, L4Id(g));
  }

  lemma SameRoutesShown(db: Db, after: Db, g: string, routes: seq<RouteView>)
    requires forall id :: IsRouteOf(after, g, id) <==> IsRouteOf(db, g, id)
    requires forall id :: IsRouteOf(db, g, id) ==>
               id in after.routes && ViewOf(after, after.routes[id]) == ViewOf(db, db.routes[id])
    ensures RoutesShown(after, g, routes) <==> RoutesShown(db, g, routes)
  {
  }

  lemma SameCertShown(db: Db, after: Db, g: string, c: Option<Cert>)
    requires after.certs == db.certs
    ensures LatestCert(after, g, c) <==> LatestCert(db, g, c)
  {
    forall cert ensures IsLatest(after, g, cert) <==> IsLatest(db, g, cert) {
    }
  }

  lemma OtherAnswersUnchanged(db: Db, w: Wish, lost: set<string>, after: Db, g: string, q: Projection)
    requires Inv(db) && Accepted(w) && Rewrites(db, w, lost, after) && Inv(after) && g != w.hostname
    ensures Queried(after, g, Some(q)) <==> Queried(db, g, Some(q))
  {
    OtherHostsUnchanged(db, w, lost, after, g);
    SameRoutesShown(db, after, g, q.routes);
    SameCertShown(db, after, g, q.cert);
    SameQuery(db, after, g, q);
  }

  lemma SameQuery(db: Db, after: Db, g: string, q: Projection)
    requires Get(after.endpoints, g) == Get(db.endpoints, g) && (g in db.endpoints ==> EndpointOk(db, g))
    requires Get(after.backends, L4Id(g)) == Get(db.backends, L4Id(g))
    requires RoutesShown(after, g, q.routes) <==> RoutesShown(db, g, q.routes)
    requires LatestCert(after, g, q.cert) <==> LatestCert(db, g, q.cert)
    ensures Queried(after, g, Some(q)) <==> Queried(db, g, Some(q))
  {
  }

  // ---- Runs ---------------------------------------------------------------------------------------

  /** One round: the projection that was queried, the wish, and the plan that was built and applied. */
  datatype Step =
    | Round(w: Wish, p: Option<Projection>, dns: seq<DnsRecord>, plan: Plan)
    | Issue(certs: map<string, Cert>)

  ghost predicate IsStep(db: Db, step: Step, after: Db) {
    match step
    case Round(w, p, dns, plan) =>
      Accepted(w) && Queried(db, w.hostname, p) && IsPlan(w, p, dns, plan) && after == ApplyPlan(db, plan)
    case Issue(certs) =>
      (forall id :: id in certs ==> certs[id].id == id) && after == db.(certs := certs)
  }

  /** `dbs` are the successive table contents of a run that starts empty. */
  ghost predicate IsRun(dbs: seq<Db>, steps: seq<Step>) {
    && |dbs| == |steps| + 1 && dbs[0] == EmptyDb
    && forall i :: 0 <= i < |steps| ==> IsStep(dbs[i], steps[i], dbs[i + 1])
  }

  lemma IssueKeepsInv(db: Db, certs: map<string, Cert>)
    requires Inv(db) && forall id :: id in certs ==> certs[id].id == id
    ensures Inv(db.(certs := certs))
  {
    var after := db.(certs := certs);
    forall h | h in after.endpoints ensures EndpointOk(after, h) { assert EndpointOk(db, h); }
    forall id | id in after.routes ensures RouteOk(after, id) { assert RouteOk(db, id); }
    forall id | id in after.backends ensures BackendOk(after, id) {
      assert BackendOk(db, id);
      var g :| Owned(BackendPrefix, g, id) && InUse(db, g, id);
      assert InUse(after, g, id);
    }
  }

  lemma RoundKeepsInv(db: Db, w: Wish, p: Option<Projection>, dns: seq<DnsRecord>, plan: Plan)
    requires Inv(db) && Accepted(w) && Queried(db, w.hostname, p) && IsPlan(w, p, dns, plan)
    ensures Inv(ApplyPlan(db, plan))
  {
    PlanRewrites(db, w, p, dns, plan);
    RewriteKeepsInv(db, w, Lost(p, w), ApplyPlan(db, plan));
  }

  lemma StepKeepsInv(db: Db, step: Step, after: Db)
    requires Inv(db) && IsStep(db, step, after)
    ensures Inv(after)
  {
    match step
    case Round(w, p, dns, plan) => RoundKeepsInv(db, w, p, dns, plan);
    case Issue(certs) => IssueKeepsInv(db, certs);
  }

  lemma EmptyInv()
    ensures Inv(EmptyDb)
  {
  }

  lemma {:induction false} RunKeepsInv(dbs: seq<Db>, steps: seq<Step>, n: nat)
    requires IsRun(dbs, steps) && n < |dbs|
    ensures Inv(dbs[n])
  {
    if n > 0 {
      RunKeepsInv(dbs, steps, n - 1);
      StepKeepsInv(dbs[n - 1], steps[n - 1], dbs[n]);
    } else {
      EmptyInv();
    }
  }

  /** Every round of every run: the next query shows exactly the wish if and only if the plan did not clash. */
  lemma RoundShowsWish(dbs: seq<Db>, steps: seq<Step>, n: nat, q: Projection)
    requires IsRun(dbs, steps) && n < |steps| && steps[n].Round? && Accepted(steps[n].w)
    requires Queried(dbs[n + 1], steps[n].w.hostname, Some(q))
    ensures Fulfils(steps[n].w, q) <==> !Clash(steps[n].p, steps[n].w)
  {
    var db, after, w, p := dbs[n], dbs[n + 1], steps[n].w, steps[n].p;
    assert IsStep(db, steps[n], after);
    RunKeepsInv(dbs, steps, n);
    RunKeepsInv(dbs, steps, n + 1);
    PlanRewrites(db, w, p, steps[n].dns, steps[n].plan);
    FulfilsIsBuilt(w, q);
    if Clash(p, w) {
      ClashingRoundFails(db, w, p, after, q);
    } else {
      CleanRoundFulfils(db, w, after, q);
    }
  }

  /** Every round of every run: the host is left with exactly the wanted live routes, and with no live backend
      that is not wanted. */
  lemma RoundLeavesNothingElse(dbs: seq<Db>, steps: seq<Step>, n: nat)
    requires IsRun(dbs, steps) && n < |steps| && steps[n].Round? && Accepted(steps[n].w)
    ensures var w, after := steps[n].w, dbs[n + 1];
            && w.hostname in after.endpoints
            && RoutesOf(after, w.hostname) == WantedRoutes(w).Keys
            && BackendsOf(after, w.hostname) == WantedBackends(w).Keys - Lost(steps[n].p, w)
  {
    var db, after, w, p := dbs[n], dbs[n + 1], steps[n].w, steps[n].p;
    assert IsStep(db, steps[n], after);
    RunKeepsInv(dbs, steps, n);
    PlanRewrites(db, w, p, steps[n].dns, steps[n].plan);
    RoutesLeft(db, w, Lost(p, w), after);
    BackendsLeft(db, w, Lost(p, w), after);
  }

  lemma RoutesLeft(db: Db, w: Wish, lost: set<string>, after: Db)
    requires Inv(db) && Accepted(w) && Rewrites(db, w, lost, after)
    ensures RoutesOf(after, w.hostname) == WantedRoutes(w).Keys
  {
    forall id ensures id in RoutesOf(after, w.hostname) <==> id in WantedRoutes(w) {
      if id in after.routes {
        AfterRoute(db, w, lost, after, id);
      }
    }
  }

  lemma BackendsLeft(db: Db, w: Wish, lost: set<string>, after: Db)
    requires Accepted(w) && Rewrites(db, w, lost, after)
    ensures BackendsOf(after, w.hostname) == WantedBackends(w).Keys - lost
  {
    forall id ensures id in BackendsOf(after, w.hostname) <==> id in WantedBackends(w) && id !in lost {
      if id in WantedBackends(w) {
        WantedBackendFacts(w, id);
      }
    }
  }

  /** Every step of every run: the answers about a host the step does not name stay the same, certificates aside. */
  lemma RoundTouchesOneHost(dbs: seq<Db>, steps: seq<Step>, n: nat, g: string, q: Projection)
    requires IsRun(dbs, steps) && n < |steps| && steps[n].Round? && g != steps[n].w.hostname
    ensures Queried(dbs[n + 1], g, Some(q)) <==> Queried(dbs[n], g, Some(q))
  {
    assert IsStep(dbs[n], steps[n], dbs[n + 1]);
    RunKeepsInv(dbs, steps, n);
    RunKeepsInv(dbs, steps, n + 1);
    PlanRewrites(dbs[n], steps[n].w, steps[n].p, steps[n].dns, steps[n].plan);
    OtherAnswersUnchanged(dbs[n], steps[n].w, Lost(steps[n].p, steps[n].w), dbs[n + 1], g, q);
  }

  // ---- When no path collides with the L4 key ------------------------------------------------------

  /** No path of the wish sanitises to `part`. */
  predicate Avoids(w: Wish, part: string) {
    forall i :: 0 <= i < |w.routes| ==> SanitizePart(w.routes[i].path) != part
  }

  ghost predicate RoutesAvoid(db: Db, part: string) {
    forall id :: id in db.routes ==> SanitizePart(db.routes[id].path) != part
  }

  lemma WantedAvoids(w: Wish, part: string, id: string)
    requires Avoids(w, part) && id in WantedRoutes(w)
    ensures SanitizePart(WantedRoutes(w)[id].path) != part
  {
    var rs := DesiredRoutes(w);
    var i :| 0 <= i < |rs| && rs[i] == WantedRoutes(w)[id];
  }

  lemma AvoidingRound(db: Db, w: Wish, p: Option<Projection>, dns: seq<DnsRecord>, plan: Plan, part: string)
    requires Inv(db) && Accepted(w) && Queried(db, w.hostname, p) && IsPlan(w, p, dns, plan)
    requires RoutesAvoid(db, part) && Avoids(w, part)
    ensures RoutesAvoid(ApplyPlan(db, plan), part)
  {
    RouteEffect(db, w, p, dns, plan);
    forall id | id in ApplyPlan(db, plan).routes ensures SanitizePart(ApplyPlan(db, plan).routes[id].path) != part {
      if id in WantedRoutes(w) {
        WantedAvoids(w, part, id);
      }
    }
  }

  lemma AvoidingStep(db: Db, step: Step, after: Db, part: string)
    requires Inv(db) && RoutesAvoid(db, part) && IsStep(db, step, after) && (step.Round? ==> Avoids(step.w, part))
    ensures RoutesAvoid(after, part)
  {
    if step.Round? {
      AvoidingRound(db, step.w, step.p, step.dns, step.plan, part);
    }
  }

  lemma AvoidingNext(dbs: seq<Db>, steps: seq<Step>, n: nat, part: string)
    requires IsRun(dbs, steps) && n < |steps| && (steps[n].Round? ==> Avoids(steps[n].w, part))
    requires RoutesAvoid(dbs[n], part)
    ensures RoutesAvoid(dbs[n + 1], part)
  {
    RunKeepsInv(dbs, steps, n);
    AvoidingStep(dbs[n], steps[n], dbs[n + 1], part);
  }

  ghost predicate AllAvoid(steps: seq<Step>, part: string) {
    forall i :: 0 <= i < |steps| && steps[i].Round? ==> Avoids(steps[i].w, part)
  }

  lemma {:induction false} AvoidingRun(dbs: seq<Db>, steps: seq<Step>, n: nat, part: string)
    requires IsRun(dbs, steps) && n < |dbs| && AllAvoid(steps, part)
    ensures RoutesAvoid(dbs[n], part)
  {
    if n == 0 {
      assert dbs[0].routes == map[];
    } else {
      var m := n - 1;
      AvoidingRun(dbs, steps, m, part);
      AvoidingNext(dbs, steps, m, part);
      assert dbs[m + 1] == dbs[n];
    }
  }

  lemma ViewIsRoute(db: Db, h: string, p: Option<Projection>, i: nat) returns (r: Route)
    requires Inv(db) && Queried(db, h, p) && i < |Views(p)|
    ensures r.id in db.routes && db.routes[r.id] == r && r.id == RouteId(h, r.path)
    ensures Views(p)[i].backend.Some? ==> Views(p)[i].backend.value.id == BackendId(h, r.path)
  {
    var v := Views(p)[i];
    assert v in p.value.routes;
    assert IsRouteOf(db, h, v.id);
    r := db.routes[v.id];
    RouteSeen(db, h, v.id);
    assert RouteOk(db, v.id);
    IdsAreOwned(h, r.path);
  }

  lemma NotL4Id(h: string, path: string)
    requires SanitizePart(path) != L4Part
    ensures BackendId(h, path) != L4Id(h)
  {
    IdsAreInjective(BackendPrefix, h, SanitizePart(path), h, L4Part);
  }

  lemma AvoidingView(db: Db, h: string, p: Option<Projection>, i: nat)
    requires Inv(db) && Queried(db, h, p) && RoutesAvoid(db, L4Part) && i < |Views(p)| && Views(p)[i].backend.Some?
    ensures Views(p)[i].backend.value.id != L4Id(h)
  {
    var r := ViewIsRoute(db, h, p, i);
    NotL4Id(h, r.path);
  }

  lemma AvoidingHasNoClash(db: Db, w: Wish, p: Option<Projection>)
    requires Inv(db) && Accepted(w) && Queried(db, w.hostname, p)
    requires RoutesAvoid(db, L4Part) && Avoids(w, L4Part)
    ensures !Clash(p, w)
  {
    if IsL4(w.kind) {
      forall i | 0 <= i < |Views(p)| && Views(p)[i].backend.Some?
        ensures Views(p)[i].backend.value.id != L4Id(w.hostname)
      {
        AvoidingView(db, w.hostname, p, i);
      }
    }
  }

  /** Runs in which no route path sanitises to the L4 key: every round makes the projection the wish. */
  lemma AvoidingRunsAlwaysFulfil(dbs: seq<Db>, steps: seq<Step>, n: nat, q: Projection)
    requires IsRun(dbs, steps) && n < |steps| && steps[n].Round? && Accepted(steps[n].w)
    requires AllAvoid(steps, L4Part)
    requires Queried(dbs[n + 1], steps[n].w.hostname, Some(q))
    ensures Fulfils(steps[n].w, q)
  {
    AvoidingRun(dbs, steps, n, L4Part);
    RunKeepsInv(dbs, steps, n);
    assert IsStep(dbs[n], steps[n], dbs[n + 1]);
    AvoidingHasNoClash(dbs[n], steps[n].w, steps[n].p);
    RoundShowsWish(dbs, steps, n, q);
  }

  // ---- DNS records ---------------------------------------------------------------------------------

  /** If the records handed to the builder are live rows, the plan replaces exactly them by the wished ones. */
  lemma DnsEffect(db: Db, w: Wish, p: Option<Projection>, dns: seq<DnsRecord>, plan: Plan)
    requires Accepted(w) && IsPlan(w, p, dns, plan)
    requires forall id :: id in ById(dns, DnsKey) ==> id in db.dns && db.dns[id] == ById(dns, DnsKey)[id]
    ensures ApplyPlan(db, plan).dns == db.dns - ById(dns, DnsKey).Keys + ById(DesiredDns(w), DnsKey)
  {
    DiffReplays(db.dns, plan.dns, ById(dns, DnsKey), ById(DesiredDns(w), DnsKey), DnsKey);
  }
}
