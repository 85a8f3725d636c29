/** Rounds that do not show their wish: switching between L4 and L7 while a route's id is the L4 backend's. */
module PlanLimits {
  import opened Options
  import opened Text
  import opened Sorting
  import opened PlanDiff
  import opened Repository
  import opened Planning
  import opened PlanRounds
  import opened PlanRuns

  ghost predicate Collides(w: Wish) {
    exists i :: 0 <= i < |w.routes| && SanitizePart(w.routes[i].path) == L4Part
  }

  /** Two successive rounds about one host, the first of which showed its wish. */
  ghost predicate Successive(dbs: seq<Db>, steps: seq<Step>, n: nat) {
    && IsRun(dbs, steps) && n + 1 < |steps| && steps[n].Round? && steps[n + 1].Round?
    && Accepted(steps[n].w) && Accepted(steps[n + 1].w) && steps[n].w.hostname == steps[n + 1].w.hostname
    && !Clash(steps[n].p, steps[n].w)
  }

  lemma SecondSawFirst(dbs: seq<Db>, steps: seq<Step>, n: nat)
    requires Successive(dbs, steps, n)
    ensures steps[n + 1].p.Some? && Fulfils(steps[n].w, steps[n + 1].p.value)
  {
    var m := n + 1;
    assert IsStep(dbs[m], steps[m], dbs[m + 1]);
    RoundLeavesNothingElse(dbs, steps, n);
    RoundShowsWish(dbs, steps, n, steps[m].p.value);
  }

  /** From L4 to L7 with a colliding path, the L7 round always fails: its route is left without a backend. */
  lemma L4ToL7Fails(dbs: seq<Db>, steps: seq<Step>, n: nat, q: Projection)
    requires Successive(dbs, steps, n) && IsL4(steps[n].w.kind) && !IsL4(steps[n + 1].w.kind)
    requires Collides(steps[n + 1].w)
    requires Queried(dbs[n + 2], steps[n + 1].w.hostname, Some(q))
    ensures !Fulfils(steps[n + 1].w, q)
  {
    SecondSawFirst(dbs, steps, n);
    RoundShowsWish(dbs, steps, n + 1, q);
  }

  /** From L7 with a colliding path to L4, the L4 round always fails: its backend is deleted after being written. */
  lemma L7ToL4Fails(dbs: seq<Db>, steps: seq<Step>, n: nat, q: Projection)
    requires Successive(dbs, steps, n) && !IsL4(steps[n].w.kind) && IsL4(steps[n + 1].w.kind) && Collides(steps[n].w)
    requires Queried(dbs[n + 2], steps[n + 1].w.hostname, Some(q))
    ensures !Fulfils(steps[n + 1].w, q)
  {
    var w, p := steps[n].w, steps[n + 1].p;
    SecondSawFirst(dbs, steps, n);
    FulfilsIsBuilt(w, p.value);
    CollidingViewClashes(w, p.value, steps[n + 1].w);
    RoundShowsWish(dbs, steps, n + 1, q);
  }

  lemma CollidingViewClashes(w: Wish, p: Projection, next: Wish)
    requires Accepted(w) && !IsL4(w.kind) && Collides(w) && Built(w, p) && IsL4(next.kind)
    requires next.hostname == w.hostname
    ensures Clash(Some(p), next)
  {
    var i := LastCollision(w);
    L4View(w, i);
    var k :| 0 <= k < |p.routes| && p.routes[k] == SpecView(w, i);
    assert Views(Some(p))[k].backend.value.id == L4Id(next.hostname);
  }

  lemma LastCollision(w: Wish) returns (i: nat)
    requires Collides(w)
    ensures IsLast(w, i) && SanitizePart(w.routes[i].path) == L4Part
  {
    var j :| 0 <= j < |w.routes| && SanitizePart(w.routes[j].path) == L4Part;
    i := LastExists(w, j);
  }

  lemma L4View(w: Wish, i: nat)
    requires i < |w.routes| && SanitizePart(w.routes[i].path) == L4Part
    ensures SpecView(w, i).backend.Some? && SpecView(w, i).backend.value.id == L4Id(w.hostname)
  {
  }

  // ---- Which paths collide ------------------------------------------------------------------------

  predicate Plain(s: string) {
    s != "" && forall i :: 0 <= i < |s| ==>
        ReplaceChar(s[i]) == [s[i]] && LowerChar(s[i]) == s[i] && !IsSpace(s[i]) && s[i] != '_'
  }

  lemma {:induction false} ReplacePlain(s: string)
    requires forall i :: 0 <= i < |s| ==> ReplaceChar(s[i]) == [s[i]]
    ensures ReplaceAll(s) == s && ReplaceAll("/" + s) == "_" + s
  {
    ReplaceConcat("/", s);
    ReplaceOne('/');
    if s != "" {
      var init := s[..|s| - 1];
      ReplacePlain(init);
      assert s == init + [s[|s| - 1]];
      ReplaceSnoc(init, s[|s| - 1]);
    }
  }

  /** A plain key and the path made of a slash and that key share their sanitised form, the key itself;
      so the route "/l4" takes the id of the L4 backend. */
  lemma SlashKeyCollides(s: string)
    requires Plain(s)
    ensures SanitizePart(s) == s && SanitizePart("/" + s) == s
  {
    var t := "/" + s;
    assert ToLower(s) == s && ToLower(t) == t;
    assert TrimSpace(s) == s && TrimSpace(t) == t;
    ReplacePlain(s);
    TrimUnderscore(s);
  }

  lemma TrimUnderscore(s: string)
    requires s != "" && s[0] != '_' && s[|s| - 1] != '_'
    ensures Trim(s, IsUnderscore) == s && Trim("_" + s, IsUnderscore) == s
  {
    var u := "_" + s;
    assert u[1..] == s;
    assert TrimLeft(u, IsUnderscore) == s;
  }

  // ---- Such runs exist ----------------------------------------------------------------------------

  lemma PrecedesOrders(views: set<RouteView>)
    requires forall x, y :: x in views && y in views && x.id == y.id ==> x == y
    ensures Orders(Precedes, views)
  {
    forall x, y | x in views && y in views && x != y ensures Precedes(x, y) || Precedes(y, x) { BeforeIsStrict(x, y); }
    forall x, y, z | x in views && y in views && z in views && Precedes(x, y) && Precedes(y, z) ensures Precedes(x, z) {
      if Less(x.id, y.id) && Less(y.id, z.id) {
        LessTransitive(x.id, y.id, z.id);
      }
    }
  }

  lemma ViewsExist(db: Db, h: string) returns (views: seq<RouteView>)
    requires KeyedByIds(db)
    ensures RoutesShown(db, h, views)
  {
    var shown := set id | id in db.routes && IsRouteOf(db, h, id) :: ViewOf(db, db.routes[id]);
    forall v | v in shown ensures IsRouteOf(db, h, v.id) && v == ViewOf(db, db.routes[v.id]) {
      var id :| IsRouteOf(db, h, id) && v == ViewOf(db, db.routes[id]);
    }
    PrecedesOrders(shown);
    views := SortedList(shown, Precedes);
  }

  lemma AnswerExists(db: Db, h: string) returns (p: Option<Projection>)
    requires KeyedByIds(db) && db.certs == map[]
    ensures Queried(db, h, p)
  {
    if h in db.endpoints {
      var e := db.endpoints[h];
      if IsL4(e.kind) {
        p := Some(Projection(e.hostname, e.needCert, e.kind, None, [], Shown(Get(db.backends, e.boundId))));
      } else {
        var views := ViewsExist(db, h);
        p := Some(Projection(e.hostname, e.needCert, e.kind, None, views, None));
      }
    } else {
      p := None;
    }
  }

  lemma BackendChangesExist(w: Wish, p: Option<Projection>) returns (changes: seq<Change<Backend>>)
    requires Accepted(w)
    ensures PlansBackends(w, p, changes)
  {
    var current := ById(CurrentL7Backends(Views(p)), BackendKey);
    if IsL4(w.kind) {
      var head := DiffOne(CurrentL4(p), Some(BackendFor(w.hostname, L4Part, w.l4.value)));
      var gone := DiffExists(current, map[], BackendKey);
      changes := head + gone;
      assert changes[|head|..] == gone;
    } else {
      var tail := DiffOne(CurrentL4(p), None);
      var body := DiffExists(current, ById(DesiredBackends(w), BackendKey), BackendKey);
      changes := body + tail;
      assert changes[|changes| - |tail|..] == tail && changes[..|changes| - |tail|] == body;
    }
  }

  lemma PlanExists(w: Wish, p: Option<Projection>) returns (plan: Plan)
    requires Accepted(w)
    ensures IsPlan(w, p, [], plan)
  {
    var routes := DiffExists(ById(CurrentRoutes(p), RouteKey), WantedRoutes(w), RouteKey);
    var backends := BackendChangesExist(w, p);
    var dns := DiffExists(ById([], DnsKey), ById(DesiredDns(w), DnsKey), DnsKey);
    plan := Plan(w.hostname, dns, DiffOne(CurrentEndpoint(p), Some(DesiredEndpoint(w))), backends, routes);
  }

  /** `steps` are rounds for these wishes, in this order. */
  ghost predicate Serves(steps: seq<Step>, wishes: seq<Wish>) {
    |steps| == |wishes| && forall i :: 0 <= i < |steps| ==> steps[i].Round? && steps[i].w == wishes[i]
  }

  /** Every list of acceptable wishes has a run of rounds from the empty repository. */
  lemma {:induction false} RunExists(wishes: seq<Wish>) returns (dbs: seq<Db>, steps: seq<Step>)
    requires forall i :: 0 <= i < |wishes| ==> Accepted(wishes[i])
    ensures IsRun(dbs, steps) && Serves(steps, wishes) && dbs[|steps|].certs == map[]
  {
    if wishes == [] {
      dbs, steps := EmptyRun();
    } else {
      var n := |wishes| - 1;
      var init, last := wishes[..n], wishes[n];
      assert init + [last] == wishes;
      var before, done := RunExists(init);
      dbs, steps := ExtendRun(before, done, init, last);
    }
  }

  lemma EmptyRun() returns (dbs: seq<Db>, steps: seq<Step>)
    ensures IsRun(dbs, steps) && Serves(steps, []) && dbs[|steps|].certs == map[]
  {
    dbs, steps := [EmptyDb], [];
  }

  lemma ExtendRun(before: seq<Db>, done: seq<Step>, wishes: seq<Wish>, w: Wish) returns (dbs: seq<Db>, steps: seq<Step>)
    requires IsRun(before, done) && Serves(done, wishes) && before[|done|].certs == map[] && Accepted(w)
    ensures IsRun(dbs, steps) && Serves(steps, wishes + [w]) && dbs[|steps|].certs == map[]
  {
    var step, after := RoundExists(before, done, w);
    RunSnoc(before, done, step, after);
    ServesSnoc(done, wishes, step, w);
    dbs, steps := before + [after], done + [step];
  }

  lemma ServesSnoc(done: seq<Step>, wishes: seq<Wish>, step: Step, w: Wish)
    requires Serves(done, wishes) && step.Round? && step.w == w
    ensures Serves(done + [step], wishes + [w])
  {
  }

  lemma RunSnoc(dbs: seq<Db>, steps: seq<Step>, step: Step, after: Db)
    requires IsRun(dbs, steps) && IsStep(dbs[|steps|], step, after)
    ensures IsRun(dbs + [after], steps + [step])
  {
    var ds, ss := dbs + [after], steps + [step];
    forall i | 0 <= i < |ss| ensures IsStep(ds[i], ss[i], ds[i + 1]) {
      StepOfSnoc(dbs, steps, step, after, i);
    }
  }

  lemma StepOfSnoc(dbs: seq<Db>, steps: seq<Step>, step: Step, after: Db, i: nat)
    requires |dbs| == |steps| + 1 && i <= |steps|
    ensures var ds, ss := dbs + [after], steps + [step];
            if i < |steps| then ds[i] == dbs[i] && ss[i] == steps[i] && ds[i + 1] == dbs[i + 1]
            else ds[i] == dbs[|steps|] && ss[i] == step && ds[i + 1] == after
  {
  }

  lemma RoundExists(dbs: seq<Db>, steps: seq<Step>, w: Wish) returns (step: Step, after: Db)
    requires IsRun(dbs, steps) && dbs[|steps|].certs == map[] && Accepted(w)
    ensures step.Round? && step.w == w && IsStep(dbs[|steps|], step, after) && after.certs == map[]
  {
    var db := dbs[|steps|];
    RunKeepsInv(dbs, steps, |steps|);
    KeysOfInv(db);
    var p := AnswerExists(db, w.hostname);
    var plan := PlanExists(w, p);
    step, after := Round(w, p, [], plan), ApplyPlan(db, plan);
  }

  lemma KeysOfInv(db: Db)
    requires Inv(db) && db.certs == map[]
    ensures KeyedByIds(db)
  {
    forall id | id in db.routes ensures db.routes[id].id == id { assert RouteOk(db, id); }
  }

  function L4Wish(h: string, t: Target): Wish { Wish(h, L4Passthrough, false, Some(t), [], []) }

  function L7Wish(h: string, path: string, t: Target): Wish { Wish(h, L7Http, false, None, [RouteSpec(path, t)], []) }

  /** Any host and colliding path, asked for L4 and then for that L7 route: there is such a run, and it misses the
      second wish. */
  lemma L4ThenL7Misses(h: string, path: string, first: Target, second: Target)
    returns (dbs: seq<Db>, steps: seq<Step>, q: Projection)
    requires h != "" && SanitizePart(path) == L4Part
    ensures IsRun(dbs, steps) && Serves(steps, [L4Wish(h, first), L7Wish(h, path, second)])
    ensures Queried(dbs[2], h, Some(q)) && !Fulfils(L7Wish(h, path, second), q)
  {
    var l4, l7 := L4Wish(h, first), L7Wish(h, path, second);
    dbs, steps, q := TwoRounds(l4, l7);
    assert l7.routes[0].path == path;
    L4ToL7Fails(dbs, steps, 0, q);
  }

  /** And the other way round. */
  lemma L7ThenL4Misses(h: string, path: string, first: Target, second: Target)
    returns (dbs: seq<Db>, steps: seq<Step>, q: Projection)
    requires h != "" && SanitizePart(path) == L4Part
    ensures IsRun(dbs, steps) && Serves(steps, [L7Wish(h, path, first), L4Wish(h, second)])
    ensures Queried(dbs[2], h, Some(q)) && !Fulfils(L4Wish(h, second), q)
  {
    var l7, l4 := L7Wish(h, path, first), L4Wish(h, second);
    dbs, steps, q := TwoRounds(l7, l4);
    assert l7.routes[0].path == path;
    L7ToL4Fails(dbs, steps, 0, q);
  }

  const SlashL4: string := "/" + L4Part

  /** The path "/l4" is one: both switches of a host that routes it miss their wish. */
  lemma SlashL4Misses(h: string, first: Target, second: Target)
    requires h != ""
    ensures exists dbs, steps, q :: IsRun(dbs, steps) && Serves(steps, [L4Wish(h, first), L7Wish(h, SlashL4, second)])
                                    && Queried(dbs[2], h, Some(q)) && !Fulfils(L7Wish(h, SlashL4, second), q)
    ensures exists dbs, steps, q :: IsRun(dbs, steps) && Serves(steps, [L7Wish(h, SlashL4, first), L4Wish(h, second)])
                                    && Queried(dbs[2], h, Some(q)) && !Fulfils(L4Wish(h, second), q)
  {
    SlashKeyCollides(L4Part);
    var path := SlashL4;
    var dbs, steps, q := L4ThenL7Misses(h, path, first, second);
    var dbs', steps', q' := L7ThenL4Misses(h, path, first, second);
  }

  lemma TwoRounds(a: Wish, b: Wish) returns (dbs: seq<Db>, steps: seq<Step>, q: Projection)
    requires Accepted(a) && Accepted(b) && a.hostname == b.hostname
    ensures Successive(dbs, steps, 0) && Serves(steps, [a, b]) && Queried(dbs[2], b.hostname, Some(q))
  {
    dbs, steps := RunExists([a, b]);
    assert IsStep(dbs[0], steps[0], dbs[1]);
    RunKeepsInv(dbs, steps, 2);
    KeysOfInv(dbs[2]);
    RoundLeavesNothingElse(dbs, steps, 1);
    var p := AnswerExists(dbs[2], b.hostname);
    q := p.value;
  }
}
