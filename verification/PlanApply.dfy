/** Plan application as the manage API runs it: tables in one transaction, then what to broadcast. */
module PlanApply {
  import opened Options
  import opened Text
  import opened PlanDiff
  import opened Repository
  import opened Planning
  import PlanRounds

  /** What is published after the commit, deletions first. */
  datatype Broadcasts = Broadcasts(deletedEntries: seq<Projection>, deletedDns: seq<DnsRecord>, hosts: set<string>,
                                   dnsIds: set<string>)

  /** The projection query, as a function of the tables it reads. */
  type Query = (Db, string) -> Option<Projection>

  ghost predicate Answers(query: Query) {
    forall db, h :: KeyedByIds(db) ==> PlanRounds.Queried(db, h, query(db, h))
  }

  predicate Upserts<T>(c: Change<T>) { !c.action.Delete? && c.desired.Some? }

  predicate Deletes<T>(c: Change<T>) { c.action.Delete? && c.current.Some? }

  /** The trimmed id, unless it is empty. */
  function Trimmed(id: string): set<string> {
    var trimmed := TrimSpace(id);
    if trimmed == "" then {} else {trimmed}
  }

  /** The trimmed, non-empty ids of the upserted items. */
  ghost function UpsertedIds<T>(changes: seq<Change<T>>, idOf: T -> string): set<string> {
    set i | 0 <= i < |changes| && Upserts(changes[i]) && TrimSpace(idOf(changes[i].desired.value)) != "" ::
      TrimSpace(idOf(changes[i].desired.value))
  }

  function Deleted<T>(changes: seq<Change<T>>): seq<T> {
    if changes == [] then []
    else
      var n := |changes| - 1;
      Deleted(changes[..n]) + if Deletes(changes[n]) then [changes[n].current.value] else []
  }

  /** Replays changes on a soft-delete table: upserts revive, deletions only flag the row. */
  method ReplayOnTable<T>(t: Table<T>, changes: seq<Change<T>>, idOf: T -> string)
    returns (r: Table<T>, ids: set<string>, gone: seq<T>)
    ensures Live(r) == ApplyChanges(Live(t), changes, idOf)
    ensures t.Keys <= r.Keys
    ensures ids == UpsertedIds(changes, idOf) && gone == Deleted(changes)
  {
    r, ids, gone := t, {}, [];
    for i := 0 to |changes|
      invariant Live(r) == ApplyChanges(Live(t), changes[..i], idOf)
      invariant t.Keys <= r.Keys
      invariant ids == UpsertedIds(changes[..i], idOf) && gone == Deleted(changes[..i])
    {
      var c := changes[i];
      assert changes[..i + 1][..i] == changes[..i];
      UpsertedNext(changes, idOf, i);
      if c.action.Delete? {
        if c.current.Some? {
          SoftDeleteLive(r, idOf(c.current.value));
          r := SoftDelete(r, idOf(c.current.value));
          gone := gone + [c.current.value];
        }
      } else if c.desired.Some? {
        var id := idOf(c.desired.value);
        UpsertLive(r, id, c.desired.value);
        r := Upsert(r, id, c.desired.value);
        ids := ids + Trimmed(id);
      }
    }
    assert changes[..|changes|] == changes;
  }

  /** The same for a table whose changes are not announced by id. */
  method ReplayOnly<T>(t: Table<T>, changes: seq<Change<T>>, idOf: T -> string) returns (r: Table<T>)
    ensures Live(r) == ApplyChanges(Live(t), changes, idOf) && t.Keys <= r.Keys
  {
    var ids, gone;
    r, ids, gone := ReplayOnTable(t, changes, idOf);
  }

  lemma UpsertedNext<T>(changes: seq<Change<T>>, idOf: T -> string, i: nat)
    requires i < |changes|
    ensures UpsertedIds(changes[..i + 1], idOf)
         == UpsertedIds(changes[..i], idOf) + if Upserts(changes[i]) then Trimmed(idOf(changes[i].desired.value))
         else {}
  {
    var a, b := changes[..i], changes[..i + 1];
    assert forall j :: 0 <= j < i ==> a[j] == b[j];
    assert b[i] == changes[i];
    assert UpsertedIds(a, idOf) <= UpsertedIds(b, idOf);
  }

  /** The entries of deleted endpoints, each as the query shows it just before its deletion. */
  function DeletedEntries(db: Db, changes: seq<Change<Endpoint>>, query: Query): seq<Projection> {
    if changes == [] then []
    else
      var init, last := changes[..|changes| - 1], changes[|changes| - 1];
      var at := db.(endpoints := ApplyChanges(db.endpoints, init, EndpointKey));
      DeletedEntries(db, init, query) + DeletedEntry(at, last, query)
  }

  function DeletedEntry(db: Db, c: Change<Endpoint>, query: Query): seq<Projection> {
    if !Deletes(c) then []
    else
      match query(db, c.current.value.hostname)
      case Some(p) => [p]
      case None => []
  }

  /** And every endpoint the plan deletes is announced, if the query still shows it just before. */
  lemma {:induction false} ShownEntriesAreDeleted(db: Db, changes: seq<Change<Endpoint>>, query: Query, i: nat)
    requires i < |changes| && Deletes(changes[i])
    ensures var at := db.(endpoints := ApplyChanges(db.endpoints, changes[..i], EndpointKey));
            var q := query(at, changes[i].current.value.hostname);
            q.Some? ==> q.value in DeletedEntries(db, changes, query)
  {
    var n := |changes| - 1;
    if i < n {
      var init := changes[..n];
      assert init[..i] == changes[..i];
      ShownEntriesAreDeleted(db, init, query, i);
    }
  }

  /** Every entry announced as deleted was what the tables showed of an endpoint the plan deletes. */
  lemma {:induction false} DeletedEntriesWereShown(db: Db, changes: seq<Change<Endpoint>>, query: Query, p: Projection)
    returns (i: nat)
    requires KeyedByIds(db) && Answers(query) && p in DeletedEntries(db, changes, query)
    ensures i < |changes| && Deletes(changes[i])
    ensures var at := db.(endpoints := ApplyChanges(db.endpoints, changes[..i], EndpointKey));
            var h := changes[i].current.value.hostname;
            h in at.endpoints && Shows(at, h, p)
  {
    var n := |changes| - 1;
    var init := changes[..n];
    if p in DeletedEntries(db, init, query) {
      i := DeletedEntriesWereShown(db, init, query, p);
      assert init[..i] == changes[..i];
    } else {
      i := n;
      var at := db.(endpoints := ApplyChanges(db.endpoints, init, EndpointKey));
      assert KeyedByIds(at) && PlanRounds.Queried(at, changes[n].current.value.hostname, Some(p));
    }
  }

  /** The endpoint changes: as for any table, but a deleted endpoint is queried first. */
  method ReplayEndpoints(db: Db, t: Table<Endpoint>, changes: seq<Change<Endpoint>>, query: Query)
    returns (r: Table<Endpoint>, ids: set<string>, entries: seq<Projection>)
    requires db.endpoints == Live(t)
    ensures Live(r) == ApplyChanges(db.endpoints, changes, EndpointKey) && t.Keys <= r.Keys
    ensures ids == UpsertedIds(changes, EndpointKey) && entries == DeletedEntries(db, changes, query)
  {
    r, ids, entries := t, {}, [];
    for i := 0 to |changes|
      invariant Live(r) == ApplyChanges(db.endpoints, changes[..i], EndpointKey) && t.Keys <= r.Keys
      invariant ids == UpsertedIds(changes[..i], EndpointKey) && entries == DeletedEntries(db, changes[..i], query)
    {
      assert changes[..i + 1][..i] == changes[..i];
      UpsertedNext(changes, EndpointKey, i);
      var id, entry;
      r, id, entry := ReplayEndpoint(db, r, changes[i], query);
      ids, entries := ids + id, entries + entry;
    }
    assert changes[..|changes|] == changes;
  }

  method ReplayEndpoint(db: Db, t: Table<Endpoint>, c: Change<Endpoint>, query: Query)
    returns (r: Table<Endpoint>, id: set<string>, entry: seq<Projection>)
    ensures Live(r) == ApplyChange(Live(t), c, EndpointKey) && t.Keys <= r.Keys
    ensures id == (if Upserts(c) then Trimmed(EndpointKey(c.desired.value)) else {})
    ensures entry == DeletedEntry(db.(endpoints := Live(t)), c, query)
  {
    r, id, entry := t, {}, [];
    if c.action.Delete? {
      if c.current.Some? {
        entry := DeletedEntry(db.(endpoints := Live(t)), c, query);
        SoftDeleteLive(t, EndpointKey(c.current.value));
        r := SoftDelete(t, EndpointKey(c.current.value));
      }
    } else if c.desired.Some? {
      UpsertLive(t, EndpointKey(c.desired.value), c.desired.value);
      r := Upsert(t, EndpointKey(c.desired.value), c.desired.value);
      id := Trimmed(EndpointKey(c.desired.value));
    }
  }

  class Tables {
    var endpoints: Table<Endpoint>
    var backends: Table<Backend>
    var routes: Table<Route>
    var dns: Table<DnsRecord>
    var certs: Table<Cert>

    function View(): Db reads this {
      Db(Live(endpoints), Live(backends), Live(routes), Live(dns), Live(certs))
    }

    constructor ()
      ensures View() == EmptyDb
    {
      endpoints, backends, routes, dns, certs := map[], map[], map[], map[], map[];
    }

    method ApplyPlan(plan: Plan, query: Query) returns (b: Broadcasts)
      modifies this
      ensures View() == PlanRounds.ApplyPlan(old(View()), plan)
      ensures b.hosts == UpsertedIds(plan.endpoints, EndpointKey) + Trimmed(plan.hostname)
      ensures b.dnsIds == UpsertedIds(plan.dns, DnsKey) && b.deletedDns == Deleted(plan.dns)
      ensures b.deletedEntries == DeletedEntries(Midway(old(View()), plan), plan.endpoints, query)
    {
      var hosts, entries, dnsIds, deletedDns;
      routes := ReplayOnly(routes, plan.routes, RouteKey);
      backends := ReplayOnly(backends, plan.backends, BackendKey);
      endpoints, hosts, entries := ReplayEndpoints(View(), endpoints, plan.endpoints, query);
      dns, dnsIds, deletedDns := ReplayOnTable(dns, plan.dns, DnsKey);
      b := Broadcasts(entries, deletedDns, hosts + Trimmed(plan.hostname), dnsIds);
    }
  }

  /** The tables once routes and backends are changed and endpoints are not. */
  function Midway(db: Db, plan: Plan): Db {
    db.(routes := ApplyChanges(db.routes, plan.routes, RouteKey),
        backends := ApplyChanges(db.backends, plan.backends, BackendKey))
  }

  // ---- What is announced ------------------------------------------------------------------------

  ghost predicate IsUpserted<T>(changes: seq<Change<T>>, idOf: T -> string, id: string) {
    exists i :: 0 <= i < |changes| && Upserts(changes[i]) && idOf(changes[i].desired.value) == id
  }

  /** The plan's host is announced, as trimmed, if anything is left of it. */
  lemma HostIsAnnounced(host: string)
    ensures forall h :: h in Trimmed(host) <==> h == TrimSpace(host) && h != ""
  {
  }

  /** The deleted items are listed in the order of their changes, each once per deletion. */
  lemma DeletedAre<T(!new)>(changes: seq<Change<T>>) returns (at: seq<nat>)
    ensures DeletedAt(changes, Deleted(changes), at, |changes|)
  {
    at := DeletedUpTo(changes, |changes|);
    assert changes[..|changes|] == changes;
  }

  /** Of the first `n` changes, those at `at` are the deletions, and `gone` lists what they delete. */
  ghost predicate DeletedAt<T(!new)>(changes: seq<Change<T>>, gone: seq<T>, at: seq<nat>, n: nat)
    requires n <= |changes|
  {
    && |at| == |gone| && (forall j, k :: 0 <= j < k < |at| ==> at[j] < at[k])
    && (forall j :: 0 <= j < |at| ==>
          at[j] < n && changes[at[j]].action == Delete && changes[at[j]].current == Some(gone[j]))
    && (forall i: nat :: i < n && changes[i].action == Delete && changes[i].current.Some? ==> i in at)
  }

  lemma {:induction false} DeletedUpTo<T(!new)>(changes: seq<Change<T>>, n: nat) returns (at: seq<nat>)
    requires n <= |changes|
    ensures DeletedAt(changes, Deleted(changes[..n]), at, n)
  {
    if n == 0 {
      at := [];
    } else {
      at := DeletedUpTo(changes, n - 1);
      assert changes[..n][..n - 1] == changes[..n - 1];
      if Deletes(changes[n - 1]) {
        OneMoreDeleted(changes, Deleted(changes[..n - 1]), at, n - 1);
        at := at + [n - 1];
      }
    }
  }

  lemma OneMoreDeleted<T(!new)>(changes: seq<Change<T>>, gone: seq<T>, at: seq<nat>, n: nat)
    requires n < |changes| && DeletedAt(changes, gone, at, n) && Deletes(changes[n])
    ensures DeletedAt(changes, gone + [changes[n].current.value], at + [n], n + 1)
  {
    var more := at + [n];
    forall i: nat | i < n + 1 && changes[i].action == Delete && changes[i].current.Some? ensures i in more {
      assert i < n ==> i in at;
      assert more[|at|] == n;
    }
  }

  /** An upserted row is announced under its id if and only if trimming leaves that id alone and it is not empty. */
  lemma AnnouncedIff<T>(changes: seq<Change<T>>, idOf: T -> string, id: string)
    requires IsUpserted(changes, idOf, id)
    ensures id in UpsertedIds(changes, idOf) <==> TrimSpace(id) == id && id != ""
  {
    if id in UpsertedIds(changes, idOf) {
      var i :| 0 <= i < |changes| && Upserts(changes[i]) && TrimSpace(idOf(changes[i].desired.value)) == id && id != "";
      TrimTwice(idOf(changes[i].desired.value));
    }
    var i :| 0 <= i < |changes| && Upserts(changes[i]) && idOf(changes[i].desired.value) == id;
  }

  lemma TrimTwice(s: string)
    ensures TrimSpace(TrimSpace(s)) == TrimSpace(s)
  {
  }

  /** A row whose id starts with a blank is stored, and announced only under an id it does not have. */
  lemma BlankIdIsMissed<T>(changes: seq<Change<T>>, idOf: T -> string, s: string)
    requires IsUpserted(changes, idOf, " " + s)
    ensures " " + s !in UpsertedIds(changes, idOf)
  {
    var id := " " + s;
    AnnouncedIff(changes, idOf, id);
    assert id[0] == ' ';
  }

  /** Every row a plan changes is announced as deleted, or upserted and then announced if and only if its id is trimmed
      and not empty. */
  lemma {:induction false} ChangesAreAnnounced<T>(m: map<string, T>, changes: seq<Change<T>>, idOf: T -> string,
                                                  id: string)
    requires Get(ApplyChanges(m, changes, idOf), id) != Get(m, id)
    ensures (exists x :: x in Deleted(changes) && idOf(x) == id) ||
            (IsUpserted(changes, idOf, id) && (id in UpsertedIds(changes, idOf) <==> TrimSpace(id) == id && id != ""))
  {
    ChangedIsNamed(m, changes, idOf, id);
    if IsUpserted(changes, idOf, id) {
      AnnouncedIff(changes, idOf, id);
    }
  }

  lemma {:induction false} ChangedIsNamed<T>(m: map<string, T>, changes: seq<Change<T>>, idOf: T -> string, id: string)
    requires Get(ApplyChanges(m, changes, idOf), id) != Get(m, id)
    ensures (exists x :: x in Deleted(changes) && idOf(x) == id) || IsUpserted(changes, idOf, id)
  {
    var n := |changes| - 1;
    var init, last := changes[..n], changes[n];
    if Get(ApplyChanges(m, init, idOf), id) != Get(m, id) {
      ChangedIsNamed(m, init, idOf, id);
      if IsUpserted(init, idOf, id) {
        var i :| 0 <= i < |init| && Upserts(init[i]) && idOf(init[i].desired.value) == id;
        assert changes[i] == init[i];
      } else {
        var x :| x in Deleted(init) && idOf(x) == id;
        assert x in Deleted(changes);
      }
    } else if last.action.Delete? {
      assert last.current.value in Deleted(changes);
    } else {
      assert Upserts(changes[n]) && idOf(changes[n].desired.value) == id;
    }
  }
}
