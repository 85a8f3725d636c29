/** When a deletion reaches the slave, in runs that mix catch-up and notices in any way. */
module Deletions {
  import opened Options
  import opened Replication
  import opened SlaveStore
  import opened SnapshotServer
  import opened Protocol
  import opened Freshness
  import opened Convergence

  /** Once it is in the log, record `i` reports the deletion of `k`, is the last of `k`, and `k` stays away since. */
  ghost predicate Gone(s: State, k: Key, i: nat) {
    i < |s.log| ==>
      && s.log[i].key == k && s.log[i].entry.deleted
      && (forall j :: i < j < |s.log| ==> s.log[j].key != k)
      && (forall t :: s.log[i].readAt <= t < |s.hist| ==> k !in s.hist[t])
  }

  predicate Silent(es: seq<Entry>, k: Key) { forall e :: e in es ==> KeyOf(e) != k }

  ghost predicate SilentServer(server: Server, k: Key) {
    && Silent(server.dns, k) && Silent(server.domains, k)
    && forall c :: c in server.sent ==> Silent(Entries(c), k)
  }

  /** A catch-up that lists record `i` reads `k` only after its removal, so it carries nothing about `k`. */
  ghost predicate Quiet(s: State, k: Key, i: nat) {
    s.session.CatchingUp? && s.session.end > i ==> SilentServer(s.session.server, k)
  }

  // ---- History and log only grow --------------------------------------------------------------

  lemma GrowsStep(s: State, step: Step)
    requires s.hist != []
    ensures s.hist <= Next(s, step).hist && s.log <= Next(s, step).log
  {
  }

  lemma GoneBefore(s: State, step: Step, k: Key, i: nat)
    requires s.hist != [] && Gone(Next(s, step), k, i)
    ensures Gone(s, k, i)
  {
    GrowsStep(s, step);
    var t := Next(s, step);
    if i < |s.log| {
      assert t.log[i] == s.log[i];
      forall j | i < j < |s.log| ensures s.log[j].key != k {
        assert t.log[j] == s.log[j];
      }
      forall u | s.log[i].readAt <= u < |s.hist| ensures k !in s.hist[u] {
        assert t.hist[u] == s.hist[u];
      }
    }
  }

  // ---- Catch-ups that list the deletion are silent about the key ------------------------------

  lemma SilentWire(es: seq<Entry>, k: Key)
    requires Silent(es, k)
    ensures Silent(WireAll(es), k)
  {
    forall i | 0 <= i < |es| ensures KeyOf(WireAll(es)[i]) != k {
      assert es[i] in es;
    }
  }

  lemma SilentFlush(server: Server, last: bool, k: Key)
    requires SilentServer(server, k)
    ensures SilentServer(Flush(server, last), k)
  {
    SilentWire(server.dns, k);
    SilentWire(server.domains, k);
  }

  lemma SilentTake(server: Server, r: LogRecord, read: Option<Entry>, k: Key)
    requires SilentServer(server, k) && (read.Some? ==> KeyOf(read.value) != k)
    ensures SilentServer(Take(server, r, read), k)
  {
    if read.Some? {
      var t := server.(lastSeen := r.id);
      var u := if r.key.table.DnsRecords? then t.(dns := t.dns + [read.value])
          else t.(domains := t.domains + [read.value]);
      SilentFlush(u, false, k);
    }
  }

  lemma QuietServeNext(s: State, k: Key, i: nat)
    requires MasterOk(s) && CursorOk(s) && Gone(s, k, i) && Quiet(s, k, i)
    ensures Quiet(Next(s, ServeNext), k, i)
  {
    if s.session.CatchingUp? && i < s.session.end && s.session.next < s.session.end {
      assert Justified(s.hist, k, s.log[i].entry, s.log[i].readAt);
      assert k !in s.hist[|s.hist| - 1] && LiveRows(s.hist[|s.hist| - 1]);
      var r := s.log[s.session.next];
      SilentTake(s.session.server, r, Lookup(Now(s), r.key), k);
    }
  }

  lemma QuietStep(s: State, step: Step, k: Key, i: nat)
    requires MasterOk(s) && CursorOk(s) && Gone(s, k, i) && Quiet(s, k, i)
    ensures Quiet(Next(s, step), k, i)
  {
    match step
    case ServeNext => QuietServeNext(s, k, i);
    case ServeEnd => if s.session.CatchingUp? && s.session.end > i { SilentFlush(s.session.server, true, k); }
    case _ =>
  }

  // ---- What a step does to the row ------------------------------------------------------------

  lemma {:induction false} SilentLast(es: seq<Entry>, k: Key)
    requires Silent(es, k)
    ensures LastFor(es, k) == None
  {
    if es != [] {
      assert es[|es| - 1] in es;
      SilentLast(es[..|es| - 1], k);
    }
  }

  /** A catch-up whose chunks reach record `i` lists it. */
  lemma ReachingLists(s: State, i: nat)
    requires Ascending(s.log) && CursorOk(s) && s.session.CatchingUp? && i < |s.log|
    requires s.log[i].id <= s.session.server.lastSeen
    ensures i < s.session.end
  {
  }

  /** A chunk that takes the cursor to record `i` or beyond leaves the row as it is. */
  lemma ReceiveLeaves(s: State, k: Key, i: nat)
    requires s.hist != [] && Ascending(s.log) && CursorOk(s) && Quiet(s, k, i) && i < |s.log|
    requires Cursor(Next(s, Receive).store) >= s.log[i].id
    ensures k in Next(s, Receive).store.rows <==> k in s.store.rows
  {
    if s.session.CatchingUp? && s.session.server.sent != [] {
      var sent := s.session.server.sent;
      ReceivedCursor(s.store, sent, s.session.base, s.session.server.lastSeen);
      ReachingLists(s, i);
      assert sent[0] in sent;
      SilentLast(Entries(sent[0]), k);
      SnapshotIsPut(s.store, sent[0]);
      DealAllAt(s.store.rows, Entries(sent[0]), k);
    }
  }

  lemma NoticeDecides(store: Store, log: seq<LogRecord>, n: nat, k: Key, i: nat)
    requires Ascending(log) && i < |log| && n < |log| && log[n].id >= log[i].id && KeyOf(log[n].entry) == log[n].key
    requires log[i].key == k && log[i].entry.deleted && forall j :: i < j < |log| ==> log[j].key != k
    ensures k in Put(store, log[n].id, NoticeEntries(WireNotice(NoticeOf(log[n])))).rows <==>
            k in store.rows && log[n].id > log[i].id
  {
    NoticeIsDeal(store, log[n]);
  }

  /** A notice that takes the cursor to record `i` is that record; one beyond it is about another key. */
  lemma DeliverDecides(s: State, n: nat, k: Key, i: nat)
    requires MasterOk(s) && CursorOk(s) && Gone(s, k, i) && i < |s.log|
    requires Cursor(Next(s, Deliver(n)).store) >= s.log[i].id
    ensures var t := Next(s, Deliver(n));
            k in t.store.rows <==> k in s.store.rows && Cursor(s.store) >= s.log[i].id
  {
    var t := Next(s, Deliver(n));
    if s.session.Live? && n < |s.log| {
      var r := s.log[n];
      ReactionKeepsCursor(s.store, WireNotice(NoticeOf(r)));
      if r.id == Cursor(s.store) + 1 {
        assert Justified(s.hist, r.key, r.entry, r.readAt);
        NoticeDecides(s.store, s.log, n, k, i);
      }
    }
  }

  /** What one step does to the row, once the cursor is at record `i` or beyond. */
  lemma RowAfter(s: State, step: Step, k: Key, i: nat)
    requires MasterOk(s) && CursorOk(s) && Gone(s, k, i) && Quiet(s, k, i) && i < |Next(s, step).log|
    requires Cursor(Next(s, step).store) >= Next(s, step).log[i].id
    ensures i < |s.log| && Next(s, step).log[i] == s.log[i]
    ensures var t := Next(s, step);
            k in t.store.rows <==> k in s.store.rows && (Cursor(s.store) >= s.log[i].id || !step.Deliver?)
  {
    GrowsStep(s, step);
    Arrived(s, step, i);
    match step
    case Receive => ReceiveLeaves(s, k, i);
    case Deliver(n) => DeliverDecides(s, n, k, i);
    case _ =>
  }

  lemma Arrived(s: State, step: Step, i: nat)
    requires MasterOk(s) && CursorOk(s) && i < |Next(s, step).log|
    requires Cursor(Next(s, step).store) >= Next(s, step).log[i].id
    ensures i < |s.log| && Next(s, step).log[i] == s.log[i]
  {
    GrowsStep(s, step);
    CursorStep(s, step);
    if step.Append? {
      CursorAppend(s, step.which, step.id);
    }
  }

  // ---- Whole runs -----------------------------------------------------------------------------

  lemma {:induction false} QuietInRuns(rows: Rows, steps: seq<Step>, k: Key, i: nat)
    requires LiveRows(rows) && Gone(Run(rows, steps), k, i)
    ensures Quiet(Run(rows, steps), k, i)
  {
    if steps != [] {
      var init := steps[..|steps| - 1];
      GoneBefore(Run(rows, init), steps[|steps| - 1], k, i);
      QuietInRuns(rows, init, k, i);
      CursorInEveryRun(rows, init, 0);
      QuietStep(Run(rows, init), steps[|steps| - 1], k, i);
    }
  }

  /** Step `n` takes the slave's cursor to `id` or beyond. */
  ghost predicate Crosses(rows: Rows, steps: seq<Step>, n: nat, id: nat) {
    && n < |steps|
    && Cursor(Run(rows, steps[..n]).store) < id <= Cursor(Run(rows, steps[..n + 1]).store)
  }

  /** The deletion arrives as a notice, or meets no row. */
  ghost predicate Arrives(rows: Rows, steps: seq<Step>, n: nat, k: Key)
    requires n < |steps|
  {
    steps[n].Deliver? || k !in Run(rows, steps[..n]).store.rows
  }

  lemma LastStep(rows: Rows, steps: seq<Step>, k: Key, i: nat)
    requires LiveRows(rows) && steps != []
    requires var t := Run(rows, steps); Gone(t, k, i) && i < |t.log| && Cursor(t.store) >= t.log[i].id
    ensures var s, t := Run(rows, steps[..|steps| - 1]), Run(rows, steps);
            && Gone(s, k, i) && i < |s.log| && s.log[i] == t.log[i]
            && (k in t.store.rows <==>
                  k in s.store.rows && (Cursor(s.store) >= s.log[i].id || !steps[|steps| - 1].Deliver?))
  {
    var init, step := steps[..|steps| - 1], steps[|steps| - 1];
    GoneBefore(Run(rows, init), step, k, i);
    QuietInRuns(rows, init, k, i);
    CursorInEveryRun(rows, init, 0);
    RowAfter(Run(rows, init), step, k, i);
  }

  lemma {:induction false} GoneIff(rows: Rows, steps: seq<Step>, k: Key, i: nat, n: nat)
    requires LiveRows(rows)
    requires var s := Run(rows, steps); Gone(s, k, i) && i < |s.log| && Crosses(rows, steps, n, s.log[i].id)
    ensures k !in Run(rows, steps).store.rows <==> Arrives(rows, steps, n, k)
  {
    CursorInEveryRun(rows, steps, n + 1);
    LastStep(rows, steps, k, i);
    if n < |steps| - 1 {
      CrossesBefore(rows, steps, n, Run(rows, steps).log[i].id);
      GoneIff(rows, steps[..|steps| - 1], k, i, n);
    }
  }

  lemma CrossesBefore(rows: Rows, steps: seq<Step>, n: nat, id: nat)
    requires LiveRows(rows) && Crosses(rows, steps, n, id) && n < |steps| - 1
    ensures var init := steps[..|steps| - 1];
            && Crosses(rows, init, n, id) && Cursor(Run(rows, init).store) >= id
            && init[n] == steps[n] && init[..n] == steps[..n]
  {
    var init := steps[..|steps| - 1];
    assert init[..n] == steps[..n] && init[..n + 1] == steps[..n + 1];
    CursorInEveryRun(rows, init, n + 1);
  }

  /** The latest record of a key the master no longer holds, read after the key's removal. */
  ghost predicate ReportsRemoval(s: State, i: nat)
    requires s.hist != []
  {
    && Latest(s.log, i, LastId(s.log)) && s.log[i].key !in Now(s)
    && Settled(s, s.log[i].key, s.log[i].readAt)
  }

  lemma RemovalIsGone(s: State, i: nat)
    requires MasterOk(s) && ReportsRemoval(s, i)
    ensures Gone(s, s.log[i].key, i)
  {
    assert Justified(s.hist, s.log[i].key, s.log[i].entry, s.log[i].readAt);
  }

  /** Every run, whatever it mixes: a published deletion whose record the cursor has passed has reached the cache if and
      only if the step that passed it delivered a notice, or the row was not cached just before. */
  lemma DeletionArrivesIff(rows: Rows, steps: seq<Step>, i: nat, n: nat)
    requires LiveRows(rows)
    requires var s := Run(rows, steps); ReportsRemoval(s, i) && Crosses(rows, steps, n, s.log[i].id)
    ensures var s := Run(rows, steps); s.log[i].key !in s.store.rows <==> Arrives(rows, steps, n, s.log[i].key)
  {
    CursorInEveryRun(rows, steps, 0);
    RemovalIsGone(Run(rows, steps), i);
    GoneIff(rows, steps, Run(rows, steps).log[i].key, i, n);
  }

  /** Every id at or below the cursor was passed by exactly one step. */
  lemma CrossingExists(rows: Rows, steps: seq<Step>, id: nat) returns (n: nat)
    requires LiveRows(rows) && 0 < id <= Cursor(Run(rows, steps).store)
    ensures Crosses(rows, steps, n, id)
    ensures forall m :: Crosses(rows, steps, m, id) ==> m == n
  {
    assert steps[..0] == [] && steps[..|steps|] == steps && Cursor(Empty) == 0;
    n := Passing(Cursors(rows, steps), id);
    forall j | Crosses(rows, steps, j, id) ensures j == n {
      CrossesOnce(rows, steps, j, n, id);
      CrossesOnce(rows, steps, n, j, id);
    }
  }

  ghost function Cursors(rows: Rows, steps: seq<Step>): (r: seq<nat>)
    ensures |r| == |steps| + 1 && forall j :: 0 <= j <= |steps| ==> r[j] == Cursor(Run(rows, steps[..j]).store)
  {
    seq(|steps| + 1, j requires 0 <= j <= |steps| => Cursor(Run(rows, steps[..j]).store))
  }

  lemma {:induction false} Passing(cs: seq<nat>, id: nat) returns (n: nat)
    requires cs != [] && cs[0] < id <= cs[|cs| - 1]
    ensures n + 1 < |cs| && cs[n] < id <= cs[n + 1]
  {
    var m := |cs| - 2;
    if cs[m] < id {
      n := m;
    } else {
      n := Passing(cs[..m + 1], id);
    }
  }

  lemma CrossesOnce(rows: Rows, steps: seq<Step>, a: nat, b: nat, id: nat)
    requires LiveRows(rows) && Crosses(rows, steps, a, id) && Crosses(rows, steps, b, id)
    ensures b <= a
  {
    if a < b {
      assert steps[..b][..a + 1] == steps[..a + 1];
      CursorInEveryRun(rows, steps[..b], a + 1);
    }
  }

  /** No published deletion was met by a chunk while its row was cached. */
  ghost predicate AllArrive(rows: Rows, steps: seq<Step>) {
    var s := Run(rows, steps);
    forall i: nat, n: nat :: ReportsRemoval(s, i) && Crosses(rows, steps, n, s.log[i].id) ==>
      Arrives(rows, steps, n, s.log[i].key)
  }

  /** Every run, whatever it mixes: with everything published and the cursor at the last id, the cache holds the
      master's tables if and only if every deletion arrived as a notice or met no row. */
  lemma MirrorIff(rows: Rows, steps: seq<Step>)
    requires LiveRows(rows)
    requires var s := Run(rows, steps); Cursor(s.store) == LastId(s.log) && AllPublished(s)
    ensures var s := Run(rows, steps); SameTables(s.store.rows, Now(s)) <==> AllArrive(rows, steps)
  {
    var s := Run(rows, steps);
    if SameTables(s.store.rows, Now(s)) {
      MirrorArrives(rows, steps);
    }
    if AllArrive(rows, steps) {
      forall k | k in Now(s) ensures k in s.store.rows && Conveys(s.store.rows[k], Now(s)[k]) {
        LiveKeysConverge(rows, steps, k);
      }
      forall k | k in s.store.rows ensures k in Now(s) {
        OnlyLive(rows, steps, k);
      }
    }
  }

  lemma MirrorArrives(rows: Rows, steps: seq<Step>)
    requires LiveRows(rows)
    requires var s := Run(rows, steps); SameTables(s.store.rows, Now(s))
    ensures AllArrive(rows, steps)
  {
    var s := Run(rows, steps);
    forall i: nat, n: nat | ReportsRemoval(s, i) && Crosses(rows, steps, n, s.log[i].id)
      ensures Arrives(rows, steps, n, s.log[i].key)
    {
      DeletionArrivesIff(rows, steps, i, n);
    }
  }

  lemma OnlyLive(rows: Rows, steps: seq<Step>, k: Key)
    requires LiveRows(rows) && AllArrive(rows, steps)
    requires var s := Run(rows, steps); Cursor(s.store) == LastId(s.log) && AllPublished(s) && k in s.store.rows
    ensures k in Now(Run(rows, steps))
  {
    var s := Run(rows, steps);
    FreshInEveryRun(rows, steps);
    CursorInEveryRun(rows, steps, 0);
    assert Logged(s.log, k) && Published(s, k);
    if k !in Now(s) {
      var i :| Latest(s.log, i, LastId(s.log)) && s.log[i].key == k && Settled(s, k, s.log[i].readAt);
      assert ReportsRemoval(s, i);
      var n := CrossingExists(rows, steps, s.log[i].id);
      DeletionArrivesIff(rows, steps, i, n);
    }
  }
}
