/** What the protocol delivers: agreement with the master, and exactly which premises it rests on. */
module Convergence {
  import opened Options
  import opened Replication
  import opened SlaveStore
  import opened Protocol
  import opened Freshness

  predicate SameAt(a: Rows, b: Rows, k: Key) {
    (k in a <==> k in b) && (k in a ==> a[k] == b[k])
  }

  /** The latest log record of `k` was read after the last change of `k`: what is published last is up to date. */
  ghost predicate Published(s: State, k: Key)
    requires s.hist != []
  {
    exists i :: Latest(s.log, i, LastId(s.log)) && s.log[i].key == k && Settled(s, k, s.log[i].readAt)
  }

  ghost predicate Settled(s: State, k: Key, from: nat)
    requires s.hist != []
  {
    forall t :: from <= t < |s.hist| ==> SameAt(s.hist[t], Now(s), k)
  }

  ghost predicate AllPublished(s: State)
    requires s.hist != []
  {
    forall k :: k in Now(s) || Logged(s.log, k) ==> Published(s, k)
  }

  predicate DeletionFree(steps: seq<Step>) {
    forall i :: 0 <= i < |steps| ==> !steps[i].Remove? && !steps[i].ReadForDeletion?
  }

  lemma LiveKeyAgrees(s: State, k: Key)
    requires s.hist != [] && Covered(s.store.rows, s.hist, s.log, LastId(s.log))
    requires Published(s, k) && k in Now(s)
    ensures k in s.store.rows && s.store.rows[k] == Wire(Now(s)[k])
  {
    var i :| Latest(s.log, i, LastId(s.log)) && s.log[i].key == k && Settled(s, k, s.log[i].readAt);
    assert Fresh(s.store.rows, s.hist, k, s.log[i].readAt);
    var t :| s.log[i].readAt <= t < |s.hist| && Matches(s.store.rows, s.hist[t], k);
    assert SameAt(s.hist[t], Now(s), k);
  }

  /** Every run, deletions and overtaking publishes included: once the cursor has reached the last log id,
      every key the master holds and has published is cached with the master's present value. */
  lemma LiveKeysConverge(rows: Rows, steps: seq<Step>, k: Key)
    requires LiveRows(rows)
    requires var s := Run(rows, steps); Cursor(s.store) == LastId(s.log) && Published(s, k) && k in Now(s)
    ensures var s := Run(rows, steps); k in s.store.rows && Conveys(s.store.rows[k], Now(s)[k])
  {
    FreshInEveryRun(rows, steps);
    LiveKeyAgrees(Run(rows, steps), k);
    WireConveys(Now(Run(rows, steps))[k], Run(rows, steps).store.rows[k]);
  }

  /** No row ever left the master's tables and no deletion was ever published. */
  ghost predicate Lasting(s: State) {
    && s.hist != []
    && (forall t, u :: 0 <= t <= u < |s.hist| ==> s.hist[t].Keys <= s.hist[u].Keys)
    && (forall i :: 0 <= i < |s.log| ==> !s.log[i].entry.deleted)
    && (forall i :: 0 <= i < |s.publishing| ==> !s.publishing[i].entry.deleted)
  }

  lemma LastingStep(s: State, step: Step)
    requires Lasting(s) && LiveRows(Now(s)) && !step.Remove? && !step.ReadForDeletion?
    ensures Lasting(Next(s, step))
  {
    var t := Next(s, step);
    if step.Write? && !step.entry.deleted {
      forall i, j | 0 <= i <= j < |t.hist| ensures t.hist[i].Keys <= t.hist[j].Keys {
        assert i < |s.hist| ==> s.hist[i].Keys <= Now(s).Keys;
      }
    }
  }

  lemma {:induction false} NothingVanishes(rows: Rows, steps: seq<Step>)
    requires LiveRows(rows) && DeletionFree(steps)
    ensures Lasting(Run(rows, steps))
  {
    if steps != [] {
      var init := steps[..|steps| - 1];
      NothingVanishes(rows, init);
      CursorInEveryRun(rows, init, 0);
      assert LiveRows(Now(Run(rows, init)));
      LastingStep(Run(rows, init), steps[|steps| - 1]);
    }
  }

  lemma LastingMirror(s: State)
    requires MasterOk(s) && Lasting(s) && Covered(s.store.rows, s.hist, s.log, LastId(s.log)) && AllPublished(s)
    requires forall k :: k in s.store.rows ==> Logged(s.log, k)
    ensures SameTables(s.store.rows, Now(s))
  {
    forall k | k in Now(s) ensures k in s.store.rows && s.store.rows[k] == Wire(Now(s)[k]) {
      LiveKeyAgrees(s, k);
    }
    forall k | k in s.store.rows ensures k in Now(s) {
      LoggedLasts(s, k);
    }
    RowByRow(s.store.rows, Now(s));
  }

  lemma RowByRow(cached: Rows, now: Rows)
    requires forall k :: k in now ==> k in cached && cached[k] == Wire(now[k])
    requires forall k :: k in cached ==> k in now
    ensures SameTables(cached, now)
  {
    assert cached == Mirror(now);
    MirrorIs(cached, now);
  }

  lemma LoggedLasts(s: State, k: Key)
    requires MasterOk(s) && Lasting(s) && Logged(s.log, k)
    ensures k in Now(s)
  {
    var i :| 0 <= i < |s.log| && s.log[i].key == k;
    assert k in s.hist[s.log[i].readAt];
    assert s.hist[s.log[i].readAt].Keys <= s.hist[|s.hist| - 1].Keys;
  }

  /** Without deletions, in every run and at every moment: a key with a log record at or below the cursor
      is cached with a value the master held when the latest such record's payload was read, or later. */
  lemma CachedValueWasHeld(rows: Rows, steps: seq<Step>, i: nat) returns (t: nat)
    requires LiveRows(rows) && DeletionFree(steps)
    requires var s := Run(rows, steps); Latest(s.log, i, Cursor(s.store))
    ensures var s := Run(rows, steps);
            var k := s.log[i].key;
            && s.log[i].readAt <= t < |s.hist| && k in s.hist[t] && k in s.store.rows
            && Conveys(s.store.rows[k], s.hist[t][k])
  {
    var s := Run(rows, steps);
    FreshInEveryRun(rows, steps);
    CursorInEveryRun(rows, steps, 0);
    NothingVanishes(rows, steps);
    assert Fresh(s.store.rows, s.hist, s.log[i].key, s.log[i].readAt);
    t :| s.log[i].readAt <= t < |s.hist| && Matches(s.store.rows, s.hist[t], s.log[i].key);
    assert s.log[i].key in s.hist[s.log[i].readAt] && s.hist[s.log[i].readAt].Keys <= s.hist[t].Keys;
    WireConveys(s.hist[t][s.log[i].key], s.store.rows[s.log[i].key]);
  }

  /** Without deletions the slave at the last log id holds exactly the master's tables. */
  lemma DeletionFreeMirror(rows: Rows, steps: seq<Step>)
    requires LiveRows(rows) && DeletionFree(steps)
    requires var s := Run(rows, steps); Cursor(s.store) == LastId(s.log) && AllPublished(s)
    ensures var s := Run(rows, steps); SameTables(s.store.rows, Now(s))
  {
    FreshInEveryRun(rows, steps);
    CursorInEveryRun(rows, steps, 0);
    NothingVanishes(rows, steps);
    LastingMirror(Run(rows, steps));
  }

  // ---- Publishes in order ---------------------------------------------------------------------

  /** Records and pending publishes of one key stand in the order of their reads. */
  ghost predicate Ordered(s: State) {
    && (forall i, j {:trigger s.log[i].readAt, s.log[j].readAt} ::
          0 <= i < j < |s.log| && s.log[i].key == s.log[j].key ==> s.log[i].readAt <= s.log[j].readAt)
    && (forall i, j {:trigger s.log[i].readAt, s.publishing[j].readAt} ::
          0 <= i < |s.log| && 0 <= j < |s.publishing| && s.log[i].key == s.publishing[j].key ==>
            s.log[i].readAt <= s.publishing[j].readAt)
    && (forall i, j {:trigger s.publishing[i].readAt, s.publishing[j].readAt} ::
          0 <= i < j < |s.publishing| ==> s.publishing[i].readAt <= s.publishing[j].readAt)
  }

  lemma OrderedAppend(s: State, i: nat, id: nat)
    requires MasterOk(s) && Ordered(s) && InOrder(s, Append(i, id))
    ensures Ordered(Next(s, Append(i, id)))
  {
    var t := Next(s, Append(i, id));
    if t != s {
      var p := s.publishing[i];
      forall j | 0 <= j < |t.publishing| && t.publishing[j].key == p.key ensures p.readAt <= t.publishing[j].readAt {
        assert j >= i ==> t.publishing[j] == s.publishing[j + 1];
      }
    }
  }

  lemma OrderedRead(s: State, step: Step)
    requires MasterOk(s) && Ordered(s) && (step.ReadForPublish? || step.ReadForDeletion?)
    ensures Ordered(Next(s, step))
  {
  }

  lemma OrderedElse(s: State, step: Step)
    requires s.hist != [] && Ordered(s) && !step.Append? && !step.ReadForPublish? && !step.ReadForDeletion?
    ensures Ordered(Next(s, step))
  {
    var t := Next(s, step);
    assert t.log == s.log && t.publishing == s.publishing;
  }

  lemma {:induction false} OrderedInOrderRuns(rows: Rows, steps: seq<Step>)
    requires LiveRows(rows) && InOrderRun(rows, steps)
    ensures Ordered(Run(rows, steps))
  {
    if steps != [] {
      var init, step := steps[..|steps| - 1], steps[|steps| - 1];
      OrderedInOrderRuns(rows, init);
      CursorInEveryRun(rows, init, 0);
      match step
      case Append(i, id) => OrderedAppend(Run(rows, init), i, id);
      case ReadForPublish(_) => OrderedRead(Run(rows, init), step);
      case ReadForDeletion(_) => OrderedRead(Run(rows, init), step);
      case _ => OrderedElse(Run(rows, init), step);
    }
  }

  lemma {:induction false} LatestFrom(log: seq<LogRecord>, i: nat) returns (j: nat)
    requires Ascending(log) && i < |log|
    ensures i <= j && Latest(log, j, LastId(log)) && log[j].key == log[i].key
    decreases |log| - i
  {
    if k :| i < k < |log| && log[k].key == log[i].key {
      j := LatestFrom(log, k);
    } else {
      j := i;
    }
  }

  /** If publishes of one key append in the order of their reads, any settled record of the key will do. */
  lemma InOrderPublished(rows: Rows, steps: seq<Step>, i: nat)
    requires LiveRows(rows) && InOrderRun(rows, steps)
    requires var s := Run(rows, steps); i < |s.log| && Settled(s, s.log[i].key, s.log[i].readAt)
    ensures Published(Run(rows, steps), Run(rows, steps).log[i].key)
  {
    OrderedInOrderRuns(rows, steps);
    CursorInEveryRun(rows, steps, 0);
    OrderedPublished(Run(rows, steps), i);
  }

  lemma OrderedPublished(s: State, i: nat)
    requires s.hist != [] && Ascending(s.log) && Ordered(s) && i < |s.log| && Settled(s, s.log[i].key, s.log[i].readAt)
    ensures Published(s, s.log[i].key)
  {
    var j := LatestFrom(s.log, i);
    assert s.log[i].readAt <= s.log[j].readAt;
    assert Settled(s, s.log[i].key, s.log[j].readAt);
  }

  // ---- Notices alone replay the log -----------------------------------------------------------

  ghost predicate NoticesOnly(rows: Rows, steps: seq<Step>) {
    steps == [] ||
    (&& NoticesOnly(rows, steps[..|steps| - 1])
     && var s := Run(rows, steps[..|steps| - 1]);
        steps[|steps| - 1].Receive? && s.session.CatchingUp? && s.session.server.sent != [] ==>
          Entries(s.session.server.sent[0]) == [])
  }

  function Payloads(log: seq<LogRecord>): (r: seq<Entry>)
    ensures |r| == |log| && forall i :: 0 <= i < |log| ==> r[i] == Wire(log[i].entry)
  {
    seq(|log|, i requires 0 <= i < |log| => Wire(log[i].entry))
  }

  /** The rows that playing the first `n` log records into an empty cache leaves. */
  function Replay(log: seq<LogRecord>, n: nat): Rows
    requires n <= |log|
  {
    DealAll(map[], Payloads(log[..n]))
  }

  lemma ReplayNext(log: seq<LogRecord>, n: nat)
    requires n < |log|
    ensures Replay(log, n + 1) == Deal(Replay(log, n), Wire(log[n].entry))
  {
    assert Payloads(log[..n + 1])[..n] == Payloads(log[..n]);
  }

  ghost predicate Replayed(s: State) {
    s.store.rows == Replay(s.log, Skip(s.log, Cursor(s.store)))
  }

  lemma ReplayStep(s: State, step: Step)
    requires MasterOk(s) && CursorOk(s) && Replayed(s)
    requires step.Receive? && s.session.CatchingUp? && s.session.server.sent != [] ==>
               Entries(s.session.server.sent[0]) == []
    ensures Replayed(Next(s, step))
  {
    match step
    case Append(i, id) => ReplayAppend(s, i, id);
    case Receive =>
      if s.session.CatchingUp? && s.session.server.sent != [] {
        SnapshotIsPut(s.store, s.session.server.sent[0]);
      }
    case Deliver(i) => if s.session.Live? && i < |s.log| { ReplayDeliver(s, i); }
    case _ =>
  }

  lemma ReplayAppend(s: State, i: nat, id: nat)
    requires MasterOk(s) && CursorOk(s) && Replayed(s)
    ensures Replayed(Next(s, Append(i, id)))
  {
    var t := Next(s, Append(i, id));
    if t != s {
      var n := Skip(s.log, Cursor(s.store));
      MasterAppend(s, i, id);
      SkipIs(t.log, Cursor(s.store), n);
      assert t.log[..n] == s.log[..n];
    }
  }

  lemma ReplayDeliver(s: State, i: nat)
    requires MasterOk(s) && CursorOk(s) && Replayed(s) && s.session.Live? && i < |s.log|
    ensures Replayed(Next(s, Deliver(i)))
  {
    ReactionKeepsCursor(s.store, WireNotice(NoticeOf(s.log[i])));
    if s.log[i].id == Cursor(s.store) + 1 {
      ReplayAdvance(s.store, s.log, i);
    }
  }

  lemma ReplayAdvance(store: Store, log: seq<LogRecord>, i: nat)
    requires Ascending(log) && i < |log| && log[i].id == Cursor(store) + 1
    requires store.rows == Replay(log, Skip(log, Cursor(store)))
    ensures Put(store, log[i].id, NoticeEntries(WireNotice(NoticeOf(log[i])))).rows == Replay(log, Skip(log, log[i].id))
  {
    SkipIs(log, Cursor(store), i);
    SkipIs(log, log[i].id, i + 1);
    ReplayNext(log, i);
    NoticeIsDeal(store, log[i]);
  }

  /** In every run whose records all arrive as gap-free notices, the cache is the replay of the log up to the cursor. */
  lemma {:induction false} CacheReplaysLog(rows: Rows, steps: seq<Step>)
    requires LiveRows(rows) && NoticesOnly(rows, steps)
    ensures Replayed(Run(rows, steps))
  {
    if steps != [] {
      var init := steps[..|steps| - 1];
      CacheReplaysLog(rows, init);
      CursorInEveryRun(rows, init, 0);
      ReplayStep(Run(rows, init), steps[|steps| - 1]);
    }
  }

  /** Replaying gives each key the payload of its latest record, and no row for a key whose latest record deletes it. */
  lemma {:induction false} ReplayIsLatest(log: seq<LogRecord>, n: nat, k: Key) returns (latest: int)
    requires n <= |log| && forall i :: 0 <= i < |log| ==> KeyOf(log[i].entry) == log[i].key
    ensures -1 <= latest < n
    ensures forall i :: latest < i < n ==> log[i].key != k
    ensures latest == -1 ==> k !in Replay(log, n)
    ensures latest >= 0 ==> log[latest].key == k && Holds(Replay(log, n), k, Wire(log[latest].entry))
  {
    if n == 0 {
      latest := -1;
    } else {
      ReplayNext(log, n - 1);
      if log[n - 1].key == k {
        latest := n - 1;
      } else {
        latest := ReplayIsLatest(log, n - 1, k);
      }
    }
  }

  /** What the log says last about `k` is what the master holds, as far as the wire carries it. */
  ghost predicate LastWordTrue(s: State, k: Key)
    requires s.hist != []
  {
    if !Logged(s.log, k) then k !in Now(s)
    else exists i :: Latest(s.log, i, LastId(s.log)) && s.log[i].key == k && Says(s.log[i].entry, Now(s), k)
  }

  predicate Says(e: Entry, now: Rows, k: Key) {
    if e.deleted then k !in now else k in now && AlikeButCert(now[k], e)
  }

  /** The slave has the key exactly if the master has, and says of it what the master says. */
  predicate AgreesAt(cached: Rows, now: Rows, k: Key) {
    (k in cached <==> k in now) && (k in now ==> Conveys(cached[k], now[k]))
  }

  lemma AgreesIsMirror(cached: Rows, now: Rows, k: Key)
    ensures AgreesAt(cached, now, k) <==> Get(cached, k) == Get(Mirror(now), k)
  {
    if k in now && k in cached {
      WireConveys(now[k], cached[k]);
    }
  }

  lemma WordIsReplayed(s: State, k: Key)
    requires MasterOk(s) && s.store.rows == Replay(s.log, |s.log|)
    ensures AgreesAt(s.store.rows, Now(s), k) <==> LastWordTrue(s, k)
  {
    AgreesIsMirror(s.store.rows, Now(s), k);
    var latest := ReplayIsLatest(s.log, |s.log|, k);
    if latest == -1 {
      assert !Logged(s.log, k);
    } else {
      assert Logged(s.log, k) && Latest(s.log, latest, LastId(s.log));
      assert forall i :: Latest(s.log, i, LastId(s.log)) && s.log[i].key == k ==> i == latest;
      assert LiveRows(s.hist[|s.hist| - 1]);
      assert Justified(s.hist, k, s.log[latest].entry, s.log[latest].readAt);
    }
  }

  /** If all records arrive as notices, in every run, deletions and overtaking publishes included: the slave at the last
      log id agrees with the master about a key if and only if the key's latest record says what the master holds. */
  lemma NoticesAgreeIff(rows: Rows, steps: seq<Step>, k: Key)
    requires LiveRows(rows) && NoticesOnly(rows, steps)
    requires var s := Run(rows, steps); Cursor(s.store) == LastId(s.log)
    ensures var s := Run(rows, steps); AgreesAt(s.store.rows, Now(s), k) <==> LastWordTrue(s, k)
  {
    CursorInEveryRun(rows, steps, 0);
    CacheReplaysLog(rows, steps);
    ReplayedAll(Run(rows, steps));
    WordIsReplayed(Run(rows, steps), k);
  }

  lemma ReplayedAll(s: State)
    requires Ascending(s.log) && Replayed(s) && Cursor(s.store) == LastId(s.log)
    ensures s.store.rows == Replay(s.log, |s.log|)
  {
    SkipIs(s.log, Cursor(s.store), |s.log|);
  }

  lemma PublishedIsTrue(s: State, k: Key)
    requires MasterOk(s) && (k in Now(s) || Logged(s.log, k) ==> Published(s, k))
    ensures LastWordTrue(s, k)
  {
    if Published(s, k) {
      var i :| Latest(s.log, i, LastId(s.log)) && s.log[i].key == k && Settled(s, k, s.log[i].readAt);
      assert Logged(s.log, k) && Justified(s.hist, k, s.log[i].entry, s.log[i].readAt);
      assert SameAt(s.hist[s.log[i].readAt], Now(s), k);
      assert Says(s.log[i].entry, Now(s), k);
    }
  }

  /** So with everything published it holds the master's tables. */
  lemma NoticesMirror(rows: Rows, steps: seq<Step>)
    requires LiveRows(rows) && NoticesOnly(rows, steps)
    requires var s := Run(rows, steps); Cursor(s.store) == LastId(s.log) && AllPublished(s)
    ensures var s := Run(rows, steps); SameTables(s.store.rows, Now(s))
  {
    var s := Run(rows, steps);
    CursorInEveryRun(rows, steps, 0);
    forall k ensures AgreesAt(s.store.rows, Now(s), k) {
      PublishedIsTrue(s, k);
      NoticesAgreeIff(rows, steps, k);
    }
    AgreeEverywhere(s.store.rows, Now(s));
  }

  lemma AgreeEverywhere(cached: Rows, now: Rows)
    requires forall k :: AgreesAt(cached, now, k)
    ensures SameTables(cached, now)
  {
    forall k ensures k in cached <==> k in now {
      assert AgreesAt(cached, now, k);
    }
    forall k | k in now ensures Conveys(cached[k], now[k]) {
      assert AgreesAt(cached, now, k);
    }
  }
}
