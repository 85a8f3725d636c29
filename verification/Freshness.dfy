/** What a slave's cache is worth at its cursor, in every run with any losses, crashes, racing writes and publishes
    in whatever order. */
module Freshness {
  import opened Options
  import opened Replication
  import opened SlaveStore
  import opened SnapshotServer
  import opened Protocol

  /** The cache agrees with a past content of the master on `k`, unless the master had no such row. */
  predicate Matches(rows: Rows, past: Rows, k: Key) {
    k in past ==> k in rows && rows[k] == Wire(past[k])
  }

  /** The cached value of `k` is one the master held at `from` or later, or `k` was absent at some such time. */
  ghost predicate Fresh(rows: Rows, hist: seq<Rows>, k: Key, from: nat) {
    exists t :: from <= t < |hist| && Matches(rows, hist[t], k)
  }

  /** Record `i` is the latest of its key among those with an id of at most `upto`. */
  ghost predicate Latest(log: seq<LogRecord>, i: int, upto: nat) {
    && 0 <= i < |log| && log[i].id <= upto
    && forall j :: i < j < |log| && log[j].id <= upto ==> log[j].key != log[i].key
  }

  ghost predicate Covered(rows: Rows, hist: seq<Rows>, log: seq<LogRecord>, upto: nat) {
    forall i :: Latest(log, i, upto) ==> Fresh(rows, hist, log[i].key, log[i].readAt)
  }

  ghost predicate Logged(log: seq<LogRecord>, k: Key) {
    exists i :: 0 <= i < |log| && log[i].key == k
  }

  // ---- Chunks in flight -----------------------------------------------------------------------

  ghost predicate AfterReads(log: seq<LogRecord>, end: nat, k: Key, t: nat) {
    forall i :: 0 <= i < |log| && i < end && log[i].key == k ==> log[i].readAt <= t
  }

  /** `e` is the wire form of a value of `k` read after every listed record of `k` was published. */
  ghost predicate ReadLate(hist: seq<Rows>, log: seq<LogRecord>, end: nat, k: Key, e: Entry) {
    exists t :: 0 <= t < |hist| && k in hist[t] && e == Wire(hist[t][k]) && AfterReads(log, end, k, t)
  }

  ghost predicate WasAbsent(hist: seq<Rows>, k: Key, from: nat) {
    exists t :: from <= t < |hist| && k !in hist[t]
  }

  /** What a chunk does for `k`, as the chunk that spans the log ids in (`from`, `to`]. */
  ghost predicate Supplies(es: seq<Entry>, hist: seq<Rows>, log: seq<LogRecord>, from: nat, to: nat, end: nat, k: Key) {
    match LastFor(es, k)
    case Some(e) => Logged(log, k) && ReadLate(hist, log, end, k, e)
    case None =>
      forall i :: 0 <= i < |log| && log[i].key == k && from < log[i].id <= to ==> WasAbsent(hist, k, log[i].readAt)
  }

  ghost predicate ChunkOk(es: seq<Entry>, hist: seq<Rows>, log: seq<LogRecord>, from: nat, to: nat, end: nat) {
    forall k :: Supplies(es, hist, log, from, to, end, k)
  }

  ghost predicate Chain(cs: seq<Snapshot>, hist: seq<Rows>, log: seq<LogRecord>, from: nat, end: nat) {
    cs != [] ==>
      ChunkOk(Entries(cs[0]), hist, log, from, cs[0].stamp, end) && Chain(cs[1..], hist, log, cs[0].stamp, end)
  }

  function EndStamp(cs: seq<Snapshot>, from: nat): nat {
    if cs == [] then from else cs[|cs| - 1].stamp
  }

  function OpenEntries(server: Server): seq<Entry> { WireAll(server.dns) + WireAll(server.domains) }

  predicate Sorted(server: Server) {
    && (forall i :: 0 <= i < |server.dns| ==> server.dns[i].DnsRecord?)
    && (forall i :: 0 <= i < |server.domains| ==> server.domains[i].DomainEntry?)
  }

  ghost predicate FreshOk(s: State) {
    && (forall k :: k in s.store.rows ==> Logged(s.log, k))
    && Covered(s.store.rows, s.hist, s.log, Cursor(s.store))
    && (s.session.CatchingUp? ==>
          var server := s.session.server;
          && Sorted(server)
          && Covered(s.store.rows, s.hist, s.log, s.session.base)
          && Chain(server.sent, s.hist, s.log, s.session.base, s.session.end)
          && ChunkOk(OpenEntries(server), s.hist, s.log, EndStamp(server.sent, s.session.base), server.lastSeen,
                     s.session.end))
  }

  // ---- Growth of history and log keeps all of it ----------------------------------------------

  /** History and log may have grown; no record was added at or below `upto`. */
  ghost predicate Grows(hist: seq<Rows>, log: seq<LogRecord>, hist': seq<Rows>, log': seq<LogRecord>, upto: nat) {
    && hist <= hist' && log <= log'
    && forall i :: |log| <= i < |log'| ==> log'[i].id > upto
  }

  lemma CoveredGrows(rows: Rows, hist: seq<Rows>, log: seq<LogRecord>, hist': seq<Rows>, log': seq<LogRecord>,
                     upto: nat)
    requires Grows(hist, log, hist', log', upto) && Covered(rows, hist, log, upto)
    ensures Covered(rows, hist', log', upto)
  {
    forall i | Latest(log', i, upto) ensures Fresh(rows, hist', log'[i].key, log'[i].readAt) {
      LatestShrinks(log, log', i, upto);
      assert Fresh(rows, hist, log[i].key, log[i].readAt);
      var t :| log[i].readAt <= t < |hist| && Matches(rows, hist[t], log[i].key);
      assert hist'[t] == hist[t];
    }
  }

  lemma LatestShrinks(log: seq<LogRecord>, log': seq<LogRecord>, i: int, upto: nat)
    requires log <= log' && Latest(log', i, upto) && forall j :: |log| <= j < |log'| ==> log'[j].id > upto
    ensures Latest(log, i, upto)
  {
    forall j | i < j < |log| && log[j].id <= upto ensures log[j].key != log[i].key {
      assert log'[j] == log[j];
    }
  }

  lemma SuppliesGrows(es: seq<Entry>, hist: seq<Rows>, log: seq<LogRecord>, hist': seq<Rows>, log': seq<LogRecord>,
                      from: nat, to: nat, end: nat, k: Key)
    requires Grows(hist, log, hist', log', to) && end <= |log| && Supplies(es, hist, log, from, to, end, k)
    ensures Supplies(es, hist', log', from, to, end, k)
  {
    match LastFor(es, k)
    case Some(e) =>
      var i :| 0 <= i < |log| && log[i].key == k;
      assert log'[i].key == k;
      var t :| 0 <= t < |hist| && k in hist[t] && e == Wire(hist[t][k]) && AfterReads(log, end, k, t);
      assert hist'[t] == hist[t];
    case None =>
      forall i | 0 <= i < |log'| && log'[i].key == k && from < log'[i].id <= to
        ensures WasAbsent(hist', k, log'[i].readAt)
      {
        assert WasAbsent(hist, k, log[i].readAt);
        var t :| log[i].readAt <= t < |hist| && k !in hist[t];
        assert hist'[t] == hist[t];
      }
  }

  lemma ChunkGrows(es: seq<Entry>, hist: seq<Rows>, log: seq<LogRecord>, hist': seq<Rows>, log': seq<LogRecord>,
                   from: nat, to: nat, end: nat)
    requires Grows(hist, log, hist', log', to) && end <= |log| && ChunkOk(es, hist, log, from, to, end)
    ensures ChunkOk(es, hist', log', from, to, end)
  {
    forall k ensures Supplies(es, hist', log', from, to, end, k) {
      assert Supplies(es, hist, log, from, to, end, k);
      SuppliesGrows(es, hist, log, hist', log', from, to, end, k);
    }
  }

  lemma {:induction false} ChainGrows(cs: seq<Snapshot>, hist: seq<Rows>, log: seq<LogRecord>, hist': seq<Rows>,
                                      log': seq<LogRecord>, from: nat, to: nat, end: nat)
    requires Stamped(cs, from, to) && Grows(hist, log, hist', log', to) && end <= |log|
    requires Chain(cs, hist, log, from, end)
    ensures Chain(cs, hist', log', from, end)
    decreases cs
  {
    if cs != [] {
      StampedBound(cs, from, to);
      ChunkGrows(Entries(cs[0]), hist, log, hist', log', from, cs[0].stamp, end);
      ChainGrows(cs[1..], hist, log, hist', log', cs[0].stamp, to, end);
    }
  }

  lemma FreshGrows(s: State, hist: seq<Rows>, log: seq<LogRecord>, publishing: seq<Publish>)
    requires MasterOk(s) && CursorOk(s) && FreshOk(s)
    requires Grows(s.hist, s.log, hist, log, LastId(s.log))
    ensures FreshOk(s.(hist := hist, log := log, publishing := publishing))
  {
    forall k | k in s.store.rows ensures Logged(log, k) {
      var i :| 0 <= i < |s.log| && s.log[i].key == k;
      assert log[i].key == k;
    }
    CoveredGrows(s.store.rows, s.hist, s.log, hist, log, Cursor(s.store));
    if s.session.CatchingUp? {
      CatchUpGrows(s, hist, log);
    }
  }

  lemma CatchUpGrows(s: State, hist: seq<Rows>, log: seq<LogRecord>)
    requires MasterOk(s) && CursorOk(s) && FreshOk(s) && s.session.CatchingUp?
    requires Grows(s.hist, s.log, hist, log, LastId(s.log))
    ensures Covered(s.store.rows, hist, log, s.session.base)
    ensures Chain(s.session.server.sent, hist, log, s.session.base, s.session.end)
    ensures ChunkOk(OpenEntries(s.session.server), hist, log, EndStamp(s.session.server.sent, s.session.base),
                    s.session.server.lastSeen, s.session.end)
  {
    var server := s.session.server;
    StampedBound(server.sent, s.session.base, server.lastSeen);
    CoveredGrows(s.store.rows, s.hist, s.log, hist, log, s.session.base);
    ChainGrows(server.sent, s.hist, s.log, hist, log, s.session.base, server.lastSeen, s.session.end);
    ChunkGrows(OpenEntries(server), s.hist, s.log, hist, log, EndStamp(server.sent, s.session.base), server.lastSeen,
               s.session.end);
  }

  lemma FreshAppend(s: State, i: nat, id: nat)
    requires MasterOk(s) && CursorOk(s) && FreshOk(s)
    ensures FreshOk(Next(s, Append(i, id)))
  {
    var t := Next(s, Append(i, id));
    if t != s {
      FreshGrows(s, s.hist, t.log, t.publishing);
    }
  }

  lemma FreshMasterStep(s: State, step: Step)
    requires MasterOk(s) && CursorOk(s) && FreshOk(s)
    requires step.Write? || step.Remove? || step.ReadForPublish? || step.ReadForDeletion?
    ensures FreshOk(Next(s, step))
  {
    var t := Next(s, step);
    HistoryGrows(s, step);
    FreshGrows(s, t.hist, s.log, t.publishing);
  }

  lemma HistoryGrows(s: State, step: Step)
    requires s.hist != [] && (step.Write? || step.Remove? || step.ReadForPublish? || step.ReadForDeletion?)
    ensures var t := Next(s, step); s.hist <= t.hist && t == s.(hist := t.hist, publishing := t.publishing)
  {
  }

  // ---- Serving ------------------------------------------------------------------------------

  lemma {:induction false} ChainSnoc(cs: seq<Snapshot>, c: Snapshot, hist: seq<Rows>, log: seq<LogRecord>, from: nat,
                                     end: nat)
    requires Chain(cs, hist, log, from, end)
    requires ChunkOk(Entries(c), hist, log, EndStamp(cs, from), c.stamp, end)
    ensures Chain(cs + [c], hist, log, from, end)
  {
    if cs != [] {
      assert (cs + [c])[1..] == cs[1..] + [c];
      ChainSnoc(cs[1..], c, hist, log, cs[0].stamp, end);
    } else {
      assert (cs + [c])[1..] == [];
    }
  }

  lemma EmptyChunkOk(hist: seq<Rows>, log: seq<LogRecord>, to: nat, end: nat)
    ensures ChunkOk([], hist, log, to, to, end)
  {
    forall k ensures Supplies([], hist, log, to, to, end, k) {
    }
  }

  /** Reading the current value of record `next` extends the open chunk's span to that record. */
  lemma ReadExtends(es: seq<Entry>, es': seq<Entry>, s: State, from: nat)
    requires MasterOk(s) && CursorOk(s) && s.session.CatchingUp? && s.session.next < s.session.end
    requires ChunkOk(es, s.hist, s.log, from, s.session.server.lastSeen, s.session.end)
    requires var r := s.log[s.session.next];
             forall k :: LastFor(es', k) == if k == r.key && k in Now(s) then Some(Wire(Now(s)[k])) else LastFor(es, k)
    ensures ChunkOk(es', s.hist, s.log, from, s.log[s.session.next].id, s.session.end)
  {
    var r := s.log[s.session.next];
    forall k ensures Supplies(es', s.hist, s.log, from, r.id, s.session.end, k) {
      assert Supplies(es, s.hist, s.log, from, s.session.server.lastSeen, s.session.end, k);
      if k == r.key {
        assert s.hist[|s.hist| - 1] == Now(s);
        if k in Now(s) {
          assert ReadLate(s.hist, s.log, s.session.end, k, Wire(Now(s)[k]));
        } else {
          assert forall i :: 0 <= i < |s.log| ==> WasAbsent(s.hist, k, s.log[i].readAt);
        }
      }
    }
  }

  lemma {:induction false} NoOtherTable(es: seq<Entry>, k: Key)
    requires forall i :: 0 <= i < |es| ==> KeyOf(es[i]).table != k.table
    ensures LastFor(es, k) == None
  {
    if es != [] {
      NoOtherTable(es[..|es| - 1], k);
    }
  }

  function WithRead(server: Server, e: Entry): Server {
    if KeyOf(e).table.DnsRecords? then server.(dns := server.dns + [e]) else server.(domains := server.domains + [e])
  }

  lemma OpenAfterDns(server: Server, e: Entry, k: Key)
    requires Sorted(server) && e.DnsRecord?
    ensures LastFor(OpenEntries(WithRead(server, e)), k)
             == if k == KeyOf(e) then Some(Wire(e)) else LastFor(OpenEntries(server), k)
  {
    LastForConcat(WireAll(server.dns), WireAll(server.domains), k);
    LastForConcat(WireAll(server.dns + [e]), WireAll(server.domains), k);
    assert WireAll(server.dns + [e]) == WireAll(server.dns) + [Wire(e)];
    if k == KeyOf(e) {
      NoOtherTable(WireAll(server.domains), k);
    }
  }

  lemma OpenAfterDomain(server: Server, e: Entry, k: Key)
    requires Sorted(server) && e.DomainEntry?
    ensures LastFor(OpenEntries(WithRead(server, e)), k)
             == if k == KeyOf(e) then Some(Wire(e)) else LastFor(OpenEntries(server), k)
  {
    LastForConcat(WireAll(server.dns), WireAll(server.domains), k);
    LastForConcat(WireAll(server.dns), WireAll(server.domains + [e]), k);
    assert WireAll(server.domains + [e]) == WireAll(server.domains) + [Wire(e)];
  }

  /** The open chunk after the loop has looked up record `next`, before it may be sent. */
  lemma ServedChunk(s: State) returns (u: Server)
    requires MasterOk(s) && CursorOk(s) && s.session.CatchingUp? && s.session.next < s.session.end
    requires Sorted(s.session.server)
    requires ChunkOk(OpenEntries(s.session.server), s.hist, s.log, EndStamp(s.session.server.sent, s.session.base),
                     s.session.server.lastSeen, s.session.end)
    ensures var r := s.log[s.session.next];
            && Sorted(u) && u.lastSeen == r.id && u.sent == s.session.server.sent
            && ChunkOk(OpenEntries(u), s.hist, s.log, EndStamp(u.sent, s.session.base), r.id, s.session.end)
            && var served := Take(s.session.server, r, Lookup(Now(s), r.key));
               (served == u || served == Flush(u, false))
  {
    var server, r := s.session.server, s.log[s.session.next];
    u := server.(lastSeen := r.id);
    if r.key in Now(s) {
      var e := Now(s)[r.key];
      assert LiveRows(s.hist[|s.hist| - 1]);
      u := WithRead(u, e);
      forall k
        ensures LastFor(OpenEntries(u), k) == if k == KeyOf(e) then Some(Wire(e)) else LastFor(OpenEntries(server), k)
      {
        if e.DnsRecord? { OpenAfterDns(server, e, k); } else { OpenAfterDomain(server, e, k); }
      }
    }
    ReadExtends(OpenEntries(server), OpenEntries(u), s, EndStamp(server.sent, s.session.base));
  }

  lemma FreshServeNext(s: State)
    requires MasterOk(s) && CursorOk(s) && FreshOk(s) && s.session.CatchingUp? && s.session.next < s.session.end
    ensures FreshOk(Next(s, ServeNext))
  {
    var u := ServedChunk(s);
    FlushOk(u, s.hist, s.log, s.session.base, s.session.end, false);
  }

  lemma FlushOk(u: Server, hist: seq<Rows>, log: seq<LogRecord>, base: nat, end: nat, last: bool)
    requires Chain(u.sent, hist, log, base, end)
    requires ChunkOk(OpenEntries(u), hist, log, EndStamp(u.sent, base), u.lastSeen, end)
    ensures var t := Flush(u, last);
            && Sorted(t) && Chain(t.sent, hist, log, base, end)
            && ChunkOk(OpenEntries(t), hist, log, EndStamp(t.sent, base), t.lastSeen, end)
  {
    var c := WireSnapshot(Snapshot(u.lastSeen, last, u.dns, u.domains));
    ChainSnoc(u.sent, c, hist, log, base, end);
    EmptyChunkOk(hist, log, u.lastSeen, end);
    assert OpenEntries(Flush(u, last)) == [];
  }

  lemma FreshServeEnd(s: State)
    requires MasterOk(s) && CursorOk(s) && FreshOk(s)
    ensures FreshOk(Next(s, ServeEnd))
  {
    if s.session.CatchingUp? {
      FlushOk(s.session.server, s.hist, s.log, s.session.base, s.session.end, true);
    }
  }

  // ---- Applying -----------------------------------------------------------------------------

  /** Applying a good chunk extends what the cache covers to the chunk's stamp. */
  lemma ChunkCovers(rows: Rows, es: seq<Entry>, hist: seq<Rows>, log: seq<LogRecord>, from: nat, to: nat, end: nat)
    requires from <= to && Covered(rows, hist, log, from) && ChunkOk(es, hist, log, from, to, end)
    requires end <= |log| && forall i :: end <= i < |log| ==> log[i].id > to
    requires forall t :: 0 <= t < |hist| ==> LiveRows(hist[t])
    ensures Covered(DealAll(rows, es), hist, log, to)
  {
    forall i | Latest(log, i, to) ensures Fresh(DealAll(rows, es), hist, log[i].key, log[i].readAt) {
      CoversOne(rows, es, hist, log, from, to, end, i);
    }
  }

  lemma LatestBelow(log: seq<LogRecord>, i: int, upto: nat, lower: nat)
    requires Latest(log, i, upto) && log[i].id <= lower <= upto
    ensures Latest(log, i, lower)
  {
  }

  lemma CoversOne(rows: Rows, es: seq<Entry>, hist: seq<Rows>, log: seq<LogRecord>, from: nat, to: nat, end: nat,
                  i: nat)
    requires from <= to && Covered(rows, hist, log, from) && ChunkOk(es, hist, log, from, to, end)
    requires i < end <= |log| && Latest(log, i, to)
    requires forall t :: 0 <= t < |hist| ==> LiveRows(hist[t])
    ensures Fresh(DealAll(rows, es), hist, log[i].key, log[i].readAt)
  {
    var k := log[i].key;
    DealAllAt(rows, es, k);
    assert Supplies(es, hist, log, from, to, end, k);
    match LastFor(es, k)
    case Some(e) =>
      var t :| 0 <= t < |hist| && k in hist[t] && e == Wire(hist[t][k]) && AfterReads(log, end, k, t);
      assert LiveRows(hist[t]);
      assert Matches(DealAll(rows, es), hist[t], k);
    case None =>
      if log[i].id <= from {
        LatestBelow(log, i, to, from);
        assert Fresh(rows, hist, k, log[i].readAt);
        var t :| log[i].readAt <= t < |hist| && Matches(rows, hist[t], k);
        assert Matches(DealAll(rows, es), hist[t], k);
      } else {
        assert WasAbsent(hist, k, log[i].readAt);
        var t :| log[i].readAt <= t < |hist| && k !in hist[t];
        assert Matches(DealAll(rows, es), hist[t], k);
      }
  }

  lemma ChunkOnlyLogged(rows: Rows, es: seq<Entry>, hist: seq<Rows>, log: seq<LogRecord>, from: nat, to: nat, end: nat)
    requires (forall k :: k in rows ==> Logged(log, k)) && ChunkOk(es, hist, log, from, to, end)
    ensures forall k :: k in DealAll(rows, es) ==> Logged(log, k)
  {
    forall k | k in DealAll(rows, es) ensures Logged(log, k) {
      DealAllAt(rows, es, k);
      assert Supplies(es, hist, log, from, to, end, k);
    }
  }

  lemma FreshReceive(s: State)
    requires MasterOk(s) && CursorOk(s) && FreshOk(s) && s.session.CatchingUp? && s.session.server.sent != []
    ensures FreshOk(Next(s, Receive))
  {
    var c := s.session.server.sent[0];
    StampedBound(s.session.server.sent, s.session.base, s.session.server.lastSeen);
    SnapshotIsPut(s.store, c);
    SnapshotCursor(s.store, c);
    ListingEnd(s);
    ChunkCovers(s.store.rows, Entries(c), s.hist, s.log, s.session.base, c.stamp, s.session.end);
    ChunkOnlyLogged(s.store.rows, Entries(c), s.hist, s.log, s.session.base, c.stamp, s.session.end);
    ReceivedOk(s, ApplySnapshot(s.store, c));
  }

  /** A chunk without entries moves neither rows nor cursor; any other moves the cursor to its stamp. */
  lemma ReceivedOk(s: State, store: Store)
    requires s.hist != [] && FreshOk(s) && s.session.CatchingUp? && s.session.server.sent != []
    requires var c := s.session.server.sent[0];
             && store == ApplySnapshot(s.store, c)
             && (Cursor(store) == c.stamp || (Cursor(store) == Cursor(s.store) && store.rows == s.store.rows))
             && Covered(store.rows, s.hist, s.log, c.stamp) && forall k :: k in store.rows ==> Logged(s.log, k)
    ensures FreshOk(Next(s, Receive))
  {
  }

  lemma ListingEnd(s: State)
    requires MasterOk(s) && CursorOk(s) && s.session.CatchingUp?
    ensures forall i :: s.session.end <= i < |s.log| ==> s.log[i].id > s.session.server.lastSeen
  {
  }

  lemma NoticeCovers(s: State, n: nat)
    requires MasterOk(s) && n < |s.log| && Covered(s.store.rows, s.hist, s.log, s.log[n].id - 1)
    ensures Covered(Deal(s.store.rows, Wire(s.log[n].entry)), s.hist, s.log, s.log[n].id)
  {
    forall i | Latest(s.log, i, s.log[n].id)
      ensures Fresh(Deal(s.store.rows, Wire(s.log[n].entry)), s.hist, s.log[i].key, s.log[i].readAt)
    {
      NoticeCoversOne(s, n, i);
    }
  }

  lemma NoticeCoversOne(s: State, n: nat, i: nat)
    requires MasterOk(s) && n < |s.log| && Covered(s.store.rows, s.hist, s.log, s.log[n].id - 1)
    requires Latest(s.log, i, s.log[n].id)
    ensures Fresh(Deal(s.store.rows, Wire(s.log[n].entry)), s.hist, s.log[i].key, s.log[i].readAt)
  {
    var r := s.log[n];
    var rows := Deal(s.store.rows, Wire(r.entry));
    if s.log[i].key == r.key {
      assert i == n;
      assert Matches(rows, s.hist[r.readAt], r.key);
    } else {
      LatestBelow(s.log, i, r.id, r.id - 1);
      assert Fresh(s.store.rows, s.hist, s.log[i].key, s.log[i].readAt);
      var t :| s.log[i].readAt <= t < |s.hist| && Matches(s.store.rows, s.hist[t], s.log[i].key);
      assert Matches(rows, s.hist[t], s.log[i].key);
    }
  }

  lemma NoticeIsDeal(s: Store, r: LogRecord)
    ensures Put(s, r.id, NoticeEntries(WireNotice(NoticeOf(r)))).rows == Deal(s.rows, Wire(r.entry))
  {
    var es := [Wire(r.entry)];
    assert NoticeEntries(WireNotice(NoticeOf(r))) == es;
    assert es[..0] == [] && DealAll(s.rows, es) == Deal(DealAll(s.rows, es[..0]), es[0]);
  }

  lemma FreshStart(s: State)
    requires MasterOk(s) && FreshOk(s)
    ensures FreshOk(s.(session := StartCatchUp(s.log, Cursor(s.store))))
  {
    EmptyChunkOk(s.hist, s.log, Cursor(s.store), |s.log|);
    assert OpenEntries(Open(Cursor(s.store))) == [];
  }

  lemma FreshDeliver(s: State, n: nat)
    requires MasterOk(s) && CursorOk(s) && FreshOk(s) && s.session.Live? && n < |s.log|
    ensures FreshOk(Next(s, Deliver(n)))
  {
    var r := s.log[n];
    var notice := WireNotice(NoticeOf(r));
    ReactionKeepsCursor(s.store, notice);
    var reaction := React(s.store, Cursor(s.store), notice);
    if reaction.CatchUp? {
      FreshStart(s);
    } else if reaction.Advance? {
      FreshAdvance(s, n, reaction.store);
    }
  }

  lemma FreshAdvance(s: State, n: nat, store: Store)
    requires MasterOk(s) && FreshOk(s) && n < |s.log| && s.log[n].id == Cursor(s.store) + 1
    requires store == Put(s.store, s.log[n].id, NoticeEntries(WireNotice(NoticeOf(s.log[n]))))
    requires Cursor(store) == s.log[n].id
    ensures FreshOk(s.(store := store, session := Live(s.log[n].id)))
  {
    NoticeIsDeal(s.store, s.log[n]);
    NoticeCovers(s, n);
    assert Logged(s.log, s.log[n].key);
  }

  lemma FreshStep(s: State, step: Step)
    requires MasterOk(s) && CursorOk(s) && FreshOk(s)
    ensures FreshOk(Next(s, step))
  {
    match step
    case Append(i, id) => FreshAppend(s, i, id);
    case Connect => FreshStart(s);
    case ServeNext => if s.session.CatchingUp? && s.session.next < s.session.end { FreshServeNext(s); }
    case ServeEnd => FreshServeEnd(s);
    case Receive => if s.session.CatchingUp? && s.session.server.sent != [] { FreshReceive(s); }
    case Deliver(i) => if s.session.Live? && i < |s.log| { FreshDeliver(s, i); }
    case Crash =>
    case _ => FreshMasterStep(s, step);
  }

  /** In every run whatever: the latest record of a key at or below the cursor, and while catching up at or below the
      last chunk's stamp, is covered by the cache. */
  lemma {:induction false} FreshInEveryRun(rows: Rows, steps: seq<Step>)
    requires LiveRows(rows)
    ensures FreshOk(Run(rows, steps))
  {
    if steps != [] {
      var init := steps[..|steps| - 1];
      FreshInEveryRun(rows, init);
      CursorInEveryRun(rows, init, 0);
      FreshStep(Run(rows, init), steps[|steps| - 1]);
    }
  }
}
