/** Runs that show the premises of convergence cannot be dropped. */
module ProtocolLimits {
  import opened Replication
  import opened SlaveStore
  import opened SnapshotServer
  import opened Protocol
  import opened Freshness
  import opened Convergence

  const A := DnsRecord("r", false, "a")
  const B := DnsRecord("r", false, "b")
  const Gone := DnsRecord("r", true, "a")
  const C := DnsRecord("other", false, "c")
  const K := Key(DnsRecords, "r")

  lemma Then(steps: seq<Step>, step: Step) returns (steps': seq<Step>)
    ensures steps' == steps + [step] && Run(map[], steps') == Next(Run(map[], steps), step)
    ensures InOrderRun(map[], steps') <==> InOrderRun(map[], steps) && InOrder(Run(map[], steps), step)
  {
    steps' := steps + [step];
    assert steps'[..|steps'| - 1] == steps;
  }

  lemma AdvanceOnNotice(store: Store, r: LogRecord)
    requires r.id == Cursor(store) + 1
    ensures var n := WireNotice(NoticeOf(r));
            && React(store, Cursor(store), n).Advance? && React(store, Cursor(store), n).cursor == r.id
            && React(store, Cursor(store), n).store.rows == Deal(store.rows, Wire(r.entry))
            && Cursor(React(store, Cursor(store), n).store) == r.id
  {
    ReactionKeepsCursor(store, WireNotice(NoticeOf(r)));
    NoticeIsDeal(store, r);
  }

  /** A slave that connects to a quiet master with an empty log goes live at cursor 0. */
  lemma EmptyConnect() returns (steps: seq<Step>)
    ensures InOrderRun(map[], steps)
    ensures Run(map[], steps) == Init(map[]).(session := Live(0))
  {
    steps := Then([], Connect);
    steps := Then(steps, ServeEnd);
    var c := WireSnapshot(Snapshot(0, true, [], []));
    assert Run(map[], steps).session.server.sent == [c];
    assert ApplySnapshot(Empty, c) == Empty;
    steps := Then(steps, Receive);
  }

  /** Two publishes of one key whose records are appended in the opposite order of their reads: the present value has
      been published, the slave is at the last id, and it keeps the older value, because that is the log's last word. */
  lemma OvertakenPublishGoesStale() returns (steps: seq<Step>)
    ensures var s := Run(map[], steps);
            && Cursor(s.store) == LastId(s.log) && s.publishing == []
            && (exists i :: 0 <= i < |s.log| && s.log[i].key == K && Settled(s, K, s.log[i].readAt))
            && Now(s) == map[K := B] && s.store.rows == map[K := A] && !LastWordTrue(s, K)
  {
    steps := Overtake();
    steps := DeliverNext(steps, 0);
    steps := DeliverNext(steps, 1);
    var u := Run(map[], steps);
    assert u.log[0].key == K && Settled(u, K, u.log[0].readAt);
    assert forall i :: Latest(u.log, i, LastId(u.log)) ==> i == 1;
  }

  lemma TwoReads() returns (steps: seq<Step>)
    ensures Run(map[], steps) ==
            State([map[], map[K := A], map[K := B]], [], [Publish(K, A, 1), Publish(K, B, 2)], Empty, Live(0))
  {
    steps := EmptyConnect();
    steps := Then(steps, Write(A));
    steps := Then(steps, ReadForPublish(K));
    assert Run(map[], steps) == State([map[], map[K := A]], [], [Publish(K, A, 1)], Empty, Live(0));
    steps := Then(steps, Write(B));
    assert map[K := A][K := B] == map[K := B];
    assert Run(map[], steps) == State([map[], map[K := A], map[K := B]], [], [Publish(K, A, 1)], Empty, Live(0));
    steps := Then(steps, ReadForPublish(K));
  }

  lemma Overtake() returns (steps: seq<Step>)
    ensures Run(map[], steps) ==
            State([map[], map[K := A], map[K := B]], [LogRecord(1, K, B, 2), LogRecord(2, K, A, 1)], [], Empty, Live(0))
  {
    steps := TwoReads();
    steps := Then(steps, Append(1, 1));
    assert Run(map[], steps) ==
           State([map[], map[K := A], map[K := B]], [LogRecord(1, K, B, 2)], [Publish(K, A, 1)], Empty, Live(0));
    steps := Then(steps, Append(0, 2));
  }

  lemma DeliverNext(before: seq<Step>, i: nat) returns (steps: seq<Step>)
    requires var s := Run(map[], before);
             i < |s.log| && s.session == Live(Cursor(s.store)) && s.log[i].id == Cursor(s.store) + 1
    ensures var s, t := Run(map[], before), Run(map[], steps);
            && t.hist == s.hist && t.log == s.log && t.publishing == s.publishing && t.session == Live(Cursor(t.store))
            && t.store.rows == Deal(s.store.rows, Wire(s.log[i].entry)) && Cursor(t.store) == s.log[i].id
  {
    var s := Run(map[], before);
    AdvanceOnNotice(s.store, s.log[i]);
    steps := Then(before, Deliver(i));
  }

  lemma PublishWrite(before: seq<Step>, e: Entry, id: nat) returns (steps: seq<Step>)
    requires !e.deleted && InOrderRun(map[], before)
    requires var s := Run(map[], before); s.publishing == [] && id > LastId(s.log)
    ensures InOrderRun(map[], steps)
    ensures var s := Run(map[], before);
            Run(map[], steps) == s.(hist := s.hist + [Now(s)[KeyOf(e) := e]],
                                    log := s.log + [LogRecord(id, KeyOf(e), e, |s.hist|)])
  {
    steps := Then(before, Write(e));
    steps := Then(steps, ReadForPublish(KeyOf(e)));
    steps := Then(steps, Append(0, id));
  }

  lemma PublishRemove(before: seq<Step>, id: nat) returns (steps: seq<Step>)
    requires InOrderRun(map[], before)
    requires var s := Run(map[], before); s.publishing == [] && id > LastId(s.log)
    ensures InOrderRun(map[], steps)
    ensures var s := Run(map[], before);
            Run(map[], steps) == s.(hist := s.hist + [Now(s) - {K}], log := s.log + [LogRecord(id, K, Gone, |s.hist|)])
  {
    var s := Run(map[], before);
    steps := Then(before, Remove(K));
    var t := Run(map[], steps);
    ReadGone(t);
    steps := Then(steps, ReadForDeletion(Gone));
    AppendOnly(Run(map[], steps), Publish(K, Gone, |s.hist|), id);
    steps := Then(steps, Append(0, id));
  }

  lemma ReadGone(s: State)
    requires s.hist != [] && K !in Now(s) && s.publishing == []
    ensures Next(s, ReadForDeletion(Gone)) == s.(publishing := [Publish(K, Gone, |s.hist| - 1)])
  {
  }

  lemma AppendOnly(s: State, p: Publish, id: nat)
    requires s.hist != [] && s.publishing == [p] && id > LastId(s.log)
    ensures Next(s, Append(0, id)) == s.(log := s.log + [LogRecord(id, p.key, p.entry, p.readAt)], publishing := [])
  {
  }

  lemma OneChunk(store: Store, stamp: nat, e: Entry)
    requires stamp > Cursor(store) && e.DnsRecord? && !e.deleted
    ensures var t := ApplySnapshot(store, WireSnapshot(Snapshot(stamp, true, [e], [])));
            t.rows == store.rows[KeyOf(e) := e] && Cursor(t) == stamp
  {
    var c := WireSnapshot(Snapshot(stamp, true, [e], []));
    assert Entries(c) == [e] && [e][..0] == [];
    SnapshotIsPut(store, c);
    SnapshotCursor(store, c);
    assert DealAll(store.rows, [e]) == Deal(DealAll(store.rows, [e][..0]), e);
  }

  /** A completed catch-up that lists one record, live, or a dead record and then a live one. */
  lemma CatchUpLast(before: seq<Step>, e: Entry) returns (steps: seq<Step>)
    requires InOrderRun(map[], before) && e.DnsRecord? && !e.deleted
    requires var s := Run(map[], before);
             && |s.log| == 1 && s.log[0].id > Cursor(s.store) && s.log[0].key == KeyOf(e)
             && KeyOf(e) in Now(s) && Now(s)[KeyOf(e)] == e
    ensures InOrderRun(map[], steps)
    ensures var s, t := Run(map[], before), Run(map[], steps);
            && t.hist == s.hist && t.log == s.log && t.publishing == s.publishing
            && t.store.rows == s.store.rows[KeyOf(e) := e] && Cursor(t.store) == LastId(s.log)
  {
    var s := Run(map[], before);
    steps := Then(before, Connect);
    assert Run(map[], steps) == s.(session := CatchingUp(Cursor(s.store), Open(Cursor(s.store)), 0, 1));
    ServeLive(Run(map[], steps), e);
    steps := Then(steps, ServeNext);
    steps := FinishCatchUp(steps, e);
  }

  lemma ServeLive(s: State, e: Entry)
    requires s.hist != [] && s.session.CatchingUp? && s.session.next < s.session.end <= |s.log|
    requires s.session.server.dns == [] && s.session.server.domains == [] && s.session.server.sent == []
    requires e.DnsRecord? && s.log[s.session.next].key == KeyOf(e) && KeyOf(e) in Now(s) && Now(s)[KeyOf(e)] == e
    ensures Next(s, ServeNext) ==
            s.(session := s.session.(server := Server([e], [], s.log[s.session.next].id, []),
                                     next := s.session.next + 1))
  {
    var none: seq<Entry> := [];
    assert none + [e] == [e];
  }

  lemma ServeDead(s: State)
    requires s.hist != [] && s.session.CatchingUp? && s.session.next < s.session.end <= |s.log|
    requires s.session.server.dns == [] && s.session.server.domains == [] && s.session.server.sent == []
    requires s.log[s.session.next].key !in Now(s)
    ensures Next(s, ServeNext) ==
            s.(session := s.session.(server := Server([], [], s.log[s.session.next].id, []),
                                     next := s.session.next + 1))
  {
  }

  lemma CatchUpPastDead(before: seq<Step>, e: Entry) returns (steps: seq<Step>)
    requires InOrderRun(map[], before) && e.DnsRecord? && !e.deleted
    requires var s := Run(map[], before);
             && |s.log| == 3 && Skip(s.log, Cursor(s.store)) == 1 && s.log[2].id > Cursor(s.store)
             && s.log[1].key !in Now(s) && s.log[2].key == KeyOf(e) && KeyOf(e) in Now(s) && Now(s)[KeyOf(e)] == e
    ensures InOrderRun(map[], steps)
    ensures var s, t := Run(map[], before), Run(map[], steps);
            && t.hist == s.hist && t.log == s.log && t.publishing == s.publishing
            && t.store.rows == s.store.rows[KeyOf(e) := e] && Cursor(t.store) == LastId(s.log)
  {
    var s := Run(map[], before);
    steps := ConnectPastDead(before);
    ServeLive(Run(map[], steps), e);
    steps := Then(steps, ServeNext);
    steps := FinishCatchUp(steps, e);
  }

  lemma ConnectPastDead(before: seq<Step>) returns (steps: seq<Step>)
    requires InOrderRun(map[], before)
    requires var s := Run(map[], before); |s.log| == 3 && Skip(s.log, Cursor(s.store)) == 1 && s.log[1].key !in Now(s)
    ensures InOrderRun(map[], steps)
    ensures var s := Run(map[], before);
            Run(map[], steps) == s.(session := CatchingUp(Cursor(s.store), Server([], [], s.log[1].id, []), 2, 3))
  {
    var s := Run(map[], before);
    steps := Then(before, Connect);
    assert Run(map[], steps) == s.(session := CatchingUp(Cursor(s.store), Open(Cursor(s.store)), 1, 3));
    ServeDead(Run(map[], steps));
    steps := Then(steps, ServeNext);
  }

  lemma FinishCatchUp(before: seq<Step>, e: Entry) returns (steps: seq<Step>)
    requires InOrderRun(map[], before) && e.DnsRecord? && !e.deleted
    requires var s := Run(map[], before);
             && s.session == CatchingUp(Cursor(s.store), Server([e], [], LastId(s.log), []), |s.log|, |s.log|)
             && LastId(s.log) > Cursor(s.store)
    ensures InOrderRun(map[], steps)
    ensures var s, t := Run(map[], before), Run(map[], steps);
            && t.hist == s.hist && t.log == s.log && t.publishing == s.publishing
            && t.store.rows == s.store.rows[KeyOf(e) := e] && Cursor(t.store) == LastId(s.log)
  {
    var s := Run(map[], before);
    steps := Then(before, ServeEnd);
    EndWithOne(s, e);
    ReceiveLast(Run(map[], steps), e);
    steps := Then(steps, Receive);
  }

  lemma EndWithOne(s: State, e: Entry)
    requires s.hist != [] && s.session.CatchingUp? && s.session.next == s.session.end
    requires s.session.server.dns == [e] && s.session.server.domains == [] && s.session.server.sent == []
    ensures var t := Next(s, ServeEnd);
            && t.session.CatchingUp? && t == s.(session := t.session)
            && t.session.server.sent == [WireSnapshot(Snapshot(s.session.server.lastSeen, true, [e], []))]
  {
  }

  lemma ReceiveLast(s: State, e: Entry)
    requires s.hist != [] && s.session.CatchingUp? && e.DnsRecord? && !e.deleted && LastId(s.log) > Cursor(s.store)
    requires s.session.server.sent == [WireSnapshot(Snapshot(LastId(s.log), true, [e], []))]
    ensures var t := Next(s, Receive);
            && t.hist == s.hist && t.log == s.log && t.publishing == s.publishing
            && t.store.rows == s.store.rows[KeyOf(e) := e] && Cursor(t.store) == LastId(s.log)
  {
    OneChunk(s.store, LastId(s.log), e);
  }

  /** A deletion met only through catch-up is not carried: with publishes in order, everything published
      and the slave at the last id, the deleted row is still cached. */
  lemma CatchUpMissesDeletion() returns (steps: seq<Step>)
    ensures InOrderRun(map[], steps)
    ensures var s := Run(map[], steps);
            && Cursor(s.store) == LastId(s.log) && AllPublished(s)
            && K !in Now(s) && K in s.store.rows
  {
    steps := StoreThenDelete();
    steps := MissIt(steps);
    var t := Run(map[], steps);
    assert Settled(t, K, t.log[1].readAt) && Settled(t, KeyOf(C), t.log[2].readAt);
  }

  lemma StoreThenDelete() returns (steps: seq<Step>)
    ensures InOrderRun(map[], steps)
    ensures var s := Run(map[], steps);
            && s.hist == [map[], map[K := A], map[]] && s.log == [LogRecord(1, K, A, 1), LogRecord(2, K, Gone, 2)]
            && s.publishing == [] && Cursor(s.store) == 1 && K in s.store.rows
  {
    steps := PublishWrite([], A, 1);
    var s := Run(map[], steps);
    assert s.hist == [map[], map[K := A]] && s.log == [LogRecord(1, K, A, 1)];
    steps := CatchUpLast(steps, A);
    steps := PublishRemove(steps, 2);
    assert map[K := A] - {K} == map[];
  }

  lemma MissIt(before: seq<Step>) returns (steps: seq<Step>)
    requires InOrderRun(map[], before)
    requires var s := Run(map[], before);
             && s.hist == [map[], map[K := A], map[]] && s.log == [LogRecord(1, K, A, 1), LogRecord(2, K, Gone, 2)]
             && s.publishing == [] && Cursor(s.store) == 1
    ensures InOrderRun(map[], steps)
    ensures var s, t := Run(map[], before), Run(map[], steps);
            && t.hist == [map[], map[K := A], map[], map[KeyOf(C) := C]]
            && t.log == [LogRecord(1, K, A, 1), LogRecord(2, K, Gone, 2), LogRecord(3, KeyOf(C), C, 3)]
            && t.store.rows == s.store.rows[KeyOf(C) := C] && Cursor(t.store) == 3
  {
    steps := PublishWrite(before, C, 3);
    var s := Run(map[], steps);
    assert s.log == [LogRecord(1, K, A, 1), LogRecord(2, K, Gone, 2), LogRecord(3, KeyOf(C), C, 3)];
    assert s.hist == [map[], map[K := A], map[], map[KeyOf(C) := C]];
    SkipIs(s.log, 1, 1);
    steps := CatchUpPastDead(steps, C);
  }
}
