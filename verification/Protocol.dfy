/** Master, lossy notice stream and one slave as a step system, and what every run keeps.

    Writes, publishes, catch-up reads, chunk deliveries, notice deliveries and crashes interleave freely.
    Any notice ever logged may be delivered at any time, again, late or never: this covers the hub's
    drops, its reordering by reconnects, and records whose broadcast was lost. */
module Protocol {
  import opened Options
  import opened Replication
  import opened SlaveStore
  import opened SnapshotServer

  /** A publish that has read its payload and not yet appended its log record. */
  datatype Publish = Publish(key: Key, entry: Entry, readAt: nat)

  /** A catch-up lists `log[next..end]`; the log only grows, so the listing stays that slice.
      `base` is the stamp of the last chunk received, `server.sent` the chunks still in flight. */
  datatype Session =
    | Down
    | CatchingUp(base: nat, server: Server, next: nat, end: nat)
    | Live(cursor: nat)
    | Stopped

  /** `hist` is every content the master's tables have had, the present one last. */
  datatype State = State(hist: seq<Rows>, log: seq<LogRecord>, publishing: seq<Publish>, store: Store, session: Session)

  datatype Step =
    | Write(entry: Entry)
    | Remove(key: Key)
    | ReadForPublish(key: Key)
    | ReadForDeletion(gone: Entry)
    | Append(which: nat, id: nat)
    | Connect
    | ServeNext
    | ServeEnd
    | Receive
    | Deliver(record: nat)
    | Crash

  predicate LiveRows(rows: Rows) {
    forall k :: k in rows ==> KeyOf(rows[k]) == k && !rows[k].deleted
  }

  ghost function Init(rows: Rows): State { State([rows], [], [], Empty, Down) }

  function Now(s: State): Rows
    requires s.hist != []
  {
    s.hist[|s.hist| - 1]
  }

  /** What the slave does with one notice at the head of its loop. */
  datatype Reaction = Ignore | CatchUp | Advance(store: Store, cursor: nat) | Fail

  ghost function React(store: Store, cursor: nat, n: Notice): Reaction {
    if n.id <= cursor then Ignore
    else if n.id > cursor + 1 then CatchUp
    else
      var (next, outcome) := ApplyChangelog(store, n);
      if outcome.Ok? then Advance(next, n.id) else Fail
  }

  function StartCatchUp(log: seq<LogRecord>, cursor: nat): Session {
    CatchingUp(cursor, Open(cursor), Skip(log, cursor), |log|)
  }

  function Without<T>(s: seq<T>, i: nat): seq<T>
    requires i < |s|
  {
    s[..i] + s[i + 1..]
  }

  /** A step that is not enabled leaves the state as it is. */
  ghost function Next(s: State, step: Step): (t: State)
    requires s.hist != []
    ensures t.hist != []
  {
    match step
    case Write(e) => if e.deleted then s else s.(hist := s.hist + [Now(s)[KeyOf(e) := e]])
    case Remove(k) => s.(hist := s.hist + [Now(s) - {k}])
    case ReadForPublish(k) =>
      if k !in Now(s) then s
      else s.(publishing := s.publishing + [Publish(k, Now(s)[k], |s.hist| - 1)])
    case ReadForDeletion(e) =>
      if KeyOf(e) in Now(s) then s
      else s.(publishing := s.publishing + [Publish(KeyOf(e), e.(deleted := true), |s.hist| - 1)])
    case Append(i, id) =>
      if i >= |s.publishing| || id <= LastId(s.log) then s
      else
        var p := s.publishing[i];
        s.(log := s.log + [LogRecord(id, p.key, p.entry, p.readAt)], publishing := Without(s.publishing, i))
    case Connect => s.(session := StartCatchUp(s.log, Cursor(s.store)))
    case ServeNext =>
      if s.session.CatchingUp? && s.session.next < s.session.end <= |s.log| then
        var r := s.log[s.session.next];
        s.(session := s.session.(server := Take(s.session.server, r, Lookup(Now(s), r.key)),
                                 next := s.session.next + 1))
      else s
    case ServeEnd =>
      if s.session.CatchingUp? && s.session.next == s.session.end && !Ended(s.session.server) then
        s.(session := s.session.(server := Flush(s.session.server, true)))
      else s
    case Receive =>
      if s.session.CatchingUp? && s.session.server.sent != [] then
        var c := s.session.server.sent[0];
        var store := ApplySnapshot(s.store, c);
        if c.last then s.(store := store, session := Live(Cursor(store)))
        else s.(store := store,
                session := s.session.(base := c.stamp, server := s.session.server.(sent := s.session.server.sent[1..])))
      else s
    case Deliver(i) =>
      if s.session.Live? && i < |s.log| then
        match React(s.store, s.session.cursor, WireNotice(NoticeOf(s.log[i])))
        case Ignore => s
        case CatchUp => s.(session := StartCatchUp(s.log, s.session.cursor))
        case Advance(store, cursor) => s.(store := store, session := Live(cursor))
        case Fail => s.(session := Stopped)
      else s
    case Crash => s.(session := Down)
  }

  predicate Ended(server: Server) {
    server.sent != [] && server.sent[|server.sent| - 1].last
  }

  ghost function Run(rows: Rows, steps: seq<Step>): (t: State)
    ensures t.hist != []
  {
    if steps == [] then Init(rows) else Next(Run(rows, steps[..|steps| - 1]), steps[|steps| - 1])
  }

  /** Publishes of one key reach the log in the order in which they read it. */
  predicate InOrder(s: State, step: Step) {
    step.Append? && step.which < |s.publishing| ==>
      forall j :: 0 <= j < step.which ==> s.publishing[j].key != s.publishing[step.which].key
  }

  ghost predicate InOrderRun(rows: Rows, steps: seq<Step>) {
    steps != [] ==>
      var init := steps[..|steps| - 1];
      InOrderRun(rows, init) && InOrder(Run(rows, init), steps[|steps| - 1])
  }

  // ---- The cursor discipline: true of every run -----------------------------------------------

  /** The entry was the master's value at its read time, or the key was absent then if it reports a deletion. */
  predicate Justified(hist: seq<Rows>, key: Key, entry: Entry, readAt: nat) {
    && readAt < |hist| && KeyOf(entry) == key
    && if entry.deleted then key !in hist[readAt] else key in hist[readAt] && hist[readAt][key] == entry
  }

  ghost predicate MasterOk(s: State) {
    && s.hist != []
    && (forall t :: 0 <= t < |s.hist| ==> LiveRows(s.hist[t]))
    && Ascending(s.log)
    && (forall i :: 0 <= i < |s.log| ==> Justified(s.hist, s.log[i].key, s.log[i].entry, s.log[i].readAt))
    && (forall i :: 0 <= i < |s.publishing| ==>
          Justified(s.hist, s.publishing[i].key, s.publishing[i].entry, s.publishing[i].readAt))
  }

  /** Stamps in flight run from `from` up to `to`. */
  predicate Stamped(cs: seq<Snapshot>, from: nat, to: nat) {
    if cs == [] then from <= to else from <= cs[0].stamp && Stamped(cs[1..], cs[0].stamp, to)
  }

  ghost predicate CursorOk(s: State) {
    && Cursor(s.store) <= LastId(s.log)
    && match s.session
       case Live(cursor) => cursor == Cursor(s.store)
       case Stopped => false
       case Down => true
       case CatchingUp(base, server, next, end) =>
         && Cursor(s.store) <= base
         && Stamped(server.sent, base, server.lastSeen)
         && next <= end <= |s.log| && server.lastSeen <= LastId(s.log)
         && (next > 0 ==> s.log[next - 1].id <= server.lastSeen)
         && (next < |s.log| ==> server.lastSeen < s.log[next].id)
  }

  lemma MasterChange(s: State, rows: Rows)
    requires MasterOk(s) && LiveRows(rows)
    ensures MasterOk(s.(hist := s.hist + [rows]))
  {
  }

  lemma MasterAppend(s: State, i: nat, id: nat)
    requires MasterOk(s)
    ensures MasterOk(Next(s, Append(i, id)))
  {
  }

  lemma MasterStep(s: State, step: Step)
    requires MasterOk(s)
    ensures MasterOk(Next(s, step))
  {
    match step
    case Write(e) => if !e.deleted { MasterChange(s, Now(s)[KeyOf(e) := e]); }
    case Remove(k) => MasterChange(s, Now(s) - {k});
    case Append(i, id) => MasterAppend(s, i, id);
    case _ =>
  }

  lemma {:induction false} StampedSnoc(cs: seq<Snapshot>, c: Snapshot, from: nat, to: nat)
    requires Stamped(cs, from, to) && to <= c.stamp
    ensures Stamped(cs, from, c.stamp) && Stamped(cs + [c], from, c.stamp)
  {
    if cs != [] {
      assert (cs + [c])[1..] == cs[1..] + [c];
      StampedSnoc(cs[1..], c, cs[0].stamp, to);
    } else {
      assert (cs + [c])[1..] == [];
    }
  }

  lemma TakeStamped(server: Server, r: LogRecord, read: Option<Entry>, from: nat)
    requires Stamped(server.sent, from, server.lastSeen) && server.lastSeen <= r.id
    ensures Stamped(Take(server, r, read).sent, from, r.id) && Take(server, r, read).lastSeen == r.id
  {
    var t := Take(server, r, read);
    if t.sent != server.sent {
      StampedSnoc(server.sent, t.sent[|t.sent| - 1], from, server.lastSeen);
    } else {
      StampedSnoc(server.sent, Snapshot(r.id, true, [], []), from, server.lastSeen);
    }
  }

  /** With the loop's cursor equal to the stored one, a notice that carries an entry is never out of order,
      and an applied notice leaves both cursors at its id. */
  lemma ReactionKeepsCursor(store: Store, n: Notice)
    requires CarriesEntry(n)
    ensures var r := React(store, Cursor(store), n);
            && !r.Fail?
            && (r.Ignore? <==> n.id <= Cursor(store))
            && (r.Advance? <==> n.id == Cursor(store) + 1)
            && (r.Advance? ==> r.cursor == n.id == Cursor(r.store) && r.store == Put(store, n.id, NoticeEntries(n)))
  {
    PutCursor(store, n.id, NoticeEntries(n));
  }

  lemma CursorStep(s: State, step: Step)
    requires MasterOk(s) && CursorOk(s)
    ensures CursorOk(Next(s, step))
    ensures Cursor(Next(s, step).store) >= Cursor(s.store)
  {
    match step
    case ServeNext => CursorServeNext(s);
    case ServeEnd => CursorServeEnd(s);
    case Receive => CursorReceive(s);
    case Deliver(i) => CursorDeliver(s, i);
    case Append(i, id) => CursorAppend(s, i, id);
    case Connect => CursorConnect(s);
    case Crash => CursorCrash(s);
    case _ => CursorIdle(s, step);
  }

  lemma CursorCrash(s: State)
    requires s.hist != [] && Ascending(s.log) && CursorOk(s)
    ensures CursorOk(Next(s, Crash)) && Next(s, Crash).store == s.store
  {
  }

  lemma CursorIdle(s: State, step: Step)
    requires s.hist != [] && Ascending(s.log) && CursorOk(s)
    requires step.Write? || step.Remove? || step.ReadForPublish? || step.ReadForDeletion?
    ensures CursorOk(Next(s, step)) && Next(s, step).store == s.store
  {
  }

  lemma CursorConnect(s: State)
    requires s.hist != [] && Ascending(s.log) && CursorOk(s)
    ensures CursorOk(Next(s, Connect)) && Next(s, Connect).store == s.store
  {
  }

  lemma CursorAppend(s: State, i: nat, id: nat)
    requires s.hist != [] && Ascending(s.log) && CursorOk(s)
    ensures CursorOk(Next(s, Append(i, id))) && Next(s, Append(i, id)).store == s.store
  {
  }

  lemma CursorServeNext(s: State)
    requires s.hist != [] && Ascending(s.log) && CursorOk(s)
    ensures CursorOk(Next(s, ServeNext)) && Next(s, ServeNext).store == s.store
  {
    if s.session.CatchingUp? && s.session.next < s.session.end {
      var r := s.log[s.session.next];
      TakeStamped(s.session.server, r, Lookup(Now(s), r.key), s.session.base);
    }
  }

  lemma CursorServeEnd(s: State)
    requires s.hist != [] && Ascending(s.log) && CursorOk(s)
    ensures CursorOk(Next(s, ServeEnd)) && Next(s, ServeEnd).store == s.store
  {
    if s.session.CatchingUp? {
      var server := s.session.server;
      StampedSnoc(server.sent, WireSnapshot(Snapshot(server.lastSeen, true, server.dns, server.domains)),
                  s.session.base, server.lastSeen);
    }
  }

  lemma CursorReceive(s: State)
    requires s.hist != [] && Ascending(s.log) && CursorOk(s)
    ensures CursorOk(Next(s, Receive)) && Cursor(Next(s, Receive).store) >= Cursor(s.store)
  {
    if s.session.CatchingUp? && s.session.server.sent != [] {
      ReceivedCursor(s.store, s.session.server.sent, s.session.base, s.session.server.lastSeen);
    }
  }

  lemma ReceivedCursor(store: Store, cs: seq<Snapshot>, from: nat, to: nat)
    requires cs != [] && Cursor(store) <= from && Stamped(cs, from, to)
    ensures Cursor(store) <= Cursor(ApplySnapshot(store, cs[0])) <= cs[0].stamp <= to
    ensures Stamped(cs[1..], cs[0].stamp, to)
  {
    SnapshotCursor(store, cs[0]);
    StampedBound(cs, from, to);
  }

  lemma CursorDeliver(s: State, i: nat)
    requires s.hist != [] && Ascending(s.log) && CursorOk(s)
    ensures CursorOk(Next(s, Deliver(i))) && Cursor(Next(s, Deliver(i)).store) >= Cursor(s.store)
  {
    if s.session.Live? && i < |s.log| {
      Delivered(s, i);
      CursorConnect(s);
      assert s.log[i].id <= LastId(s.log);
    }
  }

  /** A delivered notice is ignored, or starts a catch-up, or moves both cursors to its id. */
  lemma Delivered(s: State, i: nat)
    requires s.hist != [] && s.session.Live? && s.session.cursor == Cursor(s.store) && i < |s.log|
    ensures var t := Next(s, Deliver(i));
            || t == s || t == Next(s, Connect)
            || (&& t == s.(store := t.store, session := Live(s.log[i].id))
                && Cursor(t.store) == s.log[i].id == Cursor(s.store) + 1)
  {
    ReactionKeepsCursor(s.store, WireNotice(NoticeOf(s.log[i])));
  }

  lemma {:induction false} StampedBound(cs: seq<Snapshot>, from: nat, to: nat)
    requires Stamped(cs, from, to)
    ensures from <= to && (cs != [] ==> from <= cs[0].stamp <= to)
    decreases cs
  {
    if cs != [] {
      StampedBound(cs[1..], cs[0].stamp, to);
    }
  }

  /** In every run whatever: the stored cursor never decreases, equals the loop's own cursor whenever the
      loop waits for a notice, and the out-of-order failure is never reached. */
  lemma {:induction false} CursorInEveryRun(rows: Rows, steps: seq<Step>, n: nat)
    requires LiveRows(rows) && n <= |steps|
    ensures MasterOk(Run(rows, steps)) && CursorOk(Run(rows, steps))
    ensures Run(rows, steps).session.Live? ==> Run(rows, steps).session.cursor == Cursor(Run(rows, steps).store)
    ensures !Run(rows, steps).session.Stopped?
    ensures Cursor(Run(rows, steps[..n]).store) <= Cursor(Run(rows, steps).store)
  {
    if n == |steps| {
      assert steps[..n] == steps;
    }
    if steps != [] {
      var init := steps[..|steps| - 1];
      CursorInEveryRun(rows, init, if n < |steps| then n else 0);
      if n < |steps| {
        assert init[..n] == steps[..n];
      }
      MasterStep(Run(rows, init), steps[|steps| - 1]);
      CursorStep(Run(rows, init), steps[|steps| - 1]);
    }
  }

  // ---- Catch-ups are complete -------------------------------------------------------------------

  /** Only the last chunk in flight may be marked, and it is only once the whole listing has been served. */
  ghost predicate Framed(s: State) {
    s.session.CatchingUp? ==>
      var server := s.session.server;
      && (forall i :: 0 <= i < |server.sent| - 1 ==> !server.sent[i].last)
      && (Ended(server) ==> s.session.next >= s.session.end)
  }

  lemma TakeUnmarked(server: Server, r: LogRecord, read: Option<Entry>)
    requires !Ended(server) && forall i :: 0 <= i < |server.sent| - 1 ==> !server.sent[i].last
    ensures var t := Take(server, r, read);
            !Ended(t) && forall i :: 0 <= i < |t.sent| - 1 ==> !t.sent[i].last
  {
  }

  lemma FramedStep(s: State, step: Step)
    requires s.hist != [] && Framed(s)
    ensures Framed(Next(s, step))
  {
    match step
    case ServeNext =>
      if s.session.CatchingUp? && s.session.next < s.session.end <= |s.log| {
        var r := s.log[s.session.next];
        TakeUnmarked(s.session.server, r, Lookup(Now(s), r.key));
      }
    case Receive =>
      if s.session.CatchingUp? && s.session.server.sent != [] {
        var sent := s.session.server.sent;
        assert forall i :: 0 <= i < |sent[1..]| ==> sent[1..][i] == sent[i + 1];
      }
    case _ =>
  }

  lemma {:induction false} FramedInEveryRun(rows: Rows, steps: seq<Step>)
    ensures Framed(Run(rows, steps))
  {
    if steps != [] {
      FramedInEveryRun(rows, steps[..|steps| - 1]);
      FramedStep(Run(rows, steps[..|steps| - 1]), steps[|steps| - 1]);
    }
  }

  /** In every run a slave leaves a catch-up for the notices only when every listed record has been served and the
      chunk it has just received was the only one in flight. */
  lemma LiveAfterWholeListing(rows: Rows, steps: seq<Step>)
    requires steps != [] && steps[|steps| - 1].Receive?
    requires Run(rows, steps[..|steps| - 1]).session.CatchingUp? && Run(rows, steps).session.Live?
    ensures var session := Run(rows, steps[..|steps| - 1]).session;
            session.next >= session.end && |session.server.sent| == 1
  {
    FramedInEveryRun(rows, steps[..|steps| - 1]);
  }
}
