/** The slave's durable cache: two row tables and the sync-state table whose greatest id is the cursor. */
module SlaveStore {
  import opened Options
  import opened Replication

  datatype SyncKey = SyncKey(id: nat, table: Table)

  datatype Store = Store(rows: Rows, sync: map<SyncKey, string>)

  const Empty := Store(map[], map[])

  // ---- Row effects -------------------------------------------------------------------------

  function Deal(rows: Rows, e: Entry): Rows {
    if e.deleted then rows - {KeyOf(e)} else rows[KeyOf(e) := e]
  }

  function DealAll(rows: Rows, es: seq<Entry>): Rows {
    if es == [] then rows else Deal(DealAll(rows, es[..|es| - 1]), es[|es| - 1])
  }

  function Stamp(sync: map<SyncKey, string>, stamp: nat, e: Entry): map<SyncKey, string> {
    sync[SyncKey(stamp, KeyOf(e).table) := KeyOf(e).id]
  }

  function StampAll(sync: map<SyncKey, string>, stamp: nat, es: seq<Entry>): map<SyncKey, string> {
    if es == [] then sync else Stamp(StampAll(sync, stamp, es[..|es| - 1]), stamp, es[|es| - 1])
  }

  /** The value a run of entries leaves for `k`: the last entry with that key decides. */
  function LastFor(es: seq<Entry>, k: Key): Option<Entry> {
    if es == [] then None
    else if KeyOf(es[|es| - 1]) == k then Some(es[|es| - 1])
    else LastFor(es[..|es| - 1], k)
  }

  predicate Holds(rows: Rows, k: Key, e: Entry) {
    if e.deleted then k !in rows else k in rows && rows[k] == e
  }

  lemma {:induction false} DealAllAt(rows: Rows, es: seq<Entry>, k: Key)
    ensures match LastFor(es, k)
            case Some(e) => KeyOf(e) == k && e in es && Holds(DealAll(rows, es), k, e)
            case None => (k in DealAll(rows, es) <==> k in rows) && (k in rows ==> DealAll(rows, es)[k] == rows[k])
  {
    if es != [] {
      DealAllAt(rows, es[..|es| - 1], k);
    }
  }

  lemma {:induction false} DealAllConcat(rows: Rows, a: seq<Entry>, b: seq<Entry>)
    ensures DealAll(rows, a + b) == DealAll(DealAll(rows, a), b)
  {
    if b == [] {
      assert a + b == a;
    } else {
      assert (a + b)[..|a + b| - 1] == a + b[..|b| - 1];
      DealAllConcat(rows, a, b[..|b| - 1]);
    }
  }

  lemma {:induction false} LastForConcat(a: seq<Entry>, b: seq<Entry>, k: Key)
    ensures LastFor(a + b, k) == if LastFor(b, k).Some? then LastFor(b, k) else LastFor(a, k)
  {
    if b == [] {
      assert a + b == a;
    } else {
      assert (a + b)[..|a + b| - 1] == a + b[..|b| - 1];
      LastForConcat(a, b[..|b| - 1], k);
    }
  }

  lemma {:induction false} LastForWire(es: seq<Entry>, k: Key)
    ensures LastFor(WireAll(es), k) == WireOption(LastFor(es, k))
  {
    if es != [] {
      assert WireAll(es)[..|es| - 1] == WireAll(es[..|es| - 1]);
      LastForWire(es[..|es| - 1], k);
    }
  }

  lemma {:induction false} StampAllConcat(sync: map<SyncKey, string>, stamp: nat, a: seq<Entry>, b: seq<Entry>)
    ensures StampAll(sync, stamp, a + b) == StampAll(StampAll(sync, stamp, a), stamp, b)
  {
    if b == [] {
      assert a + b == a;
    } else {
      assert (a + b)[..|a + b| - 1] == a + b[..|b| - 1];
      StampAllConcat(sync, stamp, a, b[..|b| - 1]);
    }
  }

  /** The rows of the sync table under a stamp name the last stored entry of each table; all others stay. */
  lemma {:induction false} StampsAre(sync: map<SyncKey, string>, stamp: nat, es: seq<Entry>, key: SyncKey)
    ensures var after := StampAll(sync, stamp, es);
            match LastOf(es, key.table)
            case Some(e) =>
              Get(after, key) == if key.id != stamp then Get(sync, key)
                                 else Some(if e.DnsRecord? then e.id else e.hostname)
            case None => Get(after, key) == Get(sync, key)
  {
    if es != [] {
      StampsAre(sync, stamp, es[..|es| - 1], key);
    }
  }

  /** The last entry of a table. */
  function LastOf(es: seq<Entry>, table: Table): Option<Entry> {
    if es == [] then None
    else if KeyOf(es[|es| - 1]).table == table then Some(es[|es| - 1])
    else LastOf(es[..|es| - 1], table)
  }

  lemma {:induction false} LastOfIs(es: seq<Entry>, table: Table, i: nat)
    requires i < |es| && KeyOf(es[i]).table == table && forall j :: i < j < |es| ==> KeyOf(es[j]).table != table
    ensures LastOf(es, table) == Some(es[i])
  {
    if i < |es| - 1 {
      LastOfIs(es[..|es| - 1], table, i);
    }
  }

  // ---- The cursor ---------------------------------------------------------------------------

  /** `c` is what `GetSnapshotRecordID` answers: the greatest stored id, or 0 for an empty table. */
  ghost predicate IsCursor(sync: map<SyncKey, string>, c: nat) {
    && (forall k :: k in sync ==> k.id <= c)
    && (if sync == map[] then c == 0 else exists k :: k in sync && k.id == c)
  }

  lemma {:induction false} CursorExists(sync: map<SyncKey, string>, keys: set<SyncKey>)
    requires keys <= sync.Keys && keys != {}
    ensures exists k :: k in keys && forall j :: j in keys ==> j.id <= k.id
    decreases keys
  {
    var k :| k in keys;
    if keys != {k} {
      CursorExists(sync, keys - {k});
      var m :| m in keys - {k} && forall j :: j in keys - {k} ==> j.id <= m.id;
      var top := if m.id >= k.id then m else k;
      assert forall j :: j in keys ==> j == k || j in keys - {k};
      assert top in keys && forall j :: j in keys ==> j.id <= top.id;
    }
  }

  ghost function CursorOf(sync: map<SyncKey, string>): (c: nat)
    ensures IsCursor(sync, c)
    ensures forall d :: IsCursor(sync, d) ==> d == c
  {
    if sync == map[] then 0
    else
      CursorExists(sync, sync.Keys);
      var k :| k in sync && forall j :: j in sync ==> j.id <= k.id;
      k.id
  }

  ghost function Cursor(s: Store): nat { CursorOf(s.sync) }

  lemma {:induction false} CursorAfterStamps(sync: map<SyncKey, string>, stamp: nat, es: seq<Entry>)
    ensures CursorOf(StampAll(sync, stamp, es)) ==
            if es == [] || stamp <= CursorOf(sync) then CursorOf(sync) else stamp
  {
    if es != [] {
      var prev := StampAll(sync, stamp, es[..|es| - 1]);
      CursorAfterStamps(sync, stamp, es[..|es| - 1]);
      var key := SyncKey(stamp, KeyOf(es[|es| - 1]).table);
      var next := StampAll(sync, stamp, es);
      assert next == prev[key := KeyOf(es[|es| - 1]).id];
      var c := if stamp <= CursorOf(sync) then CursorOf(sync) else stamp;
      assert forall k :: k in next ==> k == key || k in prev;
      if CursorOf(prev) == c && prev != map[] {
        var top :| top in prev && top.id == c;
        assert top in next;
      } else {
        assert key in next && key.id == c;
      }
      assert IsCursor(next, c);
    }
  }

  // ---- Whole operations ---------------------------------------------------------------------

  function ApplySnapshot(s: Store, c: Snapshot): Store {
    Store(DealAll(DealAll(s.rows, c.dns), c.domains), StampAll(StampAll(s.sync, c.stamp, c.dns), c.stamp, c.domains))
  }

  function ApplySnapshots(s: Store, cs: seq<Snapshot>): Store
    decreases cs
  {
    if cs == [] then s else ApplySnapshots(ApplySnapshot(s, cs[0]), cs[1..])
  }

  datatype Applied = Ok | OutOfOrder

  function NoticeEntries(n: Notice): seq<Entry> {
    (if n.dns.Some? then [n.dns.value] else []) + (if n.domain.Some? then [n.domain.value] else [])
  }

  function Put(s: Store, stamp: nat, es: seq<Entry>): Store {
    Store(DealAll(s.rows, es), StampAll(s.sync, stamp, es))
  }

  ghost function ApplyChangelog(s: Store, n: Notice): (Store, Applied) {
    if Cursor(s) >= n.id then (s, Ok)
    else if Cursor(s) + 1 < n.id then (s, OutOfOrder)
    else (Put(s, n.id, NoticeEntries(n)), Ok)
  }

  lemma SnapshotIsPut(s: Store, c: Snapshot)
    ensures ApplySnapshot(s, c) == Put(s, c.stamp, Entries(c))
  {
    DealAllConcat(s.rows, c.dns, c.domains);
    StampAllConcat(s.sync, c.stamp, c.dns, c.domains);
  }

  /** The stored cursor never moves back, and moves exactly to the stamp when something is stored. */
  lemma PutCursor(s: Store, stamp: nat, es: seq<Entry>)
    ensures Cursor(Put(s, stamp, es)) == if es == [] || stamp <= Cursor(s) then Cursor(s) else stamp
  {
    CursorAfterStamps(s.sync, stamp, es);
  }

  lemma SnapshotCursor(s: Store, c: Snapshot)
    ensures Cursor(ApplySnapshot(s, c)) == if Entries(c) == [] || c.stamp <= Cursor(s) then Cursor(s) else c.stamp
  {
    SnapshotIsPut(s, c);
    PutCursor(s, c.stamp, Entries(c));
  }

  lemma {:induction false} ApplySnapshotsConcat(s: Store, a: seq<Snapshot>, b: seq<Snapshot>)
    ensures ApplySnapshots(s, a + b) == ApplySnapshots(ApplySnapshots(s, a), b)
    decreases a
  {
    if a == [] {
      assert a + b == b;
    } else {
      assert (a + b)[1..] == a[1..] + b;
      ApplySnapshotsConcat(ApplySnapshot(s, a[0]), a[1..], b);
    }
  }

  // ---- The store as the slave runs it -------------------------------------------------------

  class LocalStore {
    var rows: Rows
    var sync: map<SyncKey, string>

    ghost function State(): Store reads this { Store(rows, sync) }

    constructor ()
      ensures State() == Empty
    {
      rows, sync := map[], map[];
    }

    method DealEntry(e: Entry)
      modifies this`rows
      ensures rows == Deal(old(rows), e)
    {
      if e.deleted {
        rows := rows - {KeyOf(e)};
        return;
      }
      rows := rows[KeyOf(e) := e];
    }

    method UpdateSnapshotRecordID(stamp: nat, table: Table, id: string)
      modifies this`sync
      ensures sync == old(sync)[SyncKey(stamp, table) := id]
    {
      sync := sync[SyncKey(stamp, table) := id];
    }

    /** Largest stored id by a scan of the table. */
    method GetSnapshotRecordID() returns (cursor: nat)
      ensures cursor == Cursor(State())
    {
      cursor := 0;
      var todo := sync.Keys;
      while todo != {}
        invariant todo <= sync.Keys
        invariant forall k :: k in sync && k !in todo ==> k.id <= cursor
        invariant (todo == sync.Keys && cursor == 0) || exists k :: k in sync && k.id == cursor
        decreases todo
      {
        var k :| k in todo;
        if k.id >= cursor {
          cursor := k.id;
        }
        todo := todo - {k};
      }
      assert IsCursor(sync, cursor);
    }

    method ApplyList(stamp: nat, es: seq<Entry>)
      modifies this
      ensures State() == Put(old(State()), stamp, es)
    {
      for i := 0 to |es|
        invariant rows == DealAll(old(rows), es[..i])
        invariant sync == StampAll(old(sync), stamp, es[..i])
      {
        assert es[..i + 1][..i] == es[..i];
        DealEntry(es[i]);
        UpdateSnapshotRecordID(stamp, KeyOf(es[i]).table, KeyOf(es[i]).id);
      }
      assert es[..|es|] == es;
    }

    method ApplySnapshotChunk(c: Snapshot)
      modifies this
      ensures State() == ApplySnapshot(old(State()), c)
    {
      ApplyList(c.stamp, c.dns);
      ApplyList(c.stamp, c.domains);
    }

    method ApplyNotice(n: Notice) returns (r: Applied)
      modifies this
      ensures (State(), r) == ApplyChangelog(old(State()), n)
      ensures n.id <= Cursor(old(State())) ==> State() == old(State()) && r == Ok
      ensures n.id > Cursor(old(State())) + 1 ==> State() == old(State()) && r == OutOfOrder
      ensures n.id == Cursor(old(State())) + 1 ==> State() == Put(old(State()), n.id, NoticeEntries(n)) && r == Ok
    {
      var cursor := GetSnapshotRecordID();
      if cursor >= n.id {
        return Ok;
      } else if cursor + 1 < n.id {
        return OutOfOrder;
      }
      if n.dns.Some? {
        ApplyList(n.id, [n.dns.value]);
      }
      if n.domain.Some? {
        ApplyList(n.id, [n.domain.value]);
      }
      DealAllConcat(old(rows), if n.dns.Some? then [n.dns.value] else [],
                    if n.domain.Some? then [n.domain.value] else []);
      StampAllConcat(old(sync), n.id, if n.dns.Some? then [n.dns.value] else [],
                     if n.domain.Some? then [n.domain.value] else []);
      r := Ok;
    }
  }
}
