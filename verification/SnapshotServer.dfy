/** How the master answers a catch-up request: current values of the logged keys, in chunks. */
module SnapshotServer {
  import opened Options
  import opened Replication
  import opened SlaveStore

  const ChunkSize: nat := 1000

  /** The request loop between two records: the open chunk, the last id seen, what was sent. */
  datatype Server = Server(dns: seq<Entry>, domains: seq<Entry>, lastSeen: nat, sent: seq<Snapshot>)

  function Open(cursor: nat): Server { Server([], [], cursor, []) }

  function Pending(s: Server): nat { |s.dns| + |s.domains| }

  function Flush(s: Server, last: bool): Server {
    Server([], [], s.lastSeen, s.sent + [WireSnapshot(Snapshot(s.lastSeen, last, s.dns, s.domains))])
  }

  /** `read` is the live value found for the record's key when the loop reaches it. */
  function Take(s: Server, r: LogRecord, read: Option<Entry>): Server {
    var t := s.(lastSeen := r.id);
    if read.None? then t
    else
      var u := if r.key.table.DnsRecords? then t.(dns := t.dns + [read.value])
          else t.(domains := t.domains + [read.value]);
      if Pending(u) >= ChunkSize then Flush(u, false) else u
  }

  function Serve(s: Server, records: seq<LogRecord>, found: seq<Option<Entry>>): Server
    requires |records| == |found|
    decreases records
  {
    if records == [] then s else Serve(Take(s, records[0], found[0]), records[1..], found[1..])
  }

  function Chunks(cursor: nat, records: seq<LogRecord>, found: seq<Option<Entry>>): seq<Snapshot>
    requires |records| == |found|
  {
    Flush(Serve(Open(cursor), records, found), true).sent
  }

  /** The loop as the master runs it; `found` supplies the answer of each table read. */
  method HandleGetSnapshot(cursor: nat, records: seq<LogRecord>, found: seq<Option<Entry>>)
    returns (sent: seq<Snapshot>)
    requires |records| == |found|
    ensures sent == Chunks(cursor, records, found)
  {
    sent := [];
    var dns, domains: seq<Entry>, count, lastSeen := [], [], 0, cursor;
    for i := 0 to |records|
      invariant count == |dns| + |domains| < ChunkSize
      invariant Serve(Open(cursor), records, found)
             == Serve(Server(dns, domains, lastSeen, sent), records[i..], found[i..])
    {
      assert records[i..][1..] == records[i + 1..] && found[i..][1..] == found[i + 1..];
      lastSeen := records[i].id;
      if found[i].Some? {
        if records[i].key.table.DnsRecords? {
          dns := dns + [found[i].value];
        } else {
          domains := domains + [found[i].value];
        }
        count := count + 1;
      }
      if count >= ChunkSize {
        sent := sent + [WireSnapshot(Snapshot(lastSeen, false, dns, domains))];
        dns, domains, count := [], [], 0;
      }
    }
    sent := sent + [WireSnapshot(Snapshot(lastSeen, true, dns, domains))];
  }

  // ---- Chunking loses nothing ---------------------------------------------------------------

  /** The live values of one table among the listed records, in log order, as they arrive. */
  function LiveOf(records: seq<LogRecord>, found: seq<Option<Entry>>, table: Table): seq<Entry>
    requires |records| == |found|
    decreases records
  {
    if records == [] then []
    else (if found[0].Some? && records[0].key.table == table then [Wire(found[0].value)] else [])
         + LiveOf(records[1..], found[1..], table)
  }

  function Part(c: Snapshot, table: Table): seq<Entry> {
    if table.DnsRecords? then c.dns else c.domains
  }

  function Joined(cs: seq<Snapshot>, table: Table): seq<Entry> {
    if cs == [] then [] else Part(cs[0], table) + Joined(cs[1..], table)
  }

  function OpenPart(s: Server, table: Table): seq<Entry> {
    WireAll(if table.DnsRecords? then s.dns else s.domains)
  }

  lemma {:induction false} JoinedSnoc(cs: seq<Snapshot>, c: Snapshot, table: Table)
    ensures Joined(cs + [c], table) == Joined(cs, table) + Part(c, table)
  {
    if cs != [] {
      assert (cs + [c])[1..] == cs[1..] + [c];
      JoinedSnoc(cs[1..], c, table);
    } else {
      assert (cs + [c])[1..] == [];
    }
  }

  lemma {:induction false} ServeKeepsAll(s: Server, records: seq<LogRecord>, found: seq<Option<Entry>>, table: Table)
    requires |records| == |found|
    ensures var t := Serve(s, records, found);
            Joined(t.sent, table) + OpenPart(t, table)
            == Joined(s.sent, table) + OpenPart(s, table) + LiveOf(records, found, table)
    decreases records
  {
    if records != [] {
      var t := Take(s, records[0], found[0]);
      TakeKeepsAll(s, records[0], found[0], table);
      ServeKeepsAll(t, records[1..], found[1..], table);
      Regroup(Joined(s.sent, table) + OpenPart(s, table), records, found, table);
    }
  }

  lemma Regroup(sent: seq<Entry>, records: seq<LogRecord>, found: seq<Option<Entry>>, table: Table)
    requires |records| == |found| > 0
    ensures sent + (if found[0].Some? && records[0].key.table == table then [Wire(found[0].value)] else [])
              + LiveOf(records[1..], found[1..], table)
         == sent + LiveOf(records, found, table)
  {
  }

  lemma TakeKeepsAll(s: Server, r: LogRecord, read: Option<Entry>, table: Table)
    ensures var t := Take(s, r, read);
            Joined(t.sent, table) + OpenPart(t, table)
            == Joined(s.sent, table) + OpenPart(s, table)
               + (if read.Some? && r.key.table == table then [Wire(read.value)] else [])
  {
    if read.Some? {
      var base := s.(lastSeen := r.id);
      var u := if r.key.table.DnsRecords? then base.(dns := s.dns + [read.value])
          else base.(domains := s.domains + [read.value]);
      assert WireAll(s.dns + [read.value]) == WireAll(s.dns) + [Wire(read.value)];
      assert WireAll(s.domains + [read.value]) == WireAll(s.domains) + [Wire(read.value)];
      JoinedSnoc(s.sent, WireSnapshot(Snapshot(r.id, false, u.dns, u.domains)), table);
      assert WireAll([]) == [];
    }
  }

  /** Shape of a stream under construction: full unmarked chunks whose stamps grow. */
  ghost predicate Growing(s: Server, cursor: nat) {
    && Pending(s) < ChunkSize
    && cursor <= s.lastSeen
    && (forall i :: 0 <= i < |s.sent| ==>
          !s.sent[i].last && |Entries(s.sent[i])| == ChunkSize && cursor < s.sent[i].stamp <= s.lastSeen)
    && (forall i, j :: 0 <= i < j < |s.sent| ==> s.sent[i].stamp < s.sent[j].stamp)
  }

  lemma {:induction false} ServeGrows(s: Server, records: seq<LogRecord>, found: seq<Option<Entry>>, cursor: nat)
    requires |records| == |found| && Ascending(records)
    requires Growing(s, cursor) && (records != [] ==> s.lastSeen < records[0].id)
    ensures var t := Serve(s, records, found);
            Growing(t, cursor) && t.lastSeen == if records == [] then s.lastSeen else LastId(records)
    decreases records
  {
    if records != [] {
      ServeGrows(Take(s, records[0], found[0]), records[1..], found[1..], cursor);
    }
  }

  /** Every value once and in order, all chunks but the last full, only the last marked, stamps growing. */
  lemma ChunkingIsLossless(cursor: nat, records: seq<LogRecord>, found: seq<Option<Entry>>)
    requires |records| == |found| && Ascending(records)
    requires records != [] ==> cursor < records[0].id
    ensures var cs := Chunks(cursor, records, found);
            && |cs| > 0
            && (forall table :: Joined(cs, table) == LiveOf(records, found, table))
            && (forall i :: 0 <= i < |cs| ==> (cs[i].last <==> i == |cs| - 1))
            && (forall i :: 0 <= i < |cs| - 1 ==> |Entries(cs[i])| == 1000 && cursor < cs[i].stamp)
            && |Entries(cs[|cs| - 1])| < 1000
            && (forall i, j :: 0 <= i < j < |cs| ==> cs[i].stamp <= cs[j].stamp)
            && cs[|cs| - 1].stamp == if records == [] then cursor else LastId(records)
  {
    var t := Serve(Open(cursor), records, found);
    ServeGrows(Open(cursor), records, found, cursor);
    var final := WireSnapshot(Snapshot(t.lastSeen, true, t.dns, t.domains));
    assert Chunks(cursor, records, found) == t.sent + [final];
    forall table ensures Joined(Chunks(cursor, records, found), table) == LiveOf(records, found, table) {
      ServeKeepsAll(Open(cursor), records, found, table);
      JoinedSnoc(t.sent, final, table);
    }
  }

  // ---- Cutting and resuming -----------------------------------------------------------------

  function Lookup(rows: Rows, k: Key): Option<Entry> {
    if k in rows then Some(rows[k]) else None
  }

  function Reads(rows: Rows, records: seq<LogRecord>): (r: seq<Option<Entry>>)
    ensures |r| == |records|
  {
    if records == [] then [] else [Lookup(rows, records[0].key)] + Reads(rows, records[1..])
  }

  /** The stream a slave holding `s` receives from a master with these tables and this log. */
  ghost function Stream(s: Store, log: seq<LogRecord>, rows: Rows): seq<Snapshot> {
    var records := ListAfter(log, Cursor(s));
    Chunks(Cursor(s), records, Reads(rows, records))
  }

  lemma {:induction false} ServeIgnoresSent(s: Server, records: seq<LogRecord>, found: seq<Option<Entry>>)
    requires |records| == |found|
    ensures Serve(s, records, found)
         == (var t := Serve(s.(sent := []), records, found); t.(sent := s.sent + t.sent))
    decreases records
  {
    if records != [] {
      var t := Take(s, records[0], found[0]);
      var u := Take(s.(sent := []), records[0], found[0]);
      ServeIgnoresSent(t, records[1..], found[1..]);
      ServeIgnoresSent(u, records[1..], found[1..]);
      assert t.sent == s.sent + u.sent;
    }
  }

  /** A stream of more than one chunk is its first chunk followed by the stream that starts at its stamp. */
  lemma {:induction false} FirstChunk(s: Server, rows: Rows, records: seq<LogRecord>) returns (n: nat)
    requires s.sent == [] && Pending(s) < ChunkSize
    requires |Serve(s, records, Reads(rows, records)).sent| > 0
    ensures 0 < n <= |records|
    ensures var cs := Flush(Serve(s, records, Reads(rows, records)), true).sent;
            && |cs| > 1
            && cs[0].stamp == records[n - 1].id && |Entries(cs[0])| == ChunkSize && !cs[0].last
            && cs[1..] == Chunks(records[n - 1].id, records[n..], Reads(rows, records[n..]))
    decreases records
  {
    var found := Reads(rows, records);
    var t := Take(s, records[0], found[0]);
    assert found[1..] == Reads(rows, records[1..]);
    if t.sent == [] {
      var m := FirstChunk(t, rows, records[1..]);
      n := m + 1;
      assert records[1..][m..] == records[n..];
    } else {
      n := 1;
      ServeIgnoresSent(t, records[1..], found[1..]);
      assert t.(sent := []) == Open(records[0].id);
    }
  }

  /** With the master unchanged, applying any number of chunks, losing the stream and catching up
      again from the stored cursor ends in the very store one uninterrupted stream gives. */
  lemma {:induction false} ResumeEqualsUninterrupted(s: Store, log: seq<LogRecord>, rows: Rows, n: nat)
    requires Ascending(log) && n <= |Stream(s, log, rows)|
    ensures var cut := ApplySnapshots(s, Stream(s, log, rows)[..n]);
            ApplySnapshots(cut, Stream(cut, log, rows)) == ApplySnapshots(s, Stream(s, log, rows))
    decreases n
  {
    var cs := Stream(s, log, rows);
    if n == 0 {
      assert cs[..0] == [];
    } else if |cs| > 1 {
      StreamTail(s, log, rows);
      ResumeEqualsUninterrupted(ApplySnapshot(s, cs[0]), log, rows, n - 1);
      ApplyFirst(s, cs, n);
    } else {
      assert cs[..n] == cs;
      FinalChunkIsStable(s, log, rows);
    }
  }

  lemma ApplyFirst(s: Store, cs: seq<Snapshot>, n: nat)
    requires 0 < n <= |cs|
    ensures ApplySnapshots(s, cs[..n]) == ApplySnapshots(ApplySnapshot(s, cs[0]), cs[1..][..n - 1])
    ensures ApplySnapshots(s, cs) == ApplySnapshots(ApplySnapshot(s, cs[0]), cs[1..])
  {
    assert cs[..n][1..] == cs[1..][..n - 1];
  }

  lemma StreamAt(s: Store, log: seq<LogRecord>, rows: Rows, n: nat)
    requires Ascending(log) && 0 < n <= |log| && Cursor(s) == log[n - 1].id
    ensures Stream(s, log, rows) == Chunks(log[n - 1].id, log[n..], Reads(rows, log[n..]))
  {
    SkipIs(log, Cursor(s), n);
  }

  lemma ChunksTail(cursor: nat, rows: Rows, records: seq<LogRecord>) returns (n: nat)
    requires |Chunks(cursor, records, Reads(rows, records))| > 1
    ensures 0 < n <= |records|
    ensures var cs := Chunks(cursor, records, Reads(rows, records));
            && cs[0].stamp == records[n - 1].id && Entries(cs[0]) != []
            && cs[1..] == Chunks(records[n - 1].id, records[n..], Reads(rows, records[n..]))
  {
    n := FirstChunk(Open(cursor), rows, records);
  }

  lemma FirstOfStream(s: Store, log: seq<LogRecord>, rows: Rows) returns (m: nat)
    requires Ascending(log) && |Stream(s, log, rows)| > 1
    ensures 0 < m <= |log| && log[m - 1].id > Cursor(s)
    ensures var cs := Stream(s, log, rows);
            && cs[0].stamp == log[m - 1].id && Entries(cs[0]) != []
            && cs[1..] == Chunks(log[m - 1].id, log[m..], Reads(rows, log[m..]))
  {
    m := FirstAfter(log, Cursor(s), rows);
  }

  lemma FirstAfter(log: seq<LogRecord>, cursor: nat, rows: Rows) returns (m: nat)
    requires Ascending(log) && |Chunks(cursor, ListAfter(log, cursor), Reads(rows, ListAfter(log, cursor)))| > 1
    ensures 0 < m <= |log| && log[m - 1].id > cursor
    ensures var cs := Chunks(cursor, ListAfter(log, cursor), Reads(rows, ListAfter(log, cursor)));
            && cs[0].stamp == log[m - 1].id && Entries(cs[0]) != []
            && cs[1..] == Chunks(log[m - 1].id, log[m..], Reads(rows, log[m..]))
  {
    var from := Skip(log, cursor);
    var records := log[from..];
    var n := ChunksTail(cursor, rows, records);
    m := from + n;
    assert records[n..] == log[m..];
    assert records[n - 1] == log[m - 1];
  }

  lemma StreamTail(s: Store, log: seq<LogRecord>, rows: Rows)
    requires Ascending(log) && |Stream(s, log, rows)| > 1
    ensures Stream(ApplySnapshot(s, Stream(s, log, rows)[0]), log, rows) == Stream(s, log, rows)[1..]
  {
    var m := FirstOfStream(s, log, rows);
    SnapshotCursor(s, Stream(s, log, rows)[0]);
    StreamAt(ApplySnapshot(s, Stream(s, log, rows)[0]), log, rows, m);
  }

  lemma OnlyChunk(s: Store, log: seq<LogRecord>, rows: Rows)
    requires Ascending(log) && |Stream(s, log, rows)| == 1
    ensures var c := Stream(s, log, rows)[0];
            Entries(c) == [] || (log != [] && c.stamp == LastId(log) && c.stamp > Cursor(s))
  {
    var records := ListAfter(log, Cursor(s));
    ServeGrows(Open(Cursor(s)), records, Reads(rows, records), Cursor(s));
  }

  lemma CaughtUp(s: Store, log: seq<LogRecord>, rows: Rows)
    requires Ascending(log) && Cursor(s) == LastId(log)
    ensures ApplySnapshots(s, Stream(s, log, rows)) == s
  {
    SkipIs(log, Cursor(s), |log|);
    var c := WireSnapshot(Snapshot(Cursor(s), true, [], []));
    assert Stream(s, log, rows) == [c] && [c][1..] == [];
  }

  lemma FinalChunkIsStable(s: Store, log: seq<LogRecord>, rows: Rows)
    requires Ascending(log) && |Stream(s, log, rows)| == 1
    ensures var done := ApplySnapshots(s, Stream(s, log, rows));
            ApplySnapshots(done, Stream(done, log, rows)) == done
  {
    var c := Stream(s, log, rows)[0];
    assert Stream(s, log, rows)[1..] == [];
    OnlyChunk(s, log, rows);
    SnapshotCursor(s, c);
    if Entries(c) == [] {
      SnapshotIsPut(s, c);
    } else {
      CaughtUp(ApplySnapshot(s, c), log, rows);
    }
  }
}
