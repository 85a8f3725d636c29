/** The replicated values, the change log and the wire form shared by master and slave. */
module Replication {
  import opened Options

  /** The two tables that travel; a key is a table together with a primary key in it. */
  datatype Table = DnsRecords | DomainEntries
  datatype Key = Key(table: Table, id: string)

  /** A DNS record or a domain projection. `body` stands for every other field the wire form carries. */
  datatype Entry =
    | DnsRecord(id: string, deleted: bool, body: string)
    | DomainEntry(hostname: string, deleted: bool, needCert: bool, body: string)

  function KeyOf(e: Entry): Key {
    match e
    case DnsRecord(id, _, _) => Key(DnsRecords, id)
    case DomainEntry(hostname, _, _, _) => Key(DomainEntries, hostname)
  }

  /** What the protobuf form keeps: a domain projection arrives without `needCert`. */
  function Wire(e: Entry): Entry {
    match e
    case DnsRecord(_, _, _) => e
    case DomainEntry(_, _, _, _) => e.(needCert := false)
  }

  function WireAll(es: seq<Entry>): (r: seq<Entry>)
    ensures |r| == |es| && forall i :: 0 <= i < |es| ==> r[i] == Wire(es[i])
  {
    seq(|es|, i requires 0 <= i < |es| => Wire(es[i]))
  }

  /** Two entries have one key exactly if they are of one kind and one id or host. */
  lemma KeysTellApart(a: Entry, b: Entry)
    ensures KeyOf(a) == KeyOf(b) <==>
            if a.DnsRecord? then b.DnsRecord? && a.id == b.id else b.DomainEntry? && a.hostname == b.hostname
  {
  }

  /** The cached entry says all that the held one says, but for a domain's need for a certificate. */
  predicate Conveys(cached: Entry, held: Entry) {
    match held
    case DnsRecord(id, deleted, body) =>
      cached.DnsRecord? && cached.id == id && cached.deleted == deleted && cached.body == body
    case DomainEntry(hostname, deleted, _, body) =>
      && cached.DomainEntry? && cached.hostname == hostname && cached.deleted == deleted && cached.body == body
      && !cached.needCert
  }

  lemma WireConveys(e: Entry, cached: Entry)
    ensures cached == Wire(e) <==> Conveys(cached, e)
  {
  }

  /** The cached rows are the held ones, row by row and field by field. */
  ghost predicate SameTables(cached: Rows, held: Rows) {
    cached.Keys == held.Keys && forall k :: k in held ==> Conveys(cached[k], held[k])
  }

  lemma MirrorIs(cached: Rows, held: Rows)
    ensures cached == Mirror(held) <==> SameTables(cached, held)
  {
    forall k | k in held && k in cached ensures cached[k] == Wire(held[k]) <==> Conveys(cached[k], held[k]) {
      WireConveys(held[k], cached[k]);
    }
    if SameTables(cached, held) {
      assert forall k :: k in held ==> cached[k] == Mirror(held)[k];
    }
  }

  /** The two entries differ at most in a domain's need for a certificate. */
  predicate AlikeButCert(a: Entry, b: Entry) {
    match a
    case DnsRecord(_, _, _) => a == b
    case DomainEntry(hostname, deleted, _, body) =>
      b.DomainEntry? && b.hostname == hostname && b.deleted == deleted && b.body == body
  }

  /** Two tables mirror alike exactly if they have the same keys and entries alike but for that need. */
  lemma MirrorsAgreeIff(a: Rows, b: Rows)
    ensures Mirror(a) == Mirror(b) <==> a.Keys == b.Keys && forall k :: k in a ==> AlikeButCert(a[k], b[k])
  {
    if Mirror(a) == Mirror(b) {
      assert a.Keys == Mirror(a).Keys && b.Keys == Mirror(b).Keys;
      forall k | k in a ensures AlikeButCert(a[k], b[k]) {
        assert Mirror(a)[k] == Mirror(b)[k];
      }
    }
    if a.Keys == b.Keys && forall k :: k in a ==> AlikeButCert(a[k], b[k]) {
      assert forall k :: k in a ==> Mirror(a)[k] == Mirror(b)[k];
    }
  }

  type Rows = map<Key, Entry>

  /** The rows a slave would hold if it mirrored `rows` through the wire. */
  function Mirror(rows: Rows): Rows {
    map k | k in rows :: Wire(rows[k])
  }

  /** One row of the change log. `entry` is the payload of the notice published with it and
      `readAt` the moment (an index into the master's history) at which that payload was read. */
  datatype LogRecord = LogRecord(id: nat, key: Key, entry: Entry, readAt: nat)

  datatype Notice = Notice(id: nat, dns: Option<Entry>, domain: Option<Entry>)

  datatype Snapshot = Snapshot(stamp: nat, last: bool, dns: seq<Entry>, domains: seq<Entry>)

  function NoticeOf(r: LogRecord): Notice {
    if r.entry.DnsRecord? then Notice(r.id, Some(r.entry), None) else Notice(r.id, None, Some(r.entry))
  }

  /** A notice of a DNS record carries it as such, one of a domain likewise, and nothing else. */
  lemma NoticeCarries(r: LogRecord)
    ensures var n := NoticeOf(r);
            && n.id == r.id
            && (r.entry.DnsRecord? ==> n.dns == Some(r.entry) && n.domain == None)
            && (r.entry.DomainEntry? ==> n.domain == Some(r.entry) && n.dns == None)
  {
  }

  function WireOption(e: Option<Entry>): Option<Entry> {
    if e.Some? then Some(Wire(e.value)) else None
  }

  function WireNotice(n: Notice): Notice {
    n.(dns := WireOption(n.dns), domain := WireOption(n.domain))
  }

  function WireSnapshot(c: Snapshot): Snapshot {
    c.(dns := WireAll(c.dns), domains := WireAll(c.domains))
  }

  function Entries(c: Snapshot): seq<Entry> { c.dns + c.domains }

  predicate CarriesEntry(n: Notice) { n.dns.Some? || n.domain.Some? }

  predicate Ascending(log: seq<LogRecord>) {
    && (forall i :: 0 <= i < |log| ==> log[i].id >= 1)
    && forall i, j {:trigger log[i].id, log[j].id} :: 0 <= i < j < |log| ==> log[i].id < log[j].id
  }

  function LastId(log: seq<LogRecord>): nat {
    if log == [] then 0 else log[|log| - 1].id
  }

  /** Number of leading records with an id at most `after`. */
  function Skip(log: seq<LogRecord>, after: nat): (n: nat)
    ensures n <= |log|
    ensures forall i :: 0 <= i < n ==> log[i].id <= after
    ensures n < |log| ==> after < log[n].id
  {
    if log == [] || log[0].id > after then 0 else 1 + Skip(log[1..], after)
  }

  /** `ListSnapshotRecordsAfter` on a log kept by ascending id: the records above `after`. */
  function ListAfter(log: seq<LogRecord>, after: nat): seq<LogRecord> {
    log[Skip(log, after)..]
  }

  lemma SkipIs(log: seq<LogRecord>, after: nat, n: nat)
    requires Ascending(log) && n <= |log|
    requires n > 0 ==> log[n - 1].id <= after
    requires n < |log| ==> after < log[n].id
    ensures Skip(log, after) == n
  {
  }
}
