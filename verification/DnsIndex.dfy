/** The DNS record store and the question index kept beside it. */
module DnsIndex {
  import opened Options
  import opened DnsNames

  datatype Record = Record(id: string, fqdn: string, recordType: string, enabled: bool, body: string)

  /** The record store: name, then record id. */
  type Domains = map<string, map<string, Record>>

  ghost predicate Has(m: Domains, d: string, id: string) { d in m && id in m[d] }

  /** Records sit under their own name and id. */
  ghost predicate Placed(m: Domains) {
    forall d, id :: Has(m, d, id) ==> m[d][id].fqdn == d && m[d][id].id == id
  }

  ghost predicate NormalNames(m: Domains) {
    forall d :: d in m ==> NormalFqdn(d)
  }

  /** Stored names are normal, so comparing them is comparing normal forms. */
  predicate Matches(r: Record, f: string, t: string) { r.enabled && r.fqdn == f && r.recordType == t }

  /** The enabled stored records with this name and type. */
  ghost function Answers(m: Domains, f: string, t: string): set<Record> {
    set d, id | d in m && id in m[d] && Matches(m[d][id], f, t) :: m[d][id]
  }

  /** The list holds exactly the records of the set, each once. */
  ghost predicate Lists(s: seq<Record>, a: set<Record>) {
    (forall r :: r in s <==> r in a) && forall i, j :: 0 <= i < j < |s| ==> s[i] != s[j]
  }

  ghost predicate Question(f: string, t: string, known: set<string>) { NormalFqdn(f) && NormalType(t, known) }

  /** The index is right about one question: no key for an empty answer, else exactly the answer. */
  ghost predicate Correct(byKey: map<string, seq<Record>>, m: Domains, f: string, t: string) {
    var key, a := CacheKey(f, t), Answers(m, f, t);
    if a == {} then key !in byKey else key in byKey && Lists(byKey[key], a)
  }

  /** The index is right about every question but possibly one, and has no other keys. */
  ghost predicate IndexedBut(byKey: map<string, seq<Record>>, m: Domains, known: set<string>, f0: string, t0: string) {
    && (forall f, t :: Question(f, t, known) && !(f == f0 && t == t0) ==> Correct(byKey, m, f, t))
    && (forall key :: key in byKey ==> IsKey(key, known))
  }

  ghost predicate IsKey(key: string, known: set<string>) {
    exists f, t :: Question(f, t, known) && key == CacheKey(f, t)
  }

  ghost predicate Indexed(byKey: map<string, seq<Record>>, m: Domains, known: set<string>) {
    && (forall f, t :: Question(f, t, known) ==> Correct(byKey, m, f, t))
    && (forall key :: key in byKey ==> IsKey(key, known))
  }

  // ---- What a change of the store touches -------------------------------------------------------------

  function Put(m: Domains, r: Record): Domains {
    m[r.fqdn := (if r.fqdn in m then m[r.fqdn] else map[])[r.id := r]]
  }

  function Drop(m: Domains, d: string, id: string): Domains {
    if d in m then m[d := m[d] - {id}] else m
  }

  lemma PutTouches(m: Domains, r: Record, f: string, t: string)
    requires (r.fqdn in m ==> r.id !in m[r.fqdn]) && !(f == r.fqdn && t == r.recordType)
    ensures Answers(Put(m, r), f, t) == Answers(m, f, t)
  {
    var n := Put(m, r);
    forall x ensures x in Answers(n, f, t) <==> x in Answers(m, f, t) {
      if x in Answers(m, f, t) {
        var d, id :| d in m && id in m[d] && Matches(m[d][id], f, t) && m[d][id] == x;
        assert d in n && id in n[d] && n[d][id] == x;
      }
    }
  }

  lemma DropTouches(m: Domains, d0: string, id0: string, f: string, t: string)
    requires Placed(m) && Has(m, d0, id0) && !(f == d0 && t == m[d0][id0].recordType)
    ensures Answers(Drop(m, d0, id0), f, t) == Answers(m, f, t)
  {
    var n := Drop(m, d0, id0);
    forall x ensures x in Answers(n, f, t) <==> x in Answers(m, f, t) {
      if x in Answers(m, f, t) {
        var d, id :| d in m && id in m[d] && Matches(m[d][id], f, t) && m[d][id] == x;
        assert Has(m, d, id);
        assert !(d == d0 && id == id0);
        assert d in n && id in n[d] && n[d][id] == x;
      }
    }
  }

  lemma PutIndexed(byKey: map<string, seq<Record>>, m: Domains, known: set<string>, r: Record)
    requires Indexed(byKey, m, known) && (r.fqdn in m ==> r.id !in m[r.fqdn])
    ensures IndexedBut(byKey, Put(m, r), known, r.fqdn, r.recordType)
  {
    forall f, t | Question(f, t, known) && !(f == r.fqdn && t == r.recordType) ensures Correct(byKey, Put(m, r), f, t) {
      PutTouches(m, r, f, t);
      assert Correct(byKey, m, f, t);
    }
  }

  lemma DropIndexed(byKey: map<string, seq<Record>>, m: Domains, known: set<string>, d: string, id: string)
    requires Indexed(byKey, m, known) && Placed(m) && Has(m, d, id)
    ensures IndexedBut(byKey, Drop(m, d, id), known, d, m[d][id].recordType)
  {
    forall f, t | Question(f, t, known) && !(f == d && t == m[d][id].recordType)
      ensures Correct(byKey, Drop(m, d, id), f, t)
    {
      DropTouches(m, d, id, f, t);
      assert Correct(byKey, m, f, t);
    }
  }

  /** Rebuilding one question: the new index, given the collected records. */
  function Rebuilt(byKey: map<string, seq<Record>>, f: string, t: string, rs: seq<Record>): map<string, seq<Record>> {
    if rs == [] then byKey - {CacheKey(f, t)} else byKey[CacheKey(f, t) := rs]
  }

  /** If the index was right but for the question (f, t0), where t0 is no normal type or is the rebuilt one,
      rebuilding (f, t) makes it right. */
  lemma RebuildFixes(byKey: map<string, seq<Record>>, m: Domains, known: set<string>, f: string, t0: string, t: string,
                     rs: seq<Record>)
    requires GoodTypes(known) && Question(f, t, known) && IndexedBut(byKey, m, known, f, t0)
    requires NormalType(t0, known) ==> t0 == t
    requires Lists(rs, Answers(m, f, t))
    ensures Indexed(Rebuilt(byKey, f, t, rs), m, known)
  {
    var next := Rebuilt(byKey, f, t, rs);
    forall g, u | Question(g, u, known) ensures Correct(next, m, g, u) {
      if g == f && u == t {
        RebuiltCorrect(byKey, m, f, t, rs);
      } else {
        KeyInjective(f, t, g, u, known);
        RebuiltOther(byKey, m, f, t, rs, g, u);
      }
    }
    KeyIsKey(f, t, known);
    RebuiltKeys(byKey, known, f, t, rs);
  }

  lemma RebuiltOther(byKey: map<string, seq<Record>>, m: Domains, f: string, t: string, rs: seq<Record>, g: string,
                     u: string)
    requires CacheKey(g, u) != CacheKey(f, t) && Correct(byKey, m, g, u)
    ensures Correct(Rebuilt(byKey, f, t, rs), m, g, u)
  {
  }

  lemma KeyIsKey(f: string, t: string, known: set<string>)
    requires Question(f, t, known)
    ensures IsKey(CacheKey(f, t), known)
  {
  }

  lemma RebuiltKeys(byKey: map<string, seq<Record>>, known: set<string>, f: string, t: string, rs: seq<Record>)
    requires IsKey(CacheKey(f, t), known) && forall key :: key in byKey ==> IsKey(key, known)
    ensures forall key :: key in Rebuilt(byKey, f, t, rs) ==> IsKey(key, known)
  {
  }

  lemma RebuiltCorrect(byKey: map<string, seq<Record>>, m: Domains, f: string, t: string, rs: seq<Record>)
    requires Lists(rs, Answers(m, f, t))
    ensures Correct(Rebuilt(byKey, f, t, rs), m, f, t)
  {
    if rs != [] {
      assert rs[0] in Answers(m, f, t);
    }
  }

  // ---- Collecting ---------------------------------------------------------------------------------------

  ghost function AnswersIn(m: Domains, done: set<string>, f: string, t: string): set<Record> {
    set d, id | d in m && d in done && id in m[d] && Matches(m[d][id], f, t) :: m[d][id]
  }

  ghost function AnswersOf(rows: map<string, Record>, done: set<string>, f: string, t: string): set<Record> {
    set id | id in rows && id in done && Matches(rows[id], f, t) :: rows[id]
  }

  lemma ListMore(rs: seq<Record>, a: set<Record>, r: Record)
    requires Lists(rs, a) && r !in a
    ensures Lists(rs + [r], a + {r})
  {
  }

  /** The matching records of one domain, appended. */
  method CollectDomain(rows: map<string, Record>, f: string, t: string, before: seq<Record>, ghost a: set<Record>)
    returns (rs: seq<Record>)
    requires Lists(before, a) && forall id :: id in rows ==> rows[id].id == id && rows[id] !in a
    ensures Lists(rs, a + AnswersOf(rows, rows.Keys, f, t))
  {
    rs := before;
    var todo := rows.Keys;
    ghost var done: set<string> := {};
    while todo != {}
      invariant todo !! done && todo + done == rows.Keys && Lists(rs, a + AnswersOf(rows, done, f, t))
      decreases todo
    {
      var id :| id in todo;
      if Matches(rows[id], f, t) {
        ListMore(rs, a + AnswersOf(rows, done, f, t), rows[id]);
        assert a + AnswersOf(rows, done + {id}, f, t) == a + AnswersOf(rows, done, f, t) + {rows[id]};
        rs := rs + [rows[id]];
      } else {
        assert AnswersOf(rows, done + {id}, f, t) == AnswersOf(rows, done, f, t);
      }
      todo, done := todo - {id}, done + {id};
    }
    assert done == rows.Keys;
  }

  lemma NextDomain(m: Domains, done: set<string>, d: string, f: string, t: string)
    requires Placed(m) && d in m && d !in done
    ensures AnswersIn(m, done + {d}, f, t) == AnswersIn(m, done, f, t) + AnswersOf(m[d], m[d].Keys, f, t)
    ensures forall id :: id in m[d] ==> m[d][id].id == id && m[d][id] !in AnswersIn(m, done, f, t)
  {
    forall id | id in m[d] ensures m[d][id].id == id && m[d][id] !in AnswersIn(m, done, f, t) {
      assert Has(m, d, id);
      if m[d][id] in AnswersIn(m, done, f, t) {
        var e, i :| e in m && e in done && i in m[e] && Matches(m[e][i], f, t) && m[e][i] == m[d][id];
        assert Has(m, e, i);
      }
    }
  }

  /** The nested walk over all domains and records. */
  method Collect(m: Domains, f: string, t: string) returns (rs: seq<Record>)
    requires Placed(m)
    ensures Lists(rs, Answers(m, f, t))
  {
    rs := [];
    var todo := m.Keys;
    ghost var done: set<string> := {};
    while todo != {}
      invariant todo !! done && todo + done == m.Keys && Lists(rs, AnswersIn(m, done, f, t))
      decreases todo
    {
      var d :| d in todo;
      NextDomain(m, done, d, f, t);
      rs := CollectDomain(m[d], f, t, rs, AnswersIn(m, done, f, t));
      todo, done := todo - {d}, done + {d};
    }
    assert done == m.Keys && AnswersIn(m, done, f, t) == Answers(m, f, t);
  }

  /** Recomputes the answer of one normalised question. */
  method RebuildNormal(byKey: map<string, seq<Record>>, m: Domains, ghost known: set<string>, f: string, t: string,
                       ghost t0: string)
    returns (next: map<string, seq<Record>>)
    requires GoodTypes(known) && Placed(m) && Question(f, t, known)
    requires IndexedBut(byKey, m, known, f, t0) && (NormalType(t0, known) ==> t0 == t)
    ensures Indexed(next, m, known)
  {
    var rs := Collect(m, f, t);
    RebuildFixes(byKey, m, known, f, t0, t, rs);
    if |rs| == 0 {
      next := byKey - {CacheKey(f, t)};
    } else {
      next := byKey[CacheKey(f, t) := rs];
    }
    assert next == Rebuilt(byKey, f, t, rs);
  }

  method RebuildAny(byKey: map<string, seq<Record>>, m: Domains, known: set<string>, fqdn: string, recordType: string)
    returns (next: map<string, seq<Record>>)
    requires GoodTypes(known) && Placed(m) && NormalFqdn(fqdn) && IndexedBut(byKey, m, known, fqdn, recordType)
    ensures Indexed(next, m, known)
  {
    TypeIdempotent(recordType, known);
    next := RebuildNormal(byKey, m, known, NormalizeFqdn(fqdn), NormalizeType(recordType, known), recordType);
  }

  // ---- The store ----------------------------------------------------------------------------------------

  datatype Failure = UnknownDomain | UnknownRecord | Rejected

  datatype Outcome = Done(record: Record) | Failed(failure: Failure)

  /** A modification: both error cases, a refused change, which has already removed the record, and an accepted one. */
  ghost predicate Modified(before: Domains, d: string, id: string, change: Record -> Option<Record>, r: Outcome,
                           after: Domains) {
    if d !in before then r == Failed(UnknownDomain) && after == before
    else if id !in before[d] then r == Failed(UnknownRecord) && after == before
    else
      var rest := Drop(before, d, id);
      match change(before[d][id])
      case None => r == Failed(Rejected) && after == rest
      case Some(next) => r == Done(next) && after == Put(rest, next.(fqdn := NormalizeFqdn(next.fqdn)))
  }

  /** A deletion: both error cases, and the removal, which takes an emptied domain's entry along. */
  ghost predicate WasDeleted(before: Domains, d: string, id: string, r: Outcome, after: Domains) {
    if d !in before then r == Failed(UnknownDomain) && after == before
    else if id !in before[d] then r == Failed(UnknownRecord) && after == before
    else r == Done(before[d][id]) && after == Tidy(Drop(before, d, id), d)
  }

  ghost predicate Stored(m: Domains, r: Record) { exists d, id :: d in m && id in m[d] && m[d][id] == r }

  /** The answer to a question: the enabled stored records with its normalised name and type, each once. */
  ghost predicate IsAnswer(records: seq<Record>, found: bool, m: Domains, fqdn: string, recordType: string,
                           known: set<string>) {
    && (forall r :: r in records <==>
          && Stored(m, r) && r.enabled && r.fqdn == NormalizeFqdn(fqdn)
          && r.recordType == NormalizeType(recordType, known))
    && (forall i, j :: 0 <= i < j < |records| ==> records[i] != records[j])
    && (found <==> records != [])
  }

  lemma ListedIsAnswer(records: seq<Record>, m: Domains, fqdn: string, recordType: string, known: set<string>)
    requires Lists(records, Answers(m, NormalizeFqdn(fqdn), NormalizeType(recordType, known)))
    ensures IsAnswer(records, records != [], m, fqdn, recordType, known)
  {
    var f, t := NormalizeFqdn(fqdn), NormalizeType(recordType, known);
    forall r ensures r in records <==> Stored(m, r) && r.enabled && r.fqdn == f && r.recordType == t {
      AnswersAre(m, f, t, r);
    }
  }

  lemma AnswersAre(m: Domains, f: string, t: string, r: Record)
    ensures r in Answers(m, f, t) <==> Stored(m, r) && r.enabled && r.fqdn == f && r.recordType == t
  {
    if Stored(m, r) {
      var d, id :| d in m && id in m[d] && m[d][id] == r;
      assert r.enabled && r.fqdn == f && r.recordType == t ==> m[d][id] in Answers(m, f, t);
    }
  }

  /** A stored record takes the place of the one with its name and id, and of no other. */
  lemma PutStores(m: Domains, r: Record, x: Record)
    requires Placed(m)
    ensures Stored(Put(m, r), x) <==> x == r || (Stored(m, x) && !(x.fqdn == r.fqdn && x.id == r.id))
  {
    var n := Put(m, r);
    assert r.fqdn in n && r.id in n[r.fqdn] && n[r.fqdn][r.id] == r;
    if Stored(m, x) && !(x.fqdn == r.fqdn && x.id == r.id) {
      var d, id :| d in m && id in m[d] && m[d][id] == x;
      assert Has(m, d, id);
      assert d in n && id in n[d] && n[d][id] == x;
    }
    if Stored(n, x) && x != r {
      var d, id :| d in n && id in n[d] && n[d][id] == x;
      assert Has(m, d, id) && m[d][id] == x;
    }
  }

  lemma DropRemoves(m: Domains, d0: string, id0: string, x: Record)
    requires Placed(m)
    ensures Stored(Drop(m, d0, id0), x) <==> Stored(m, x) && !(x.fqdn == d0 && x.id == id0)
    ensures Stored(Tidy(m, d0), x) <==> Stored(m, x)
    ensures d0 in Tidy(m, d0) ==> Tidy(m, d0)[d0] != map[]
  {
    var n := Drop(m, d0, id0);
    if Stored(m, x) {
      var d, id :| d in m && id in m[d] && m[d][id] == x;
      assert Has(m, d, id);
      assert !(d == d0 && id == id0) ==> d in n && id in n[d] && n[d][id] == x;
      assert d in Tidy(m, d0) && id in Tidy(m, d0)[d];
    }
    if Stored(n, x) {
      var d, id :| d in n && id in n[d] && n[d][id] == x;
      assert Has(m, d, id) && m[d][id] == x;
    }
  }

  lemma NormalizedIs(r: Record)
    ensures var n := Normalized(r);
            && n.fqdn == NormalizeFqdn(r.fqdn) && n.id == r.id && n.recordType == r.recordType
            && n.enabled == r.enabled && n.body == r.body
  {
  }

  class MemoryStore {
    const known: set<string>
    var byKey: map<string, seq<Record>>
    var byDomain: Domains

    /** The index answers every normalised question exactly. */
    ghost predicate Valid() reads this {
      GoodTypes(known) && Placed(byDomain) && NormalNames(byDomain) && Indexed(byKey, byDomain, known)
    }

    constructor (types: set<string>)
      requires GoodTypes(types)
      ensures Valid() && known == types && byDomain == map[]
    {
      known := types;
      byKey, byDomain := map[], map[];
    }

    /** Lookup of any question: the enabled stored records with its normalised name and type. */
    method Lookup(fqdn: string, recordType: string) returns (records: seq<Record>, ok: bool)
      requires Valid()
      ensures IsAnswer(records, ok, byDomain, fqdn, recordType, known)
    {
      var f, t := NormalizeFqdn(fqdn), NormalizeType(recordType, known);
      FqdnIdempotent(fqdn);
      TypeIdempotent(recordType, known);
      assert Correct(byKey, byDomain, f, t);
      var key := CacheKey(f, t);
      if key !in byKey {
        ListedIsAnswer([], byDomain, fqdn, recordType, known);
        return [], false;
      }
      ListedIsAnswer(byKey[key], byDomain, fqdn, recordType, known);
      return byKey[key], true;
    }

    method RebuildQuestion(fqdn: string, recordType: string)
      requires GoodTypes(known) && Placed(byDomain)
      requires NormalFqdn(fqdn) && IndexedBut(byKey, byDomain, known, fqdn, recordType)
      modifies this`byKey
      ensures Indexed(byKey, byDomain, known)
    {
      byKey := RebuildAny(byKey, byDomain, known, fqdn, recordType);
    }

    method Remove(d: string, id: string)
      requires Valid() && Has(byDomain, d, id)
      modifies this
      ensures Valid() && byDomain == Drop(old(byDomain), d, id)
    {
      var r := byDomain[d][id];
      DropIndexed(byKey, byDomain, known, d, id);
      DropPlaced(byDomain, d, id);
      SameNames(byDomain, Drop(byDomain, d, id));
      byDomain := byDomain[d := byDomain[d] - {id}];
      RebuildQuestion(r.fqdn, r.recordType);
    }

    method Upsert(record: Record)
      requires Valid()
      modifies this
      ensures Valid() && byDomain == Put(old(byDomain), record.(fqdn := NormalizeFqdn(record.fqdn)))
    {
      var r := record.(fqdn := NormalizeFqdn(record.fqdn));
      FqdnIdempotent(record.fqdn);
      if r.fqdn in byDomain && r.id in byDomain[r.fqdn] {
        PutAfterDrop(byDomain, r);
        Remove(r.fqdn, r.id);
      }
      PutIndexed(byKey, byDomain, known, r);
      PutPlaced(byDomain, r);
      byDomain := Put(byDomain, r);
      RebuildQuestion(r.fqdn, r.recordType);
    }

    method Add(record: Record) returns (records: seq<Record>, ok: bool)
      requires Valid()
      modifies this
      ensures Valid() && byDomain == Put(old(byDomain), record.(fqdn := NormalizeFqdn(record.fqdn)))
      ensures IsAnswer(records, ok, byDomain, record.fqdn, record.recordType, known)
    {
      Upsert(record);
      records, ok := Lookup(record.fqdn, record.recordType);
    }

    /** On success the present answer to the new record's question comes with it. */
    method Modify(domainId: string, recordId: string, change: Record -> Option<Record>)
      returns (r: Outcome, records: seq<Record>, found: bool)
      requires Valid()
      modifies this
      ensures Valid() && Modified(old(byDomain), domainId, recordId, change, r, byDomain)
      ensures r.Done? ==> IsAnswer(records, found, byDomain, r.record.fqdn, r.record.recordType, known)
    {
      r := Change(domainId, recordId, change);
      records, found := [], false;
      if r.Done? {
        records, found := Lookup(r.record.fqdn, r.record.recordType);
      }
    }

    method Change(domainId: string, recordId: string, change: Record -> Option<Record>) returns (r: Outcome)
      requires Valid()
      modifies this
      ensures Valid() && Modified(old(byDomain), domainId, recordId, change, r, byDomain)
    {
      if domainId !in byDomain {
        return Failed(UnknownDomain);
      }
      if recordId !in byDomain[domainId] {
        return Failed(UnknownRecord);
      }
      var record := byDomain[domainId][recordId];
      Remove(domainId, recordId);
      var next := change(record);
      if next.None? {
        return Failed(Rejected);
      }
      Upsert(next.value);
      return Done(next.value);
    }

    method DropDomain(d: string)
      requires Valid() && d in byDomain && byDomain[d] == map[]
      modifies this`byDomain
      ensures Valid() && byDomain == old(byDomain) - {d}
    {
      TidyIndexed(byKey, byDomain, known, d);
      byDomain := byDomain - {d};
    }

    /** On success the present answer to the gone record's question comes with it. */
    method Delete(domainId: string, recordId: string) returns (r: Outcome, records: seq<Record>, found: bool)
      requires Valid()
      modifies this
      ensures Valid() && WasDeleted(old(byDomain), domainId, recordId, r, byDomain)
      ensures r.Done? ==> IsAnswer(records, found, byDomain, r.record.fqdn, r.record.recordType, known)
    {
      r := Take(domainId, recordId);
      records, found := [], false;
      if r.Done? {
        records, found := Lookup(r.record.fqdn, r.record.recordType);
      }
    }

    method Take(domainId: string, recordId: string) returns (r: Outcome)
      requires Valid()
      modifies this
      ensures Valid() && WasDeleted(old(byDomain), domainId, recordId, r, byDomain)
    {
      if domainId !in byDomain {
        return Failed(UnknownDomain);
      }
      if recordId !in byDomain[domainId] {
        return Failed(UnknownRecord);
      }
      var record := byDomain[domainId][recordId];
      Remove(domainId, recordId);
      if byDomain[domainId] == map[] {
        DropDomain(domainId);
      }
      return Done(record);
    }

    method RefreshQuestion(fqdn: string, recordType: string)
      requires Valid()
      modifies this
      ensures Valid() && byDomain == old(byDomain)
    {
      FqdnIdempotent(fqdn);
      RebuildQuestion(NormalizeFqdn(fqdn), NormalizeType(recordType, known));
    }

    method Clear()
      requires Valid()
      modifies this
      ensures Valid() && byDomain == map[]
    {
      byKey, byDomain := map[], map[];
    }

    method Restore(records: seq<Record>)
      requires Valid()
      modifies this
      ensures Valid() && byDomain == PutAll(map[], records)
    {
      byKey, byDomain := map[], map[];
      for i := 0 to |records|
        invariant Valid() && byDomain == PutAll(map[], records[..i])
      {
        assert records[..i + 1][..i] == records[..i];
        Upsert(records[i]);
      }
      assert records[..|records|] == records;
    }
  }

  function PutAll(m: Domains, records: seq<Record>): Domains {
    if records == [] then m
    else
      var r := records[|records| - 1];
      Put(PutAll(m, records[..|records| - 1]), r.(fqdn := NormalizeFqdn(r.fqdn)))
  }

  /** The store without an emptied domain. */
  function Tidy(m: Domains, d: string): Domains {
    if d in m && m[d] == map[] then m - {d} else m
  }

  lemma TidyAnswers(m: Domains, d: string, f: string, t: string)
    requires d in m && m[d] == map[]
    ensures Answers(m - {d}, f, t) == Answers(m, f, t)
  {
    var n := m - {d};
    forall x ensures x in Answers(n, f, t) <==> x in Answers(m, f, t) {
      if x in Answers(m, f, t) {
        var e, id :| e in m && id in m[e] && Matches(m[e][id], f, t) && m[e][id] == x;
        assert e in n && id in n[e];
      }
    }
  }

  lemma TidyIndexed(byKey: map<string, seq<Record>>, m: Domains, known: set<string>, d: string)
    requires Indexed(byKey, m, known) && Placed(m) && NormalNames(m) && d in m && m[d] == map[]
    ensures Indexed(byKey, m - {d}, known) && Placed(m - {d}) && NormalNames(m - {d})
  {
    var n := m - {d};
    forall f, t | Question(f, t, known) ensures Correct(byKey, n, f, t) {
      TidyAnswers(m, d, f, t);
      assert Correct(byKey, m, f, t);
    }
    forall e, i | Has(n, e, i) ensures n[e][i].fqdn == e && n[e][i].id == i {
      assert Has(m, e, i);
    }
    SameNames(m, n);
  }

  lemma DropPlaced(m: Domains, d: string, id: string)
    requires Placed(m) && Has(m, d, id)
    ensures Placed(Drop(m, d, id)) && Drop(m, d, id).Keys == m.Keys
  {
    var n := Drop(m, d, id);
    forall e, i | Has(n, e, i) ensures n[e][i].fqdn == e && n[e][i].id == i {
      assert Has(m, e, i);
    }
  }

  lemma SameNames(m: Domains, n: Domains)
    requires NormalNames(m) && n.Keys <= m.Keys
    ensures NormalNames(n)
  {
  }

  lemma PutPlaced(m: Domains, r: Record)
    requires Placed(m) && NormalNames(m) && NormalFqdn(r.fqdn)
    ensures Placed(Put(m, r)) && NormalNames(Put(m, r))
  {
    var n := Put(m, r);
    forall e, i | Has(n, e, i) ensures n[e][i].fqdn == e && n[e][i].id == i {
      if !(e == r.fqdn && i == r.id) {
        assert Has(m, e, i);
      }
    }
  }

  lemma PutAfterDrop(m: Domains, r: Record)
    requires Has(m, r.fqdn, r.id)
    ensures Put(Drop(m, r.fqdn, r.id), r) == Put(m, r)
  {
    var n := Drop(m, r.fqdn, r.id);
    assert n[r.fqdn][r.id := r] == m[r.fqdn][r.id := r];
  }

  // ---- Every sequence of operations ---------------------------------------------------------------------

  datatype Op =
    | RestoreAll(records: seq<Record>)
    | AddRecord(record: Record)
    | ModifyRecord(domainId: string, recordId: string, change: Record -> Option<Record>)
    | DeleteRecord(domainId: string, recordId: string)
    | Refresh(fqdn: string, recordType: string)
    | ClearAll

  function Normalized(r: Record): Record { r.(fqdn := NormalizeFqdn(r.fqdn)) }

  /** What an operation does to the stored records. */
  function Effect(m: Domains, op: Op): Domains {
    match op
    case RestoreAll(records) => PutAll(map[], records)
    case AddRecord(r) => Put(m, Normalized(r))
    case ModifyRecord(d, id, change) =>
      if !(d in m && id in m[d]) then m
      else
        var next := change(m[d][id]);
        if next.None? then Drop(m, d, id) else Put(Drop(m, d, id), Normalized(next.value))
    case DeleteRecord(d, id) => if d in m && id in m[d] then Tidy(Drop(m, d, id), d) else m
    case Refresh(_, _) => m
    case ClearAll => map[]
  }

  function Effects(ops: seq<Op>): Domains {
    if ops == [] then map[] else Effect(Effects(ops[..|ops| - 1]), ops[|ops| - 1])
  }

  /** The records `x` stored after an operation: the new one in normal form, and the old ones it does not replace. */
  ghost predicate StoredAfter(m: Domains, op: Op, x: Record) {
    match op
    case RestoreAll(records) => IsLastOf(NormalAll(records), x)
    case AddRecord(r) => x == Normalized(r) || (Stored(m, x) && !SamePlace(x, Normalized(r)))
    case ModifyRecord(d, id, change) =>
      if !Has(m, d, id) then Stored(m, x)
      else
        var kept, next := Stored(m, x) && !(x.fqdn == d && x.id == id), change(m[d][id]);
        if next.None? then kept else x == Normalized(next.value) || (kept && !SamePlace(x, Normalized(next.value)))
    case DeleteRecord(d, id) => Stored(m, x) && !(x.fqdn == d && x.id == id)
    case Refresh(_, _) => Stored(m, x)
    case ClearAll => false
  }

  predicate SamePlace(a: Record, b: Record) { a.fqdn == b.fqdn && a.id == b.id }

  function NormalAll(records: seq<Record>): (r: seq<Record>)
    ensures |r| == |records| && forall i :: 0 <= i < |records| ==> r[i] == Normalized(records[i])
  {
    seq(|records|, i requires 0 <= i < |records| => Normalized(records[i]))
  }

  /** The last of the records with its name and id. */
  ghost predicate IsLastOf(records: seq<Record>, x: Record) {
    exists i :: 0 <= i < |records| && x == records[i] && forall j :: i < j < |records| ==> !SamePlace(x, records[j])
  }

  /** Stores records that are in normal form, one after another. */
  function PutEach(m: Domains, ns: seq<Record>): Domains {
    if ns == [] then m else Put(PutEach(m, ns[..|ns| - 1]), ns[|ns| - 1])
  }

  lemma {:induction false} PutEachStores(ns: seq<Record>, x: Record)
    ensures Placed(PutEach(map[], ns))
    ensures Stored(PutEach(map[], ns), x) <==> IsLastOf(ns, x)
  {
    if ns != [] {
      var init, r := ns[..|ns| - 1], ns[|ns| - 1];
      PutEachStores(init, x);
      PutKeepsPlaces(PutEach(map[], init), r);
      PutStores(PutEach(map[], init), r, x);
      LastOfMore(init, r, x);
      assert ns == init + [r];
    }
  }

  lemma PutKeepsPlaces(m: Domains, r: Record)
    requires Placed(m)
    ensures Placed(Put(m, r))
  {
    var n := Put(m, r);
    forall e, i | Has(n, e, i) ensures n[e][i].fqdn == e && n[e][i].id == i {
      if !(e == r.fqdn && i == r.id) {
        assert Has(m, e, i);
      }
    }
  }

  lemma {:induction false} PutAllIs(records: seq<Record>, ns: seq<Record>)
    requires |ns| == |records| && forall i :: 0 <= i < |ns| ==> ns[i] == Normalized(records[i])
    ensures PutAll(map[], records) == PutEach(map[], ns)
  {
    if records != [] {
      PutAllIs(records[..|records| - 1], ns[..|ns| - 1]);
    }
  }

  lemma LastOfMore(init: seq<Record>, r: Record, x: Record)
    ensures IsLastOf(init + [r], x) <==> x == r || (IsLastOf(init, x) && !SamePlace(x, r))
  {
    var all := init + [r];
    if x == r {
      assert all[|init|] == r;
    }
    if IsLastOf(init, x) && !SamePlace(x, r) {
      var i :| 0 <= i < |init| && x == init[i] && forall j :: i < j < |init| ==> !SamePlace(x, init[j]);
      assert all[i] == init[i];
    }
    if IsLastOf(all, x) && x != r {
      var i :| 0 <= i < |all| && x == all[i] && forall j :: i < j < |all| ==> !SamePlace(x, all[j]);
      assert all[|init|] == r && all[i] == init[i];
      forall j | i < j < |init| ensures !SamePlace(x, init[j]) {
        assert all[j] == init[j];
      }
    }
  }

  /** Every operation stores exactly those records. */
  lemma EffectIs(m: Domains, op: Op, x: Record)
    requires Placed(m)
    ensures Stored(Effect(m, op), x) <==> StoredAfter(m, op, x)
  {
    match op
    case RestoreAll(records) =>
      PutAllIs(records, NormalAll(records));
      PutEachStores(NormalAll(records), x);
    case AddRecord(r) => PutStores(m, Normalized(r), x);
    case ModifyRecord(d, id, change) => if Has(m, d, id) { ModifyIs(m, d, id, change, x); }
    case DeleteRecord(d, id) => DeleteIs(m, d, id, x);
    case Refresh(_, _) =>
    case ClearAll =>
  }

  lemma ModifyIs(m: Domains, d: string, id: string, change: Record -> Option<Record>, x: Record)
    requires Placed(m) && Has(m, d, id)
    ensures Stored(Effect(m, ModifyRecord(d, id, change)), x) <==> StoredAfter(m, ModifyRecord(d, id, change), x)
  {
    DropPlaced(m, d, id);
    DropRemoves(m, d, id, x);
    if change(m[d][id]).Some? {
      PutStores(Drop(m, d, id), Normalized(change(m[d][id]).value), x);
    }
  }

  lemma DeleteIs(m: Domains, d: string, id: string, x: Record)
    requires Placed(m)
    ensures Stored(Effect(m, DeleteRecord(d, id)), x) <==> Stored(m, x) && !(x.fqdn == d && x.id == id)
  {
    if Has(m, d, id) {
      DropPlaced(m, d, id);
      DropRemoves(m, d, id, x);
      DropRemoves(Drop(m, d, id), d, id, x);
    } else if Stored(m, x) {
      var e, i :| e in m && i in m[e] && m[e][i] == x;
      assert Has(m, e, i);
    }
  }

  method Perform(s: MemoryStore, op: Op)
    requires s.Valid()
    modifies s
    ensures s.Valid() && s.byDomain == Effect(old(s.byDomain), op)
  {
    match op
    case RestoreAll(records) => s.Restore(records);
    case AddRecord(r) => var _, _ := s.Add(r);
    case ModifyRecord(d, id, change) => var _, _, _ := s.Modify(d, id, change);
    case DeleteRecord(d, id) => var _, _, _ := s.Delete(d, id);
    case Refresh(f, t) => s.RefreshQuestion(f, t);
    case ClearAll => s.Clear();
  }

  /** After any operations, a lookup of any question returns exactly the enabled stored records with its
      normalised name and type, each once, and reports a hit exactly when there is one. */
  method LookupAfter(types: set<string>, ops: seq<Op>, fqdn: string, recordType: string)
    returns (records: seq<Record>, ok: bool)
    requires GoodTypes(types)
    ensures IsAnswer(records, ok, Effects(ops), fqdn, recordType, types)
  {
    var s := new MemoryStore(types);
    for i := 0 to |ops|
      invariant s.Valid() && s.known == types && s.byDomain == Effects(ops[..i]) && fresh(s)
    {
      assert ops[..i + 1][..i] == ops[..i];
      Perform(s, ops[i]);
    }
    assert ops[..|ops|] == ops;
    records, ok := s.Lookup(fqdn, recordType);
  }
}
