/** The certificate cache: a list from most to least recently touched, and an index into it. */
module Lru {
  import opened Options

  type Cert = string

  datatype Entry = Entry(key: string, value: Cert)

  // ---- As a list ----------------------------------------------------------------------------------------

  function Without(items: seq<Entry>, k: string): seq<Entry> {
    if items == [] then []
    else (if items[0].key == k then [] else [items[0]]) + Without(items[1..], k)
  }

  function Find(items: seq<Entry>, k: string): Option<Cert> {
    if items == [] then None else if items[0].key == k then Some(items[0].value) else Find(items[1..], k)
  }

  function Touch(items: seq<Entry>, k: string, v: Cert): seq<Entry> { [Entry(k, v)] + Without(items, k) }

  function Cut(items: seq<Entry>, capacity: nat): seq<Entry> {
    if |items| > capacity then items[..capacity] else items
  }

  /** A hit moves the entry to the front. */
  function AfterGet(items: seq<Entry>, k: string): seq<Entry> {
    match Find(items, k) case Some(v) => Touch(items, k, v) case None => items
  }

  /** A new key goes to the front and may push the last entry out; a known key is moved and overwritten. */
  function AfterAdd(items: seq<Entry>, capacity: nat, k: string, v: Cert): seq<Entry> {
    if Find(items, k).Some? then Touch(items, k, v)
    else if |items| + 1 > capacity then ([Entry(k, v)] + items)[..|items|] else [Entry(k, v)] + items
  }

  predicate DistinctKeys(items: seq<Entry>) {
    forall i, j :: 0 <= i < j < |items| ==> items[i].key != items[j].key
  }

  lemma {:induction false} WithoutHas(items: seq<Entry>, k: string, e: Entry)
    ensures e in Without(items, k) <==> e in items && e.key != k
  {
    if items != [] {
      WithoutHas(items[1..], k, e);
      assert items == [items[0]] + items[1..];
    }
  }

  lemma {:induction false} FindIs(items: seq<Entry>, k: string)
    ensures Find(items, k).Some? <==> exists i :: 0 <= i < |items| && items[i].key == k
    ensures Find(items, k).Some? ==> Entry(k, Find(items, k).value) in items
  {
    if items != [] {
      FindIs(items[1..], k);
      if i :| 0 <= i < |items| && items[i].key == k {
        assert i > 0 ==> items[1..][i - 1].key == k;
      }
      if j :| 0 <= j < |items[1..]| && items[1..][j].key == k {
        assert items[j + 1].key == k;
      }
    }
  }

  lemma {:induction false} WithoutConcat(a: seq<Entry>, b: seq<Entry>, k: string)
    ensures Without(a + b, k) == Without(a, k) + Without(b, k)
  {
    if a == [] {
      assert a + b == b;
    } else {
      assert (a + b)[1..] == a[1..] + b;
      WithoutConcat(a[1..], b, k);
    }
  }

  predicate Lacks(items: seq<Entry>, k: string) { forall i :: 0 <= i < |items| ==> items[i].key != k }

  lemma WithoutMiddle(a: seq<Entry>, e: Entry, b: seq<Entry>)
    requires Lacks(a, e.key) && Lacks(b, e.key)
    ensures Without(a + ([e] + b), e.key) == a + b
  {
    WithoutConcat(a, [e] + b, e.key);
    WithoutAbsent(a, e.key);
    WithoutAbsent(b, e.key);
    assert ([e] + b)[1..] == b;
  }

  /** A list with distinct keys, taken apart around one of them. */
  lemma Around(items: seq<Entry>, k: string) returns (a: seq<Entry>, e: Entry, b: seq<Entry>)
    requires DistinctKeys(items) && Find(items, k).Some?
    ensures items == a + ([e] + b) && e.key == k && Lacks(a, k) && Lacks(b, k)
  {
    FindIs(items, k);
    var i :| 0 <= i < |items| && items[i].key == k;
    a, e, b := items[..i], items[i], items[i + 1..];
    Apart(items, i);
  }

  lemma Apart(items: seq<Entry>, i: nat)
    requires DistinctKeys(items) && i < |items|
    ensures items == items[..i] + ([items[i]] + items[i + 1..])
    ensures Lacks(items[..i], items[i].key) && Lacks(items[i + 1..], items[i].key)
  {
  }

  lemma {:induction false} WithoutAbsent(items: seq<Entry>, k: string)
    requires forall i :: 0 <= i < |items| ==> items[i].key != k
    ensures Without(items, k) == items
  {
    if items != [] {
      WithoutAbsent(items[1..], k);
    }
  }

  // ---- Histories ----------------------------------------------------------------------------------------

  datatype Op = Add(key: string, value: Cert) | Get(key: string)

  function Apply(items: seq<Entry>, capacity: nat, op: Op): seq<Entry> {
    match op
    case Add(k, v) => AfterAdd(items, capacity, k, v)
    case Get(k) => AfterGet(items, k)
  }

  function Run(capacity: nat, ops: seq<Op>): seq<Entry> {
    if ops == [] then [] else Apply(Run(capacity, ops[..|ops| - 1]), capacity, ops[|ops| - 1])
  }

  /** An operation touches its key: every add, and a get that hits. */
  predicate Touches(items: seq<Entry>, op: Op) { op.Add? || Find(items, op.key).Some? }

  /** One more than the index of the last operation that touched `k`, or 0. */
  function LastTouch(capacity: nat, ops: seq<Op>, k: string): nat {
    if ops == [] then 0
    else
      var init, op := ops[..|ops| - 1], ops[|ops| - 1];
      if op.key == k && Touches(Run(capacity, init), op) then |ops| else LastTouch(capacity, init, k)
  }

  /** The value of the last add of `k`. */
  function LastValue(ops: seq<Op>, k: string): Option<Cert> {
    if ops == [] then None
    else
      var op := ops[|ops| - 1];
      if op.Add? && op.key == k then Some(op.value) else LastValue(ops[..|ops| - 1], k)
  }

  /** Every key ever touched, most recently touched first, as a cache without eviction would hold them. */
  function Recency(capacity: nat, ops: seq<Op>): seq<Entry> {
    if ops == [] then []
    else
      var init, op := ops[..|ops| - 1], ops[|ops| - 1];
      var all := Recency(capacity, init);
      match op
      case Add(k, v) => Touch(all, k, v)
      case Get(k) => match Find(Run(capacity, init), k) case Some(v) => Touch(all, k, v) case None => all
  }

  ghost predicate Ranks(capacity: nat, ops: seq<Op>, all: seq<Entry>) {
    && (forall i, j :: 0 <= i < j < |all| ==>
          LastTouch(capacity, ops, all[i].key) > LastTouch(capacity, ops, all[j].key))
    && (forall i :: 0 <= i < |all| ==>
          LastTouch(capacity, ops, all[i].key) > 0 && LastValue(ops, all[i].key) == Some(all[i].value))
    && (forall k :: LastTouch(capacity, ops, k) > 0 ==> exists i :: 0 <= i < |all| && all[i].key == k)
  }

  lemma TouchDistinct(all: seq<Entry>, k: string, v: Cert)
    requires DistinctKeys(all)
    ensures DistinctKeys(Touch(all, k, v))
  {
    WithoutDistinct(all, k);
  }

  lemma WithoutDistinct(all: seq<Entry>, k: string)
    requires DistinctKeys(all)
    ensures DistinctKeys(Without(all, k)) && Lacks(Without(all, k), k)
  {
    if Find(all, k).Some? {
      var a, e, b := Around(all, k);
      WithoutMiddle(a, e, b);
      DropDistinct(a, e, b);
    } else {
      FindIs(all, k);
      WithoutAbsent(all, k);
    }
  }

  lemma DropDistinct(a: seq<Entry>, e: Entry, b: seq<Entry>)
    requires DistinctKeys(a + ([e] + b))
    ensures DistinctKeys(a + b)
  {
    var all, r := a + ([e] + b), a + b;
    forall i, j | 0 <= i < j < |r| ensures r[i].key != r[j].key {
      assert r[i] == all[if i < |a| then i else i + 1];
      assert r[j] == all[if j < |a| then j else j + 1];
    }
  }

  lemma CutMiddle(a: seq<Entry>, e: Entry, b: seq<Entry>, n: Entry, capacity: nat)
    requires |a| < capacity < |a| + 1 + |b|
    ensures (a + ([e] + b))[..capacity] == a + ([e] + b[..capacity - |a| - 1])
    ensures ([n] + (a + b))[..capacity] == [n] + (a + b[..capacity - |a| - 1])
  {
  }

  lemma CutFind(all: seq<Entry>, capacity: nat, a: seq<Entry>, e: Entry, b: seq<Entry>)
    requires all == a + ([e] + b) && Lacks(a, e.key) && Lacks(b, e.key)
    ensures Find(Cut(all, capacity), e.key).Some? <==> |a| < capacity
  {
    var items := Cut(all, capacity);
    FindIs(items, e.key);
    if |a| < capacity {
      assert items[|a|] == e;
    } else {
      assert forall i :: 0 <= i < |items| ==> items[i] == a[i];
    }
  }

  lemma {:induction false} FrontFound(all: seq<Entry>, capacity: nat, k: string)
    requires Find(Cut(all, capacity), k).Some?
    ensures Find(all, k).Some?
  {
    FindIs(Cut(all, capacity), k);
    FindIs(all, k);
    var i :| 0 <= i < |Cut(all, capacity)| && Cut(all, capacity)[i].key == k;
    assert all[i].key == k;
  }

  /** Touching a cached key commutes with cutting. */
  lemma TouchCut(all: seq<Entry>, capacity: nat, k: string, v: Cert)
    requires DistinctKeys(all) && Find(Cut(all, capacity), k).Some?
    ensures Touch(Cut(all, capacity), k, v) == Cut(Touch(all, k, v), capacity)
  {
    FrontFound(all, capacity, k);
    var a, e, b := Around(all, k);
    CutFind(all, capacity, a, e, b);
    WithoutMiddle(a, e, b);
    if |all| > capacity {
      var c := b[..capacity - |a| - 1];
      CutMiddle(a, e, b, Entry(k, v), capacity);
      WithoutMiddle(a, e, c);
    }
  }

  lemma BeyondCut(all: seq<Entry>, capacity: nat, k: string)
    requires DistinctKeys(all) && Find(Cut(all, capacity), k).None? && |all| >= capacity
    ensures |Without(all, k)| + 1 >= capacity
    ensures (capacity > 0 ==> Without(all, k)[..capacity - 1] == all[..capacity - 1])
  {
    if Find(all, k).Some? {
      var a, e, b := Around(all, k);
      CutFind(all, capacity, a, e, b);
      WithoutMiddle(a, e, b);
    } else {
      FindIs(all, k);
      WithoutAbsent(all, k);
    }
  }

  /** Adding a key that is not cached commutes with cutting: the least recent entry falls out. */
  lemma AddCut(all: seq<Entry>, capacity: nat, k: string, v: Cert)
    requires DistinctKeys(all) && Find(Cut(all, capacity), k).None?
    ensures AfterAdd(Cut(all, capacity), capacity, k, v) == Cut(Touch(all, k, v), capacity)
  {
    var e := Entry(k, v);
    if |all| >= capacity {
      BeyondCut(all, capacity, k);
      var items := Cut(all, capacity);
      assert items == all[..capacity];
      if capacity > 0 {
        assert ([e] + items)[..capacity] == [e] + all[..capacity - 1];
        assert ([e] + Without(all, k))[..capacity] == [e] + Without(all, k)[..capacity - 1];
      } else {
        assert ([e] + items)[..0] == [] && Touch(all, k, v)[..0] == [];
      }
    } else {
      FindIs(all, k);
      WithoutAbsent(all, k);
    }
  }

  /** At every point of every history the cache is the front of the recency list. */
  lemma {:induction false} CacheIsFront(capacity: nat, ops: seq<Op>)
    ensures DistinctKeys(Recency(capacity, ops)) && Run(capacity, ops) == Cut(Recency(capacity, ops), capacity)
  {
    if ops != [] {
      var init, op := ops[..|ops| - 1], ops[|ops| - 1];
      CacheIsFront(capacity, init);
      var all := Recency(capacity, init);
      match op
      case Add(k, v) =>
        TouchDistinct(all, k, v);
        if Find(Cut(all, capacity), k).Some? { TouchCut(all, capacity, k, v); } else { AddCut(all, capacity, k, v); }
      case Get(k) =>
        if Find(Cut(all, capacity), k).Some? {
          var v := Find(Cut(all, capacity), k).value;
          TouchDistinct(all, k, v);
          TouchCut(all, capacity, k, v);
        }
    }
  }

  lemma {:induction false} TouchBound(capacity: nat, ops: seq<Op>, k: string)
    ensures LastTouch(capacity, ops, k) <= |ops|
  {
    if ops != [] {
      TouchBound(capacity, ops[..|ops| - 1], k);
    }
  }

  lemma {:induction false} WithoutRanked(all: seq<Entry>, k: string, rank: string -> nat)
    requires forall i, j :: 0 <= i < j < |all| ==> rank(all[i].key) > rank(all[j].key)
    ensures forall i, j :: 0 <= i < j < |Without(all, k)| ==>
              rank(Without(all, k)[i].key) > rank(Without(all, k)[j].key)
  {
    if all != [] {
      var rest := all[1..];
      WithoutRanked(rest, k, rank);
      forall j | 0 <= j < |Without(rest, k)| ensures rank(all[0].key) > rank(Without(rest, k)[j].key) {
        WithoutHas(rest, k, Without(rest, k)[j]);
      }
    }
  }

  /** Touching moves one key to the top of the ranking. */
  lemma RankTouch(capacity: nat, ops: seq<Op>, all: seq<Entry>, k: string, v: Cert)
    requires ops != [] && Ranks(capacity, ops[..|ops| - 1], all)
    requires ops[|ops| - 1].key == k && Touches(Run(capacity, ops[..|ops| - 1]), ops[|ops| - 1])
    requires LastValue(ops, k) == Some(v)
    ensures Ranks(capacity, ops, Touch(all, k, v))
  {
    var init, next := ops[..|ops| - 1], Touch(all, k, v);
    forall x ensures LastTouch(capacity, init, x) < |ops| {
      TouchBound(capacity, init, x);
    }
    TouchRanked(all, k, v, x => LastTouch(capacity, init, x), x => LastTouch(capacity, ops, x), |ops|);
    forall i | 0 <= i < |next|
      ensures LastTouch(capacity, ops, next[i].key) > 0 && LastValue(ops, next[i].key) == Some(next[i].value)
    {
      TouchedValue(capacity, ops, all, k, v, i);
    }
    forall x | LastTouch(capacity, ops, x) > 0 ensures exists i :: 0 <= i < |next| && next[i].key == x {
      RankedIn(capacity, ops, all, k, v, x);
    }
  }

  lemma TouchRanked(all: seq<Entry>, k: string, v: Cert, before: string -> nat, after: string -> nat, top: nat)
    requires forall i, j :: 0 <= i < j < |all| ==> before(all[i].key) > before(all[j].key)
    requires (forall x :: before(x) < top) && after(k) == top && forall x :: x != k ==> after(x) == before(x)
    ensures var next := Touch(all, k, v);
            forall i, j :: 0 <= i < j < |next| ==> after(next[i].key) > after(next[j].key)
  {
    var rest := Without(all, k);
    WithoutRanked(all, k, before);
    forall i | 0 <= i < |rest| ensures after(rest[i].key) == before(rest[i].key) {
      WithoutHas(all, k, rest[i]);
    }
  }

  lemma TouchedValue(capacity: nat, ops: seq<Op>, all: seq<Entry>, k: string, v: Cert, i: nat)
    requires ops != [] && Ranks(capacity, ops[..|ops| - 1], all) && i < |Touch(all, k, v)|
    requires ops[|ops| - 1].key == k && Touches(Run(capacity, ops[..|ops| - 1]), ops[|ops| - 1])
    requires LastValue(ops, k) == Some(v)
    ensures var e := Touch(all, k, v)[i]; LastTouch(capacity, ops, e.key) > 0 && LastValue(ops, e.key) == Some(e.value)
  {
    if i > 0 {
      WithoutHas(all, k, Without(all, k)[i - 1]);
    }
  }

  lemma RankedIn(capacity: nat, ops: seq<Op>, all: seq<Entry>, k: string, v: Cert, x: string)
    requires ops != [] && Ranks(capacity, ops[..|ops| - 1], all) && ops[|ops| - 1].key == k
    requires LastTouch(capacity, ops, x) > 0
    ensures exists i :: 0 <= i < |Touch(all, k, v)| && Touch(all, k, v)[i].key == x
  {
    var next := Touch(all, k, v);
    if x == k {
      assert next[0].key == k;
    } else {
      var i :| 0 <= i < |all| && all[i].key == x;
      WithoutHas(all, k, all[i]);
      assert all[i] in next;
    }
  }

  lemma RankMiss(capacity: nat, ops: seq<Op>, all: seq<Entry>)
    requires ops != [] && Ranks(capacity, ops[..|ops| - 1], all)
    requires ops[|ops| - 1].Get? && !Touches(Run(capacity, ops[..|ops| - 1]), ops[|ops| - 1])
    ensures Ranks(capacity, ops, all)
  {
    var init := ops[..|ops| - 1];
    assert forall k :: LastTouch(capacity, ops, k) == LastTouch(capacity, init, k);
    assert forall k :: LastValue(ops, k) == LastValue(init, k);
  }

  /** The recency list holds exactly the keys ever touched, by descending last touch, with their last added values. */
  lemma {:induction false} RecencyRanks(capacity: nat, ops: seq<Op>)
    ensures Ranks(capacity, ops, Recency(capacity, ops))
  {
    if ops != [] {
      var init, op := ops[..|ops| - 1], ops[|ops| - 1];
      RecencyRanks(capacity, init);
      CacheIsFront(capacity, init);
      var all, items := Recency(capacity, init), Run(capacity, init);
      if op.Add? {
        RankTouch(capacity, ops, all, op.key, op.value);
      } else if Find(items, op.key).Some? {
        FindIs(items, op.key);
        var v := Find(items, op.key).value;
        assert Entry(op.key, v) in all;
        RankTouch(capacity, ops, all, op.key, v);
      } else {
        RankMiss(capacity, ops, all);
      }
    }
  }

  /** After any history the cache holds exactly the `capacity` most recently touched keys with their last added
      values: never more, and a touched key is missing only if the cache is full of keys touched later. */
  lemma CacheKeepsMostRecent(capacity: nat, ops: seq<Op>, k: string)
    ensures var items := Run(capacity, ops);
            && DistinctKeys(items) && |items| <= capacity
            && (forall i :: 0 <= i < |items| ==>
                  LastTouch(capacity, ops, items[i].key) > 0 && LastValue(ops, items[i].key) == Some(items[i].value))
            && (LastTouch(capacity, ops, k) > 0 && Lacks(items, k) ==>
                  && |items| == capacity
                  && forall i :: 0 <= i < |items| ==>
                       LastTouch(capacity, ops, items[i].key) > LastTouch(capacity, ops, k))
  {
    CacheIsFront(capacity, ops);
    RecencyRanks(capacity, ops);
    FrontRanks(capacity, ops, Recency(capacity, ops), k);
  }

  lemma FrontRanks(capacity: nat, ops: seq<Op>, all: seq<Entry>, k: string)
    requires DistinctKeys(all) && Ranks(capacity, ops, all)
    ensures var items := Cut(all, capacity);
            && DistinctKeys(items) && |items| <= capacity
            && (forall i :: 0 <= i < |items| ==>
                  LastTouch(capacity, ops, items[i].key) > 0 && LastValue(ops, items[i].key) == Some(items[i].value))
            && (LastTouch(capacity, ops, k) > 0 && Lacks(items, k) ==>
                  && |items| == capacity
                  && forall i :: 0 <= i < |items| ==>
                       LastTouch(capacity, ops, items[i].key) > LastTouch(capacity, ops, k))
  {
    var items := Cut(all, capacity);
    assert items <= all;
    if LastTouch(capacity, ops, k) > 0 && Lacks(items, k) {
      var j :| 0 <= j < |all| && all[j].key == k;
      assert j >= |items|;
    }
  }

  // ---- The cache as it runs -------------------------------------------------------------------------------

  /** The list of keys, front first, and the index from key to value; a list element is named by its key. */
  class CertLRU {
    const capacity: nat
    var ll: seq<string>
    var entries: map<string, Cert>

    /** List and index are a bijection of bounded size. */
    ghost predicate Valid() reads this {
      && |ll| <= capacity
      && (forall i, j :: 0 <= i < j < |ll| ==> ll[i] != ll[j])
      && (forall k :: k in ll <==> k in entries)
    }

    ghost function Items(): seq<Entry> reads this requires Valid() { Rows(ll, entries) }

    constructor (size: nat)
      ensures Valid() && capacity == size && Items() == []
    {
      capacity, ll, entries := size, [], map[];
    }

    method Get(key: string) returns (r: Option<Cert>)
      requires Valid()
      modifies this
      ensures Valid() && Items() == AfterGet(old(Items()), key) && r == Find(old(Items()), key)
    {
      RowsFind(ll, entries, key);
      if key !in entries {
        return None;
      }
      TouchRows(ll, entries, key, entries[key]);
      RemovedFacts(ll, key);
      assert entries[key := entries[key]] == entries;
      ll := [key] + Removed(ll, key);
      return Some(entries[key]);
    }

    method Add(key: string, value: Cert)
      requires Valid()
      modifies this
      ensures Valid() && Items() == AfterAdd(old(Items()), capacity, key, value)
    {
      RowsFind(ll, entries, key);
      if key in entries {
        TouchRows(ll, entries, key, value);
        RemovedFacts(ll, key);
        ll := [key] + Removed(ll, key);
        entries := entries[key := value];
        return;
      }
      Push(key, value);
      if |ll| > capacity {
        RemoveOldest();
      }
    }

    /** The bijection, whatever the size. */
    ghost predicate Matched() reads this {
      (forall i, j :: 0 <= i < j < |ll| ==> ll[i] != ll[j]) && forall k :: k in ll <==> k in entries
    }

    method Push(key: string, value: Cert)
      requires Matched() && key !in entries
      modifies this
      ensures Matched() && |ll| == old(|ll|) + 1 && Rows(ll, entries) == [Entry(key, value)] + old(Rows(ll, entries))
    {
      PushRows(ll, entries, key, value);
      assert key !in ll;
      ll := [key] + ll;
      entries := entries[key := value];
    }

    method RemoveOldest()
      requires Matched() && ll != []
      modifies this
      ensures Matched() && |ll| == old(|ll|) - 1 && Rows(ll, entries) == old(Rows(ll, entries))[..|ll|]
    {
      var oldest := ll[|ll| - 1];
      PopRows(ll, entries);
      PopKeys(ll);
      ll := ll[..|ll| - 1];
      entries := entries - {oldest};
    }

    method Delete(key: string)
      requires Valid()
      modifies this
      ensures Valid() && Items() == Without(old(Items()), key)
    {
      RemovedRows(ll, entries, key);
      RemovedFacts(ll, key);
      ll := Removed(ll, key);
      entries := entries - {key};
    }

    method Clear()
      modifies this
      ensures Valid() && Items() == []
    {
      ll, entries := [], map[];
    }
  }

  function Rows(ll: seq<string>, entries: map<string, Cert>): (r: seq<Entry>)
    requires forall k :: k in ll ==> k in entries
    ensures |r| == |ll| && forall i :: 0 <= i < |ll| ==> r[i] == Entry(ll[i], entries[ll[i]])
  {
    seq(|ll|, i requires 0 <= i < |ll| => Entry(ll[i], entries[ll[i]]))
  }

  function Removed(ll: seq<string>, key: string): (r: seq<string>)
    ensures forall k :: k in r <==> k in ll && k != key
  {
    if ll == [] then [] else (if ll[0] == key then [] else [ll[0]]) + Removed(ll[1..], key)
  }

  lemma {:induction false} RowsFind(ll: seq<string>, entries: map<string, Cert>, key: string)
    requires forall k :: k in ll ==> k in entries
    ensures Find(Rows(ll, entries), key) == if key in ll then Some(entries[key]) else None
  {
    if ll != [] {
      assert Rows(ll, entries)[1..] == Rows(ll[1..], entries);
      RowsFind(ll[1..], entries, key);
    }
  }

  lemma {:induction false} RemovedFacts(ll: seq<string>, key: string)
    requires forall i, j :: 0 <= i < j < |ll| ==> ll[i] != ll[j]
    ensures forall i, j :: 0 <= i < j < |Removed(ll, key)| ==> Removed(ll, key)[i] != Removed(ll, key)[j]
    ensures |Removed(ll, key)| == if key in ll then |ll| - 1 else |ll|
  {
    if ll != [] {
      RemovedFacts(ll[1..], key);
      assert ll[0] !in ll[1..];
    }
  }

  lemma {:induction false} RemovedRows(ll: seq<string>, entries: map<string, Cert>, key: string)
    requires forall k :: k in ll ==> k in entries
    ensures Without(Rows(ll, entries), key) == Rows(Removed(ll, key), entries - {key})
  {
    if ll != [] {
      assert Rows(ll, entries)[1..] == Rows(ll[1..], entries);
      RemovedRows(ll[1..], entries, key);
    }
  }

  lemma TouchRows(ll: seq<string>, entries: map<string, Cert>, key: string, value: Cert)
    requires forall k :: k in ll ==> k in entries
    ensures Rows([key] + Removed(ll, key), entries[key := value]) == Touch(Rows(ll, entries), key, value)
  {
    RemovedRows(ll, entries, key);
    var r := Removed(ll, key);
    assert Rows(r, entries - {key}) == Rows(r, entries[key := value]);
    assert Rows([key] + r, entries[key := value]) == [Entry(key, value)] + Rows(r, entries[key := value]);
  }

  lemma PushRows(ll: seq<string>, entries: map<string, Cert>, key: string, value: Cert)
    requires (forall k :: k in ll ==> k in entries) && key !in ll
    ensures Rows([key] + ll, entries[key := value]) == [Entry(key, value)] + Rows(ll, entries)
  {
  }

  lemma PopKeys(ll: seq<string>)
    requires ll != [] && forall i, j :: 0 <= i < j < |ll| ==> ll[i] != ll[j]
    ensures forall k :: k in ll[..|ll| - 1] <==> k in ll && k != ll[|ll| - 1]
  {
    assert ll == ll[..|ll| - 1] + [ll[|ll| - 1]];
  }

  lemma PopRows(ll: seq<string>, entries: map<string, Cert>)
    requires ll != [] && (forall k :: k in ll ==> k in entries) && forall i, j :: 0 <= i < j < |ll| ==> ll[i] != ll[j]
    ensures Rows(ll[..|ll| - 1], entries - {ll[|ll| - 1]}) == Rows(ll, entries)[..|ll| - 1]
  {
  }
}
