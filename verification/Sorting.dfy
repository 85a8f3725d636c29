/** Lists sorted by a strict order are determined by their elements. */
module Sorting {
  import opened Text

  predicate Sorted<T>(s: seq<T>, before: (T, T) -> bool) {
    forall i, j :: 0 <= i < j < |s| ==> before(s[i], s[j])
  }

  lemma LastSame<T(!new)>(a: seq<T>, b: seq<T>, before: (T, T) -> bool)
    requires a != [] && b != [] && Sorted(a, before) && Sorted(b, before)
    requires forall x, y :: before(x, y) ==> !before(y, x)
    requires a[|a| - 1] in b && b[|b| - 1] in a
    ensures a[|a| - 1] == b[|b| - 1]
  {
    var i :| 0 <= i < |b| && b[i] == a[|a| - 1];
    var j :| 0 <= j < |a| && a[j] == b[|b| - 1];
    assert i < |b| - 1 ==> before(b[i], b[|b| - 1]);
    assert j < |a| - 1 ==> before(a[j], a[|a| - 1]);
  }

  lemma InitElements<T(!new)>(a: seq<T>, before: (T, T) -> bool, z: T)
    requires a != [] && Sorted(a, before)
    requires forall x, y :: before(x, y) ==> !before(y, x)
    ensures z in a[..|a| - 1] <==> z in a && z != a[|a| - 1]
  {
    if z in a[..|a| - 1] {
      var i :| 0 <= i < |a| - 1 && a[i] == z;
      assert before(a[i], a[|a| - 1]);
    }
  }

  lemma {:induction false} SortedUnique<T(!new)>(a: seq<T>, b: seq<T>, before: (T, T) -> bool)
    requires Sorted(a, before) && Sorted(b, before)
    requires forall x, y :: before(x, y) ==> !before(y, x)
    requires forall x :: x in a <==> x in b
    ensures a == b
  {
    if b == [] {
      if a != [] {
        FirstIn(a);
        assert false;
      }
    } else {
      assert b[0] in a;
      LastSame(a, b, before);
      var a', b' := a[..|a| - 1], b[..|b| - 1];
      forall z ensures z in a' <==> z in b' {
        InitElements(a, before, z);
        InitElements(b, before, z);
      }
      SortedUnique(a', b', before);
    }
  }

  lemma FirstIn<T>(a: seq<T>)
    requires a != []
    ensures a[0] in a
  {
  }

  /** `before` orders the elements of `xs` strictly and totally. */
  ghost predicate Orders<T(!new)>(before: (T, T) -> bool, xs: set<T>) {
    && (forall x, y :: x in xs && y in xs && x != y ==> before(x, y) || before(y, x))
    && (forall x, y, z :: x in xs && y in xs && z in xs && before(x, y) && before(y, z) ==> before(x, z))
  }

  ghost predicate Lists<T(!new)>(s: seq<T>, xs: set<T>) { forall x :: x in s <==> x in xs }

  /** Every set has a sorted list. */
  lemma {:induction false} SortedList<T(!new)>(xs: set<T>, before: (T, T) -> bool) returns (s: seq<T>)
    requires Orders(before, xs)
    ensures Sorted(s, before) && Lists(s, xs)
  {
    if xs == {} {
      s := [];
    } else {
      var x :| x in xs;
      var rest := xs - {x};
      var t := SortedList(rest, before);
      var i := Place(t, x, before, xs, |t|);
      s := t[..i] + [x] + t[i..];
      assert forall y :: y in s <==> y in t || y == x;
    }
  }

  /** Where `x` goes among the first `n` elements. */
  lemma {:induction false} Place<T(!new)>(t: seq<T>, x: T, before: (T, T) -> bool, xs: set<T>, n: nat) returns (i: nat)
    requires Orders(before, xs) && x in xs && n <= |t| && Sorted(t, before)
    requires forall j :: 0 <= j < |t| ==> t[j] in xs && t[j] != x
    requires forall j :: n <= j < |t| ==> before(x, t[j])
    ensures i <= |t| && (forall j :: 0 <= j < i ==> before(t[j], x)) && (forall j :: i <= j < |t| ==> before(x, t[j]))
    decreases n
  {
    if n == 0 || before(t[n - 1], x) {
      i := n;
      forall j | 0 <= j < i ensures before(t[j], x) {
        if j < n - 1 {
          assert before(t[j], t[n - 1]);
        }
      }
    } else {
      i := Place(t, x, before, xs, n - 1);
    }
  }

  // ---- Sorting by a string key --------------------------------------------------------------------

  predicate AscendingBy<T>(s: seq<T>, key: T -> string) {
    forall i, j :: 0 <= i < j < |s| ==> Less(key(s[i]), key(s[j]))
  }

  method Insert<T(!new)>(out: seq<T>, x: T, key: T -> string) returns (r: seq<T>)
    requires AscendingBy(out, key) && forall i :: 0 <= i < |out| ==> key(out[i]) != key(x)
    ensures AscendingBy(r, key) && forall y :: y in r <==> y == x || y in out
  {
    var i := 0;
    while i < |out| && Less(key(out[i]), key(x))
      invariant i <= |out|
      invariant forall j :: 0 <= j < i ==> Less(key(out[j]), key(x))
    {
      i := i + 1;
    }
    r := out[..i] + [x] + out[i..];
    InsertAscends(out, x, key, i);
  }

  lemma InsertAscends<T(!new)>(out: seq<T>, x: T, key: T -> string, i: nat)
    requires AscendingBy(out, key) && i <= |out| && forall j :: 0 <= j < |out| ==> key(out[j]) != key(x)
    requires forall j :: 0 <= j < i ==> Less(key(out[j]), key(x))
    requires i < |out| ==> !Less(key(out[i]), key(x))
    ensures AscendingBy(out[..i] + [x] + out[i..], key)
  {
    forall j | i <= j < |out| ensures Less(key(x), key(out[j])) {
      LessTotal(key(x), key(out[i]));
      if j > i {
        LessTransitive(key(x), key(out[i]), key(out[j]));
      }
    }
  }

  method SortByKey<T(!new)>(raw: seq<T>, key: T -> string) returns (out: seq<T>)
    requires forall i, j :: 0 <= i < j < |raw| ==> key(raw[i]) != key(raw[j])
    ensures AscendingBy(out, key) && forall x :: x in out <==> x in raw
  {
    out := [];
    for i := 0 to |raw|
      invariant AscendingBy(out, key) && forall x :: x in out <==> x in raw[..i]
    {
      forall j | 0 <= j < |out| ensures key(out[j]) != key(raw[i]) {
        assert out[j] in raw[..i];
      }
      out := Insert(out, raw[i], key);
      assert raw[..i + 1] == raw[..i] + [raw[i]];
    }
    assert raw[..|raw|] == raw;
  }
}
