/** Diffs between a current and a desired list of identified items, and their replay. */
module PlanDiff {
  import opened Options
  import opened Text
  import opened Sorting

  datatype Action = Create | Update | Delete

  datatype Change<+T> = Change(action: Action, current: Option<T>, desired: Option<T>)

  /** The items by id, a later item replacing an earlier one with the same id. */
  function ById<T>(items: seq<T>, idOf: T -> string): (m: map<string, T>)
    ensures forall id :: id in m ==> idOf(m[id]) == id && m[id] in items
    ensures forall x :: x in items ==> idOf(x) in m
  {
    if items == [] then map[]
    else ById(items[..|items| - 1], idOf)[idOf(items[|items| - 1]) := items[|items| - 1]]
  }

  lemma ByIdHas<T>(items: seq<T>, idOf: T -> string, id: string)
    ensures id in ById(items, idOf) <==> exists i :: 0 <= i < |items| && idOf(items[i]) == id
  {
    if i :| 0 <= i < |items| && idOf(items[i]) == id {
      assert items[i] in items;
    }
    if id in ById(items, idOf) {
      var i :| 0 <= i < |items| && items[i] == ById(items, idOf)[id];
    }
  }

  /** The last item with an id is the one that counts. */
  lemma {:induction false} ByIdLast<T(!new)>(items: seq<T>, idOf: T -> string, i: nat)
    requires i < |items| && forall j :: i < j < |items| ==> idOf(items[j]) != idOf(items[i])
    ensures idOf(items[i]) in ById(items, idOf) && ById(items, idOf)[idOf(items[i])] == items[i]
  {
    if i < |items| - 1 {
      var init := items[..|items| - 1];
      assert init[i] == items[i];
      assert forall j :: i < j < |init| ==> init[j] == items[j];
      ByIdLast(init, idOf, i);
    }
  }

  predicate Keyed<T(!new)>(m: map<string, T>, idOf: T -> string) {
    forall id :: id in m ==> idOf(m[id]) == id
  }

  /** The change that takes the entry of one id from its current to its desired value. */
  function ChangeAt<T(==)>(current: map<string, T>, desired: map<string, T>, id: string): Change<T>
    requires id in current || id in desired
  {
    if id !in current then Change(Create, None, Some(desired[id]))
    else if id !in desired then Change(Delete, Some(current[id]), None)
    else Change(Update, Some(current[id]), Some(desired[id]))
  }

  predicate Differs<T(==)>(current: map<string, T>, desired: map<string, T>, id: string) {
    Get(current, id) != Get(desired, id)
  }

  function ChangeId<T>(c: Change<T>, idOf: T -> string): string {
    if c.desired.Some? then idOf(c.desired.value)
    else if c.current.Some? then idOf(c.current.value)
    else ""
  }

  predicate Ascending<T>(out: seq<Change<T>>, idOf: T -> string) {
    forall i, j :: 0 <= i < j < |out| ==> Less(ChangeId(out[i], idOf), ChangeId(out[j], idOf))
  }

  /** One change per differing id, each the right one. */
  ghost predicate CoversDiff<T(!new)>(out: seq<Change<T>>, current: map<string, T>, desired: map<string, T>,
                                      idOf: T -> string) {
    && (forall i :: 0 <= i < |out| ==>
          var id := ChangeId(out[i], idOf); Differs(current, desired, id) && out[i] == ChangeAt(current, desired, id))
    && (forall id :: Differs(current, desired, id) ==> ChangeIn(out, id, idOf))
  }

  ghost predicate ChangeIn<T>(out: seq<Change<T>>, id: string, idOf: T -> string) {
    exists i :: 0 <= i < |out| && ChangeId(out[i], idOf) == id
  }

  ghost predicate IsDiff<T(!new)>(out: seq<Change<T>>, current: map<string, T>, desired: map<string, T>,
                                  idOf: T -> string) {
    Ascending(out, idOf) && CoversDiff(out, current, desired, idOf)
  }

  /** A change of a diff says what is there and what is wanted, and is named after what that comes to. */
  lemma ChangesSay<T(!new)>(out: seq<Change<T>>, current: map<string, T>, desired: map<string, T>, idOf: T -> string,
                            i: nat)
    requires IsDiff(out, current, desired, idOf) && i < |out|
    ensures var c, id := out[i], ChangeId(out[i], idOf);
            && c.current == Get(current, id) && c.desired == Get(desired, id) && c.current != c.desired
            && (c.action == Create <==> c.current.None?) && (c.action == Delete <==> c.desired.None?)
  {
    assert Differs(current, desired, ChangeId(out[i], idOf));
  }

  // ---- What a diff is worth -------------------------------------------------------------------

  function ApplyChange<T>(m: map<string, T>, c: Change<T>, idOf: T -> string): map<string, T> {
    match c.action
    case Delete => if c.current.Some? then m - {idOf(c.current.value)} else m
    case _ => if c.desired.Some? then m[idOf(c.desired.value) := c.desired.value] else m
  }

  function ApplyChanges<T>(m: map<string, T>, out: seq<Change<T>>, idOf: T -> string): map<string, T> {
    if out == [] then m else ApplyChange(ApplyChanges(m, out[..|out| - 1], idOf), out[|out| - 1], idOf)
  }

  lemma {:induction false} ApplyConcat<T>(m: map<string, T>, a: seq<Change<T>>, b: seq<Change<T>>, idOf: T -> string)
    ensures ApplyChanges(m, a + b, idOf) == ApplyChanges(ApplyChanges(m, a, idOf), b, idOf)
  {
    if b == [] {
      assert a + b == a;
    } else {
      assert (a + b)[..|a + b| - 1] == a + b[..|b| - 1];
      ApplyConcat(m, a, b[..|b| - 1], idOf);
    }
  }

  /** Changes drawn from a diff and applied to any table set the ids they name to the desired value
      and leave every other id alone. */
  lemma {:induction false} ApplyAt<T(!new)>(m: map<string, T>, out: seq<Change<T>>, current: map<string, T>,
                                            desired: map<string, T>, idOf: T -> string, id: string)
    requires Keyed(current, idOf) && Keyed(desired, idOf)
    requires forall i :: 0 <= i < |out| ==>
               var k := ChangeId(out[i], idOf); Differs(current, desired, k) && out[i] == ChangeAt(current, desired, k)
    ensures Get(ApplyChanges(m, out, idOf), id) == if ChangeIn(out, id, idOf) then Get(desired, id) else Get(m, id)
  {
    if out != [] {
      var init, c := out[..|out| - 1], out[|out| - 1];
      ApplyAt(m, init, current, desired, idOf, id);
      if ChangeId(c, idOf) == id {
        assert ChangeIn(out, id, idOf);
      } else if ChangeIn(init, id, idOf) {
        var i :| 0 <= i < |init| && ChangeId(init[i], idOf) == id;
        assert out[i] == init[i];
      }
    }
  }

  /** Replaying a diff on a table replaces exactly the current items by the desired ones. The current list
      need only be right about the items the diff leaves alone. */
  lemma DiffReplays<T(!new)>(m: map<string, T>, out: seq<Change<T>>, current: map<string, T>, desired: map<string, T>,
                             idOf: T -> string)
    requires Keyed(current, idOf) && Keyed(desired, idOf) && CoversDiff(out, current, desired, idOf)
    requires forall id :: id in current && !Differs(current, desired, id) ==> id in m && m[id] == current[id]
    ensures ApplyChanges(m, out, idOf) == m - current.Keys + desired
  {
    var r := ApplyChanges(m, out, idOf);
    forall id ensures Get(r, id) == Get(m - current.Keys + desired, id) {
      ApplyAt(m, out, current, desired, idOf, id);
      assert ChangeIn(out, id, idOf) <==> Differs(current, desired, id);
    }
    SameGets(r, m - current.Keys + desired);
  }

  /** Folding a diff over the current items gives the desired ones, and it is empty exactly when they agree. */
  lemma DiffIsExact<T(!new)>(out: seq<Change<T>>, current: map<string, T>, desired: map<string, T>, idOf: T -> string)
    requires Keyed(current, idOf) && Keyed(desired, idOf) && IsDiff(out, current, desired, idOf)
    ensures ApplyChanges(current, out, idOf) == desired
    ensures out == [] <==> current == desired
  {
    DiffReplays(current, out, current, desired, idOf);
    assert current - current.Keys + desired == desired;
    if out != [] {
      assert Differs(current, desired, ChangeId(out[0], idOf));
    }
  }

  /** Two diffs of the same tables are the same list, whatever order the tables were walked in. */
  lemma DiffIsUnique<T(!new)>(a: seq<Change<T>>, b: seq<Change<T>>, current: map<string, T>, desired: map<string, T>,
                              idOf: T -> string)
    requires IsDiff(a, current, desired, idOf) && IsDiff(b, current, desired, idOf)
    ensures a == b
  {
    SameChanges(a, b, current, desired, idOf);
    SameChanges(b, a, current, desired, idOf);
    var before := (x: Change<T>, y: Change<T>) => Less(ChangeId(x, idOf), ChangeId(y, idOf));
    forall x, y | before(x, y) ensures !before(y, x) {
      LessTotal(ChangeId(x, idOf), ChangeId(y, idOf));
    }
    SortedUnique(a, b, before);
  }

  lemma SameChanges<T(!new)>(a: seq<Change<T>>, b: seq<Change<T>>, current: map<string, T>, desired: map<string, T>,
                             idOf: T -> string)
    requires CoversDiff(a, current, desired, idOf) && CoversDiff(b, current, desired, idOf)
    ensures forall x :: x in a ==> x in b
  {
    forall x | x in a ensures x in b {
      var id := ChangeId(x, idOf);
      assert ChangeIn(b, id, idOf);
      var i :| 0 <= i < |b| && ChangeId(b[i], idOf) == id;
      assert b[i] == x;
    }
  }

  // ---- The diff as it is computed ---------------------------------------------------------------

  /** Any two keyed tables have a diff. */
  lemma DiffExists<T(!new)>(current: map<string, T>, desired: map<string, T>, idOf: T -> string)
    returns (out: seq<Change<T>>)
    requires Keyed(current, idOf) && Keyed(desired, idOf)
    ensures IsDiff(out, current, desired, idOf)
  {
    var ids := set id | id in current.Keys + desired.Keys && Differs(current, desired, id);
    LessOrders(ids);
    var sorted := SortedList(ids, Less);
    forall i | 0 <= i < |sorted| ensures Differs(current, desired, sorted[i]) {
      assert sorted[i] in sorted && sorted[i] in ids;
    }
    forall id | Differs(current, desired, id) ensures id in sorted {
      assert id in ids;
    }
    out := ChangesOf(current, desired, idOf, sorted);
  }

  lemma ChangesOf<T(!new)>(current: map<string, T>, desired: map<string, T>, idOf: T -> string, sorted: seq<string>)
    returns (out: seq<Change<T>>)
    requires Keyed(current, idOf) && Keyed(desired, idOf) && Sorted(sorted, Less)
    requires forall i :: 0 <= i < |sorted| ==> Differs(current, desired, sorted[i])
    requires forall id :: Differs(current, desired, id) ==> id in sorted
    ensures IsDiff(out, current, desired, idOf)
  {
    out := seq(|sorted|, i requires 0 <= i < |sorted| => ChangeAt(current, desired, sorted[i]));
    forall i | 0 <= i < |out| ensures ChangeId(out[i], idOf) == sorted[i] {
      assert out[i] == ChangeAt(current, desired, sorted[i]);
    }
    forall id | Differs(current, desired, id) ensures ChangeIn(out, id, idOf) {
      var i :| 0 <= i < |sorted| && sorted[i] == id;
      assert ChangeId(out[i], idOf) == id;
    }
  }

  lemma LessOrders(ids: set<string>)
    ensures Orders(Less, ids)
  {
    forall x, y | x in ids && y in ids && x != y ensures Less(x, y) || Less(y, x) { LessTotal(x, y); }
    forall x, y, z | x in ids && y in ids && z in ids && Less(x, y) && Less(y, z) ensures Less(x, z) {
      LessTransitive(x, y, z);
    }
  }

  method IndexById<T(==)>(items: seq<T>, idOf: T -> string) returns (m: map<string, T>)
    ensures m == ById(items, idOf)
  {
    m := map[];
    for i := 0 to |items|
      invariant m == ById(items[..i], idOf)
    {
      assert items[..i + 1][..i] == items[..i];
      m := m[idOf(items[i]) := items[i]];
    }
    assert items[..|items|] == items;
  }

  ghost predicate Collected<T(!new)>(raw: seq<Change<T>>, current: map<string, T>, desired: map<string, T>,
                                     idOf: T -> string, seen: set<string>) {
    && (forall i :: 0 <= i < |raw| ==>
          var id := ChangeId(raw[i], idOf);
          id in seen && Differs(current, desired, id) && raw[i] == ChangeAt(current, desired, id))
    && (forall id :: id in seen && Differs(current, desired, id) ==> ChangeIn(raw, id, idOf))
    && DistinctIds(raw, idOf)
  }

  predicate DistinctIds<T(!new)>(raw: seq<Change<T>>, idOf: T -> string) {
    forall i, j :: 0 <= i < j < |raw| ==> ChangeId(raw[i], idOf) != ChangeId(raw[j], idOf)
  }

  lemma CollectOne<T(!new)>(raw: seq<Change<T>>, current: map<string, T>, desired: map<string, T>, idOf: T -> string,
                            seen: set<string>, id: string)
    requires Keyed(current, idOf) && Keyed(desired, idOf) && Collected(raw, current, desired, idOf, seen)
    requires id !in seen && Differs(current, desired, id)
    ensures Collected(raw + [ChangeAt(current, desired, id)], current, desired, idOf, seen + {id})
  {
    var next := raw + [ChangeAt(current, desired, id)];
    forall k | k in seen + {id} && Differs(current, desired, k) ensures ChangeIn(next, k, idOf) {
      if k == id {
        assert ChangeId(next[|raw|], idOf) == id;
      } else {
        assert ChangeIn(raw, k, idOf);
        var i :| 0 <= i < |raw| && ChangeId(raw[i], idOf) == k;
        assert next[i] == raw[i];
      }
    }
  }

  method SortChanges<T(!new)>(raw: seq<Change<T>>, idOf: T -> string) returns (out: seq<Change<T>>)
    requires DistinctIds(raw, idOf)
    ensures Ascending(out, idOf) && forall x :: x in out <==> x in raw
  {
    out := SortByKey(raw, (c: Change<T>) => ChangeId(c, idOf));
  }

  lemma SortedCollection<T(!new)>(out: seq<Change<T>>, raw: seq<Change<T>>, current: map<string, T>,
                                  desired: map<string, T>, idOf: T -> string)
    requires Collected(raw, current, desired, idOf, current.Keys + desired.Keys)
    requires Ascending(out, idOf) && forall x :: x in out <==> x in raw
    ensures IsDiff(out, current, desired, idOf)
  {
    forall i | 0 <= i < |out|
      ensures var id := ChangeId(out[i], idOf);
              Differs(current, desired, id) && out[i] == ChangeAt(current, desired, id)
    {
      assert out[i] in raw;
    }
    forall id | Differs(current, desired, id) ensures ChangeIn(out, id, idOf) {
      assert ChangeIn(raw, id, idOf);
      var i :| 0 <= i < |raw| && ChangeId(raw[i], idOf) == id;
      assert raw[i] in out;
    }
  }

  /** The first walk: created and updated ids, in whatever order the table yields them. */
  method CollectDesired<T(==, !new)>(current: map<string, T>, desired: map<string, T>, idOf: T -> string)
    returns (raw: seq<Change<T>>)
    requires Keyed(current, idOf) && Keyed(desired, idOf)
    ensures Collected(raw, current, desired, idOf, desired.Keys)
  {
    raw := [];
    var todo := desired.Keys;
    ghost var seen: set<string> := {};
    while todo != {}
      invariant todo !! seen && todo + seen == desired.Keys && Collected(raw, current, desired, idOf, seen)
      decreases todo
    {
      var id :| id in todo;
      todo := todo - {id};
      if id !in current {
        CollectOne(raw, current, desired, idOf, seen, id);
        raw := raw + [Change(Create, None, Some(desired[id]))];
      } else if current[id] != desired[id] {
        CollectOne(raw, current, desired, idOf, seen, id);
        raw := raw + [Change(Update, Some(current[id]), Some(desired[id]))];
      }
      seen := seen + {id};
    }
    assert seen == desired.Keys;
  }

  /** The second walk: deleted ids. */
  method CollectDeleted<T(==, !new)>(before: seq<Change<T>>, current: map<string, T>, desired: map<string, T>,
                                     idOf: T -> string)
    returns (raw: seq<Change<T>>)
    requires Keyed(current, idOf) && Keyed(desired, idOf) && Collected(before, current, desired, idOf, desired.Keys)
    ensures Collected(raw, current, desired, idOf, current.Keys + desired.Keys)
  {
    raw := before;
    var todo := current.Keys;
    ghost var seen := desired.Keys;
    while todo != {}
      invariant todo <= current.Keys && desired.Keys <= seen && todo + seen == current.Keys + desired.Keys
      invariant todo * seen <= desired.Keys && Collected(raw, current, desired, idOf, seen)
      decreases todo
    {
      var id :| id in todo;
      todo := todo - {id};
      if id !in desired {
        CollectOne(raw, current, desired, idOf, seen, id);
        raw := raw + [Change(Delete, Some(current[id]), None)];
      }
      seen := seen + {id};
    }
    assert seen == current.Keys + desired.Keys;
  }

  /** The changes from one list to the other, sorted by id. */
  method DiffById<T(==, !new)>(current: seq<T>, desired: seq<T>, idOf: T -> string) returns (out: seq<Change<T>>)
    ensures IsDiff(out, ById(current, idOf), ById(desired, idOf), idOf)
  {
    var currentMap := IndexById(current, idOf);
    var desiredMap := IndexById(desired, idOf);
    var raw := CollectDesired(currentMap, desiredMap, idOf);
    raw := CollectDeleted(raw, currentMap, desiredMap, idOf);
    out := SortChanges(raw, idOf);
    SortedCollection(out, raw, currentMap, desiredMap, idOf);
  }
}
