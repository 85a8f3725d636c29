/** The slave's two receive loops over a store: catch-up chunks and change notices. */
module Subscriber {
  import opened Options
  import opened Replication
  import opened SlaveStore
  import opened Protocol

  /** What a snapshot stream delivers before it breaks; `None` is an empty message. */
  type ChunkStream = seq<Option<Snapshot>>

  /** How a subscription ends: server close, a broken or refused stream, or a rejected notice. */
  datatype End = Closed | Broken | Rejected

  function CatchUpEffect(s: Store, stream: ChunkStream): (Store, bool)
    decreases stream
  {
    if stream == [] then (s, false)
    else if stream[0].None? then CatchUpEffect(s, stream[1..])
    else
      var next := ApplySnapshot(s, stream[0].value);
      if stream[0].value.last then (next, true) else CatchUpEffect(next, stream[1..])
  }

  /** `catchUps` are the streams that successive catch-ups would open; once they run out opening fails. */
  ghost function FollowEffect(s: Store, cursor: nat, notices: seq<Option<Notice>>,
                              catchUps: seq<ChunkStream>): (Store, End)
    decreases notices
  {
    if notices == [] then (s, Closed)
    else if notices[0].None? then FollowEffect(s, cursor, notices[1..], catchUps)
    else match React(s, cursor, notices[0].value)
      case Ignore => FollowEffect(s, cursor, notices[1..], catchUps)
      case Advance(next, c) => FollowEffect(next, c, notices[1..], catchUps)
      case Fail => (s, Rejected)
      case CatchUp =>
        if catchUps == [] then (s, Broken)
        else
          var (next, ok) := CatchUpEffect(s, catchUps[0]);
          if ok then FollowEffect(next, Cursor(next), notices[1..], catchUps[1..]) else (next, Broken)
  }

  ghost function SubscribeEffect(s: Store, notices: seq<Option<Notice>>, catchUps: seq<ChunkStream>): (Store, End) {
    if catchUps == [] then (s, Broken)
    else
      var (next, ok) := CatchUpEffect(s, catchUps[0]);
      if ok then FollowEffect(next, Cursor(next), notices, catchUps[1..]) else (next, Broken)
  }

  method CatchUpSnapshots(store: LocalStore, stream: ChunkStream) returns (ok: bool)
    modifies store
    ensures (store.State(), ok) == CatchUpEffect(old(store.State()), stream)
  {
    var i := 0;
    while i < |stream|
      invariant i <= |stream|
      invariant CatchUpEffect(old(store.State()), stream) == CatchUpEffect(store.State(), stream[i..])
    {
      assert stream[i..][1..] == stream[i + 1..];
      if stream[i].Some? {
        store.ApplySnapshotChunk(stream[i].value);
        if stream[i].value.last {
          return true;
        }
      }
      i := i + 1;
    }
    return false;
  }

  method Subscribe(store: LocalStore, notices: seq<Option<Notice>>, catchUps: seq<ChunkStream>) returns (end: End)
    modifies store
    ensures (store.State(), end) == SubscribeEffect(old(store.State()), notices, catchUps)
  {
    if catchUps == [] {
      return Broken;
    }
    var ok := CatchUpSnapshots(store, catchUps[0]);
    if !ok {
      return Broken;
    }
    var cursor := store.GetSnapshotRecordID();
    var i, j := 0, 1;
    while i < |notices|
      invariant i <= |notices| && 1 <= j <= |catchUps|
      invariant SubscribeEffect(old(store.State()), notices, catchUps)
             == FollowEffect(store.State(), cursor, notices[i..], catchUps[j..])
    {
      assert notices[i..][1..] == notices[i + 1..] && (j < |catchUps| ==> catchUps[j..][1..] == catchUps[j + 1..]);
      var notice := notices[i];
      i := i + 1;
      if notice.None? || notice.value.id <= cursor {
        continue;
      }
      if notice.value.id > cursor + 1 {
        if j == |catchUps| {
          return Broken;
        }
        ok := CatchUpSnapshots(store, catchUps[j]);
        if !ok {
          return Broken;
        }
        cursor := store.GetSnapshotRecordID();
        j := j + 1;
        continue;
      }
      var applied := store.ApplyNotice(notice.value);
      if applied.OutOfOrder? {
        return Rejected;
      }
      cursor := notice.value.id;
    }
    return Closed;
  }

  /** What a stream's first message does: an empty one nothing, a chunk is applied, and the last chunk ends it. */
  lemma CatchUpLaws(s: Store, c: Snapshot, rest: ChunkStream)
    ensures CatchUpEffect(s, []) == (s, false)
    ensures CatchUpEffect(s, [None] + rest) == CatchUpEffect(s, rest)
    ensures CatchUpEffect(s, [Some(c)] + rest)
         == if c.last then (ApplySnapshot(s, c), true) else CatchUpEffect(ApplySnapshot(s, c), rest)
  {
    assert ([None] + rest)[1..] == rest && ([Some(c)] + rest)[1..] == rest;
  }

  /** What the first notice does, by its id: one at or below the cursor nothing; one beyond the next starts a catch-up
      from which the loop goes on without it; the next one is stored and moves both cursors. */
  lemma FollowLaws(s: Store, n: Notice, rest: seq<Option<Notice>>, catchUps: seq<ChunkStream>)
    ensures FollowEffect(s, Cursor(s), [], catchUps) == (s, Closed)
    ensures FollowEffect(s, Cursor(s), [None] + rest, catchUps) == FollowEffect(s, Cursor(s), rest, catchUps)
    ensures n.id <= Cursor(s) ==>
              FollowEffect(s, Cursor(s), [Some(n)] + rest, catchUps) == FollowEffect(s, Cursor(s), rest, catchUps)
    ensures n.id == Cursor(s) + 1 ==>
              FollowEffect(s, Cursor(s), [Some(n)] + rest, catchUps)
              == FollowEffect(Put(s, n.id, NoticeEntries(n)), n.id, rest, catchUps)
    ensures n.id > Cursor(s) + 1 ==>
              FollowEffect(s, Cursor(s), [Some(n)] + rest, catchUps) ==
              if catchUps == [] then (s, Broken)
              else
                var (next, ok) := CatchUpEffect(s, catchUps[0]);
                if ok then FollowEffect(next, Cursor(next), rest, catchUps[1..]) else (next, Broken)
  {
    assert ([None] + rest)[1..] == rest && ([Some(n)] + rest)[1..] == rest;
  }

  lemma {:induction false} CatchUpCursor(s: Store, stream: ChunkStream)
    ensures Cursor(CatchUpEffect(s, stream).0) >= Cursor(s)
    decreases stream
  {
    if stream != [] {
      if stream[0].Some? {
        SnapshotCursor(s, stream[0].value);
        CatchUpCursor(ApplySnapshot(s, stream[0].value), stream[1..]);
      } else {
        CatchUpCursor(s, stream[1..]);
      }
    }
  }

  lemma {:induction false} FollowNeverRejects(s: Store, notices: seq<Option<Notice>>, catchUps: seq<ChunkStream>)
    requires forall i :: 0 <= i < |notices| && notices[i].Some? ==> CarriesEntry(notices[i].value)
    ensures var (t, end) := FollowEffect(s, Cursor(s), notices, catchUps); end != Rejected && Cursor(t) >= Cursor(s)
    decreases notices
  {
    if notices != [] {
      if notices[0].None? {
        FollowNeverRejects(s, notices[1..], catchUps);
      } else {
        ReactionKeepsCursor(s, notices[0].value);
        match React(s, Cursor(s), notices[0].value)
        case Ignore => FollowNeverRejects(s, notices[1..], catchUps);
        case Advance(next, c) => FollowNeverRejects(next, notices[1..], catchUps);
        case CatchUp =>
          if catchUps != [] {
            CatchUpCursor(s, catchUps[0]);
            FollowNeverRejects(CatchUpEffect(s, catchUps[0]).0, notices[1..], catchUps[1..]);
          }
      }
    }
  }

  /** Whatever the streams deliver, a subscription whose notices carry entries never meets the out-of-order error
      and never moves the stored cursor back. */
  lemma SubscribeNeverRejects(s: Store, notices: seq<Option<Notice>>, catchUps: seq<ChunkStream>)
    requires forall i :: 0 <= i < |notices| && notices[i].Some? ==> CarriesEntry(notices[i].value)
    ensures var (t, end) := SubscribeEffect(s, notices, catchUps); end != Rejected && Cursor(t) >= Cursor(s)
  {
    if catchUps != [] {
      CatchUpCursor(s, catchUps[0]);
      FollowNeverRejects(CatchUpEffect(s, catchUps[0]).0, notices, catchUps[1..]);
    }
  }

  // ---- Exactly which notices are rejected -----------------------------------------------------------

  /** The first notice beyond `cursor` is the very next one. */
  predicate NextFollows(cursor: nat, notices: seq<Option<Notice>>)
    decreases notices
  {
    && notices != []
    && if notices[0].None? || notices[0].value.id <= cursor then NextFollows(cursor, notices[1..])
       else notices[0].value.id == cursor + 1
  }

  /** Notice `i` is empty, is next to the stored cursor when it comes, and its successor comes before any gap. */
  ghost predicate Overruns(s: Store, cursor: nat, notices: seq<Option<Notice>>, catchUps: seq<ChunkStream>, i: nat) {
    && i < |notices| && notices[i].Some? && !CarriesEntry(notices[i].value)
    && FollowEffect(s, cursor, notices[..i], catchUps).1.Closed?
    && notices[i].value.id == Cursor(FollowEffect(s, cursor, notices[..i], catchUps).0) + 1
    && NextFollows(notices[i].value.id, notices[i + 1..])
  }

  ghost predicate SomeOverruns(s: Store, cursor: nat, notices: seq<Option<Notice>>, catchUps: seq<ChunkStream>) {
    exists i: nat :: Overruns(s, cursor, notices, catchUps, i)
  }

  /** If the first notice only leads from one state of the loop to another, the later ones overrun alike. */
  lemma OverrunsLater(s: Store, cursor: nat, catchUps: seq<ChunkStream>, s': Store, cursor': nat,
                      catchUps': seq<ChunkStream>, notices: seq<Option<Notice>>, i: nat)
    requires notices != []
    requires forall rest :: FollowEffect(s, cursor, [notices[0]] + rest, catchUps)
                            == FollowEffect(s', cursor', rest, catchUps')
    ensures Overruns(s, cursor, notices, catchUps, i + 1) <==> Overruns(s', cursor', notices[1..], catchUps', i)
  {
    if i + 1 < |notices| {
      assert notices[..i + 1] == [notices[0]] + notices[1..][..i];
      assert notices[i + 2..] == notices[1..][i + 1..];
    }
  }

  lemma SomeOverrunsLater(s: Store, cursor: nat, catchUps: seq<ChunkStream>, s': Store, cursor': nat,
                          catchUps': seq<ChunkStream>, notices: seq<Option<Notice>>)
    requires notices != []
    requires forall rest :: FollowEffect(s, cursor, [notices[0]] + rest, catchUps)
                            == FollowEffect(s', cursor', rest, catchUps')
    ensures SomeOverruns(s, cursor, notices, catchUps) <==>
            Overruns(s, cursor, notices, catchUps, 0) || SomeOverruns(s', cursor', notices[1..], catchUps')
  {
    if i: nat :| Overruns(s, cursor, notices, catchUps, i) && i > 0 {
      OverrunsLater(s, cursor, catchUps, s', cursor', catchUps', notices, i - 1);
    }
    if i: nat :| Overruns(s', cursor', notices[1..], catchUps', i) {
      OverrunsLater(s, cursor, catchUps, s', cursor', catchUps', notices, i);
    }
  }

  lemma FirstOverruns(s: Store, cursor: nat, notices: seq<Option<Notice>>, catchUps: seq<ChunkStream>)
    requires notices != []
    ensures Overruns(s, cursor, notices, catchUps, 0) <==>
            && notices[0].Some? && !CarriesEntry(notices[0].value) && notices[0].value.id == Cursor(s) + 1
            && NextFollows(notices[0].value.id, notices[1..])
  {
    assert notices[..0] == [];
  }

  /** After an empty notice the loop's cursor is one ahead of the stored one; that is all it can ever be ahead. */
  ghost predicate Rejects(s: Store, cursor: nat, notices: seq<Option<Notice>>, catchUps: seq<ChunkStream>) {
    || (cursor == Cursor(s) + 1 && NextFollows(cursor, notices))
    || SomeOverruns(s, cursor, notices, catchUps)
  }

  lemma IgnoredRejects(s: Store, cursor: nat, notices: seq<Option<Notice>>, catchUps: seq<ChunkStream>)
    requires notices != [] && (notices[0].None? || notices[0].value.id <= cursor)
    requires cursor == Cursor(s) || cursor == Cursor(s) + 1
    ensures Rejects(s, cursor, notices, catchUps) <==> Rejects(s, cursor, notices[1..], catchUps)
  {
    forall rest
      ensures FollowEffect(s, cursor, [notices[0]] + rest, catchUps) == FollowEffect(s, cursor, rest, catchUps)
    {
      assert ([notices[0]] + rest)[1..] == rest;
    }
    SomeOverrunsLater(s, cursor, catchUps, s, cursor, catchUps, notices);
    FirstOverruns(s, cursor, notices, catchUps);
  }

  lemma CaughtUpRejects(s: Store, cursor: nat, notices: seq<Option<Notice>>, catchUps: seq<ChunkStream>)
    requires notices != [] && notices[0].Some? && notices[0].value.id > cursor + 1 && cursor >= Cursor(s)
    ensures Rejects(s, cursor, notices, catchUps) <==>
            && catchUps != [] && CatchUpEffect(s, catchUps[0]).1
            && var next := CatchUpEffect(s, catchUps[0]).0;
               SomeOverruns(next, Cursor(next), notices[1..], catchUps[1..])
  {
    FirstOverruns(s, cursor, notices, catchUps);
    if catchUps != [] && CatchUpEffect(s, catchUps[0]).1 {
      var next := CatchUpEffect(s, catchUps[0]).0;
      forall rest
        ensures FollowEffect(s, cursor, [notices[0]] + rest, catchUps)
             == FollowEffect(next, Cursor(next), rest, catchUps[1..])
      {
        assert ([notices[0]] + rest)[1..] == rest;
      }
      SomeOverrunsLater(s, cursor, catchUps, next, Cursor(next), catchUps[1..], notices);
    } else {
      forall i: nat ensures !Overruns(s, cursor, notices, catchUps, i) {
        BrokenPrefix(s, cursor, notices, catchUps, i);
      }
    }
  }

  lemma BrokenPrefix(s: Store, cursor: nat, notices: seq<Option<Notice>>, catchUps: seq<ChunkStream>, i: nat)
    requires notices != [] && notices[0].Some? && notices[0].value.id > cursor + 1
    requires catchUps == [] || !CatchUpEffect(s, catchUps[0]).1
    ensures 0 < i <= |notices| ==> FollowEffect(s, cursor, notices[..i], catchUps).1.Broken?
  {
  }

  lemma AppliedRejects(s: Store, n: Notice, notices: seq<Option<Notice>>, catchUps: seq<ChunkStream>)
    requires notices != [] && notices[0] == Some(n) && n.id == Cursor(s) + 1
    ensures var next := Put(s, n.id, NoticeEntries(n));
            Rejects(s, Cursor(s), notices, catchUps) <==> Rejects(next, n.id, notices[1..], catchUps)
  {
    var next := Put(s, n.id, NoticeEntries(n));
    PutCursor(s, n.id, NoticeEntries(n));
    forall rest
      ensures FollowEffect(s, Cursor(s), [notices[0]] + rest, catchUps) == FollowEffect(next, n.id, rest, catchUps)
    {
      assert ([notices[0]] + rest)[1..] == rest;
    }
    SomeOverrunsLater(s, Cursor(s), catchUps, next, n.id, catchUps, notices);
    FirstOverruns(s, Cursor(s), notices, catchUps);
  }

  lemma {:induction false} FollowRejectsIff(s: Store, cursor: nat, notices: seq<Option<Notice>>,
                                            catchUps: seq<ChunkStream>)
    requires cursor == Cursor(s) || cursor == Cursor(s) + 1
    ensures FollowEffect(s, cursor, notices, catchUps).1.Rejected? <==> Rejects(s, cursor, notices, catchUps)
    decreases notices
  {
    if notices != [] {
      if notices[0].None? || notices[0].value.id <= cursor {
        IgnoredRejects(s, cursor, notices, catchUps);
        FollowRejectsIff(s, cursor, notices[1..], catchUps);
      } else if notices[0].value.id > cursor + 1 {
        CaughtUpRejects(s, cursor, notices, catchUps);
        if catchUps != [] && CatchUpEffect(s, catchUps[0]).1 {
          var next := CatchUpEffect(s, catchUps[0]).0;
          FollowRejectsIff(next, Cursor(next), notices[1..], catchUps[1..]);
        }
      } else if cursor == Cursor(s) {
        var n := notices[0].value;
        AppliedRejects(s, n, notices, catchUps);
        PutCursor(s, n.id, NoticeEntries(n));
        FollowRejectsIff(Put(s, n.id, NoticeEntries(n)), n.id, notices[1..], catchUps);
      }
    }
  }

  /** Whatever the streams deliver: a subscription meets the out-of-order error if and only if, after its first
      catch-up, an empty notice next to the stored cursor comes and then its successor before any gap. */
  lemma SubscribeRejectsIff(s: Store, notices: seq<Option<Notice>>, catchUps: seq<ChunkStream>)
    ensures SubscribeEffect(s, notices, catchUps).1.Rejected? <==>
            && catchUps != [] && CatchUpEffect(s, catchUps[0]).1
            && var next := CatchUpEffect(s, catchUps[0]).0;
               SomeOverruns(next, Cursor(next), notices, catchUps[1..])
  {
    if catchUps != [] {
      var next := CatchUpEffect(s, catchUps[0]).0;
      FollowRejectsIff(next, Cursor(next), notices, catchUps[1..]);
    }
  }

  /** The premise is needed: after an empty notice the loop's cursor runs ahead of the stored one. */
  lemma EmptyNoticeLeadsToReject(e: Entry)
    ensures var empty, next := Notice(1, None, None), Notice(2, Some(e), None);
            FollowEffect(Empty, 0, [Some(empty), Some(next)], []) == (Empty, Rejected)
  {
    var empty, next := Notice(1, None, None), Notice(2, Some(e), None);
    assert Cursor(Empty) == 0;
    assert ApplyChangelog(Empty, empty) == (Empty, Ok);
    assert [Some(empty), Some(next)][1..] == [Some(next)];
    assert React(Empty, 1, next) == Fail;
  }
}
