/** The notice hub: buffered channels per subscription, non-blocking sends, closing on unsubscribe. */
module HubFanOut {
  import opened Options
  import opened Replication

  /** A Go channel as its users see it. `received` is what its reader has taken so far. */
  datatype Channel = Channel(capacity: nat, buffer: seq<Notice>, closed: bool, received: seq<Notice>)

  /** `channels` holds every channel ever made, by subscription id; `panicked` records a send on or
      a second close of a closed channel. */
  datatype HubState = HubState(subscribers: map<string, set<nat>>, channels: map<nat, Channel>, nextID: nat,
                               panicked: bool)

  datatype Event =
    | Subscribe(node: string, capacity: nat)
    | Unsubscribe(node: string, id: nat)
    | Publish(node: string, notice: Notice)
    | Broadcast(notice: Notice)
    | Receive(id: nat)

  const Fresh := HubState(map[], map[], 0, false)

  /** A send that drops the notice when the buffer is full. */
  function Offer(c: Channel, n: Notice): Channel {
    if |c.buffer| < c.capacity then c.(buffer := c.buffer + [n]) else c
  }

  function OfferAll(channels: map<nat, Channel>, ids: set<nat>, n: Notice): map<nat, Channel> {
    map id | id in channels :: if id in ids then Offer(channels[id], n) else channels[id]
  }

  function Subscribed(h: HubState, node: string): set<nat> {
    if node in h.subscribers then h.subscribers[node] else {}
  }

  function AllSubscribed(h: HubState): set<nat> {
    set node, id | node in h.subscribers && id in h.subscribers[node] :: id
  }

  predicate SomeClosed(h: HubState, ids: set<nat>) {
    exists id :: id in ids && id in h.channels && h.channels[id].closed
  }

  function Step(h: HubState, e: Event): HubState {
    match e
    case Subscribe(node, capacity) =>
      var id := h.nextID + 1;
      HubState(h.subscribers[node := Subscribed(h, node) + {id}], h.channels[id := Channel(capacity, [], false, [])],
               id, h.panicked)
    case Unsubscribe(node, id) =>
      if id !in Subscribed(h, node) || id !in h.channels then h
      else
        var rest := Subscribed(h, node) - {id};
        HubState(if rest == {} then h.subscribers - {node} else h.subscribers[node := rest],
                 h.channels[id := h.channels[id].(closed := true)], h.nextID, h.panicked || h.channels[id].closed)
    case Publish(node, n) =>
      h.(channels := OfferAll(h.channels, Subscribed(h, node), n),
         panicked := h.panicked || SomeClosed(h, Subscribed(h, node)))
    case Broadcast(n) =>
      h.(channels := OfferAll(h.channels, AllSubscribed(h), n),
         panicked := h.panicked || SomeClosed(h, AllSubscribed(h)))
    case Receive(id) =>
      if id !in h.channels || h.channels[id].buffer == [] then h
      else
        var c := h.channels[id];
        h.(channels := h.channels[id := c.(buffer := c.buffer[1..], received := c.received + [c.buffer[0]])])
  }

  function Run(events: seq<Event>): HubState {
    if events == [] then Fresh else Step(Run(events[..|events| - 1]), events[|events| - 1])
  }

  /** The open channels are exactly the registered ones, each under one node; ids come from the counter. */
  ghost predicate Valid(h: HubState) {
    && !h.panicked
    && (forall node :: node in h.subscribers ==> h.subscribers[node] != {})
    && (forall node, id :: node in h.subscribers && id in h.subscribers[node] ==>
          id in h.channels && !h.channels[id].closed)
    && (forall node, other, id ::
          node in h.subscribers && other in h.subscribers && id in h.subscribers[node] && id in h.subscribers[other] ==>
            node == other)
    && (forall id :: id in h.channels ==> 1 <= id <= h.nextID && |h.channels[id].buffer| <= h.channels[id].capacity)
    && (forall id :: id in h.channels && !h.channels[id].closed ==> id in AllSubscribed(h))
  }

  lemma ValidSubscribe(h: HubState, node: string, capacity: nat)
    requires Valid(h)
    ensures Valid(Step(h, Subscribe(node, capacity)))
  {
    var t := Step(h, Subscribe(node, capacity));
    forall m, id | m in h.subscribers && id in h.subscribers[m] ensures id != t.nextID {
      assert id in h.channels;
    }
    forall id | id in t.channels && !t.channels[id].closed ensures id in AllSubscribed(t) {
      if id in h.channels {
        var m :| m in h.subscribers && id in h.subscribers[m];
        assert m in t.subscribers && id in t.subscribers[m];
      } else {
        assert node in t.subscribers && id in t.subscribers[node];
      }
    }
  }

  lemma ValidUnsubscribe(h: HubState, node: string, id: nat)
    requires Valid(h)
    ensures Valid(Step(h, Unsubscribe(node, id)))
  {
    var t := Step(h, Unsubscribe(node, id));
    if t != h {
      forall i | i in t.channels && !t.channels[i].closed ensures i in AllSubscribed(t) {
        assert i != id && i in AllSubscribed(h);
        var m :| m in h.subscribers && i in h.subscribers[m];
        assert i in h.subscribers[m] - {id};
        assert m in t.subscribers && i in t.subscribers[m];
      }
    }
  }

  lemma ValidOffer(h: HubState, ids: set<nat>, n: Notice)
    requires Valid(h)
    ensures Valid(h.(channels := OfferAll(h.channels, ids, n)))
  {
    assert AllSubscribed(h.(channels := OfferAll(h.channels, ids, n))) == AllSubscribed(h);
  }

  lemma ValidReceive(h: HubState, id: nat)
    requires Valid(h)
    ensures Valid(Step(h, Receive(id)))
  {
    assert AllSubscribed(Step(h, Receive(id))) == AllSubscribed(h);
  }

  lemma ValidStep(h: HubState, e: Event)
    requires Valid(h)
    ensures Valid(Step(h, e))
  {
    match e
    case Subscribe(node, capacity) => ValidSubscribe(h, node, capacity);
    case Unsubscribe(node, id) => ValidUnsubscribe(h, node, id);
    case Publish(node, n) => ValidOffer(h, Subscribed(h, node), n);
    case Broadcast(n) => ValidOffer(h, AllSubscribed(h), n);
    case Receive(id) => ValidReceive(h, id);
  }

  lemma ChannelsPersist(h: HubState, e: Event)
    requires Valid(h)
    ensures h.nextID <= Step(h, e).nextID && h.channels.Keys <= Step(h, e).channels.Keys
    ensures forall id :: id in Step(h, e).channels && id !in h.channels ==> e.Subscribe? && id == h.nextID + 1
    ensures forall id :: id in h.channels && h.channels[id].closed ==> Step(h, e).channels[id].closed
  {
  }

  predicate Subsequence(a: seq<Notice>, b: seq<Notice>) {
    if a == [] || b == [] then a == []
    else (a[|a| - 1] == b[|b| - 1] && Subsequence(a[..|a| - 1], b[..|b| - 1])) || Subsequence(a, b[..|b| - 1])
  }

  predicate Reaches(h: HubState, e: Event, id: nat) {
    (e.Broadcast? && id in AllSubscribed(h)) || (e.Publish? && id in Subscribed(h, e.node))
  }

  predicate Registered(h: HubState, node: string, id: nat) { node in h.subscribers && id in h.subscribers[node] }

  /** A broadcast reaches every registered channel, a publish those registered under its node. */
  lemma ReachesIff(h: HubState, e: Event, id: nat)
    ensures Reaches(h, e, id) <==>
            || (e.Broadcast? && exists node :: Registered(h, node, id))
            || (e.Publish? && Registered(h, e.node, id))
  {
    if id in AllSubscribed(h) {
      var node :| node in h.subscribers && id in h.subscribers[node];
      assert Registered(h, node, id);
    }
    if node :| Registered(h, node, id) {
      assert id in h.subscribers[node];
    }
  }

  /** A subscription registers the next id under its node, an unsubscription ends exactly that registration, and nothing
      else changes one. */
  lemma RegistrationStep(h: HubState, e: Event, node: string, id: nat)
    requires Valid(h)
    ensures Registered(Step(h, e), node, id) <==>
            || (e.Subscribe? && e.node == node && id == h.nextID + 1)
            || (Registered(h, node, id) && e != Unsubscribe(node, id))
  {
    match e
    case Subscribe(n, capacity) =>
    case Unsubscribe(n, i) => UnsubscribeStep(h, n, i, node, id);
    case _ =>
  }

  lemma UnsubscribeStep(h: HubState, n: string, i: nat, node: string, id: nat)
    requires Valid(h)
    ensures Registered(Step(h, Unsubscribe(n, i)), node, id) <==> Registered(h, node, id) && !(n == node && i == id)
  {
    if n == node {
      assert id in Subscribed(h, n) - {i} <==> id in Subscribed(h, n) && id != i;
    }
  }

  /** A new subscription gets an empty open channel of the capacity asked for. */
  lemma NewChannel(h: HubState, node: string, capacity: nat)
    ensures var id, t := h.nextID + 1, Step(h, Subscribe(node, capacity));
            id in t.channels && t.nextID == id && t.channels[id] == Channel(capacity, [], false, [])
  {
  }

  /** The notices broadcast, or published to the subscriber's node, while `id` was registered. */
  function Offered(events: seq<Event>, id: nat): seq<Notice> {
    if events == [] then []
    else
      var e := events[|events| - 1];
      Offered(events[..|events| - 1], id) + (if Reaches(Run(events[..|events| - 1]), e, id) then [e.notice] else [])
  }

  lemma SubsequenceGrows(a: seq<Notice>, b: seq<Notice>, x: Notice)
    requires Subsequence(a, b)
    ensures Subsequence(a, b + [x]) && Subsequence(a + [x], b + [x])
  {
    assert (b + [x])[..|b|] == b && (a + [x])[..|a|] == a;
  }

  /** An event changes a channel by an offer exactly when it reaches it, or by its own receive, or by closing it. */
  lemma ChannelStep(h: HubState, e: Event, id: nat)
    requires Valid(h) && id in h.channels
    ensures id in Step(h, e).channels
    ensures var c, d := h.channels[id], Step(h, e).channels[id];
            && d.capacity == c.capacity
            && (d.closed <==> c.closed || (e.Unsubscribe? && e.id == id && Registered(h, e.node, id)))
            && if Reaches(h, e, id) then
                 d.received == c.received && d.buffer == c.buffer + if |c.buffer| < c.capacity then [e.notice] else []
               else if e == Receive(id) && c.buffer != [] then
                 d.received == c.received + [c.buffer[0]] && d.buffer == c.buffer[1..]
               else d.received == c.received && d.buffer == c.buffer
  {
  }

  lemma OfferStream(c: Channel, n: Notice, offered: seq<Notice>)
    requires Subsequence(c.received + c.buffer, offered)
    ensures Subsequence(Offer(c, n).received + Offer(c, n).buffer, offered + [n])
  {
    SubsequenceGrows(c.received + c.buffer, offered, n);
    assert c.received + (c.buffer + [n]) == c.received + c.buffer + [n];
  }

  lemma StreamStep(h: HubState, e: Event, id: nat, offered: seq<Notice>)
    requires Valid(h) && id in h.channels && Subsequence(h.channels[id].received + h.channels[id].buffer, offered)
    ensures id in Step(h, e).channels
    ensures var c := Step(h, e).channels[id];
            Subsequence(c.received + c.buffer, offered + if Reaches(h, e, id) then [e.notice] else [])
  {
    ChannelStep(h, e, id);
    if Reaches(h, e, id) {
      OfferStream(h.channels[id], e.notice, offered);
    } else {
      var c, d := h.channels[id], Step(h, e).channels[id];
      assert offered + [] == offered && d.received + d.buffer == c.received + c.buffer;
    }
  }

  /** How many of the notices offered to `id` met a full buffer. */
  function Dropped(events: seq<Event>, id: nat): nat {
    if events == [] then 0
    else
      var h, e := Run(events[..|events| - 1]), events[|events| - 1];
      Dropped(events[..|events| - 1], id)
      + if Reaches(h, e, id) && id in h.channels && |h.channels[id].buffer| == h.channels[id].capacity then 1 else 0
  }

  /** Every interleaving: nothing panics, buffers stay within capacity, and what a subscriber has received
      and still has buffered is an order-preserving subsequence of what was offered while it was registered,
      short of it by exactly the offers that met a full buffer. */
  lemma {:induction false} SubscribersGetSubsequences(events: seq<Event>, id: nat)
    ensures Valid(Run(events))
    ensures id in Run(events).channels ==>
              var c := Run(events).channels[id];
              && Subsequence(c.received + c.buffer, Offered(events, id))
              && |c.received| + |c.buffer| + Dropped(events, id) == |Offered(events, id)|
    ensures id !in Run(events).channels ==> Offered(events, id) == [] && Dropped(events, id) == 0
  {
    if events != [] {
      var init, e := events[..|events| - 1], events[|events| - 1];
      SubscribersGetSubsequences(init, id);
      ValidStep(Run(init), e);
      ChannelsPersist(Run(init), e);
      if id in Run(init).channels {
        StreamStep(Run(init), e, id, Offered(init, id));
        ChannelStep(Run(init), e, id);
      }
    }
  }

  /** A subscription id is issued once: no later subscribe can return it, and a closed channel stays closed. */
  lemma {:induction false} IdsAreNeverReused(events: seq<Event>, n: nat)
    requires n <= |events|
    ensures Run(events[..n]).nextID <= Run(events).nextID
    ensures forall id :: id in Run(events[..n]).channels ==> id in Run(events).channels && id <= Run(events).nextID
    ensures forall id :: id in Run(events[..n]).channels && Run(events[..n]).channels[id].closed ==>
              Run(events).channels[id].closed
  {
    SubscribersGetSubsequences(events[..n], 0);
    if n == |events| {
      assert events[..n] == events;
    } else {
      var init := events[..|events| - 1];
      assert init[..n] == events[..n];
      IdsAreNeverReused(init, n);
      SubscribersGetSubsequences(init, 0);
      ValidStep(Run(init), events[|events| - 1]);
      ChannelsPersist(Run(init), events[|events| - 1]);
    }
  }

  // ---- The hub as the master runs it ----------------------------------------------------------

  class Hub {
    var subscribers: map<string, set<nat>>
    var channels: map<nat, Channel>
    var nextID: nat

    ghost function State(): HubState reads this { HubState(subscribers, channels, nextID, false) }

    constructor ()
      ensures State() == Fresh
    {
      subscribers, channels, nextID := map[], map[], 0;
    }

    method SubscribeNode(node: string, capacity: nat) returns (id: nat)
      modifies this
      ensures State() == Step(old(State()), Event.Subscribe(node, capacity)) && id == nextID
    {
      nextID := nextID + 1;
      id := nextID;
      if node !in subscribers {
        subscribers := subscribers[node := {}];
      }
      channels := channels[id := Channel(capacity, [], false, [])];
      subscribers := subscribers[node := subscribers[node] + {id}];
    }

    method UnsubscribeNode(node: string, id: nat)
      requires Valid(State())
      modifies this
      ensures State() == Step(old(State()), Event.Unsubscribe(node, id))
    {
      if node !in subscribers || id !in subscribers[node] {
        return;
      }
      subscribers := subscribers[node := subscribers[node] - {id}];
      assert !channels[id].closed;
      channels := channels[id := channels[id].(closed := true)];
      if subscribers[node] == {} {
        subscribers := subscribers - {node};
      }
    }

    /** Sends to one node's channels, in any order. */
    method SendAll(ids: set<nat>, n: Notice)
      requires forall id :: id in ids ==> id in channels && !channels[id].closed
      modifies this`channels
      ensures channels == OfferAll(old(channels), ids, n)
    {
      var todo := ids;
      while todo != {}
        invariant todo <= ids
        invariant channels == OfferAll(old(channels), ids - todo, n)
        decreases todo
      {
        var id :| id in todo;
        assert !channels[id].closed;
        channels := channels[id := Offer(channels[id], n)];
        todo := todo - {id};
      }
      assert ids - todo == ids;
    }

    method PublishTo(node: string, n: Notice)
      requires Valid(State())
      modifies this
      ensures State() == Step(old(State()), Event.Publish(node, n))
    {
      SendAll(if node in subscribers then subscribers[node] else {}, n);
    }

    method BroadcastToAll(n: Notice)
      requires Valid(State())
      modifies this
      ensures State() == Step(old(State()), Event.Broadcast(n))
    {
      var todo := subscribers.Keys;
      while todo != {}
        invariant todo <= subscribers.Keys
        invariant subscribers == old(subscribers) && nextID == old(nextID)
        invariant channels == OfferAll(old(channels), Reached(subscribers, subscribers.Keys - todo), n)
        decreases todo
      {
        var node :| node in todo;
        ReachedNext(old(State()), subscribers.Keys - todo, node, n);
        SendAll(subscribers[node], n);
        assert subscribers.Keys - (todo - {node}) == subscribers.Keys - todo + {node};
        todo := todo - {node};
      }
      assert Reached(subscribers, subscribers.Keys - todo) == AllSubscribed(old(State()));
    }
  }

  function Reached(subscribers: map<string, set<nat>>, nodes: set<string>): set<nat> {
    set node, id | node in subscribers && node in nodes && id in subscribers[node] :: id
  }

  lemma ReachedNext(h: HubState, nodes: set<string>, node: string, n: Notice)
    requires Valid(h) && nodes <= h.subscribers.Keys && node in h.subscribers && node !in nodes
    ensures var before := OfferAll(h.channels, Reached(h.subscribers, nodes), n);
            && (forall id :: id in h.subscribers[node] ==> id in before && !before[id].closed)
            && OfferAll(before, h.subscribers[node], n)
            == OfferAll(h.channels, Reached(h.subscribers, nodes + {node}), n)
  {
  }
}
