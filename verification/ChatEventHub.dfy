/** The hub that numbers the events of a chat session, keeps them for replay, and fans
    them out to bounded channels. Session ids are those left by TrimSpace. */
module ChatEvents {
  import opened Wrappers

  type SubscriberId = nat

  const BUFFER: nat := 128

  datatype Event = Event(kind: string, id: nat, session: string, payload: string)

  predicate Terminal(kind: string) {
    kind == "done" || kind == "error" || kind == "model_error" || kind == "interrupted"
  }

  /** A Go channel with its history: what was ever sent, how much of it was received, how
      often it was closed, and whether it was closed because it was full. */
  datatype Channel = Channel(sent: seq<Event>, received: nat, closes: nat, dropped: bool)

  predicate Room(c: Channel) { |c.sent| < c.received + BUFFER }

  /** One chatEventSession. A hub keeps the old ones here only to speak about them. */
  datatype Epoch = Epoch(session: string, nextID: nat, events: seq<Event>, done: bool, subscribers: set<SubscriberId>)

  /** What a call of subscribe was given and what it returned, with the last id of then. */
  datatype Subscription = Subscription(epoch: nat, after: nat, base: nat, replay: seq<Event>)

  datatype Hub = Hub(
    epochs: seq<Epoch>,
    sessions: map<string, nat>,
    nextSubscriberID: nat,
    channels: map<SubscriberId, Channel>,
    taken: map<SubscriberId, Subscription>)

  const EMPTY: Hub := Hub([], map[], 0, map[], map[])

  // ---------- operations ----------

  /** The events a client that has seen everything up to an id still needs. */
  function Above(events: seq<Event>, after: nat): seq<Event> {
    if events == [] then []
    else if events[|events| - 1].id > after then Above(events[..|events| - 1], after) + [events[|events| - 1]]
    else Above(events[..|events| - 1], after)
  }

  predicate PointsInside(h: Hub) { forall s :: s in h.sessions ==> h.sessions[s] < |h.epochs| }

  function AddEpoch(h: Hub, session: string): Hub {
    h.(epochs := h.epochs + [Epoch(session, 0, [], false, {})], sessions := h.sessions[session := |h.epochs|])
  }

  /** publish starts over when the session is unknown or done. */
  function Open(h: Hub, session: string): Hub
    requires PointsInside(h)
  {
    if session in h.sessions && !h.epochs[h.sessions[session]].done then h else AddEpoch(h, session)
  }

  function Stamp(e: Epoch, event: Event): Event {
    event.(id := e.nextID + 1, session := if event.session == "" then e.session else event.session)
  }

  function Close(c: Channel): Channel { c.(closes := c.closes + 1) }

  /** select { case subscriber <- event: default: close(subscriber) } */
  function Send(c: Channel, event: Event): Channel {
    if Room(c) then c.(sent := c.sent + [event]) else Close(c).(dropped := true)
  }

  function Deliver(c: Channel, event: Event): Channel {
    if Terminal(event.kind) && Room(c) then Close(Send(c, event)) else Send(c, event)
  }

  function Extended(h: Hub, e: Epoch, event: Event): Epoch
    requires e.subscribers <= h.channels.Keys
  {
    e.(nextID := e.nextID + 1, events := e.events + [event], done := e.done || Terminal(event.kind),
       subscribers := if Terminal(event.kind) then {}
                      else set id | id in e.subscribers && Room(h.channels[id]))
  }

  function PublishIn(h: Hub, i: nat, event: Event): Hub
    requires i < |h.epochs| && h.epochs[i].subscribers <= h.channels.Keys
  {
    var e := h.epochs[i];
    var stamped := Stamp(e, event);
    h.(epochs := h.epochs[i := Extended(h, e, stamped)],
       channels := map id | id in h.channels ::
         if id in e.subscribers then Deliver(h.channels[id], stamped) else h.channels[id])
  }

  function Subscribe(h: Hub, session: string, after: nat): (Hub, Option<SubscriberId>)
    requires PointsInside(h)
  {
    var h' := if session in h.sessions then h else AddEpoch(h, session);
    var i := h'.sessions[session];
    var e := h'.epochs[i];
    if e.done then (h', None) else (Register(h', i, after), Some(h'.nextSubscriberID + 1))
  }

  function Register(h: Hub, i: nat, after: nat): Hub
    requires i < |h.epochs|
  {
    var e := h.epochs[i];
    var id := h.nextSubscriberID + 1;
    h.(nextSubscriberID := id,
       epochs := h.epochs[i := e.(subscribers := e.subscribers + {id})],
       channels := h.channels[id := Channel([], 0, 0, false)],
       taken := h.taken[id := Subscription(i, after, |e.events|, Above(e.events, after))])
  }

  function Publish(h: Hub, session: string, event: Event): Hub
    requires PointsInside(h) && (forall i :: 0 <= i < |h.epochs| ==> h.epochs[i].subscribers <= h.channels.Keys)
  {
    var h' := Open(h, session);
    PublishIn(h', h'.sessions[session], event)
  }

  function Remove(h: Hub, i: nat, ids: set<SubscriberId>): Hub
    requires i < |h.epochs|
  {
    h.(epochs := h.epochs[i := h.epochs[i].(subscribers := h.epochs[i].subscribers - ids)])
  }

  function Unsubscribe(h: Hub, session: string, id: SubscriberId): Hub
    requires PointsInside(h)
  {
    if session in h.sessions then Remove(h, h.sessions[session], {id}) else h
  }

  function CloseAll(h: Hub, ids: set<SubscriberId>): Hub {
    h.(channels := map id | id in h.channels :: if id in ids then Close(h.channels[id]) else h.channels[id])
  }

  function Delete(h: Hub, session: string): Hub
    requires PointsInside(h)
  {
    if session !in h.sessions then h
    else
      var i := h.sessions[session];
      var ids := h.epochs[i].subscribers;
      Remove(CloseAll(h, ids), i, ids).(sessions := h.sessions - {session})
  }

  function Receive(h: Hub, id: SubscriberId): Hub
    requires id in h.channels
  {
    var c := h.channels[id];
    if c.received < |c.sent| then h.(channels := h.channels[id := c.(received := c.received + 1)]) else h
  }

  // ---------- the invariant ----------

  predicate EpochOk(h: Hub, i: nat)
    requires i < |h.epochs|
  {
    var e := h.epochs[i];
    && e.nextID == |e.events|
    && (forall k :: 0 <= k < |e.events| ==> e.events[k].id == k + 1)
    && (forall k :: 0 <= k < |e.events| - 1 ==> !Terminal(e.events[k].kind))
    && (e.done <==> e.events != [] && Terminal(e.events[|e.events| - 1].kind))
    && (e.subscribers != {} ==> !e.done && e.session in h.sessions && h.sessions[e.session] == i)
    && (forall id :: id in e.subscribers ==> id in h.taken && id in h.channels && h.taken[id].epoch == i)
  }

  predicate Frozen(h: Hub, i: nat)
    requires i < |h.epochs|
  {
    h.epochs[i].done || h.epochs[i].session !in h.sessions || h.sessions[h.epochs[i].session] != i
  }

  function Min(a: nat, b: nat): nat { if a < b then a else b }

  /** One subscriber: what it was replayed and sent are consecutive events of its epoch. */
  predicate SubscriberOk(h: Hub, id: SubscriberId)
    requires id in h.taken && id in h.channels && h.taken[id].epoch < |h.epochs|
  {
    var t, c := h.taken[id], h.channels[id];
    var e := h.epochs[t.epoch];
    && id <= h.nextSubscriberID
    && c.received <= |c.sent| <= c.received + BUFFER
    && t.base + |c.sent| <= |e.events|
    && t.replay == e.events[Min(t.after, t.base)..t.base]
    && c.sent == e.events[t.base..t.base + |c.sent|]
    && c.closes <= 1
    && (c.dropped ==> c.closes == 1 && BUFFER <= |c.sent|)
    && (id in e.subscribers ==> c.closes == 0 && t.base + |c.sent| == |e.events|)
    && (c.closes == 1 && !c.dropped ==> Frozen(h, t.epoch) && t.base + |c.sent| == |e.events|)
  }

  ghost predicate Valid(h: Hub) {
    && (forall s :: s in h.sessions ==> h.sessions[s] < |h.epochs| && h.epochs[h.sessions[s]].session == s)
    && h.taken.Keys == h.channels.Keys
    && (forall i :: 0 <= i < |h.epochs| ==> EpochOk(h, i))
    && (forall id :: id in h.taken ==> h.taken[id].epoch < |h.epochs| && SubscriberOk(h, id))
  }

  // ---------- each operation keeps it ----------

  lemma {:induction false} AboveIsSuffix(events: seq<Event>, after: nat)
    requires forall k :: 0 <= k < |events| ==> events[k].id == k + 1
    ensures Above(events, after) == events[Min(after, |events|)..]
  {
    if events != [] {
      var front, last := events[..|events| - 1], events[|events| - 1];
      assert forall k :: 0 <= k < |front| ==> front[k] == events[k];
      AboveIsSuffix(front, after);
      hide Above;
      if last.id > after { assert events[Min(after, |events|)..] == front[Min(after, |front|)..] + [last]; }
    }
  }

  lemma {:induction false} SubscribedHere(h: Hub, i: nat, id: SubscriberId)
    requires Valid(h) && i < |h.epochs| && id in h.epochs[i].subscribers
    ensures id in h.taken && id in h.channels && h.taken[id].epoch == i && !h.epochs[i].done
    ensures h.epochs[i].session in h.sessions && h.sessions[h.epochs[i].session] == i
  {
    assert EpochOk(h, i);
  }

  lemma AddEpochKeepsSubscriber(h: Hub, session: string, id: SubscriberId)
    requires PointsInside(h) && id in h.taken && id in h.channels && h.taken[id].epoch < |h.epochs|
    requires SubscriberOk(h, id)
    ensures SubscriberOk(AddEpoch(h, session), id)
  {
  }

  lemma AddEpochKeepsEpoch(h: Hub, session: string, i: nat)
    requires PointsInside(h) && i <= |h.epochs|
    requires session in h.sessions ==> h.epochs[h.sessions[session]].done
    requires i < |h.epochs| ==> EpochOk(h, i)
    ensures EpochOk(AddEpoch(h, session), i)
  {
  }

  lemma {:induction false} AddEpochKeepsValid(h: Hub, session: string)
    requires Valid(h)
    requires session in h.sessions ==> h.epochs[h.sessions[session]].done
    ensures Valid(AddEpoch(h, session))
  {
    hide EpochOk, SubscriberOk;
    var h' := AddEpoch(h, session);
    forall i | 0 <= i < |h'.epochs| ensures EpochOk(h', i) { AddEpochKeepsEpoch(h, session, i); }
    forall id | id in h'.taken ensures h'.taken[id].epoch < |h'.epochs| && SubscriberOk(h', id) {
      AddEpochKeepsSubscriber(h, session, id);
    }
  }

  lemma RemoveKeepsEpoch(h: Hub, i: nat, ids: set<SubscriberId>, j: nat)
    requires i < |h.epochs| && j < |h.epochs| && EpochOk(h, j)
    ensures EpochOk(Remove(h, i, ids), j)
  {
  }

  lemma RemoveKeepsSubscriber(h: Hub, i: nat, ids: set<SubscriberId>, id: SubscriberId)
    requires i < |h.epochs| && id in h.taken && id in h.channels && h.taken[id].epoch < |h.epochs| && SubscriberOk(h, id)
    ensures SubscriberOk(Remove(h, i, ids), id)
  {
  }

  lemma {:induction false} RemoveKeepsValid(h: Hub, i: nat, ids: set<SubscriberId>)
    requires Valid(h) && i < |h.epochs|
    ensures Valid(Remove(h, i, ids))
  {
    hide EpochOk, SubscriberOk;
    var h' := Remove(h, i, ids);
    forall j | 0 <= j < |h'.epochs| ensures EpochOk(h', j) { RemoveKeepsEpoch(h, i, ids, j); }
    forall id | id in h'.taken ensures h'.taken[id].epoch < |h'.epochs| && SubscriberOk(h', id) {
      RemoveKeepsSubscriber(h, i, ids, id);
    }
  }

  lemma {:induction false} DeleteLeaves(h: Hub, session: string, id: SubscriberId)
    requires Valid(h) && session in h.sessions && id in h.taken && id !in h.epochs[h.sessions[session]].subscribers
    ensures SubscriberOk(Delete(h, session), id)
  {
    assert SubscriberOk(h, id);
    hide EpochOk, Valid;
  }

  lemma {:induction false} DeleteCloses(h: Hub, session: string, id: SubscriberId)
    requires Valid(h) && session in h.sessions && id in h.taken && id in h.epochs[h.sessions[session]].subscribers
    ensures SubscriberOk(Delete(h, session), id)
  {
    assert SubscriberOk(h, id);
    SubscribedHere(h, h.sessions[session], id);
    hide EpochOk, Valid;
  }

  lemma {:induction false} DeleteKeepsSubscriber(h: Hub, session: string, id: SubscriberId)
    requires Valid(h) && session in h.sessions && id in h.taken
    ensures SubscriberOk(Delete(h, session), id)
  {
    if id in h.epochs[h.sessions[session]].subscribers {
      DeleteCloses(h, session, id);
    } else {
      DeleteLeaves(h, session, id);
    }
    hide *;
  }

  lemma {:induction false} DeleteKeepsEpoch(h: Hub, session: string, j: nat)
    requires Valid(h) && session in h.sessions && j < |h.epochs|
    ensures EpochOk(Delete(h, session), j)
  {
    assert EpochOk(h, j);
    hide SubscriberOk;
  }

  lemma {:induction false} DeleteKeepsValid(h: Hub, session: string)
    requires Valid(h)
    ensures Valid(Delete(h, session))
  {
    hide EpochOk, SubscriberOk;
    var h' := Delete(h, session);
    if session in h.sessions {
      forall j | 0 <= j < |h'.epochs| ensures EpochOk(h', j) { DeleteKeepsEpoch(h, session, j); }
      forall id | id in h'.taken ensures h'.taken[id].epoch < |h'.epochs| && SubscriberOk(h', id) {
        DeleteKeepsSubscriber(h, session, id);
      }
    }
  }

  lemma {:induction false} FreshId(h: Hub)
    requires Valid(h)
    ensures h.nextSubscriberID + 1 !in h.taken
  {
    forall id | id in h.taken ensures id <= h.nextSubscriberID { assert SubscriberOk(h, id); }
  }

  lemma {:induction false} RegisterNew(h: Hub, i: nat, after: nat)
    requires Valid(h) && i < |h.epochs|
    ensures SubscriberOk(Register(h, i, after), h.nextSubscriberID + 1)
  {
    assert EpochOk(h, i);
    var events := h.epochs[i].events;
    AboveIsSuffix(events, after);
    hide EpochOk, Valid, Above;
    assert events[Min(after, |events|)..] == events[Min(after, |events|)..|events|];
  }

  lemma {:induction false} RegisterKeepsEpoch(h: Hub, i: nat, after: nat, j: nat)
    requires Valid(h) && i < |h.epochs| && !h.epochs[i].done && j < |h.epochs|
    requires h.epochs[i].session in h.sessions && h.sessions[h.epochs[i].session] == i
    ensures EpochOk(Register(h, i, after), j)
  {
    FreshId(h);
    assert EpochOk(h, j);
    hide SubscriberOk, Above;
  }

  lemma {:induction false} RegisterKeepsSubscriber(h: Hub, i: nat, after: nat, id: SubscriberId)
    requires Valid(h) && i < |h.epochs| && id in h.taken
    ensures SubscriberOk(Register(h, i, after), id)
  {
    FreshId(h);
    assert SubscriberOk(h, id);
    hide EpochOk, Above, Valid;
  }

  lemma {:induction false} RegisterKeepsValid(h: Hub, i: nat, after: nat)
    requires Valid(h) && i < |h.epochs| && !h.epochs[i].done
    requires h.epochs[i].session in h.sessions && h.sessions[h.epochs[i].session] == i
    ensures Valid(Register(h, i, after))
  {
    hide EpochOk, SubscriberOk, Above;
    var h' := Register(h, i, after);
    forall j | 0 <= j < |h'.epochs| ensures EpochOk(h', j) { RegisterKeepsEpoch(h, i, after, j); }
    forall id | id in h'.taken ensures h'.taken[id].epoch < |h'.epochs| && SubscriberOk(h', id) {
      if id == h.nextSubscriberID + 1 { RegisterNew(h, i, after); }
      else { RegisterKeepsSubscriber(h, i, after, id); }
    }
  }

  lemma {:induction false} ReceiveKeepsSubscriber(h: Hub, id: SubscriberId, k: SubscriberId)
    requires Valid(h) && id in h.channels && k in h.taken
    ensures SubscriberOk(Receive(h, id), k)
  {
    assert SubscriberOk(h, k);
    hide EpochOk, Valid;
  }

  lemma {:induction false} ReceiveKeepsValid(h: Hub, id: SubscriberId)
    requires Valid(h) && id in h.channels
    ensures Valid(Receive(h, id))
  {
    hide SubscriberOk;
    var h' := Receive(h, id);
    forall j | 0 <= j < |h'.epochs| ensures EpochOk(h', j) { assert EpochOk(h, j); }
    forall k | k in h'.taken ensures h'.taken[k].epoch < |h'.epochs| && SubscriberOk(h', k) {
      ReceiveKeepsSubscriber(h, id, k);
    }
  }

  predicate Publishable(h: Hub, i: nat) {
    && i < |h.epochs|
    && !h.epochs[i].done
    && h.epochs[i].session in h.sessions
    && h.sessions[h.epochs[i].session] == i
    && h.epochs[i].subscribers <= h.channels.Keys
  }

  lemma {:induction false} PublishKeepsEpoch(h: Hub, i: nat, event: Event, j: nat)
    requires Valid(h) && Publishable(h, i) && j < |h.epochs|
    ensures EpochOk(PublishIn(h, i, event), j)
  {
    assert EpochOk(h, j);
    hide SubscriberOk, Deliver;
  }

  lemma SliceOfLonger(events: seq<Event>, more: seq<Event>, from: nat, to: nat)
    requires from <= to <= |events|
    ensures (events + more)[from..to] == events[from..to]
  {
  }

  /** A channel that has had everything gets the new event, or is dropped where it stands. */
  lemma {:induction false} PublishReaches(h: Hub, i: nat, event: Event, id: SubscriberId)
    requires Valid(h) && Publishable(h, i) && id in h.epochs[i].subscribers
    ensures id in h.taken && h.taken[id].epoch == i && SubscriberOk(PublishIn(h, i, event), id)
  {
    SubscribedHere(h, i, id);
    assert SubscriberOk(h, id);
    hide EpochOk, Valid;
    var e, t := h.epochs[i], h.taken[id];
    var stamped := Stamp(e, event);
    SliceOfLonger(e.events, [stamped], Min(t.after, t.base), t.base);
    SliceOfLonger(e.events, [stamped], t.base, |e.events|);
    hide Stamp;
    assert (e.events + [stamped])[t.base..|e.events| + 1] == e.events[t.base..|e.events|] + [stamped];
  }

  lemma {:induction false} PublishMisses(h: Hub, i: nat, event: Event, id: SubscriberId)
    requires Valid(h) && Publishable(h, i) && id in h.taken && id !in h.epochs[i].subscribers
    ensures SubscriberOk(PublishIn(h, i, event), id)
  {
    assert SubscriberOk(h, id);
    hide EpochOk, Valid, Deliver, Stamp;
    var t, c := h.taken[id], h.channels[id];
    if t.epoch == i {
      var e := h.epochs[i];
      var stamped := Stamp(e, event);
      SliceOfLonger(e.events, [stamped], Min(t.after, t.base), t.base);
      SliceOfLonger(e.events, [stamped], t.base, t.base + |c.sent|);
    }
  }

  lemma {:induction false} PublishKeepsSubscriber(h: Hub, i: nat, event: Event, id: SubscriberId)
    requires Valid(h) && Publishable(h, i) && id in h.taken
    ensures SubscriberOk(PublishIn(h, i, event), id)
  {
    hide SubscriberOk, PublishIn, EpochOk;
    if id in h.epochs[i].subscribers { PublishReaches(h, i, event, id); } else { PublishMisses(h, i, event, id); }
  }

  lemma {:induction false} PublishKeepsValid(h: Hub, i: nat, event: Event)
    requires Valid(h) && Publishable(h, i)
    ensures Valid(PublishIn(h, i, event))
  {
    hide EpochOk, SubscriberOk, Deliver, Stamp;
    var h' := PublishIn(h, i, event);
    forall j | 0 <= j < |h'.epochs| ensures EpochOk(h', j) { PublishKeepsEpoch(h, i, event, j); }
    forall id | id in h'.taken ensures h'.taken[id].epoch < |h'.epochs| && SubscriberOk(h', id) {
      PublishKeepsSubscriber(h, i, event, id);
    }
  }

  lemma {:induction false} OpenIsPublishable(h: Hub, session: string)
    requires Valid(h)
    ensures PointsInside(h) && Valid(Open(h, session)) && session in Open(h, session).sessions
    ensures Publishable(Open(h, session), Open(h, session).sessions[session])
  {
    hide EpochOk, SubscriberOk;
    if session !in h.sessions || h.epochs[h.sessions[session]].done { AddEpochKeepsValid(h, session); }
    var h' := Open(h, session);
    var i := h'.sessions[session];
    forall id | id in h'.epochs[i].subscribers ensures id in h'.channels { SubscribedHere(h', i, id); }
  }

  lemma {:induction false} SubscribeKeepsValid(h: Hub, session: string, after: nat)
    requires Valid(h)
    ensures PointsInside(h) && Valid(Subscribe(h, session, after).0)
  {
    hide EpochOk, SubscriberOk, Register;
    if session !in h.sessions { AddEpochKeepsValid(h, session); }
    var h' := if session in h.sessions then h else AddEpoch(h, session);
    var i := h'.sessions[session];
    if !h'.epochs[i].done { RegisterKeepsValid(h', i, after); }
  }

  // ---------- runs ----------

  datatype Action =
    | Published(session: string, event: Event)
    | Subscribed(session: string, after: nat)
    | Unsubscribed(session: string, id: SubscriberId)
    | Deleted(session: string)
    | Received(id: SubscriberId)

  lemma {:induction false} HubIsUsable(h: Hub)
    requires Valid(h)
    ensures PointsInside(h) && forall i :: 0 <= i < |h.epochs| ==> h.epochs[i].subscribers <= h.channels.Keys
  {
    forall i | 0 <= i < |h.epochs| ensures h.epochs[i].subscribers <= h.channels.Keys {
      assert EpochOk(h, i);
    }
  }

  ghost function Apply(h: Hub, a: Action): Hub
    requires Valid(h)
  {
    HubIsUsable(h);
    match a
    case Published(session, event) => Publish(h, session, event)
    case Subscribed(session, after) => Subscribe(h, session, after).0
    case Unsubscribed(session, id) => Unsubscribe(h, session, id)
    case Deleted(session) => Delete(h, session)
    case Received(id) => if id in h.channels then Receive(h, id) else h
  }

  lemma {:induction false} StepKeepsValid(h: Hub, a: Action)
    requires Valid(h)
    ensures Valid(Apply(h, a))
  {
    HubIsUsable(h);
    hide Valid, PublishIn, Open, Subscribe, Delete, Remove, Receive, EpochOk, SubscriberOk;
    match a
    case Published(session, event) =>
      OpenIsPublishable(h, session);
      PublishKeepsValid(Open(h, session), Open(h, session).sessions[session], event);
    case Subscribed(session, after) => SubscribeKeepsValid(h, session, after);
    case Unsubscribed(session, id) =>
      if session in h.sessions { RemoveKeepsValid(h, h.sessions[session], {id}); }
    case Deleted(session) => DeleteKeepsValid(h, session);
    case Received(id) => if id in h.channels { ReceiveKeepsValid(h, id); }
  }

  ghost function After(h: Hub, actions: seq<Action>): (h': Hub)
    requires Valid(h)
    ensures Valid(h')
    decreases |actions|
  {
    hide Valid, Apply;
    if actions == [] then h
    else
      StepKeepsValid(h, actions[0]);
      After(Apply(h, actions[0]), actions[1..])
  }

  // ---------- what a session and its subscribers can rely on ----------

  /** In every reachable hub the ids of an epoch are 1..n, and only its last event can be terminal. */
  lemma {:induction false} IdsHaveNoGaps(actions: seq<Action>, i: nat, k: nat)
    requires i < |After(EMPTY, actions).epochs| && k < |After(EMPTY, actions).epochs[i].events|
    ensures var e := After(EMPTY, actions).epochs[i];
      && e.events[k].id == k + 1
      && e.nextID == |e.events|
      && (Terminal(e.events[k].kind) <==> e.done && k == |e.events| - 1)
  {
    hide After;
    assert EpochOk(After(EMPTY, actions), i);
  }

  /** Replay and sends, in the order a client sees them. */
  function Stream(h: Hub, id: SubscriberId): seq<Event>
    requires id in h.taken && id in h.channels
  {
    h.taken[id].replay + h.channels[id].sent
  }

  /** The subscriber is registered, or was closed for any reason but a full buffer. */
  predicate KeptUp(h: Hub, id: SubscriberId)
    requires id in h.taken && id in h.channels && h.taken[id].epoch < |h.epochs|
  {
    id in h.epochs[h.taken[id].epoch].subscribers || (h.channels[id].closes == 1 && !h.channels[id].dropped)
  }

  lemma AdjacentSlices(events: seq<Event>, a: nat, b: nat, c: nat)
    requires a <= b <= c <= |events|
    ensures events[a..b] + events[b..c] == events[a..c]
  {
  }

  lemma {:induction false} StreamIsSlice(h: Hub, id: SubscriberId)
    requires Valid(h) && id in h.taken
    ensures var t, c := h.taken[id], h.channels[id];
      var e := h.epochs[t.epoch];
      && t.base + |c.sent| <= |e.events|
      && Stream(h, id) == e.events[Min(t.after, t.base)..t.base + |c.sent|]
      && Above(e.events, t.after) == e.events[Min(t.after, |e.events|)..]
      && (KeptUp(h, id) ==> t.base + |c.sent| == |e.events|)
  {
    hide *;
    SubscriberSlices(h, id);
    EpochNumbers(h, h.taken[id].epoch);
    var t, c := h.taken[id], h.channels[id];
    var e := h.epochs[t.epoch];
    AboveIsSuffix(e.events, t.after);
    AdjacentSlices(e.events, Min(t.after, t.base), t.base, t.base + |c.sent|);
  }

  lemma {:induction false} SubscriberSlices(h: Hub, id: SubscriberId)
    requires Valid(h) && id in h.taken
    ensures id in h.channels && h.taken[id].epoch < |h.epochs|
    ensures var t, c := h.taken[id], h.channels[id];
      var e := h.epochs[t.epoch];
      && Min(t.after, t.base) <= t.base && t.base + |c.sent| <= |e.events|
      && Stream(h, id) == e.events[Min(t.after, t.base)..t.base] + e.events[t.base..t.base + |c.sent|]
      && (KeptUp(h, id) ==> t.base + |c.sent| == |e.events|)
  {
    assert SubscriberOk(h, id);
    hide EpochOk, Frozen;
  }

  lemma {:induction false} EpochNumbers(h: Hub, i: nat)
    requires Valid(h) && i < |h.epochs|
    ensures forall k :: 0 <= k < |h.epochs[i].events| ==> h.epochs[i].events[k].id == k + 1
  {
    assert EpochOk(h, i);
    hide SubscriberOk;
  }

  /** A client that subscribes with an id already published sees the events above it, in
      order and without gaps: all of them unless it was dropped for a full buffer or left. */
  lemma {:induction false} SubscriberSeesEverythingAbove(actions: seq<Action>, id: SubscriberId)
    requires var h := After(EMPTY, actions); id in h.taken && h.taken[id].after <= h.taken[id].base
    ensures var h := After(EMPTY, actions);
      && id in h.channels && h.taken[id].epoch < |h.epochs|
      && var above := Above(h.epochs[h.taken[id].epoch].events, h.taken[id].after);
         Stream(h, id) <= above && (KeptUp(h, id) ==> Stream(h, id) == above)
  {
    hide After;
    var h := After(EMPTY, actions);
    StreamIsSlice(h, id);
    hide Valid, Stream, Above;
    var t := h.taken[id];
    var events := h.epochs[t.epoch].events;
    assert events[t.after..][..t.base + |h.channels[id].sent| - t.after]
        == events[t.after..t.base + |h.channels[id].sent|];
  }

  /** With an id not yet published the stream is right only as long as nothing is sent. */
  lemma {:induction false} StreamIsExactWhen(actions: seq<Action>, id: SubscriberId)
    requires var h := After(EMPTY, actions);
      id in h.taken && h.taken[id].epoch < |h.epochs| && id in h.channels && KeptUp(h, id)
    ensures var h := After(EMPTY, actions);
      var t := h.taken[id];
      var events := h.epochs[t.epoch].events;
      Stream(h, id) == Above(events, t.after) <==> t.after <= t.base || |events| == t.base
  {
    var h := After(EMPTY, actions);
    assert Valid(h);
    hide *;
    StreamIsSlice(h, id);
    var t := h.taken[id];
    var events := h.epochs[t.epoch].events;
    MinCases(t.after, t.base, |events|);
    SameSuffix(events, Min(t.after, t.base), Min(t.after, |events|));
  }

  lemma MinCases(after: nat, base: nat, n: nat)
    requires base <= n
    ensures Min(after, base) <= n && Min(after, n) <= n
    ensures Min(after, base) == Min(after, n) <==> after <= base || n == base
  {
  }

  lemma {:induction false} SameSuffix(events: seq<Event>, a: nat, b: nat)
    requires a <= |events| && b <= |events|
    ensures events[a..|events|] == events[b..] <==> a == b
  {
    assert |events[a..|events|]| == |events| - a && |events[b..]| == |events| - b;
    if a == b { assert events[a..|events|] == events[b..]; }
  }

  /** No channel is closed twice, a registered one is open, and it waits in the epoch that
      its session points to, so a later event or delete will reach it. */
  lemma {:induction false} ChannelsCloseOnce(actions: seq<Action>, id: SubscriberId)
    requires id in After(EMPTY, actions).channels
    ensures var h := After(EMPTY, actions);
      && h.channels[id].closes <= 1
      && |h.channels[id].sent| <= h.channels[id].received + BUFFER
      && id in h.taken && h.taken[id].epoch < |h.epochs|
      && (id in h.epochs[h.taken[id].epoch].subscribers ==>
            && h.channels[id].closes == 0
            && !h.epochs[h.taken[id].epoch].done
            && h.epochs[h.taken[id].epoch].session in h.sessions
            && h.sessions[h.epochs[h.taken[id].epoch].session] == h.taken[id].epoch)
  {
    hide After;
    var h := After(EMPTY, actions);
    assert SubscriberOk(h, id);
    assert EpochOk(h, h.taken[id].epoch);
  }

  /** The cleanup of one subscriber, however late and however often, never touches another. */
  lemma {:induction false} UnsubscribeIsItsOwn(h: Hub, session: string, id: SubscriberId, i: nat, other: SubscriberId)
    requires Valid(h) && i < |h.epochs| && other in h.epochs[i].subscribers
    ensures PointsInside(h) && Unsubscribe(h, session, id).channels == h.channels
    ensures Apply(h, Unsubscribed(session, id)) == Unsubscribe(h, session, id)
    ensures other !in Unsubscribe(h, session, id).epochs[i].subscribers <==>
      other == id && h.epochs[i].session == session
  {
    SubscribedHere(h, i, other);
    hide EpochOk, SubscriberOk;
  }

  /** An event published after the terminal one starts a new epoch, whose ids begin again:
      a client that resumes with the id of the old terminal event misses it. */
  lemma {:induction false} LateEventStartsOver(h: Hub, session: string, event: Event, after: nat)
    requires Valid(h) && session in h.sessions && h.epochs[h.sessions[session]].done
    requires !Terminal(event.kind) && after >= 1
    ensures var h' := Apply(h, Published(session, event));
      && h'.sessions[session] == |h.epochs| && |h'.epochs| == |h.epochs| + 1
      && |h'.epochs[|h.epochs|].events| == 1 && h'.epochs[|h.epochs|].events[0].id == 1
      && h'.epochs[h.sessions[session]] == h.epochs[h.sessions[session]]
      && Valid(h') && PointsInside(h')
      && Subscribe(h', session, after).1.Some?
      && Subscribe(h', session, after).0.taken[Subscribe(h', session, after).1.value].replay == []
  {
    StepKeepsValid(h, Published(session, event));
    hide Valid, EpochOk, SubscriberOk, Deliver;
    var h' := Apply(h, Published(session, event));
    HubIsUsable(h');
    var e := h'.epochs[|h.epochs|];
    assert e.events == [Stamp(Epoch(session, 0, [], false, {}), event)];
    assert e.events[..0] == [] && Above(e.events[..0], after) == [];
  }

  // ---------- what one call does ----------

  /** The event is numbered next, named after its session if it names none, and appended to the
      session's open epoch or to a new one, which the four terminal kinds end. */
  lemma {:induction false} PublishExactly(h: Hub, session: string, event: Event)
    requires Valid(h)
    ensures var h' := Apply(h, Published(session, event));
      var open := session in h.sessions && h.sessions[session] < |h.epochs| && !h.epochs[h.sessions[session]].done;
      var events := if open then h.epochs[h.sessions[session]].events else [];
      && session in h'.sessions && h'.sessions[session] < |h'.epochs|
      && var e := h'.epochs[h'.sessions[session]];
         && e.events == events + [Event(event.kind, |events| + 1, if event.session == "" then session else event.session, event.payload)]
         && e.session == session && e.nextID == |events| + 1
         && (e.done <==> event.kind in ["done", "error", "model_error", "interrupted"])
         && h'.sessions == h.sessions[session := if open then h.sessions[session] else |h.epochs|]
  {
    HubIsUsable(h);
    if session in h.sessions { assert EpochOk(h, h.sessions[session]); }
    hide EpochOk, SubscriberOk, Deliver;
  }

  /** A subscriber of the open epoch with room in its buffer is sent the event, and closed if it
      is terminal; one without room is closed and dropped. Nobody else notices. */
  lemma {:induction false} EveryoneIsReached(h: Hub, session: string, event: Event, id: SubscriberId)
    requires Valid(h) && id in h.channels
    ensures var h' := Apply(h, Published(session, event));
      && id in h'.channels && session in h'.sessions && h'.sessions[session] < |h'.epochs| && h'.epochs[h'.sessions[session]].events != []
      && var e := h'.epochs[h'.sessions[session]];
         var c, c' := h.channels[id], h'.channels[id];
         if session in h.sessions && h.sessions[session] < |h.epochs| && id in h.epochs[h.sessions[session]].subscribers then
           if |c.sent| < c.received + 128 then
             && c' == Channel(c.sent + [e.events[|e.events| - 1]], c.received, if e.done then c.closes + 1 else c.closes, c.dropped)
             && (id in e.subscribers <==> !e.done)
           else c' == Channel(c.sent, c.received, c.closes + 1, true) && id !in e.subscribers
         else c' == c && id !in e.subscribers
  {
    HubIsUsable(h);
    assert SubscriberOk(h, id);
    if session in h.sessions { assert EpochOk(h, h.sessions[session]); }
    hide EpochOk, SubscriberOk;
  }

  /** Unless the session is done the caller is registered under a new id with an open and empty
      channel, for a session that is there or new and empty. */
  lemma {:induction false} SubscribeExactly(h: Hub, session: string, after: nat)
    requires Valid(h)
    ensures PointsInside(h)
    ensures var (h', id) := Subscribe(h, session, after);
      && (id.None? <==> session in h.sessions && h.epochs[h.sessions[session]].done)
      && (id.None? ==> h' == h)
      && (id.Some? ==>
            && id.value !in h.channels && h'.channels == h.channels[id.value := Channel([], 0, 0, false)]
            && h'.sessions == h.sessions[session := if session in h.sessions then h.sessions[session] else |h.epochs|]
            && h'.sessions[session] < |h'.epochs| && id.value in h'.epochs[h'.sessions[session]].subscribers
            && h'.epochs[h'.sessions[session]].events == (if session in h.sessions then h.epochs[h.sessions[session]].events else []))
  {
    HubIsUsable(h);
    IdsAreUsed(h);
    hide Valid, Above;
    if session in h.sessions { assert h.sessions[session := h.sessions[session]] == h.sessions; }
  }

  lemma {:induction false} IdsAreUsed(h: Hub)
    requires Valid(h)
    ensures forall id :: id in h.channels ==> id <= h.nextSubscriberID
  {
    hide EpochOk;
    forall id | id in h.channels ensures id <= h.nextSubscriberID { assert SubscriberOk(h, id); }
  }

  /** The replay is every event of the session's epoch above the id the caller names. */
  lemma {:induction false} ReplayIsExact(h: Hub, i: nat, after: nat)
    requires Valid(h) && i < |h.epochs|
    ensures var h', events := Register(h, i, after), h.epochs[i].events;
      && h'.nextSubscriberID == h.nextSubscriberID + 1
      && h'.taken == h.taken[h'.nextSubscriberID := Subscription(i, after, |events|, if after <= |events| then events[after..] else [])]
      && forall k :: 0 <= k < |events| ==> events[k].id == k + 1
  {
    EpochNumbers(h, i);
    AboveIsSuffix(h.epochs[i].events, after);
    hide Valid, Above;
  }

  /** Receiving takes the next event sent, if there is one, and changes nothing else. */
  lemma {:induction false} ReceiveExactly(h: Hub, id: SubscriberId)
    requires Valid(h) && id in h.channels
    ensures var c, h' := h.channels[id], Apply(h, Received(id));
      && id in h'.channels
      && h'.channels[id].received == (if c.received < |c.sent| then c.received + 1 else c.received)
      && h' == h.(channels := h.channels[id := c.(received := h'.channels[id].received)])
  {
    HubIsUsable(h);
    assert h.channels[id := h.channels[id]] == h.channels;
    hide Valid;
  }

  /** Deleting forgets the session and closes its registered channels; what was sent stays. */
  lemma {:induction false} DeleteExactly(h: Hub, session: string, id: SubscriberId)
    requires Valid(h) && id in h.channels
    ensures var c, h' := h.channels[id], Apply(h, Deleted(session));
      && h'.sessions == h.sessions - {session} && id in h'.channels
      && var registered := session in h.sessions && h.sessions[session] < |h.epochs| && id in h.epochs[h.sessions[session]].subscribers;
         h'.channels[id] == Channel(c.sent, c.received, if registered then c.closes + 1 else c.closes, c.dropped)
  {
    HubIsUsable(h);
    hide EpochOk, SubscriberOk;
    if session !in h.sessions { assert h.sessions - {session} == h.sessions; }
  }

  // ---------- the hub object ----------

  function SentTo(channels: map<SubscriberId, Channel>, ids: set<SubscriberId>, event: Event): map<SubscriberId, Channel> {
    map id | id in channels :: if id in ids then Send(channels[id], event) else channels[id]
  }

  function WithRoom(channels: map<SubscriberId, Channel>, ids: set<SubscriberId>): set<SubscriberId>
    requires ids <= channels.Keys
  {
    set id | id in ids && Room(channels[id])
  }

  function ClosedIn(channels: map<SubscriberId, Channel>, ids: set<SubscriberId>): map<SubscriberId, Channel> {
    map id | id in channels :: if id in ids then Close(channels[id]) else channels[id]
  }

  /** Sending to all and then closing those still there is what Deliver does to each. */
  lemma SendThenClose(h: Hub, i: nat, event: Event)
    requires Publishable(h, i)
    ensures var e := h.epochs[i]; var stamped := Stamp(e, event);
      var sent := SentTo(h.channels, e.subscribers, stamped);
      var left := WithRoom(h.channels, e.subscribers);
      && PublishIn(h, i, event).channels == (if Terminal(stamped.kind) then ClosedIn(sent, left) else sent)
      && Extended(h, e, stamped).subscribers == (if Terminal(stamped.kind) then {} else left)
  {
  }

  lemma PublishSpelled(h: Hub, session: string, event: Event)
    requires Valid(h)
    ensures PointsInside(h) && session in Open(h, session).sessions && Publishable(Open(h, session), Open(h, session).sessions[session])
    ensures Apply(h, Published(session, event)) == PublishIn(Open(h, session), Open(h, session).sessions[session], event)
  {
    HubIsUsable(h);
    OpenIsPublishable(h, session);
    hide Valid, PublishIn, EpochOk, SubscriberOk;
  }

  class ChatEventHub {
    var epochs: seq<Epoch>
    var sessions: map<string, nat>
    var nextSubscriberID: nat
    var channels: map<SubscriberId, Channel>
    ghost var taken: map<SubscriberId, Subscription>

    ghost function State(): Hub
      reads this
    {
      Hub(epochs, sessions, nextSubscriberID, channels, taken)
    }

    constructor ()
      ensures State() == EMPTY && Valid(State())
    {
      epochs, sessions, nextSubscriberID, channels, taken := [], map[], 0, map[], map[];
    }

    /** Sending on a closed channel would panic: the caller shows that all are open. */
    method SendEach(ids: set<SubscriberId>, event: Event) returns (left: set<SubscriberId>)
      requires ids <= channels.Keys
      requires forall id :: id in ids ==> channels[id].closes == 0
      modifies `channels
      ensures channels == SentTo(old(channels), ids, event)
      ensures left == WithRoom(old(channels), ids)
    {
      left := ids;
      var todo := ids;
      while todo != {}
        invariant todo <= ids
        invariant channels == SentTo(old(channels), ids - todo, event)
        invariant left == todo + WithRoom(old(channels), ids - todo)
      {
        var id :| id in todo;
        var c := channels[id];
        assert c == old(channels)[id];
        if Room(c) {
          channels := channels[id := c.(sent := c.sent + [event])];
        } else {
          channels := channels[id := c.(closes := c.closes + 1, dropped := true)];
          left := left - {id};
        }
        todo := todo - {id};
      }
    }

    /** Closing a closed channel would panic as well. */
    method CloseEach(ids: set<SubscriberId>)
      requires ids <= channels.Keys
      requires forall id :: id in ids ==> channels[id].closes == 0
      modifies `channels
      ensures channels == ClosedIn(old(channels), ids)
    {
      var todo := ids;
      while todo != {}
        invariant todo <= ids
        invariant channels == ClosedIn(old(channels), ids - todo)
      {
        var id :| id in todo;
        assert channels[id] == old(channels)[id];
        channels := channels[id := channels[id].(closes := channels[id].closes + 1)];
        todo := todo - {id};
      }
    }

    lemma {:induction false} RegisteredAreOpen(i: nat)
      requires Valid(State()) && i < |epochs|
      ensures epochs[i].subscribers <= channels.Keys
      ensures forall id :: id in epochs[i].subscribers ==> channels[id].closes == 0
    {
      forall id | id in epochs[i].subscribers ensures id in channels && channels[id].closes == 0 {
        SubscribedHere(State(), i, id);
        assert SubscriberOk(State(), id);
      }
    }

    method Publish(session: string, event: Event) returns (published: Event)
      requires Valid(State())
      modifies this
      ensures Valid(State())
      ensures State() == Apply(old(State()), Published(session, event))
      ensures session in sessions && sessions[session] < |epochs|
      ensures epochs[sessions[session]].events != []
      ensures published == epochs[sessions[session]].events[|epochs[sessions[session]].events| - 1]
    {
      ghost var before := State();
      StepKeepsValid(before, Published(session, event));
      OpenIsPublishable(before, session);
      hide Valid, EpochOk, SubscriberOk;
      if session !in sessions || epochs[sessions[session]].done {
        epochs, sessions := epochs + [Epoch(session, 0, [], false, {})], sessions[session := |epochs|];
      }
      assert State() == Open(before, session);
      SessionOf(State(), session);
      PublishSpelled(before, session, event);
      hide Apply, Open, PublishIn, Publishable, PointsInside;
      published := PublishTo(sessions[session], event);
    }

    /** The part of publish after the session is found or made. */
    method PublishTo(i: nat, event: Event) returns (published: Event)
      requires Valid(State()) && Publishable(State(), i)
      modifies `channels, `epochs
      ensures State() == PublishIn(old(State()), i, event)
      ensures |epochs| == |old(epochs)| && epochs[i].events == old(epochs[i].events) + [published]
    {
      ghost var before := State();
      var e := epochs[i];
      published := event.(id := e.nextID + 1, session := if event.session == "" then e.session else event.session);
      assert published == Stamp(e, event);
      RegisteredAreOpen(i);
      SendThenClose(before, i, event);
      hide *;
      var left := SendEach(e.subscribers, published);
      var done := e.done;
      if Terminal(published.kind) {
        done := true;
        SurvivorsAreOpen(before.channels, e.subscribers, published);
        CloseEach(left);
        left := {};
      }
      epochs := epochs[i := Epoch(e.session, e.nextID + 1, e.events + [published], done, left)];
      AfterFanOut(before, i, event, State());
    }

    /** The part of subscribe that makes the channel and counts it in. */
    method AddSubscriber(i: nat, after: nat, replay: seq<Event>) returns (id: SubscriberId)
      requires i < |epochs|
      modifies `nextSubscriberID, `channels, `epochs, `taken
      ensures id == old(nextSubscriberID) + 1
      ensures var e := old(epochs)[i];
        State() == old(State()).(nextSubscriberID := id, channels := old(channels)[id := Channel([], 0, 0, false)],
                                 epochs := old(epochs)[i := e.(subscribers := e.subscribers + {id})],
                                 taken := old(taken)[id := Subscription(i, after, |e.events|, replay)])
    {
      nextSubscriberID := nextSubscriberID + 1;
      id := nextSubscriberID;
      channels := channels[id := Channel([], 0, 0, false)];
      taken := taken[id := Subscription(i, after, |epochs[i].events|, replay)];
      epochs := epochs[i := epochs[i].(subscribers := epochs[i].subscribers + {id})];
    }

    /** A nil channel is returned for a session that is done. */
    method Subscribe(session: string, after: nat) returns (replay: seq<Event>, id: Option<SubscriberId>)
      requires Valid(State())
      modifies this
      ensures Valid(State())
      ensures State() == Apply(old(State()), Subscribed(session, after))
      ensures session in sessions && sessions[session] < |epochs|
      ensures replay == Above(epochs[sessions[session]].events, after)
      ensures id.Some? <==> !epochs[sessions[session]].done
      ensures id.Some? ==> id.value !in old(channels) && id.value in channels && channels[id.value].sent == []
    {
      hide Valid, Apply, Above, AddEpoch;
      ghost var before := State();
      StepKeepsValid(before, Subscribed(session, after));
      HubIsUsable(before);
      var i := FindOrMake(session);
      ghost var found := State();
      replay := Replay(epochs[i].events, after);
      id := None;
      if !epochs[i].done {
        var added := AddSubscriber(i, after, replay);
        id := Some(added);
      }
      AfterSubscribe(before, session, after, found, State(), id);
    }

    /** The part of subscribe that looks the session up. */
    method FindOrMake(session: string) returns (i: nat)
      requires PointsInside(State())
      modifies `epochs, `sessions
      ensures State() == if session in old(sessions) then old(State()) else AddEpoch(old(State()), session)
      ensures session in sessions && sessions[session] == i < |epochs|
    {
      if session !in sessions {
        epochs, sessions := epochs + [Epoch(session, 0, [], false, {})], sessions[session := |epochs|];
      }
      i := sessions[session];
    }

    method Unsubscribe(session: string, id: SubscriberId)
      requires Valid(State())
      modifies `epochs
      ensures Valid(State())
      ensures State() == Apply(old(State()), Unsubscribed(session, id))
    {
      ghost var before := State();
      StepKeepsValid(before, Unsubscribed(session, id));
      HubIsUsable(before);
      hide Valid, EpochOk, SubscriberOk;
      if session in sessions {
        var e := epochs[sessions[session]];
        epochs := epochs[sessions[session] := e.(subscribers := e.subscribers - {id})];
      }
    }

    method Delete(session: string)
      requires Valid(State())
      modifies `epochs, `sessions, `channels
      ensures Valid(State())
      ensures State() == Apply(old(State()), Deleted(session))
    {
      ghost var before := State();
      StepKeepsValid(before, Deleted(session));
      HubIsUsable(before);
      if session in sessions {
        var i := sessions[session];
        var e := epochs[i];
        RegisteredAreOpen(i);
        hide Valid, Apply, ClosedIn;
        CloseEach(e.subscribers);
        epochs := epochs[i := e.(subscribers := e.subscribers - e.subscribers)];
        sessions := sessions - {session};
      }
      AfterDelete(before, session, State());
    }
  }

  /** found is the hub with the session looked up or made, h' what the registration left. */
  lemma {:induction false} AfterSubscribe(h: Hub, session: string, after: nat, found: Hub, h': Hub, id: Option<SubscriberId>)
    requires Valid(h) && found == if session in h.sessions then h else AddEpoch(h, session)
    requires session in found.sessions && found.sessions[session] < |found.epochs|
    requires var i, n := found.sessions[session], found.nextSubscriberID + 1;
      var e := found.epochs[i];
      if e.done then h' == found && id == None
      else
        && id == Some(n)
        && h' == found.(nextSubscriberID := n, channels := found.channels[n := Channel([], 0, 0, false)],
                        epochs := found.epochs[i := e.(subscribers := e.subscribers + {n})],
                        taken := found.taken[n := Subscription(i, after, |e.events|, Above(e.events, after))])
    ensures h' == Apply(h, Subscribed(session, after))
    ensures session in h'.sessions && h'.sessions[session] == found.sessions[session] < |h'.epochs|
    ensures h'.epochs[found.sessions[session]].events == found.epochs[found.sessions[session]].events
    ensures id.Some? <==> !h'.epochs[found.sessions[session]].done
    ensures id.Some? ==> id.value !in h.channels && id.value in h'.channels && h'.channels[id.value].sent == []
  {
    HubIsUsable(h);
    FreshId(h);
    hide Valid, Above;
  }

  lemma {:induction false} AfterDelete(h: Hub, session: string, h': Hub)
    requires Valid(h)
    requires if session !in h.sessions then h' == h
             else && h.sessions[session] < |h.epochs|
                  && var i := h.sessions[session];
                     var e := h.epochs[i];
                     h' == h.(channels := ClosedIn(h.channels, e.subscribers), sessions := h.sessions - {session},
                              epochs := h.epochs[i := e.(subscribers := e.subscribers - e.subscribers)])
    ensures h' == Apply(h, Deleted(session))
  {
    HubIsUsable(h);
    hide Valid, Close;
  }

  lemma {:induction false} AfterFanOut(h: Hub, i: nat, event: Event, h': Hub)
    requires Publishable(h, i)
    requires var e := h.epochs[i];
      var stamped := Stamp(e, event);
      h' == h.(channels := PublishIn(h, i, event).channels,
               epochs := h.epochs[i := Epoch(e.session, e.nextID + 1, e.events + [stamped],
                                             e.done || Terminal(stamped.kind), Extended(h, e, stamped).subscribers)])
    ensures h' == PublishIn(h, i, event)
  {
    hide Deliver;
  }

  lemma SessionOf(h: Hub, session: string)
    requires Valid(h) && session in h.sessions
    ensures h.sessions[session] < |h.epochs| && h.epochs[h.sessions[session]].session == session
  {
  }

  lemma SurvivorsAreOpen(channels: map<SubscriberId, Channel>, ids: set<SubscriberId>, event: Event)
    requires ids <= channels.Keys && forall id :: id in ids ==> channels[id].closes == 0
    ensures WithRoom(channels, ids) <= SentTo(channels, ids, event).Keys
    ensures forall id :: id in WithRoom(channels, ids) ==> SentTo(channels, ids, event)[id].closes == 0
  {
  }

  method Replay(events: seq<Event>, after: nat) returns (replay: seq<Event>)
    ensures replay == Above(events, after)
  {
    replay := [];
    for k := 0 to |events|
      invariant replay == Above(events[..k], after)
    {
      assert events[..k + 1][..k] == events[..k];
      if events[k].id > after { replay := replay + [events[k]]; }
    }
    assert events[..|events|] == events;
  }
}
