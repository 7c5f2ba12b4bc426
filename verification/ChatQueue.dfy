/** The messages queued while an agent turn is running, and the loop that drives one chat
    session from its first message to its final event. */
module ChatQueue {
  import opened Wrappers

  const MAX_QUEUED: nat := 20
  const FOLLOWUP := "followup"
  const STEERING := "steering"

  datatype Attachment = Attachment(name: string, data: string)

  datatype Message = Message(id: string, text: string, mode: string, attachments: seq<Attachment>)

  datatype Session = Session(items: seq<Message>, accepting: bool, cancelled: bool)

  const FRESH: Session := Session([], true, false)

  // ---------- text ----------

  predicate IsSpace(c: char) {
    || '\t' <= c <= '\r' || c == ' ' || c == '\U{85}' || c == '\U{A0}' || c == '\U{1680}'
    || '\U{2000}' <= c <= '\U{200A}' || c == '\U{2028}' || c == '\U{2029}' || c == '\U{202F}'
    || c == '\U{205F}' || c == '\U{3000}'
  }

  function TrimLeft(s: string): string { if s != "" && IsSpace(s[0]) then TrimLeft(s[1..]) else s }

  function TrimRight(s: string): string {
    if s != "" && IsSpace(s[|s| - 1]) then TrimRight(s[..|s| - 1]) else s
  }

  function TrimSpace(s: string): string { TrimRight(TrimLeft(s)) }

  /** The characters with Unicode's property White_Space. */
  const WHITE_SPACE: string :=
    "\t\n\U{B}\U{C}\r \U{85}\U{A0}\U{1680}\U{2000}\U{2001}\U{2002}\U{2003}\U{2004}\U{2005}\U{2006}\U{2007}\U{2008}\U{2009}\U{200A}\U{2028}\U{2029}\U{202F}\U{205F}\U{3000}"

  lemma SpacesExactly(c: char)
    ensures IsSpace(c) <==> c in WHITE_SPACE
  {
  }

  /** Trimming takes away white space at both ends and stops at the first other character. */
  lemma {:induction false} TrimExactly(s: string) returns (i: nat, j: nat)
    ensures i <= j <= |s| && TrimSpace(s) == s[i..j]
    ensures forall k :: 0 <= k < i || j <= k < |s| ==> IsSpace(s[k])
    ensures i < j ==> !IsSpace(s[i]) && !IsSpace(s[j - 1])
  {
    hide IsSpace;
    i := TrimLeftExactly(s);
    var n := TrimRightExactly(s[i..]);
    j := i + n;
    hide TrimLeft, TrimRight;
    assert s[i..][..n] == s[i..j];
    forall k | j <= k < |s| ensures IsSpace(s[k]) { assert s[k] == s[i..][k - i]; }
    if i < j { assert s[i..][n - 1] == s[j - 1]; }
  }

  lemma {:induction false} TrimLeftExactly(s: string) returns (i: nat)
    ensures i <= |s| && TrimLeft(s) == s[i..]
    ensures (forall k :: 0 <= k < i ==> IsSpace(s[k])) && (i < |s| ==> !IsSpace(s[i]))
  {
    hide IsSpace;
    i := 0;
    if s != "" && IsSpace(s[0]) {
      i := TrimLeftExactly(s[1..]);
      hide TrimLeft;
      forall k | 0 <= k < i + 1 ensures IsSpace(s[k]) { if k > 0 { assert s[k] == s[1..][k - 1]; } }
      i := i + 1;
    }
  }

  lemma {:induction false} TrimRightExactly(s: string) returns (j: nat)
    ensures j <= |s| && TrimRight(s) == s[..j]
    ensures (forall k :: j <= k < |s| ==> IsSpace(s[k])) && (j > 0 ==> !IsSpace(s[j - 1]))
  {
    hide IsSpace;
    j := |s|;
    if s != "" && IsSpace(s[|s| - 1]) {
      var front := s[..|s| - 1];
      j := TrimRightExactly(front);
      hide TrimRight;
      assert front[..j] == s[..j];
      forall k | j <= k < |s| ensures IsSpace(s[k]) { if k < |front| { assert s[k] == front[k]; } }
    }
  }

  // ---------- order ----------

  predicate Steers(m: Message) { m.mode == STEERING }

  /** Messages waiting at the front because they steer. */
  function LeadingSteering(items: seq<Message>): (n: nat)
    ensures n <= |items|
  {
    if items != [] && Steers(items[0]) then 1 + LeadingSteering(items[1..]) else 0
  }

  function Insert(items: seq<Message>, m: Message): seq<Message> {
    if Steers(m) then items[..LeadingSteering(items)] + [m] + items[LeadingSteering(items)..] else items + [m]
  }

  function Position(items: seq<Message>, m: Message): nat {
    1 + if Steers(m) then LeadingSteering(items) else |items|
  }

  /** Every steering message stands before every other. */
  predicate Ordered(items: seq<Message>) {
    forall i, j :: 0 <= i < j < |items| && Steers(items[j]) ==> Steers(items[i])
  }

  function OfClass(items: seq<Message>, steering: bool): seq<Message> {
    if items == [] then []
    else (if Steers(items[0]) == steering then [items[0]] else []) + OfClass(items[1..], steering)
  }

  lemma ConcatHead(a: seq<Message>, b: seq<Message>)
    requires a != []
    ensures a + b != [] && (a + b)[0] == a[0] && (a + b)[1..] == a[1..] + b
  {
  }

  lemma OfClassUnfolds(items: seq<Message>, steering: bool)
    ensures OfClass([], steering) == []
    ensures items != [] ==>
      OfClass(items, steering) == (if Steers(items[0]) == steering then [items[0]] else []) + OfClass(items[1..], steering)
  {
  }

  lemma {:induction false} OfClassConcat(a: seq<Message>, b: seq<Message>, steering: bool)
    ensures OfClass(a + b, steering) == OfClass(a, steering) + OfClass(b, steering)
  {
    OfClassUnfolds(a, steering);
    hide *;
    if a == [] {
      assert a + b == b && [] + OfClass(b, steering) == OfClass(b, steering);
    } else {
      ConcatHead(a, b);
      OfClassUnfolds(a + b, steering);
      OfClassConcat(a[1..], b, steering);
      Associate(if Steers(a[0]) == steering then [a[0]] else [], OfClass(a[1..], steering), OfClass(b, steering));
    }
  }

  lemma Associate(a: seq<Message>, b: seq<Message>, c: seq<Message>)
    ensures a + (b + c) == a + b + c
  {
  }

  lemma {:induction false} OfOtherClass(items: seq<Message>, steering: bool)
    requires forall i :: 0 <= i < |items| ==> Steers(items[i]) != steering
    ensures OfClass(items, steering) == []
  {
    if items != [] { OfOtherClass(items[1..], steering); }
  }

  lemma {:induction false} LeadingSteeringSplits(items: seq<Message>)
    requires Ordered(items)
    ensures var n := LeadingSteering(items);
      && (forall i :: 0 <= i < n ==> Steers(items[i]))
      && (forall i :: n <= i < |items| ==> !Steers(items[i]))
  {
    if items != [] && Steers(items[0]) {
      assert forall i :: 0 <= i < |items| - 1 ==> items[1..][i] == items[i + 1];
      LeadingSteeringSplits(items[1..]);
      var n := LeadingSteering(items);
      forall i | 0 <= i < |items| ensures i < n <==> Steers(items[i]) {
        if i > 0 { assert items[i] == items[1..][i - 1]; }
      }
    }
  }

  lemma {:induction false} InsertKeepsOrder(items: seq<Message>, m: Message)
    requires Ordered(items)
    ensures Ordered(Insert(items, m))
  {
    LeadingSteeringSplits(items);
    hide LeadingSteering;
  }

  lemma {:induction false} OfClassOne(m: Message, steering: bool)
    ensures OfClass([m], steering) == (if Steers(m) == steering then [m] else [])
  {
    assert [m][1..] == [];
  }

  lemma {:induction false} OfClassThree(a: seq<Message>, m: Message, b: seq<Message>, steering: bool)
    ensures OfClass(a + [m] + b, steering)
         == OfClass(a, steering) + (if Steers(m) == steering then [m] else []) + OfClass(b, steering)
  {
    OfClassConcat(a + [m], b, steering);
    OfClassConcat(a, [m], steering);
    OfClassOne(m, steering);
  }

  /** The new message comes last in its own class; the other class is untouched. */
  lemma {:induction false} InsertKeepsClasses(items: seq<Message>, m: Message, steering: bool)
    requires Ordered(items)
    ensures OfClass(Insert(items, m), steering)
         == OfClass(items, steering) + (if Steers(m) == steering then [m] else [])
  {
    hide OfClass, LeadingSteering;
    var n := if Steers(m) then LeadingSteering(items) else |items|;
    var front, back := items[..n], items[n..];
    LeadingSteeringSplits(items);
    assert front + back == items && Insert(items, m) == front + [m] + back;
    OfClassThree(front, m, back, steering);
    OfClassConcat(front, back, steering);
    if steering || !Steers(m) { OfOtherClass(back, steering); }
  }

  /** The returned position is where the message stands, and nothing else moved relative to the rest. */
  lemma {:induction false} InsertAtPosition(items: seq<Message>, m: Message)
    ensures var items' := Insert(items, m); var p := Position(items, m);
      && 1 <= p <= |items'| == |items| + 1
      && items'[p - 1] == m
      && items'[..p - 1] + items'[p..] == items
  {
    hide LeadingSteering;
    var p := Position(items, m);
    assert items[..p - 1] + items[p - 1..] == items;
  }

  /** A steering message stands right behind the steering ones at the front, another at the end. */
  lemma {:induction false} PositionExactly(items: seq<Message>, m: Message)
    ensures m.mode != "steering" ==> Position(items, m) == |items| + 1
    ensures m.mode == "steering" ==>
      && 1 <= Position(items, m) <= |items| + 1
      && (forall i :: 0 <= i < Position(items, m) - 1 ==> items[i].mode == "steering")
      && (Position(items, m) <= |items| ==> items[Position(items, m) - 1].mode != "steering")
  {
    LeadingSteeringExactly(items);
    hide LeadingSteering;
  }

  lemma {:induction false} LeadingSteeringExactly(items: seq<Message>)
    ensures var n := LeadingSteering(items);
      && n <= |items|
      && (forall i :: 0 <= i < n ==> items[i].mode == "steering")
      && (n < |items| ==> items[n].mode != "steering")
  {
    if items != [] && Steers(items[0]) {
      LeadingSteeringExactly(items[1..]);
      assert forall i :: 1 <= i < |items| ==> items[i] == items[1..][i - 1];
    }
  }

  // ---------- the queue operations on one session ----------

  datatype Answer = Queued(message: Message, position: nat) | Inactive | Full

  /** The copy sent back to clients carries no attachment data. */
  function Public(m: Message): Message {
    m.(attachments := seq(|m.attachments|, i requires 0 <= i < |m.attachments| => m.attachments[i].(data := "")))
  }

  function MakeMessage(id: string, text: string, mode: string, attachments: seq<Attachment>): Message {
    Message(id, TrimSpace(text), if TrimSpace(mode) == "" then FOLLOWUP else TrimSpace(mode), attachments)
  }

  function Enqueued(s: Option<Session>, m: Message): (Option<Session>, Answer) {
    if s.None? || !s.value.accepting then (s, Inactive)
    else if |s.value.items| >= MAX_QUEUED then (s, Full)
    else (Some(s.value.(items := Insert(s.value.items, m))), Queued(Public(m), Position(s.value.items, m)))
  }

  function NextAfterTurn(s: Option<Session>): (Option<Session>, Option<Message>) {
    if s.None? then (s, None)
    else if s.value.items == [] then (Some(s.value.(accepting := false)), None)
    else (Some(s.value.(items := s.value.items[1..])), Some(s.value.items[0]))
  }

  function Cleared(s: Session): Session { Session([], false, true) }

  /** Only an accepting session with fewer than twenty waiting messages takes another: the text
      trimmed, the mode trimmed and a follow-up if empty, at the position it reports, before and
      behind the others in their order; what is reported has no attachment data. */
  lemma {:induction false} EnqueuedExactly(s: Option<Session>, id: string, text: string, mode: string, attachments: seq<Attachment>)
    ensures var m := Message(id, TrimSpace(text), if TrimSpace(mode) == "" then "followup" else TrimSpace(mode), attachments);
      var (after, answer) := Enqueued(s, MakeMessage(id, text, mode, attachments));
      if s.None? || !s.value.accepting then answer == Inactive && after == s
      else if |s.value.items| >= 20 then answer == Full && after == s
      else
        && answer.Queued? && 1 <= answer.position <= |s.value.items| + 1
        && after == Some(Session(s.value.items[..answer.position - 1] + [m] + s.value.items[answer.position - 1..], true, s.value.cancelled))
        && answer.position == Position(s.value.items, m)
        && answer.message.id == id && answer.message.text == m.text && answer.message.mode == m.mode
        && |answer.message.attachments| == |attachments|
        && forall k :: 0 <= k < |attachments| ==> answer.message.attachments[k] == Attachment(attachments[k].name, "")
  {
    hide TrimSpace, LeadingSteering;
    if s.Some? {
      var items := s.value.items;
      var m := MakeMessage(id, text, mode, attachments);
      assert items[..|items|] + [m] + items[|items|..] == items + [m];
    }
  }

  // ---------- the queue object ----------

  function At(sessions: map<string, Session>, id: string): Option<Session> {
    if id in sessions then Some(sessions[id]) else None
  }

  class ChatMessageQueue {
    var sessions: map<string, Session>

    constructor ()
      ensures sessions == map[]
    {
      sessions := map[];
    }

    method Begin(sessionID: string) returns (started: bool)
      modifies this
      ensures started <==> TrimSpace(sessionID) != "" && TrimSpace(sessionID) !in old(sessions)
      ensures sessions == if started then old(sessions)[TrimSpace(sessionID) := FRESH] else old(sessions)
    {
      var id := TrimSpace(sessionID);
      if id == "" || id in sessions { return false; }
      sessions := sessions[id := Session([], true, false)];
      started := true;
    }

    method Enqueue(sessionID: string, newID: string, text: string, mode: string, attachments: seq<Attachment>)
      returns (answer: Answer)
      modifies this
      ensures var id := TrimSpace(sessionID);
        var (after, expected) := Enqueued(At(old(sessions), id), MakeMessage(newID, text, mode, attachments));
        && answer == expected
        && (answer.Queued? <==> id in old(sessions) && old(sessions)[id].accepting && |old(sessions)[id].items| < 20)
        && At(sessions, id) == after
        && sessions == if after.Some? then old(sessions)[id := after.value] else old(sessions)
    {
      hide TrimLeft, TrimRight;
      var id := TrimSpace(sessionID);
      if id !in sessions || !sessions[id].accepting { return Inactive; }
      var state := sessions[id];
      if |state.items| >= MAX_QUEUED { return Full; }
      var trimmed := TrimSpace(mode);
      if trimmed == "" { trimmed := FOLLOWUP; }
      var item := Message(newID, TrimSpace(text), trimmed, attachments);
      var position := |state.items| + 1;
      var items := state.items;
      if trimmed == STEERING {
        position := SteeringPosition(items);
        items := ShiftIn(items, position, item);
      } else {
        items := items + [item];
      }
      sessions := sessions[id := state.(items := items)];
      answer := Queued(Public(item), position);
    }

    method NextAfter(sessionID: string) returns (next: Option<Message>)
      modifies this
      ensures var id := TrimSpace(sessionID);
        var (after, expected) := NextAfterTurn(At(old(sessions), id));
        && next == expected
        && next == (if id in old(sessions) && old(sessions)[id].items != [] then Some(old(sessions)[id].items[0]) else None)
        && At(sessions, id) == after
        && sessions == if after.Some? then old(sessions)[id := after.value] else old(sessions)
    {
      hide TrimLeft, TrimRight;
      var id := TrimSpace(sessionID);
      if id !in sessions || |sessions[id].items| == 0 {
        if id in sessions { sessions := sessions[id := sessions[id].(accepting := false)]; }
        return None;
      }
      var state := sessions[id];
      next := Some(state.items[0]);
      sessions := sessions[id := state.(items := state.items[1..])];
    }

    method Clear(sessionID: string) returns (count: nat, active: bool)
      modifies this
      ensures var id := TrimSpace(sessionID);
        && active == (id in old(sessions))
        && count == (if active then |old(sessions)[id].items| else 0)
        && sessions == if active then old(sessions)[id := Session([], false, true)] else old(sessions)
    {
      var id := TrimSpace(sessionID);
      if id !in sessions { return 0, false; }
      count, active := |sessions[id].items|, true;
      sessions := sessions[id := Session([], false, true)];
    }

    method Finish(sessionID: string)
      modifies this
      ensures sessions == old(sessions) - {TrimSpace(sessionID)}
    {
      sessions := sessions - {TrimSpace(sessionID)};
    }
  }

  method SteeringPosition(items: seq<Message>) returns (position: nat)
    ensures position == 1 + LeadingSteering(items)
  {
    position := 1;
    while position <= |items| && Steers(items[position - 1])
      invariant 1 <= position <= |items| + 1
      invariant LeadingSteering(items) == position - 1 + LeadingSteering(items[position - 1..])
    {
      assert items[position - 1..][1..] == items[position..];
      position := position + 1;
    }
  }

  /** append a hole at the end, shift the tail over it from the back, and fill the gap. */
  method ShiftIn(items: seq<Message>, position: nat, item: Message) returns (shifted: seq<Message>)
    requires 1 <= position <= |items| + 1
    ensures shifted == items[..position - 1] + [item] + items[position - 1..]
  {
    shifted := items + [Message("", "", "", [])];
    var k := |items|;
    while k > position - 1
      invariant position - 1 <= k <= |items|
      invariant |shifted| == |items| + 1
      invariant forall i :: 0 <= i < k ==> shifted[i] == items[i]
      invariant forall i :: k < i <= |items| ==> shifted[i] == items[i - 1]
    {
      shifted := shifted[k := shifted[k - 1]];
      k := k - 1;
    }
    shifted := shifted[position - 1 := item];
  }

  // ---------- one session: its driver, enqueuers and cancellers as steps ----------

  /** Where the handler that began the session stands: before its stream; in a turn; with the
      next message taken, before each of the two events that introduce it; told that there is
      no next message; after a failed turn; or past its last event. */
  datatype Driver =
    | Idle | Starting | InTurn | Advancing(steered: bool) | Introducing
    | Draining | Failing(silent: bool) | Ended

  datatype State = State(
    queue: Option<Session>,
    driver: Driver,
    accepted: seq<Message>,    // by enqueue, since begin
    delivered: seq<Message>,   // handed to the driver, since begin
    discarded: seq<Message>,   // by clear, since begin
    dropped: seq<Message>,     // still waiting at finish
    unannounced: nat,          // accepted messages whose "queued" event is still to come
    log: seq<string>)          // kinds of the events published for the session

  const INITIAL: State := State(None, Idle, [], [], [], [], 0, [])

  datatype Event =
    | Begin
    | StreamStarts
    | StreamFails                // streamAgentEvents returns false, and the handler calls finish
    | Enqueue(message: Message)
    | Announce
    | TurnEnds(steered: bool)    // the lock section of nextAfterTurn
    | PublishTurn
    | PublishStarted
    | TurnFails(silent: bool)    // the lock section of clear
    | TurnPanics                 // the deferred finish, before the panic is recovered
    | PublishDone
    | PublishFailure
    | Cancel
    | Finish

  predicate Enabled(s: State, e: Event) {
    match e
    case Begin => true
    case StreamStarts => s.driver.Starting?
    case StreamFails => s.driver.Starting?
    case Enqueue(_) => true
    case Announce => s.unannounced > 0
    case TurnEnds(_) => s.driver.InTurn?
    case PublishTurn => s.driver.Advancing?
    case PublishStarted => s.driver.Introducing?
    case TurnFails(_) => s.driver.InTurn?
    case TurnPanics => s.driver.InTurn?
    case PublishDone => s.driver.Draining?
    case PublishFailure => s.driver.Failing?
    case Cancel => true
    case Finish => s.driver.Ended?
  }

  function Discard(s: State): State {
    if s.queue.None? then s
    else s.(queue := Some(Cleared(s.queue.value)), discarded := s.discarded + s.queue.value.items)
  }

  function Items(s: State): seq<Message> { if s.queue.None? then [] else s.queue.value.items }

  /** finish deletes the session with whatever waits in it. */
  function Exit(s: State): State { s.(queue := None, driver := Idle, dropped := Items(s)) }

  function Apply(s: State, e: Event): State
    requires Enabled(s, e)
  {
    match e
    case Begin =>
      if s.queue.Some? then s
      else State(Some(FRESH), Starting, [], [], [], [], s.unannounced, s.log)
    case StreamStarts => s.(driver := InTurn)
    case StreamFails => Exit(s)
    case Enqueue(m) =>
      var (queue, answer) := Enqueued(s.queue, m);
      if answer.Queued? then s.(queue := queue, accepted := s.accepted + [m], unannounced := s.unannounced + 1) else s
    case Announce => s.(unannounced := s.unannounced - 1, log := s.log + ["queued"])
    case TurnEnds(steered) =>
      var (queue, next) := NextAfterTurn(s.queue);
      if next.None? then s.(queue := queue, driver := Draining)
      else s.(queue := queue, driver := Advancing(steered), delivered := s.delivered + [next.value])
    case PublishTurn => s.(driver := Introducing, log := s.log + [if s.driver.steered then "turn_steered" else "turn_done"])
    case PublishStarted => s.(driver := InTurn, log := s.log + ["queue_started"])
    case TurnFails(silent) => Discard(s).(driver := Failing(silent))
    case TurnPanics => Exit(s)
    case PublishDone => s.(driver := Ended, log := s.log + ["done"])
    case PublishFailure => s.(driver := Ended, log := if s.driver.silent then s.log else s.log + ["model_error"])
    case Cancel => Discard(s)
    case Finish => Exit(s)
  }

  // ---------- where the driver can go ----------

  /** A session is begun only if none is active; a message is taken in only as enqueue says; and
      a cancel discards what waits and closes the session. None of them moves the driver. */
  lemma {:induction false} OthersMoves(s: State, m: Message)
    ensures Enabled(s, Begin) && Enabled(s, Cancel) && Enabled(s, Enqueue(m)) && (Enabled(s, Announce) <==> s.unannounced > 0)
    ensures Apply(s, Begin) == if s.queue.Some? then s else State(Some(Session([], true, false)), Starting, [], [], [], [], s.unannounced, s.log)
    ensures Apply(s, Cancel) == if s.queue.None? then s else
      s.(queue := Some(Session([], false, true)), discarded := s.discarded + s.queue.value.items)
    ensures var s' := Apply(s, Enqueue(m));
      s' == if Enqueued(s.queue, m).1.Queued?
            then s.(queue := Enqueued(s.queue, m).0, accepted := s.accepted + [m], unannounced := s.unannounced + 1) else s
    ensures s.unannounced > 0 ==> Apply(s, Announce) == s.(unannounced := s.unannounced - 1, log := s.log + ["queued"])
  {
    hide Enqueued;
  }

  /** Whatever waits, the driver takes the first message after a turn, and with none stops. */
  lemma {:induction false} TurnMoves(s: State, b: bool)
    requires s.driver.InTurn? && s.queue.Some?
    ensures Enabled(s, TurnEnds(b)) && Enabled(s, TurnFails(b)) && Enabled(s, TurnPanics)
    ensures Apply(s, TurnEnds(b)) ==
      if Items(s) == [] then s.(queue := Some(s.queue.value.(accepting := false)), driver := Draining)
      else s.(queue := Some(s.queue.value.(items := Items(s)[1..])), driver := Advancing(b), delivered := s.delivered + [Items(s)[0]])
    ensures Apply(s, TurnFails(b)) ==
      s.(queue := Some(Session([], false, true)), discarded := s.discarded + Items(s), driver := Failing(b))
    ensures Apply(s, TurnPanics) == s.(queue := None, driver := Idle, dropped := Items(s))
  {
  }

  /** What was sent between two turns, and at the end. */
  lemma {:induction false} DriverMoves(s: State)
    ensures s.driver.Starting? ==>
      && Enabled(s, StreamStarts) && Apply(s, StreamStarts) == s.(driver := InTurn)
      && Enabled(s, StreamFails) && Apply(s, StreamFails) == s.(queue := None, driver := Idle, dropped := Items(s))
    ensures s.driver.Advancing? ==>
      && Enabled(s, PublishTurn)
      && Apply(s, PublishTurn) == s.(driver := Introducing, log := s.log + [if s.driver.steered then "turn_steered" else "turn_done"])
    ensures s.driver.Introducing? ==>
      && Enabled(s, PublishStarted) && Apply(s, PublishStarted) == s.(driver := InTurn, log := s.log + ["queue_started"])
    ensures s.driver.Draining? ==> Enabled(s, PublishDone) && Apply(s, PublishDone) == s.(driver := Ended, log := s.log + ["done"])
    ensures s.driver.Failing? ==>
      && Enabled(s, PublishFailure)
      && Apply(s, PublishFailure) == s.(driver := Ended, log := s.log + (if s.driver.silent then [] else ["model_error"]))
    ensures s.driver.Ended? ==> Enabled(s, Finish) && Apply(s, Finish) == s.(queue := None, driver := Idle, dropped := Items(s))
  {
    assert s.log + [] == s.log;
  }

  // ---------- the invariant ----------

  predicate QueueOk(q: Session) { |q.items| <= MAX_QUEUED && Ordered(q.items) }

  /** Nothing can be accepted any more, and nothing waits. */
  predicate Shut(q: Session) { !q.accepting && q.items == [] }

  /** Neither delivered nor discarded: what waits, or what waited when the session was finished. */
  function Remaining(s: State): seq<Message> { if s.queue.None? then s.dropped else s.queue.value.items }

  predicate Conserved(s: State, steering: bool) {
    OfClass(s.accepted, steering)
      == OfClass(s.delivered, steering) + OfClass(s.discarded, steering) + OfClass(Remaining(s), steering)
  }

  /** The driver may still take a message. */
  predicate Taking(d: Driver) { d.Starting? || d.InTurn? || d.Advancing? || d.Introducing? }

  predicate Shaped(s: State) {
    && (s.queue.None? <==> s.driver.Idle?)
    && (s.queue.Some? ==> QueueOk(s.queue.value) && s.dropped == [])
    && (s.queue.Some? && (s.discarded != [] || !Taking(s.driver)) ==> Shut(s.queue.value))
  }

  predicate Valid(s: State) {
    Shaped(s) && Conserved(s, true) && Conserved(s, false)
  }

  lemma {:induction false} DiscardKeeps(s: State, steering: bool)
    requires s.queue.Some? && Conserved(s, steering)
    ensures Conserved(Discard(s), steering)
  {
    hide OfClass;
    OfClassConcat(s.discarded, s.queue.value.items, steering);
    OfOtherClass([], steering);
    var delivered, discarded := OfClass(s.delivered, steering), OfClass(s.discarded, steering);
    assert delivered + (discarded + OfClass(Items(s), steering)) == delivered + discarded + OfClass(Items(s), steering);
  }

  lemma AppendInside(all: seq<Message>, a: seq<Message>, b: seq<Message>, c: seq<Message>, m: seq<Message>)
    requires all == a + b + c
    ensures all + m == a + b + (c + m)
  {
  }

  lemma MoveFirst(a: seq<Message>, b: seq<Message>, c: seq<Message>)
    ensures a + [] + (b + c) == (a + b) + [] + c
  {
  }

  lemma {:induction false} EnqueueKeeps(s: State, m: Message, steering: bool)
    requires Valid(s) && Enqueued(s.queue, m).1.Queued?
    ensures Conserved(Apply(s, Enqueue(m)), steering)
  {
    var items := s.queue.value.items;
    assert Conserved(s, steering) && Remaining(s) == items;
    hide OfClass, Insert, Position, Public, Valid;
    assert Remaining(Apply(s, Enqueue(m))) == Insert(items, m);
    OfClassConcat(s.accepted, [m], steering);
    OfClassOne(m, steering);
    InsertKeepsClasses(items, m, steering);
    AppendInside(OfClass(s.accepted, steering), OfClass(s.delivered, steering), OfClass(s.discarded, steering),
                 OfClass(items, steering), if Steers(m) == steering then [m] else []);
  }

  lemma {:induction false} DeliverKeeps(s: State, steered: bool, steering: bool)
    requires Valid(s) && s.driver.InTurn? && Items(s) != []
    ensures Conserved(Apply(s, TurnEnds(steered)), steering)
  {
    var items := Items(s);
    assert Conserved(s, steering) && s.discarded == [];
    hide OfClass, Valid;
    assert items == [items[0]] + items[1..];
    OfClassConcat([items[0]], items[1..], steering);
    OfClassConcat(s.delivered, [items[0]], steering);
    OfOtherClass([], steering);
    assert Remaining(Apply(s, TurnEnds(steered))) == items[1..] && Remaining(s) == items;
    MoveFirst(OfClass(s.delivered, steering), OfClass([items[0]], steering), OfClass(items[1..], steering));
  }

  lemma {:induction false} StepKeepsConserved(s: State, e: Event, steering: bool)
    requires Valid(s) && Enabled(s, e)
    ensures Conserved(Apply(s, e), steering)
  {
    assert Conserved(s, steering);
    hide OfClass, Insert, Position, Public;
    match e
    case Begin => OfOtherClass([], steering);
    case Enqueue(m) => if Enqueued(s.queue, m).1.Queued? { EnqueueKeeps(s, m, steering); }
    case TurnEnds(steered) => if Items(s) != [] { DeliverKeeps(s, steered, steering); }
    case TurnFails(_) => DiscardKeeps(s, steering);
    case Cancel => if s.queue.Some? { DiscardKeeps(s, steering); }
    case _ =>
  }

  lemma {:induction false} StepKeepsShaped(s: State, e: Event)
    requires Shaped(s) && Enabled(s, e)
    ensures Shaped(Apply(s, e))
  {
    if e.Enqueue? && Enqueued(s.queue, e.message).1.Queued? {
      InsertKeepsOrder(s.queue.value.items, e.message);
      InsertAtPosition(s.queue.value.items, e.message);
    }
    hide Insert, Position, Public;
  }

  lemma {:induction false} StepKeepsValid(s: State, e: Event)
    requires Valid(s) && Enabled(s, e)
    ensures Valid(Apply(s, e))
  {
    StepKeepsConserved(s, e, true);
    StepKeepsConserved(s, e, false);
    StepKeepsShaped(s, e);
  }

  // ---------- runs ----------

  predicate Possible(s: State, events: seq<Event>)
    decreases |events|
  {
    events == [] || (Enabled(s, events[0]) && Possible(Apply(s, events[0]), events[1..]))
  }

  function After(s: State, events: seq<Event>): State
    requires Possible(s, events)
    decreases |events|
  {
    if events == [] then s else After(Apply(s, events[0]), events[1..])
  }

  lemma {:induction false} RunKeepsValid(s: State, events: seq<Event>)
    requires Valid(s) && Possible(s, events)
    ensures Valid(After(s, events))
    decreases |events|
  {
    hide Valid, Apply;
    if events != [] {
      StepKeepsValid(s, events[0]);
      RunKeepsValid(Apply(s, events[0]), events[1..]);
    }
  }

  lemma InitialIsValid()
    ensures Valid(INITIAL)
  {
  }

  /** In every reachable state at most twenty messages wait, steering ones first, and what was
      accepted is, class by class and in order, what was delivered, discarded by a clear, waits,
      or was dropped by finish. */
  lemma {:induction false} NothingIsLost(events: seq<Event>, steering: bool)
    requires Possible(INITIAL, events)
    ensures var s := After(INITIAL, events);
      && |Items(s)| <= MAX_QUEUED
      && Ordered(Items(s))
      && OfClass(s.accepted, steering)
           == OfClass(s.delivered, steering) + OfClass(s.discarded, steering) + OfClass(Remaining(s), steering)
  {
    hide Possible, After, OfClass;
    InitialIsValid();
    RunKeepsValid(INITIAL, events);
    assert Conserved(After(INITIAL, events), steering);
  }

  predicate LeavesEarly(e: Event) { e.StreamFails? || e.TurnPanics? }

  /** When the driver decides to publish its final event, no accepted message is left behind:
      each was delivered or discarded by a clear, and none will be accepted before a new begin. */
  lemma {:induction false} FinalEventStrandsNothing(events: seq<Event>, m: Message, steering: bool)
    requires Possible(INITIAL, events)
    requires var d := After(INITIAL, events).driver; d.Draining? || d.Failing? || d.Ended?
    ensures var s := After(INITIAL, events);
      && OfClass(s.accepted, steering) == OfClass(s.delivered, steering) + OfClass(s.discarded, steering)
      && Apply(s, Enqueue(m)) == s
  {
    hide Possible, After, OfClass;
    InitialIsValid();
    RunKeepsValid(INITIAL, events);
    assert Conserved(After(INITIAL, events), steering);
    assert OfClass([], steering) == [] by { OfOtherClass([], steering); }
  }

  /** A session that ends, however it ends, drops exactly the messages that wait at that moment:
      none after a final event, and all that were accepted and not taken or cleared when the
      stream could not start or the turn panicked. */
  lemma {:induction false} ExitDropsWhatWaits(events: seq<Event>, e: Event, m: Message, steering: bool)
    requires Possible(INITIAL, events) && Enabled(After(INITIAL, events), e) && (e.Finish? || LeavesEarly(e))
    ensures var s := After(INITIAL, events); var s' := Apply(s, e);
      && s'.queue.None? && s'.dropped == Items(s) && (e.Finish? ==> Items(s) == [])
      && OfClass(s'.accepted, steering)
           == OfClass(s'.delivered, steering) + OfClass(s'.discarded, steering) + OfClass(s'.dropped, steering)
      && s'.log == s.log && Apply(s', Enqueue(m)) == s'
  {
    hide Possible, After, OfClass;
    InitialIsValid();
    RunKeepsValid(INITIAL, events);
    assert Conserved(After(INITIAL, events), steering);
  }

  /** Without such an early exit, finish never drops a message. */
  lemma {:induction false} DroppedOnlyByEarlyExit(s: State, events: seq<Event>)
    requires Valid(s) && s.dropped == [] && Possible(s, events)
    requires forall k :: 0 <= k < |events| ==> !LeavesEarly(events[k])
    ensures After(s, events).dropped == []
    decreases |events|
  {
    if events != [] {
      hide Valid, Apply;
      assert !LeavesEarly(events[0]);
      StepKeepsValid(s, events[0]);
      StepDropsNothing(s, events[0]);
      DroppedOnlyByEarlyExit(Apply(s, events[0]), events[1..]);
    }
  }

  lemma StepDropsNothing(s: State, e: Event)
    requires Valid(s) && s.dropped == [] && Enabled(s, e) && !LeavesEarly(e)
    ensures Apply(s, e).dropped == []
  {
    hide Conserved;
  }

  /** A message can be accepted before the stream starts, and is then lost without any event
      if it does not. */
  lemma {:induction false} EarlyExitLosesAMessage(m: Message)
    ensures var run := [Begin, Enqueue(m), StreamFails];
      && Possible(INITIAL, run)
      && var s := After(INITIAL, run);
         s.accepted == [m] && s.delivered == [] && s.discarded == [] && s.dropped == [m] && s.log == []
  {
    hide Possible, After;
    var s1 := Apply(INITIAL, Begin);
    var s2 := Apply(s1, Enqueue(m));
    InsertAtPosition([], m);
    assert Items(s2) == [m] && s2.driver.Starting?;
    NoMore(Apply(s2, StreamFails));
    Prefix(s2, StreamFails, []);
    Prefix(s1, Enqueue(m), [StreamFails] + []);
    Prefix(INITIAL, Begin, [Enqueue(m)] + ([StreamFails] + []));
    assert [Begin, Enqueue(m), StreamFails] == [Begin] + ([Enqueue(m)] + ([StreamFails] + []));
  }

  lemma NoMore(s: State)
    ensures Possible(s, []) && After(s, []) == s
  {
  }

  /** n turns that each take a message, and one that finds none. */
  function Turns(n: nat): seq<Event> {
    if n == 0 then [TurnEnds(false)] else [TurnEnds(false)] + ([PublishTurn] + ([PublishStarted] + Turns(n - 1)))
  }

  /** The state after a turn has ended, a message was taken and both its events are out. */
  function Taken(s: State): State
    requires s.queue.Some? && Items(s) != []
  {
    s.(queue := Some(s.queue.value.(items := Items(s)[1..])), delivered := s.delivered + [Items(s)[0]],
       log := s.log + ["turn_done"] + ["queue_started"])
  }

  lemma {:induction false} TakeThen(s: State, rest: seq<Event>)
    requires s.driver.InTurn? && s.queue.Some? && Items(s) != [] && Possible(Taken(s), rest)
    ensures var events := [TurnEnds(false)] + ([PublishTurn] + ([PublishStarted] + rest));
      Possible(s, events) && After(s, events) == After(Taken(s), rest)
  {
    hide Possible, After;
    var s1 := Apply(s, TurnEnds(false));
    var s2 := Apply(s1, PublishTurn);
    assert Apply(s2, PublishStarted) == Taken(s);
    hide Taken, NextAfterTurn;
    Prefix(s2, PublishStarted, rest);
    Prefix(s1, PublishTurn, [PublishStarted] + rest);
    Prefix(s, TurnEnds(false), [PublishTurn] + ([PublishStarted] + rest));
  }

  function Stopped(s: State): State
    requires s.queue.Some?
  {
    s.(queue := Some(s.queue.value.(accepting := false)), driver := Draining)
  }

  lemma {:induction false} StopThen(s: State, rest: seq<Event>)
    requires s.driver.InTurn? && s.queue.Some? && Items(s) == [] && Possible(Stopped(s), rest)
    ensures Possible(s, [TurnEnds(false)] + rest) && After(s, [TurnEnds(false)] + rest) == After(Stopped(s), rest)
  {
    assert Apply(s, TurnEnds(false)) == Stopped(s);
    hide Possible, After, Stopped;
    Prefix(s, TurnEnds(false), rest);
  }

  lemma OneLess(a: seq<Message>, items: seq<Message>)
    requires items != []
    ensures a + [items[0]] + items[1..] == a + items
  {
  }

  /** Left to itself, the driver delivers what waits in queue order, then stops. */
  lemma {:induction false} QueueDrainsInOrder(s: State)
    requires s.driver.InTurn? && s.queue.Some?
    ensures Possible(s, Turns(|Items(s)|))
    ensures var s' := After(s, Turns(|Items(s)|));
      && s'.driver.Draining? && s'.delivered == s.delivered + Items(s)
      && s'.queue == Some(s.queue.value.(items := [], accepting := false))
    decreases |Items(s)|
  {
    hide Possible, After, Apply;
    if Items(s) == [] {
      assert [TurnEnds(false)] + [] == Turns(0) && s.delivered + [] == s.delivered;
      NoMore(Stopped(s));
      StopThen(s, []);
    } else {
      QueueDrainsInOrder(Taken(s));
      OneLess(s.delivered, Items(s));
      TakeThen(s, Turns(|Items(s)| - 1));
    }
  }

  /** The events of a log other than announcements. */
  function Told(log: seq<string>): seq<string> {
    if log == [] then []
    else Told(log[..|log| - 1]) + if log[|log| - 1] == "queued" then [] else [log[|log| - 1]]
  }

  /** Two events for each turn that was followed by another. */
  function Story(turns: seq<bool>): seq<string> {
    if turns == [] then []
    else Story(turns[..|turns| - 1]) + [if turns[|turns| - 1] then "turn_steered" else "turn_done", "queue_started"]
  }

  /** What a session has told so far: turns tells of each delivered message whether the turn
      before it was steered away or done. */
  predicate TellsStory(before: seq<string>, s: State, turns: seq<bool>) {
    && |turns| == |s.delivered|
    && match s.driver
       case Idle => false
       case Starting => turns == [] && Told(s.log) == before
       case InTurn => Told(s.log) == before + Story(turns)
       case Advancing(b) => turns != [] && turns[|turns| - 1] == b && Told(s.log) == before + Story(turns[..|turns| - 1])
       case Introducing => turns != [] && Told(s.log) + ["queue_started"] == before + Story(turns)
       case Draining => Told(s.log) == before + Story(turns)
       case Failing(_) => Told(s.log) == before + Story(turns)
       case Ended => exists last :: last in [["done"], ["model_error"], []] && Told(s.log) == before + Story(turns) + last
  }

  lemma {:induction false} ToldOne(log: seq<string>, kind: string)
    ensures Told(log + [kind]) == Told(log) + if kind == "queued" then [] else [kind]
  {
    assert (log + [kind])[..|log|] == log;
  }

  lemma {:induction false} StoryOne(turns: seq<bool>, b: bool)
    ensures Story(turns + [b]) == Story(turns) + [if b then "turn_steered" else "turn_done", "queue_started"]
  {
    assert (turns + [b])[..|turns|] == turns;
  }

  lemma {:induction false} StoryGoesOn(before: seq<string>, s: State, turns: seq<bool>, e: Event) returns (turns': seq<bool>)
    requires Enabled(s, e) && s.queue.Some? && TellsStory(before, s, turns) && !Exits(e)
    ensures TellsStory(before, Apply(s, e), turns') && Apply(s, e).queue.Some?
  {
    StoryOfNone(before);
    hide Told, Story, Insert, Position, Public;
    turns' := turns;
    match e
    case TurnEnds(b) =>
      if Items(s) != [] {
        turns' := turns + [b];
        assert turns'[..|turns|] == turns;
      }
    case PublishTurn =>
      var b := s.driver.steered;
      var kind := if b then "turn_steered" else "turn_done";
      ToldOne(s.log, kind);
      StoryOne(turns[..|turns| - 1], b);
      assert turns[..|turns| - 1] + [b] == turns;
      assert [kind] + ["queue_started"] == [kind, "queue_started"];
      AppendTwo(before, Story(turns[..|turns| - 1]), kind);
    case PublishStarted => ToldOne(s.log, "queue_started");
    case Announce =>
      ToldOne(s.log, "queued");
      assert Told(s.log) + [] == Told(s.log);
    case PublishDone =>
      ToldOne(s.log, "done");
      assert ["done"] in [["done"], ["model_error"], []];
    case PublishFailure =>
      ToldOne(s.log, "model_error");
      assert ["model_error"] in [["done"], ["model_error"], []] && [] in [["done"], ["model_error"], []];
      assert before + Story(turns) + [] == before + Story(turns);
    case _ =>
  }

  lemma StoryOfNone(before: seq<string>)
    ensures before + Story([]) == before
  {
  }

  lemma AppendTwo(before: seq<string>, story: seq<string>, kind: string)
    ensures before + story + [kind] + ["queue_started"] == before + (story + [kind, "queue_started"])
  {
  }

  /** The steps with which a session ends. */
  predicate Exits(e: Event) { e.Finish? || LeavesEarly(e) }

  /** From its begin to its end a session tells, announcements apart: for every delivered message
      how the turn before it ended and that the message is started, one after the other, and at
      the end that it is done, that the model failed, or nothing. */
  lemma {:induction false} SessionTellsItsStory(s: State, events: seq<Event>) returns (turns: seq<bool>)
    requires s.queue.None? && Possible(Apply(s, Begin), events)
    requires forall k :: 0 <= k < |events| ==> !Exits(events[k])
    ensures TellsStory(Told(s.log), After(Apply(s, Begin), events), turns)
  {
    turns := StoryFrom(Told(s.log), Apply(s, Begin), [], events);
  }

  lemma {:induction false} StoryFrom(before: seq<string>, s: State, turns: seq<bool>, events: seq<Event>) returns (turns': seq<bool>)
    requires s.queue.Some? && TellsStory(before, s, turns) && Possible(s, events)
    requires forall k :: 0 <= k < |events| ==> !Exits(events[k])
    ensures TellsStory(before, After(s, events), turns')
    decreases |events|
  {
    hide TellsStory, Apply, Exits, Enabled;
    turns' := turns;
    if events != [] {
      assert !Exits(events[0]);
      var more := StoryGoesOn(before, s, turns, events[0]);
      turns' := StoryFrom(before, Apply(s, events[0]), more, events[1..]);
    }
  }

  /** Until a new begin, the log can still grow exactly while some acceptance is unannounced:
      with none left, the event published last stays last. */
  lemma {:induction false} LastEventStays(s: State, events: seq<Event>)
    requires s.driver.Ended? || (s.driver.Idle? && s.queue.None?)
    requires s.queue.Some? ==> Shut(s.queue.value)
    requires s.unannounced == 0 && Possible(s, events) && Begin !in events
    ensures After(s, events).log == s.log
    decreases |events|
  {
    if events != [] {
      assert events[0] in events;
      var s' := Apply(s, events[0]);
      assert s'.log == s.log && s'.unannounced == 0;
      hide Apply, Possible;
      LastEventStays(s', events[1..]);
    }
  }

  lemma {:induction false} AnnouncementFollowsDone(s: State)
    requires s.driver.Ended? && s.unannounced > 0
    ensures Possible(s, [Announce]) && After(s, [Announce]) == s.(unannounced := s.unannounced - 1, log := s.log + ["queued"])
  {
    assert [Announce][1..] == [];
  }

  function OvertakenAnnouncement(m: Message): seq<Event> {
    [Begin, StreamStarts, Enqueue(m)] + Turns(1) + [PublishDone, Announce]
  }

  lemma {:induction false} Prefix(s: State, e: Event, rest: seq<Event>)
    requires Enabled(s, e) && Possible(Apply(s, e), rest)
    ensures Possible(s, [e] + rest) && After(s, [e] + rest) == After(Apply(s, e), rest)
  {
    hide Enabled, Apply;
    assert ([e] + rest)[1..] == rest;
  }

  /** The announcement of a message is published outside the queue's lock, so it can come
      after the message has been delivered and the final event published. */
  lemma {:induction false} AnnouncementCanBeOvertaken(m: Message)
    ensures Possible(INITIAL, OvertakenAnnouncement(m))
    ensures After(INITIAL, OvertakenAnnouncement(m)).delivered == [m]
    ensures After(INITIAL, OvertakenAnnouncement(m)).log == ["turn_done", "queue_started", "done", "queued"]
  {
    var s1 := Apply(INITIAL, Begin);
    var s2 := Apply(s1, StreamStarts);
    var s3 := Apply(s2, Enqueue(m));
    InsertAtPosition([], m);
    assert Insert([], m) == [m];
    assert s3.queue == Some(Session([m], true, false)) && s3.driver.InTurn? && s3.delivered == [] && s3.log == [] && s3.unannounced == 1;
    hide Possible, After, Insert;
    var e3 := [TurnEnds(false)] + ([PublishTurn] + ([PublishStarted] + ([TurnEnds(false)] + ([PublishDone] + [Announce]))));
    OvertakenFrom(s3, m);
    hide Apply;
    Prefix(s2, Enqueue(m), e3);
    Prefix(s1, StreamStarts, [Enqueue(m)] + e3);
    Prefix(INITIAL, Begin, [StreamStarts] + ([Enqueue(m)] + e3));
    OvertakenSpelled(m);
  }

  lemma {:induction false} OvertakenFrom(s: State, m: Message)
    requires s.queue == Some(Session([m], true, false)) && s.driver.InTurn? && s.delivered == [] && s.log == [] && s.unannounced == 1
    ensures
      var events := [TurnEnds(false)] + ([PublishTurn] + ([PublishStarted] + ([TurnEnds(false)] + ([PublishDone] + [Announce]))));
      && Possible(s, events) && After(s, events).delivered == [m]
      && After(s, events).log == ["turn_done", "queue_started", "done", "queued"]
  {
    var taken := Taken(s);
    var stopped := Stopped(taken);
    var done := Apply(stopped, PublishDone);
    assert taken.delivered == [m] && taken.log == ["turn_done", "queue_started"];
    assert done.delivered == [m] && done.log == ["turn_done", "queue_started", "done"];
    AnnouncementFollowsDone(done);
    hide Possible, After, Apply;
    Prefix(stopped, PublishDone, [Announce]);
    StopThen(taken, [PublishDone] + [Announce]);
    TakeThen(s, [TurnEnds(false)] + ([PublishDone] + [Announce]));
  }

  lemma {:induction false} OvertakenSpelled(m: Message)
    ensures OvertakenAnnouncement(m)
         == [Begin] + ([StreamStarts] + ([Enqueue(m)] + ([TurnEnds(false)] + ([PublishTurn] + ([PublishStarted]
              + ([TurnEnds(false)] + ([PublishDone] + [Announce])))))))
  {
    assert Turns(1) == [TurnEnds(false), PublishTurn, PublishStarted, TurnEnds(false)];
  }
}
