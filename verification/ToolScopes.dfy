/** Agent sessions and the execution scopes of their detached tool calls, as the steps
    between lock acquisitions. */
module ToolScopes {
  import opened Wrappers

  type SessionId = string
  type CallId = string
  type ScopeId = nat
  type ThreadId = nat
  type CancelId = nat

  /** toolExecutionScope. runs counts how often the idle callback has been started. */
  datatype Scope = Scope(session: SessionId, active: map<CallId, nat>, modelEnd: bool, idleDone: bool,
                         cancelled: bool, runs: nat)

  datatype Session = Session(scope: ScopeId, steerPending: bool, steerCancel: Option<CancelId>)

  /** What a goroutine still has to do after leaving a lock. */
  datatype Thread =
    | Ending(scope: ScopeId)                // endSession: modelFinished is next
    | Closing(scope: ScopeId)               // saw idle: closeIdle is next
    | Removing(scope: ScopeId)              // inside idleOnce: onIdle is next
    | Cancelling(todo: set<ScopeId>)        // CancelSession after its snapshot
    | Requesting(cancel: CancelId)          // SteerSession or registerSteerCancel after the lock

  datatype State = State(
    active: map<SessionId, Session>,
    toolScopes: map<SessionId, set<ScopeId>>,
    scopes: seq<Scope>,
    threads: map<ThreadId, Thread>,
    nextThread: ThreadId,
    delivered: set<CancelId>)

  const INITIAL: State := State(map[], map[], [], map[], 0, {})

  datatype Event =
    | Begin(session: SessionId)                       // beginSession
    | End(session: SessionId)                         // endSession up to the unlock
    | ModelFinished(thread: ThreadId)                 // the lock section of modelFinished
    | Started(scope: ScopeId, call: CallId)           // scopedToolContext on a tool call
    | Finished(scope: ScopeId, call: CallId)          // the lock section of finished
    | CloseIdle(thread: ThreadId)                     // idleOnce.Do up to the callback
    | RemoveScope(thread: ThreadId)                   // removeToolScope
    | CancelSnapshot(session: SessionId)              // the lock section of CancelSession
    | CancelScope(thread: ThreadId, scope: ScopeId)   // one scope.cancelAll
    | CancelReturns(thread: ThreadId)
    | Steer(session: SessionId)                       // the lock section of SteerSession
    | Register(session: SessionId, cancel: CancelId)  // the lock section of registerSteerCancel
    | Deliver(thread: ThreadId)                       // requestAgentSteer

  predicate Enabled(s: State, e: Event) {
    match e
    case Begin(_) => true
    case End(_) => true
    case ModelFinished(t) => t in s.threads && s.threads[t].Ending? && s.threads[t].scope < |s.scopes|
    case Started(x, _) => x < |s.scopes|
    case Finished(x, call) => x < |s.scopes| && call in s.scopes[x].active
    case CloseIdle(t) => t in s.threads && s.threads[t].Closing? && s.threads[t].scope < |s.scopes|
    case RemoveScope(t) => t in s.threads && s.threads[t].Removing? && s.threads[t].scope < |s.scopes|
    case CancelSnapshot(_) => true
    case CancelScope(t, x) => t in s.threads && s.threads[t].Cancelling? && x in s.threads[t].todo && x < |s.scopes|
    case CancelReturns(t) => t in s.threads && s.threads[t].Cancelling? && s.threads[t].todo == {}
    case Steer(_) => true
    case Register(_, _) => true
    case Deliver(t) => t in s.threads && s.threads[t].Requesting?
  }

  function Registered(s: State, session: SessionId): set<ScopeId> {
    if session in s.toolScopes then s.toolScopes[session] else {}
  }

  function Spawn(s: State, thread: Thread): State {
    s.(threads := s.threads[s.nextThread := thread], nextThread := s.nextThread + 1)
  }

  function SpawnIf(s: State, condition: bool, thread: Thread): State {
    if condition then Spawn(s, thread) else s
  }

  function Ends(s: State, t: ThreadId): State { s.(threads := s.threads - {t}) }

  function SetScope(s: State, x: ScopeId, scope: Scope): State
    requires x < |s.scopes|
  {
    s.(scopes := s.scopes[x := scope])
  }

  /** delete at one call left, otherwise count down. */
  function Leave(active: map<CallId, nat>, call: CallId): map<CallId, nat> {
    if call !in active || active[call] <= 1 then active - {call} else active[call := active[call] - 1]
  }

  function BeginStep(s: State, session: SessionId): State {
    if session in s.active then s
    else
      var x := |s.scopes|;
      s.(active := s.active[session := Session(x, false, None)],
         toolScopes := s.toolScopes[session := Registered(s, session) + {x}],
         scopes := s.scopes + [Scope(session, map[], false, false, false, 0)])
  }

  function EndStep(s: State, session: SessionId): State {
    if session !in s.active then s
    else Spawn(s.(active := s.active - {session}), Ending(s.active[session].scope))
  }

  function ModelFinishedStep(s: State, t: ThreadId): State
    requires Enabled(s, ModelFinished(t))
  {
    var x := s.threads[t].scope;
    var scope := s.scopes[x].(modelEnd := true);
    SpawnIf(SetScope(Ends(s, t), x, scope), scope.active == map[], Closing(x))
  }

  function FinishedStep(s: State, x: ScopeId, call: CallId): State
    requires x < |s.scopes|
  {
    var scope := s.scopes[x].(active := Leave(s.scopes[x].active, call));
    SpawnIf(SetScope(s, x, scope), scope.modelEnd && scope.active == map[], Closing(x))
  }

  function StartedStep(s: State, x: ScopeId, call: CallId): State
    requires x < |s.scopes|
  {
    var active := s.scopes[x].active;
    SetScope(s, x, s.scopes[x].(active := active[call := 1 + if call in active then active[call] else 0]))
  }

  function CloseIdleStep(s: State, t: ThreadId): State
    requires Enabled(s, CloseIdle(t))
  {
    var x := s.threads[t].scope;
    var scope := s.scopes[x];
    if scope.idleDone then Ends(s, t)
    else Spawn(SetScope(Ends(s, t), x, scope.(idleDone := true, cancelled := true, runs := scope.runs + 1)), Removing(x))
  }

  function RemoveStep(s: State, t: ThreadId): State
    requires Enabled(s, RemoveScope(t))
  {
    var x := s.threads[t].scope;
    var session := s.scopes[x].session;
    var rest := Registered(s, session) - {x};
    Ends(s, t).(toolScopes := if rest == {} then s.toolScopes - {session} else s.toolScopes[session := rest])
  }

  function SteerStep(s: State, session: SessionId): State {
    if session !in s.active then s
    else
      var a := s.active[session];
      var s' := s.(active := s.active[session := a.(steerPending := true)]);
      if a.steerCancel.Some? then Spawn(s', Requesting(a.steerCancel.value)) else s'
  }

  function RegisterStep(s: State, session: SessionId, cancel: CancelId): State {
    if session !in s.active then s
    else
      var a := s.active[session];
      SpawnIf(s.(active := s.active[session := a.(steerCancel := Some(cancel))]), a.steerPending, Requesting(cancel))
  }

  function Apply(s: State, e: Event): State
    requires Enabled(s, e)
  {
    match e
    case Begin(session) => BeginStep(s, session)
    case End(session) => EndStep(s, session)
    case ModelFinished(t) => ModelFinishedStep(s, t)
    case Started(x, call) => StartedStep(s, x, call)
    case Finished(x, call) => FinishedStep(s, x, call)
    case CloseIdle(t) => CloseIdleStep(s, t)
    case RemoveScope(t) => RemoveStep(s, t)
    case CancelSnapshot(session) => Spawn(s, Cancelling(Registered(s, session)))
    case CancelScope(t, x) =>
      SetScope(s, x, s.scopes[x].(cancelled := true)).(threads := s.threads[t := Cancelling(s.threads[t].todo - {x})])
    case CancelReturns(t) => Ends(s, t)
    case Steer(session) => SteerStep(s, session)
    case Register(session, cancel) => RegisterStep(s, session, cancel)
    case Deliver(t) => Ends(s, t).(delivered := s.delivered + {s.threads[t].cancel})
  }

  // ---------- the invariant ----------

  predicate IsRegistered(s: State, x: ScopeId)
    requires x < |s.scopes|
  {
    x in Registered(s, s.scopes[x].session)
  }

  ghost predicate HasThread(s: State, thread: Thread) {
    exists t :: t in s.threads && s.threads[t] == thread
  }

  /** The part of the invariant about one scope. */
  ghost predicate ScopeOk(s: State, x: ScopeId)
    requires x < |s.scopes|
  {
    var scope := s.scopes[x];
    && scope.runs == (if scope.idleDone then 1 else 0)
    && (scope.idleDone ==> scope.modelEnd && scope.cancelled)
    && (IsRegistered(s, x) || scope.idleDone)
    && (scope.idleDone && IsRegistered(s, x) ==> HasThread(s, Removing(x)))
    && (scope.modelEnd && scope.active == map[] && !scope.idleDone ==> HasThread(s, Closing(x)))
  }

  ghost predicate ThreadOk(s: State, thread: Thread) {
    match thread
    case Ending(x) => x < |s.scopes|
    case Closing(x) => x < |s.scopes| && s.scopes[x].modelEnd
    case Removing(x) => x < |s.scopes| && s.scopes[x].idleDone
    case Cancelling(todo) => forall x :: x in todo ==> x < |s.scopes|
    case Requesting(_) => true
  }

  ghost predicate SessionOk(s: State, session: SessionId)
    requires session in s.active
  {
    var a := s.active[session];
    && a.scope < |s.scopes| && s.scopes[a.scope].session == session && !s.scopes[a.scope].modelEnd
    && !HasThread(s, Ending(a.scope))
    && (a.steerPending && a.steerCancel.Some? ==>
          a.steerCancel.value in s.delivered || HasThread(s, Requesting(a.steerCancel.value)))
  }

  ghost predicate RegisterOk(s: State, session: SessionId)
    requires session in s.toolScopes
  {
    && s.toolScopes[session] != {}
    && forall x :: x in s.toolScopes[session] ==> x < |s.scopes| && s.scopes[x].session == session
  }

  ghost predicate Valid(s: State) {
    && (forall x: nat :: x < |s.scopes| ==> ScopeOk(s, x))
    && (forall t :: t in s.threads ==> t < s.nextThread && ThreadOk(s, s.threads[t]))
    && (forall session :: session in s.active ==> SessionOk(s, session))
    && (forall session :: session in s.toolScopes ==> RegisterOk(s, session))
  }

  ghost predicate ThreadsBelow(s: State) { forall t :: t in s.threads ==> t < s.nextThread }

  lemma {:induction false} SpawnThreads(s: State, thread: Thread, z: Thread)
    requires ThreadsBelow(s)
    ensures HasThread(Spawn(s, thread), z) <==> HasThread(s, z) || z == thread
    ensures ThreadsBelow(Spawn(s, thread))
  {
    var s' := Spawn(s, thread);
    assert s'.threads[s.nextThread] == thread;
    if HasThread(s, z) {
      var t :| t in s.threads && s.threads[t] == z;
      assert s'.threads[t] == z;
    }
  }

  lemma {:induction false} EndsThreads(s: State, t: ThreadId, z: Thread)
    requires t in s.threads && s.threads[t] != z
    ensures HasThread(Ends(s, t), z) <==> HasThread(s, z)
  {
    if HasThread(s, z) {
      var u :| u in s.threads && s.threads[u] == z;
      assert Ends(s, t).threads[u] == z;
    }
  }

  lemma {:induction false} ReplaceThreads(s: State, t: ThreadId, thread: Thread, z: Thread)
    requires t in s.threads && s.threads[t] != z && thread != z
    ensures HasThread(s.(threads := s.threads[t := thread]), z) <==> HasThread(s, z)
  {
    var s' := s.(threads := s.threads[t := thread]);
    if HasThread(s, z) {
      var u :| u in s.threads && s.threads[u] == z;
      assert s'.threads[u] == z;
    }
  }

  lemma {:induction false} NoEndingOfNew(s: State, n: ScopeId)
    requires Valid(s) && |s.scopes| <= n
    ensures !HasThread(s, Ending(n))
  {
    forall t | t in s.threads ensures s.threads[t] != Ending(n) { assert ThreadOk(s, s.threads[t]); }
  }

  lemma {:induction false} BeginScopes(s: State, session: SessionId, x: ScopeId)
    requires Valid(s) && session !in s.active && x <= |s.scopes|
    ensures ScopeOk(BeginStep(s, session), x)
  {
    var s' := BeginStep(s, session);
    forall z ensures HasThread(s', z) <==> HasThread(s, z) {}
    hide HasThread;
    if x < |s.scopes| { assert ScopeOk(s, x); }
  }

  lemma {:induction false} BeginValid(s: State, session: SessionId)
    requires Valid(s)
    ensures Valid(BeginStep(s, session))
  {
    var s', n := BeginStep(s, session), |s.scopes|;
    if session !in s.active {
      forall z ensures HasThread(s', z) <==> HasThread(s, z) {}
      NoEndingOfNew(s, n);
      hide HasThread, ScopeOk;
      forall x: nat | x <= n ensures ScopeOk(s', x) { BeginScopes(s, session, x); }
      forall t | t in s'.threads ensures ThreadOk(s', s'.threads[t]) { assert ThreadOk(s, s.threads[t]); }
      forall other | other in s'.active ensures SessionOk(s', other) {
        if other != session { assert SessionOk(s, other); }
      }
      forall other | other in s'.toolScopes ensures RegisterOk(s', other) {
        if other in s.toolScopes { assert RegisterOk(s, other); }
      }
    }
  }

  lemma {:induction false} EndValid(s: State, session: SessionId)
    requires Valid(s)
    ensures Valid(EndStep(s, session))
  {
    if session in s.active {
      var x0 := s.active[session].scope;
      var mid := s.(active := s.active - {session});
      var s' := EndStep(s, session);
      assert SessionOk(s, session);
      forall z ensures HasThread(s', z) <==> HasThread(s, z) || z == Ending(x0) {
        SpawnThreads(mid, Ending(x0), z);
        assert HasThread(mid, z) <==> HasThread(s, z);
      }
      hide HasThread;
      forall x: nat | x < |s'.scopes| ensures ScopeOk(s', x) { assert ScopeOk(s, x); }
      forall t | t in s'.threads ensures t < s'.nextThread && ThreadOk(s', s'.threads[t]) {
        if t in s.threads { assert ThreadOk(s, s.threads[t]); }
      }
      forall other | other in s'.active ensures SessionOk(s', other) { assert SessionOk(s, other); }
      forall other | other in s'.toolScopes ensures RegisterOk(s', other) { assert RegisterOk(s, other); }
    }
  }

  /** Changing one scope, not its session, and letting some threads come and go. */
  lemma {:induction false} ScopeStepValid(s: State, s': State, x0: ScopeId)
    requires Valid(s) && x0 < |s.scopes| == |s'.scopes|
    requires s'.active == s.active && s'.toolScopes == s.toolScopes && s'.delivered == s.delivered
    requires forall x: nat :: x < |s.scopes| && x != x0 ==> s'.scopes[x] == s.scopes[x]
    requires s'.scopes[x0].session == s.scopes[x0].session
    requires s.scopes[x0].modelEnd ==> s'.scopes[x0].modelEnd
    requires s.scopes[x0].idleDone ==> s'.scopes[x0].idleDone
    requires s'.scopes[x0].modelEnd ==> s.scopes[x0].modelEnd || HasThread(s, Ending(x0))
    requires ScopeOk(s', x0)
    requires forall t :: t in s'.threads ==> t < s'.nextThread && ThreadOk(s', s'.threads[t])
    requires forall x: nat :: x != x0 && HasThread(s, Removing(x)) ==> HasThread(s', Removing(x))
    requires forall x: nat :: x != x0 && HasThread(s, Closing(x)) ==> HasThread(s', Closing(x))
    requires forall x: nat :: HasThread(s', Ending(x)) ==> HasThread(s, Ending(x))
    requires forall c: CancelId :: HasThread(s, Requesting(c)) ==> HasThread(s', Requesting(c))
    ensures Valid(s')
  {
    hide HasThread;
    forall x: nat | x < |s'.scopes| ensures ScopeOk(s', x) {
      assert ScopeOk(s, x);
      assert x != x0 ==> (IsRegistered(s', x) <==> IsRegistered(s, x));
    }
    forall session | session in s'.active ensures SessionOk(s', session) { assert SessionOk(s, session); }
    forall session | session in s'.toolScopes ensures RegisterOk(s', session) { assert RegisterOk(s, session); }
  }

  lemma {:induction false} ModelFinishedValid(s: State, t: ThreadId)
    requires Valid(s) && Enabled(s, ModelFinished(t))
    ensures Valid(ModelFinishedStep(s, t))
  {
    var x0 := s.threads[t].scope;
    var scope := s.scopes[x0].(modelEnd := true);
    var mid := SetScope(Ends(s, t), x0, scope);
    var s' := ModelFinishedStep(s, t);
    var idle := scope.active == map[];
    assert HasThread(s, Ending(x0)) && ScopeOk(s, x0);
    forall z: Thread
      ensures HasThread(s', z) ==> HasThread(s, z) || (idle && z == Closing(x0))
      ensures z != Ending(x0) && HasThread(s, z) ==> HasThread(s', z)
      ensures idle ==> HasThread(s', Closing(x0))
    {
      assert HasThread(mid, z) <==> HasThread(Ends(s, t), z);
      if z != Ending(x0) { EndsThreads(s, t, z); }
      if idle { SpawnThreads(mid, Closing(x0), z); SpawnThreads(mid, Closing(x0), Closing(x0)); }
    }
    forall u | u in s'.threads ensures u < s'.nextThread && ThreadOk(s', s'.threads[u]) {
      if u in s.threads { assert ThreadOk(s, s.threads[u]); }
    }
    assert ScopeOk(s', x0);
    hide HasThread;
    ScopeStepValid(s, s', x0);
  }

  lemma {:induction false} StartedValid(s: State, x0: ScopeId, call: CallId)
    requires Valid(s) && x0 < |s.scopes|
    ensures Valid(StartedStep(s, x0, call))
  {
    var s' := StartedStep(s, x0, call);
    assert ScopeOk(s, x0);
    assert s'.scopes[x0].active[call] > 0;
    assert s'.scopes[x0].active != map[] by { assert call in s'.scopes[x0].active; }
    forall z: Thread ensures HasThread(s', z) <==> HasThread(s, z) {}
    forall u | u in s'.threads ensures ThreadOk(s', s'.threads[u]) { assert ThreadOk(s, s.threads[u]); }
    ScopeStepValid(s, s', x0);
  }

  lemma {:induction false} FinishedValid(s: State, x0: ScopeId, call: CallId)
    requires Valid(s) && x0 < |s.scopes|
    ensures Valid(FinishedStep(s, x0, call))
  {
    var scope := s.scopes[x0].(active := Leave(s.scopes[x0].active, call));
    var mid, s' := SetScope(s, x0, scope), FinishedStep(s, x0, call);
    var idle := scope.modelEnd && scope.active == map[];
    assert ScopeOk(s, x0);
    forall z: Thread
      ensures HasThread(s', z) ==> HasThread(s, z) || (idle && z == Closing(x0))
      ensures HasThread(s, z) ==> HasThread(s', z)
      ensures idle ==> HasThread(s', Closing(x0))
    {
      assert HasThread(mid, z) <==> HasThread(s, z);
      if idle { SpawnThreads(mid, Closing(x0), z); SpawnThreads(mid, Closing(x0), Closing(x0)); }
    }
    forall u | u in s'.threads ensures u < s'.nextThread && ThreadOk(s', s'.threads[u]) {
      if u in s.threads { assert ThreadOk(s, s.threads[u]); }
    }
    assert ScopeOk(s', x0);
    hide HasThread;
    ScopeStepValid(s, s', x0);
  }

  lemma {:induction false} CloseIdleValid(s: State, t: ThreadId)
    requires Valid(s) && Enabled(s, CloseIdle(t))
    ensures Valid(CloseIdleStep(s, t))
  {
    var x0 := s.threads[t].scope;
    var scope := s.scopes[x0];
    var s' := CloseIdleStep(s, t);
    assert ScopeOk(s, x0) && ThreadOk(s, s.threads[t]);
    var mid := SetScope(Ends(s, t), x0, if scope.idleDone then scope
                                        else scope.(idleDone := true, cancelled := true, runs := scope.runs + 1));
    forall z: Thread
      ensures HasThread(s', z) ==> HasThread(s, z) || (!scope.idleDone && z == Removing(x0))
      ensures z != Closing(x0) && HasThread(s, z) ==> HasThread(s', z)
      ensures !scope.idleDone ==> HasThread(s', Removing(x0))
    {
      assert HasThread(mid, z) <==> HasThread(Ends(s, t), z);
      if z != Closing(x0) { EndsThreads(s, t, z); }
      if !scope.idleDone { SpawnThreads(mid, Removing(x0), z); SpawnThreads(mid, Removing(x0), Removing(x0)); }
    }
    forall u | u in s'.threads ensures u < s'.nextThread && ThreadOk(s', s'.threads[u]) {
      if u in s.threads { assert ThreadOk(s, s.threads[u]); }
    }
    assert ScopeOk(s', x0);
    hide HasThread;
    ScopeStepValid(s, s', x0);
  }

  lemma {:induction false} RemoveValid(s: State, t: ThreadId)
    requires Valid(s) && Enabled(s, RemoveScope(t))
    ensures Valid(RemoveStep(s, t))
    ensures !IsRegistered(RemoveStep(s, t), s.threads[t].scope)
  {
    var x0 := s.threads[t].scope;
    var session := s.scopes[x0].session;
    var s' := RemoveStep(s, t);
    assert ThreadOk(s, s.threads[t]);
    forall z: Thread ensures z != Removing(x0) ==> (HasThread(s', z) <==> HasThread(s, z)) {
      if z != Removing(x0) {
        EndsThreads(s, t, z);
        assert HasThread(s', z) <==> HasThread(Ends(s, t), z);
      }
    }
    hide HasThread;
    forall other ensures Registered(s', other) == if other == session then Registered(s, other) - {x0} else Registered(s, other) {}
    forall x: nat | x < |s'.scopes| ensures ScopeOk(s', x) {
      assert ScopeOk(s, x);
      assert s.scopes[x].session == session ==> (x in Registered(s', session) <==> x in Registered(s, session) && x != x0);
    }
    forall u | u in s'.threads ensures ThreadOk(s', s'.threads[u]) { assert ThreadOk(s, s.threads[u]); }
    forall other | other in s'.active ensures SessionOk(s', other) { assert SessionOk(s, other); }
    forall other | other in s'.toolScopes ensures RegisterOk(s', other) { assert other in s.toolScopes ==> RegisterOk(s, other); }
  }

  /** Steps that leave scopes and registrations alone, apart from cancellation. */
  lemma {:induction false} QuietStepValid(s: State, s': State)
    requires Valid(s) && |s'.scopes| == |s.scopes| && s'.toolScopes == s.toolScopes
    requires forall x: nat :: x < |s.scopes| ==>
               s'.scopes[x] == s.scopes[x] || s'.scopes[x] == s.scopes[x].(cancelled := true)
    requires forall t :: t in s'.threads ==> t < s'.nextThread && ThreadOk(s', s'.threads[t])
    requires forall x: nat :: HasThread(s, Removing(x)) ==> HasThread(s', Removing(x))
    requires forall x: nat :: HasThread(s, Closing(x)) ==> HasThread(s', Closing(x))
    requires forall session :: session in s'.active ==> SessionOk(s', session)
    ensures Valid(s')
  {
    hide HasThread, SessionOk, ThreadOk;
    forall x: nat | x < |s'.scopes| ensures ScopeOk(s', x) { assert ScopeOk(s, x); }
    forall session | session in s'.toolScopes ensures RegisterOk(s', session) { assert RegisterOk(s, session); }
  }

  lemma {:induction false} SpawnValid(s: State, s0: State, thread: Thread)
    requires Valid(s) && s0.threads == s.threads && s0.nextThread == s.nextThread
    requires s0.scopes == s.scopes && s0.toolScopes == s.toolScopes && ThreadOk(s, thread)
    requires forall session :: session in s0.active ==> SessionOk(Spawn(s0, thread), session)
    ensures Valid(Spawn(s0, thread))
  {
    var s' := Spawn(s0, thread);
    forall z ensures HasThread(s, z) ==> HasThread(s', z) {
      SpawnThreads(s0, thread, z);
      assert HasThread(s0, z) <==> HasThread(s, z);
    }
    forall t | t in s'.threads ensures t < s'.nextThread && ThreadOk(s', s'.threads[t]) {
      if t in s.threads { assert ThreadOk(s, s.threads[t]); }
    }
    hide HasThread;
    QuietStepValid(s, s');
  }

  lemma {:induction false} CancelSnapshotValid(s: State, session: SessionId)
    requires Valid(s)
    ensures Valid(Apply(s, CancelSnapshot(session)))
  {
    var thread := Cancelling(Registered(s, session));
    forall other | other in s.active ensures SessionOk(Spawn(s, thread), other) {
      assert SessionOk(s, other);
      var a := s.active[other];
      SpawnThreads(s, thread, Ending(a.scope));
      if a.steerCancel.Some? { SpawnThreads(s, thread, Requesting(a.steerCancel.value)); }
    }
    if session in s.toolScopes { assert RegisterOk(s, session); }
    SpawnValid(s, s, thread);
  }

  lemma {:induction false} SteerValid(s: State, session: SessionId)
    requires Valid(s)
    ensures Valid(SteerStep(s, session))
  {
    if session in s.active {
      var a := s.active[session];
      var s0 := s.(active := s.active[session := a.(steerPending := true)]);
      assert SessionOk(s, session);
      forall z ensures HasThread(s0, z) <==> HasThread(s, z) {}
      if a.steerCancel.Some? {
        var thread := Requesting(a.steerCancel.value);
        SessionsAfterSpawn(s, s0, session, thread);
        SpawnValid(s, s0, thread);
      } else {
        forall other | other in s0.active ensures SessionOk(s0, other) { assert SessionOk(s, other); }
        forall t | t in s0.threads ensures ThreadOk(s0, s0.threads[t]) { assert ThreadOk(s, s.threads[t]); }
        QuietStepValid(s, s0);
      }
    }
  }

  /** Only one session's steer fields change and a request for its cancel is spawned. */
  lemma {:induction false} SessionsAfterSpawn(s: State, s0: State, session: SessionId, thread: Thread)
    requires Valid(s) && s0.threads == s.threads && s0.nextThread == s.nextThread && s0.delivered == s.delivered
    requires s0.scopes == s.scopes && session in s.active && thread.Requesting?
    requires s0.active.Keys == s.active.Keys
    requires forall other :: other in s.active && other != session ==> s0.active[other] == s.active[other]
    requires s0.active[session].scope == s.active[session].scope
    requires s0.active[session].steerCancel == Some(thread.cancel)
    ensures forall other :: other in s0.active ==> SessionOk(Spawn(s0, thread), other)
  {
    var s' := Spawn(s0, thread);
    forall z ensures HasThread(s', z) <==> HasThread(s, z) || z == thread {
      SpawnThreads(s0, thread, z);
      assert HasThread(s0, z) <==> HasThread(s, z);
    }
    hide HasThread;
    forall other | other in s0.active ensures SessionOk(s', other) { assert SessionOk(s, other); }
  }

  lemma {:induction false} RegisterValid(s: State, session: SessionId, cancel: CancelId)
    requires Valid(s)
    ensures Valid(RegisterStep(s, session, cancel))
  {
    if session in s.active {
      var a := s.active[session];
      var s0 := s.(active := s.active[session := a.(steerCancel := Some(cancel))]);
      assert SessionOk(s, session);
      forall z ensures HasThread(s0, z) <==> HasThread(s, z) {}
      if a.steerPending {
        SessionsAfterSpawn(s, s0, session, Requesting(cancel));
        SpawnValid(s, s0, Requesting(cancel));
      } else {
        forall other | other in s0.active ensures SessionOk(s0, other) { assert SessionOk(s, other); }
        forall t | t in s0.threads ensures ThreadOk(s0, s0.threads[t]) { assert ThreadOk(s, s.threads[t]); }
        QuietStepValid(s, s0);
      }
    }
  }

  lemma {:induction false} DeliverValid(s: State, t: ThreadId)
    requires Valid(s) && Enabled(s, Deliver(t))
    ensures Valid(Apply(s, Deliver(t)))
  {
    var s', thread := Apply(s, Deliver(t)), s.threads[t];
    forall z: Thread ensures z != thread ==> (HasThread(s', z) <==> HasThread(s, z)) {
      if z != thread {
        EndsThreads(s, t, z);
        assert HasThread(s', z) <==> HasThread(Ends(s, t), z);
      }
    }
    hide HasThread;
    forall u | u in s'.threads ensures ThreadOk(s', s'.threads[u]) { assert ThreadOk(s, s.threads[u]); }
    forall other | other in s'.active ensures SessionOk(s', other) { assert SessionOk(s, other); }
    QuietStepValid(s, s');
  }

  lemma {:induction false} CancelScopeValid(s: State, t: ThreadId, x: ScopeId)
    requires Valid(s) && Enabled(s, CancelScope(t, x))
    ensures Valid(Apply(s, CancelScope(t, x)))
  {
    var s' := Apply(s, CancelScope(t, x));
    assert ThreadOk(s, s.threads[t]);
    forall z: Thread ensures !z.Cancelling? ==> (HasThread(s', z) <==> HasThread(s, z)) {
      if !z.Cancelling? {
        ReplaceThreads(s, t, s'.threads[t], z);
        assert HasThread(s', z) <==> HasThread(s.(threads := s'.threads), z);
      }
    }
    hide HasThread;
    forall u | u in s'.threads ensures ThreadOk(s', s'.threads[u]) { if u != t { assert ThreadOk(s, s.threads[u]); } }
    forall other | other in s'.active ensures SessionOk(s', other) { assert SessionOk(s, other); }
    QuietStepValid(s, s');
  }

  lemma {:induction false} CancelReturnsValid(s: State, t: ThreadId)
    requires Valid(s) && Enabled(s, CancelReturns(t))
    ensures Valid(Apply(s, CancelReturns(t)))
  {
    var s' := Apply(s, CancelReturns(t));
    forall z: Thread ensures !z.Cancelling? ==> (HasThread(s', z) <==> HasThread(s, z)) {
      if !z.Cancelling? { EndsThreads(s, t, z); }
    }
    hide HasThread;
    forall u | u in s'.threads ensures ThreadOk(s', s'.threads[u]) { assert ThreadOk(s, s.threads[u]); }
    forall other | other in s'.active ensures SessionOk(s', other) { assert SessionOk(s, other); }
    QuietStepValid(s, s');
  }

  lemma {:induction false} StepKeepsValid(s: State, e: Event)
    requires Valid(s) && Enabled(s, e)
    ensures Valid(Apply(s, e))
  {
    hide Valid;
    match e
    case Begin(session) => BeginValid(s, session);
    case End(session) => EndValid(s, session);
    case ModelFinished(t) => ModelFinishedValid(s, t);
    case Started(x, call) => StartedValid(s, x, call);
    case Finished(x, call) => FinishedValid(s, x, call);
    case CloseIdle(t) => CloseIdleValid(s, t);
    case RemoveScope(t) => RemoveValid(s, t);
    case CancelSnapshot(session) => CancelSnapshotValid(s, session);
    case CancelScope(t, x) => CancelScopeValid(s, t, x);
    case CancelReturns(t) => CancelReturnsValid(s, t);
    case Steer(session) => SteerValid(s, session);
    case Register(session, cancel) => RegisterValid(s, session, cancel);
    case Deliver(t) => DeliverValid(s, t);
  }

  // ---------- runs ----------

  ghost predicate Possible(s: State, events: seq<Event>)
    decreases |events|
  {
    events == [] || (Enabled(s, events[0]) && Possible(Apply(s, events[0]), events[1..]))
  }

  ghost function After(s: State, events: seq<Event>): State
    requires Possible(s, events)
    decreases |events|
  {
    if events == [] then s else After(Apply(s, events[0]), events[1..])
  }

  lemma {:induction false} RunKeepsValid(s: State, events: seq<Event>)
    requires Valid(s) && Possible(s, events)
    ensures Valid(After(s, events))
    decreases |events|
  {
    if events != [] {
      StepKeepsValid(s, events[0]);
      RunKeepsValid(Apply(s, events[0]), events[1..]);
    }
  }

  /** In every interleaving: the idle callback has been started at most once per scope,
      only after the model ended, and with its scope cancelled; and every scope is
      still registered or already cancelled. */
  lemma {:induction false} ReachableScopes(events: seq<Event>, x: ScopeId)
    requires Possible(INITIAL, events) && x < |After(INITIAL, events).scopes|
    ensures var s := After(INITIAL, events);
            && s.scopes[x].runs <= 1
            && (s.scopes[x].runs == 1 ==> s.scopes[x].modelEnd && s.scopes[x].cancelled)
            && (IsRegistered(s, x) || s.scopes[x].cancelled)
  {
    assert Valid(INITIAL);
    RunKeepsValid(INITIAL, events);
    assert ScopeOk(After(INITIAL, events), x);
  }

  lemma {:induction false} LastStep(s: State, events: seq<Event>)
    requires events != [] && Possible(s, events)
    ensures var front, e := events[..|events| - 1], events[|events| - 1];
      Possible(s, front) && Enabled(After(s, front), e) && After(s, events) == Apply(After(s, front), e)
    decreases |events|
  {
    var front, e := events[..|events| - 1], events[|events| - 1];
    hide Enabled, Apply;
    if |events| == 1 {
      assert events == [e];
      assert Possible(Apply(s, e), events[1..]);
    } else {
      LastStep(Apply(s, events[0]), events[1..]);
      assert events[1..][..|events| - 2] == front[1..];
    }
  }

  // ---------- which calls are active ----------

  /** How often a call is counted as active. */
  function Held(active: map<CallId, nat>, call: CallId): nat { if call in active then active[call] else 0 }

  function Occurrences(events: seq<Event>, e: Event): nat {
    if events == [] then 0
    else Occurrences(events[..|events| - 1], e) + if events[|events| - 1] == e then 1 else 0
  }

  /** No call is kept with a count of zero. */
  ghost predicate Counted(s: State) {
    forall x: nat, call :: x < |s.scopes| && call in s.scopes[x].active ==> s.scopes[x].active[call] > 0
  }

  lemma {:induction false} StepKeepsCounted(s: State, e: Event)
    requires Counted(s) && Enabled(s, e)
    ensures Counted(Apply(s, e))
  {
    var s' := Apply(s, e);
    forall x: nat, call | x < |s'.scopes| && call in s'.scopes[x].active ensures s'.scopes[x].active[call] > 0 {
      assert x < |s.scopes| && call in s.scopes[x].active ==> s.scopes[x].active[call] > 0;
    }
  }

  /** One step counts the call it starts up by one, the one it finishes down by one, and no other. */
  lemma {:induction false} StepMovesCount(s: State, e: Event, x: ScopeId, call: CallId)
    requires Counted(s) && Enabled(s, e) && x < |Apply(s, e).scopes|
    ensures e == Event.Started(x, call) || e == Event.Finished(x, call) ==> x < |s.scopes|
    ensures e == Event.Finished(x, call) ==> Held(s.scopes[x].active, call) > 0
    ensures Held(Apply(s, e).scopes[x].active, call)
         == (if x < |s.scopes| then Held(s.scopes[x].active, call) else 0)
            + (if e == Event.Started(x, call) then 1 else 0) - (if e == Event.Finished(x, call) then 1 else 0)
  {
    if x < |s.scopes| && call in s.scopes[x].active { assert s.scopes[x].active[call] > 0; }
  }

  lemma {:induction false} RunKeepsCounted(s: State, events: seq<Event>)
    requires Counted(s) && Possible(s, events)
    ensures Counted(After(s, events))
    decreases |events|
  {
    hide Counted, Apply, Enabled;
    if events != [] {
      StepKeepsCounted(s, events[0]);
      RunKeepsCounted(Apply(s, events[0]), events[1..]);
    }
  }

  lemma InitiallyCounted()
    ensures Counted(INITIAL)
  {
  }

  lemma NoSteps(s: State)
    ensures Possible(s, []) && After(s, []) == s
  {
  }

  lemma NeverBefore(e: Event)
    ensures Occurrences([], e) == 0
  {
  }

  lemma {:induction false} NotYetThere(events: seq<Event>, x: ScopeId, call: CallId)
    requires Possible(INITIAL, events) && x >= |After(INITIAL, events).scopes|
    ensures Occurrences(events, Event.Started(x, call)) == 0 && Occurrences(events, Event.Finished(x, call)) == 0
    decreases |events|
  {
    NoSteps(INITIAL);
    hide Possible, After, Enabled, Apply;
    if events != [] {
      LastStep(INITIAL, events);
      ScopesStay(After(INITIAL, events[..|events| - 1]), events[|events| - 1]);
      NotYetThere(events[..|events| - 1], x, call);
    }
  }

  lemma ScopesStay(s: State, e: Event)
    requires Enabled(s, e)
    ensures |s.scopes| <= |Apply(s, e).scopes|
    ensures e.Started? || e.Finished? ==> e.scope < |s.scopes|
  {
  }

  /** In every run a scope counts each call as often as it was started and has not finished. */
  lemma {:induction false} CountsAreExact(events: seq<Event>, x: ScopeId, call: CallId)
    requires Possible(INITIAL, events) && x < |After(INITIAL, events).scopes|
    ensures Held(After(INITIAL, events).scopes[x].active, call)
         == Occurrences(events, Event.Started(x, call)) - Occurrences(events, Event.Finished(x, call))
    decreases |events|
  {
    NoSteps(INITIAL);
    if events != [] {
      hide Possible, After, Enabled, Apply, Held;
      var front, e := events[..|events| - 1], events[|events| - 1];
      LastStep(INITIAL, events);
      InitiallyCounted();
      RunKeepsCounted(INITIAL, front);
      StepMovesCount(After(INITIAL, front), e, x, call);
      if x < |After(INITIAL, front).scopes| { CountsAreExact(front, x, call); } else { NotYetThere(front, x, call); }
    }
  }

  /** So a call is active exactly while more of its starts than of its ends are behind. */
  lemma {:induction false} ActiveExactly(events: seq<Event>, x: ScopeId, call: CallId)
    requires Possible(INITIAL, events) && x < |After(INITIAL, events).scopes|
    ensures Occurrences(events, Event.Finished(x, call)) <= Occurrences(events, Event.Started(x, call))
    ensures call in After(INITIAL, events).scopes[x].active <==>
      Occurrences(events, Event.Finished(x, call)) < Occurrences(events, Event.Started(x, call))
  {
    hide Possible, After;
    CountsAreExact(events, x, call);
    InitiallyCounted();
    RunKeepsCounted(INITIAL, events);
  }

  /** Every call of the scope that was started has finished as often. */
  ghost predicate AllFinished(events: seq<Event>, x: ScopeId) {
    forall call: CallId {:trigger Event.Started(x, call)} ::
      Occurrences(events, Event.Started(x, call)) == Occurrences(events, Event.Finished(x, call))
  }

  lemma {:induction false} EmptyMeansFinished(events: seq<Event>, x: ScopeId)
    requires Possible(INITIAL, events) && x < |After(INITIAL, events).scopes| && After(INITIAL, events).scopes[x].active == map[]
    ensures AllFinished(events, x)
  {
    hide Possible, After;
    forall call: CallId ensures Occurrences(events, Event.Started(x, call)) == Occurrences(events, Event.Finished(x, call)) {
      ActiveExactly(events, x, call);
    }
  }

  lemma {:induction false} OneMore(s: State, events: seq<Event>, i: nat)
    requires i < |events| && Possible(s, events[..i]) && Enabled(After(s, events[..i]), events[i])
    ensures Possible(s, events[..i + 1]) && After(s, events[..i + 1]) == Apply(After(s, events[..i]), events[i])
    decreases i
  {
    NoSteps(Apply(s, events[0]));
    if i == 0 {
      assert events[..1] == [events[0]] && events[..0] == [] && events[..1][1..] == [];
    } else {
      assert events[..i][1..] == events[1..][..i - 1] && events[..i + 1][1..] == events[1..][..i];
      OneMore(Apply(s, events[0]), events[1..], i - 1);
    }
  }

  /** Step e ended the model or a call of scope x, saw the model ended and no active call,
      and went on to closeIdle as thread t. */
  ghost predicate SawIdle(s: State, e: Event, x: ScopeId, t: ThreadId)
    requires Enabled(s, e)
  {
    && t == s.nextThread
    && ((e.Finished? && e.scope == x) || (e.ModelFinished? && s.threads[e.thread].scope == x))
    && x < |Apply(s, e).scopes| && Apply(s, e).scopes[x].modelEnd && Apply(s, e).scopes[x].active == map[]
  }

  lemma NewCloserSawIdle(s: State, e: Event, t: ThreadId)
    requires Enabled(s, e) && t in Apply(s, e).threads && Apply(s, e).threads[t].Closing?
    requires t !in s.threads || s.threads[t] != Apply(s, e).threads[t]
    ensures SawIdle(s, e, Apply(s, e).threads[t].scope, t)
  {
  }

  lemma {:induction false} CloserSawIdle(events: seq<Event>, t: ThreadId) returns (i: nat)
    requires Possible(INITIAL, events)
    requires t in After(INITIAL, events).threads && After(INITIAL, events).threads[t].Closing?
    ensures i < |events| && Possible(INITIAL, events[..i]) && Enabled(After(INITIAL, events[..i]), events[i])
    ensures SawIdle(After(INITIAL, events[..i]), events[i], After(INITIAL, events).threads[t].scope, t)
    decreases |events|
  {
    hide Possible, Enabled, Apply, SawIdle;
    if events != [] {
      hide After;
      var front, e := events[..|events| - 1], events[|events| - 1];
      LastStep(INITIAL, events);
      var s := After(INITIAL, front);
      if t in s.threads && s.threads[t] == Apply(s, e).threads[t] {
        i := CloserSawIdle(front, t);
        assert events[..i] == front[..i] && events[i] == front[i];
      } else {
        i := |events| - 1;
        NewCloserSawIdle(s, e, t);
      }
    }
  }

  lemma RunsByCloser(s: State, e: Event, x: ScopeId)
    requires Enabled(s, e) && x < |Apply(s, e).scopes| && Apply(s, e).scopes[x].runs > 0
    requires x < |s.scopes| ==> s.scopes[x].runs == 0
    ensures x < |s.scopes| && e.CloseIdle? && s.threads[e.thread] == Closing(x)
  {
  }

  /** In every interleaving an idle callback that has been started was started by a goroutine
      that had, at an earlier step, ended the model or the last call of its scope and seen
      there both the model ended and no call active. */
  lemma {:induction false} IdleCallbackWasDue(events: seq<Event>, x: ScopeId) returns (i: nat, j: nat)
    requires Possible(INITIAL, events)
    requires x < |After(INITIAL, events).scopes| && After(INITIAL, events).scopes[x].runs > 0
    ensures i < j < |events| && Possible(INITIAL, events[..i]) && Possible(INITIAL, events[..j])
    ensures Enabled(After(INITIAL, events[..i]), events[i]) && events[j].CloseIdle?
    ensures SawIdle(After(INITIAL, events[..i]), events[i], x, events[j].thread)
    ensures AllFinished(events[..i + 1], x)
    ensures var s := After(INITIAL, events[..j]); x < |s.scopes| && s.scopes[x].runs == 0
  {
    i, j := IdleCallbackWasSeen(events, x);
    hide Possible, Enabled, Apply, After;
    OneMore(INITIAL, events, i);
    EmptyMeansFinished(events[..i + 1], x);
  }

  lemma {:induction false} IdleCallbackWasSeen(events: seq<Event>, x: ScopeId) returns (i: nat, j: nat)
    requires Possible(INITIAL, events)
    requires x < |After(INITIAL, events).scopes| && After(INITIAL, events).scopes[x].runs > 0
    ensures i < j < |events| && Possible(INITIAL, events[..i]) && Possible(INITIAL, events[..j])
    ensures Enabled(After(INITIAL, events[..i]), events[i]) && events[j].CloseIdle?
    ensures SawIdle(After(INITIAL, events[..i]), events[i], x, events[j].thread)
    ensures var s := After(INITIAL, events[..j]); x < |s.scopes| && s.scopes[x].runs == 0
    decreases |events|
  {
    hide Possible, Enabled, Apply, SawIdle;
    if events != [] {
      hide After;
      var front, e := events[..|events| - 1], events[|events| - 1];
      LastStep(INITIAL, events);
      var s := After(INITIAL, front);
      if x < |s.scopes| && s.scopes[x].runs > 0 {
        i, j := IdleCallbackWasSeen(front, x);
        assert events[..i] == front[..i] && events[..j] == front[..j] && events[i] == front[i] && events[j] == front[j];
      } else {
        RunsByCloser(s, e, x);
        j := |events| - 1;
        CloserIsThere(s, e);
        i := CloserSawIdle(front, e.thread);
        assert events[..i] == front[..i] && events[i] == front[i];
      }
    }
  }

  lemma CloserIsThere(s: State, e: Event)
    requires Enabled(s, e) && e.CloseIdle?
    ensures e.thread in s.threads
  {
  }

  // ---------- steering ----------

  /** The cancel function has been called for steering or is about to be. */
  ghost predicate Requested(s: State, cancel: CancelId) {
    cancel in s.delivered || HasThread(s, Requesting(cancel))
  }

  lemma {:induction false} StepKeepsRequest(s: State, e: Event, cancel: CancelId)
    requires ThreadsBelow(s) && Enabled(s, e) && Requested(s, cancel)
    ensures Requested(Apply(s, e), cancel)
  {
    if cancel !in s.delivered {
      var t :| t in s.threads && s.threads[t] == Requesting(cancel);
      if e != Deliver(t) { assert t in Apply(s, e).threads && Apply(s, e).threads[t] == Requesting(cancel); }
    }
  }

  lemma ValidThreadsBelow(s: State)
    requires Valid(s)
    ensures ThreadsBelow(s)
  {
  }

  /** A request for steering is never lost, whatever happens to its session. */
  lemma {:induction false} RequestStays(s: State, events: seq<Event>, cancel: CancelId)
    requires Valid(s) && Possible(s, events) && Requested(s, cancel)
    ensures Requested(After(s, events), cancel)
    ensures After(s, events).threads == map[] ==> cancel in After(s, events).delivered
    decreases |events|
  {
    hide Valid, Enabled, Apply;
    if events != [] {
      ValidThreadsBelow(s);
      StepKeepsValid(s, events[0]);
      StepKeepsRequest(s, events[0], cancel);
      RequestStays(Apply(s, events[0]), events[1..], cancel);
    }
  }

  ghost predicate Steered(s: State, session: SessionId) { session in s.active && s.active[session].steerPending }

  ghost predicate Awaits(s: State, session: SessionId, cancel: CancelId) {
    session in s.active && s.active[session].steerCancel == Some(cancel)
  }

  lemma StepKeepsSteered(s: State, e: Event, session: SessionId)
    requires Enabled(s, e) && Steered(s, session) && e != End(session)
    ensures Steered(Apply(s, e), session)
  {
  }

  lemma StepKeepsAwaits(s: State, e: Event, session: SessionId, cancel: CancelId)
    requires Enabled(s, e) && Awaits(s, session, cancel) && e != End(session)
    requires e.Register? ==> e.session != session
    ensures Awaits(Apply(s, e), session, cancel)
  {
  }

  lemma {:induction false} RunKeepsSteered(s: State, events: seq<Event>, session: SessionId)
    requires Possible(s, events) && Steered(s, session) && End(session) !in events
    ensures Steered(After(s, events), session)
    decreases |events|
  {
    hide Enabled, Apply, Steered;
    if events != [] {
      StepKeepsSteered(s, events[0], session);
      RunKeepsSteered(Apply(s, events[0]), events[1..], session);
    }
  }

  lemma {:induction false} RunKeepsAwaits(s: State, events: seq<Event>, session: SessionId, cancel: CancelId)
    requires Possible(s, events) && Awaits(s, session, cancel) && End(session) !in events
    requires forall k :: 0 <= k < |events| && events[k].Register? ==> events[k].session != session
    ensures Awaits(After(s, events), session, cancel)
    decreases |events|
  {
    hide Enabled, Apply, Awaits;
    if events != [] {
      StepKeepsAwaits(s, events[0], session, cancel);
      RunKeepsAwaits(Apply(s, events[0]), events[1..], session, cancel);
    }
  }

  lemma {:induction false} RegisteringRequests(s: State, session: SessionId, cancel: CancelId)
    requires ThreadsBelow(s) && Steered(s, session)
    ensures Requested(Apply(s, Register(session, cancel)), cancel)
  {
    var s' := Apply(s, Register(session, cancel));
    assert s'.threads[s.nextThread] == Requesting(cancel);
  }

  lemma {:induction false} SteeringRequests(s: State, session: SessionId, cancel: CancelId)
    requires ThreadsBelow(s) && Awaits(s, session, cancel)
    ensures Requested(Apply(s, Steer(session)), cancel)
  {
    var s' := Apply(s, Steer(session));
    assert s'.threads[s.nextThread] == Requesting(cancel);
  }

  lemma SteerMarks(s: State, session: SessionId, cancel: CancelId)
    requires session in s.active
    ensures Enabled(s, Steer(session)) && Steered(Apply(s, Steer(session)), session)
    ensures Enabled(s, Register(session, cancel)) && Awaits(Apply(s, Register(session, cancel)), session, cancel)
  {
  }

  /** A steer requested before a cancel function is registered is delivered to it: from the
      registration on it has been called or a goroutine is about to, even if the session
      ends meanwhile. */
  lemma {:induction false} EarlySteerIsDelivered(before: seq<Event>, session: SessionId, between: seq<Event>, cancel: CancelId, later: seq<Event>)
    requires Possible(INITIAL, before) && session in After(INITIAL, before).active
    requires Enabled(After(INITIAL, before), Steer(session))
    requires Possible(Apply(After(INITIAL, before), Steer(session)), between) && End(session) !in between
    requires var s := After(Apply(After(INITIAL, before), Steer(session)), between);
      Enabled(s, Register(session, cancel)) && Possible(Apply(s, Register(session, cancel)), later)
    ensures var s := After(Apply(After(INITIAL, before), Steer(session)), between);
      var final := After(Apply(s, Register(session, cancel)), later);
      Requested(final, cancel) && (final.threads == map[] ==> cancel in final.delivered)
  {
    assert Valid(INITIAL);
    hide *;
    RunKeepsValid(INITIAL, before);
    var s0 := After(INITIAL, before);
    SteerMarks(s0, session, cancel);
    StepKeepsValid(s0, Steer(session));
    var s1 := Apply(s0, Steer(session));
    RunKeepsValid(s1, between);
    RunKeepsSteered(s1, between, session);
    var s2 := After(s1, between);
    ValidThreadsBelow(s2);
    RegisteringRequests(s2, session, cancel);
    StepKeepsValid(s2, Register(session, cancel));
    RequestStays(Apply(s2, Register(session, cancel)), later, cancel);
  }

  /** A steer requested afterwards is delivered to the cancel function registered last. */
  lemma {:induction false} LateSteerIsDelivered(before: seq<Event>, session: SessionId, cancel: CancelId, between: seq<Event>, later: seq<Event>)
    requires Possible(INITIAL, before) && session in After(INITIAL, before).active
    requires Enabled(After(INITIAL, before), Register(session, cancel))
    requires Possible(Apply(After(INITIAL, before), Register(session, cancel)), between) && End(session) !in between
    requires forall k :: 0 <= k < |between| && between[k].Register? ==> between[k].session != session
    requires var s := After(Apply(After(INITIAL, before), Register(session, cancel)), between);
      Enabled(s, Steer(session)) && Possible(Apply(s, Steer(session)), later)
    ensures var s := After(Apply(After(INITIAL, before), Register(session, cancel)), between);
      var final := After(Apply(s, Steer(session)), later);
      Requested(final, cancel) && (final.threads == map[] ==> cancel in final.delivered)
  {
    assert Valid(INITIAL);
    hide *;
    RunKeepsValid(INITIAL, before);
    var s0 := After(INITIAL, before);
    SteerMarks(s0, session, cancel);
    StepKeepsValid(s0, Register(session, cancel));
    var s1 := Apply(s0, Register(session, cancel));
    RunKeepsValid(s1, between);
    RunKeepsAwaits(s1, between, session, cancel);
    var s2 := After(s1, between);
    ValidThreadsBelow(s2);
    SteeringRequests(s2, session, cancel);
    StepKeepsValid(s2, Steer(session));
    RequestStays(Apply(s2, Steer(session)), later, cancel);
  }

  // ---------- no goroutine is stuck ----------

  /** Steps by which a goroutine goes on after leaving a lock. */
  predicate GoesOn(e: Event) {
    e.ModelFinished? || e.CloseIdle? || e.RemoveScope? || e.CancelScope? || e.CancelReturns? || e.Deliver?
  }

  lemma {:induction false} Chain(s: State, e: Event, rest: seq<Event>)
    requires Enabled(s, e) && Possible(Apply(s, e), rest)
    ensures Possible(s, [e] + rest) && After(s, [e] + rest) == After(Apply(s, e), rest)
  {
    hide Enabled, Apply;
    assert ([e] + rest)[1..] == rest;
  }

  lemma {:induction false} RunsCompose(s: State, xs: seq<Event>, ys: seq<Event>)
    requires Possible(s, xs) && Possible(After(s, xs), ys)
    ensures Possible(s, xs + ys) && After(s, xs + ys) == After(After(s, xs), ys)
    decreases |xs|
  {
    RunUnfolds(s, xs);
    hide *;
    if xs == [] {
      assert xs + ys == ys;
    } else {
      var rest := xs[1..];
      RunsCompose(Apply(s, xs[0]), rest, ys);
      FirstApart(xs, ys);
      Chain(s, xs[0], rest + ys);
    }
  }

  lemma FirstApart(xs: seq<Event>, ys: seq<Event>)
    requires xs != []
    ensures xs + ys == [xs[0]] + (xs[1..] + ys)
  {
  }

  lemma RunUnfolds(s: State, events: seq<Event>)
    requires Possible(s, events)
    ensures events == [] ==> After(s, events) == s
    ensures events != [] ==>
      && Enabled(s, events[0]) && Possible(Apply(s, events[0]), events[1..])
      && After(s, events) == After(Apply(s, events[0]), events[1..])
  {
    hide Enabled, Apply;
  }

  /** What a goroutine leaves to be done when it makes its next step: nothing, or one successor. */
  lemma {:induction false} EndsOrHandsOver(s: State, t: ThreadId) returns (e: Event, more: bool)
    requires Valid(s) && t in s.threads && !s.threads[t].Cancelling?
    ensures GoesOn(e) && Enabled(s, e)
    ensures var s' := Apply(s, e);
      if !more then s'.threads == s.threads - {t}
      else && s'.threads - {s.nextThread} == s.threads - {t} && s.nextThread in s'.threads && s.nextThread !in s.threads
           && Distance(s'.threads[s.nextThread]) < Distance(s.threads[t]) && !s'.threads[s.nextThread].Cancelling?
  {
    assert ThreadOk(s, s.threads[t]);
    assert s.nextThread !in s.threads;
    match s.threads[t]
    case Ending(x) => e, more := ModelFinished(t), s.scopes[x].active == map[];
    case Closing(x) => e, more := CloseIdle(t), !s.scopes[x].idleDone;
    case Removing(_) => e, more := RemoveScope(t), false;
    case Requesting(_) => e, more := Deliver(t), false;
  }

  function Distance(thread: Thread): nat {
    match thread
    case Ending(_) => 3
    case Closing(_) => 2
    case Removing(_) => 1
    case Requesting(_) => 1
    case Cancelling(todo) => |todo| + 1
  }

  lemma {:induction false} ThreadReturns(s: State, t: ThreadId) returns (events: seq<Event>)
    requires Valid(s) && t in s.threads && !s.threads[t].Cancelling?
    ensures Possible(s, events) && forall k :: 0 <= k < |events| ==> GoesOn(events[k])
    ensures After(s, events).threads == s.threads - {t}
    decreases Distance(s.threads[t])
  {
    var e, more := EndsOrHandsOver(s, t);
    var s' := Apply(s, e);
    StepKeepsValid(s, e);
    NoSteps(s');
    hide Valid, Enabled, Apply, Distance, GoesOn, Possible, After;
    var rest := [];
    if more { rest := ThreadReturns(s', s.nextThread); }
    Chain(s, e, rest);
    events := [e] + rest;
  }

  lemma {:induction false} CancelReturnsAtLast(s: State, t: ThreadId) returns (events: seq<Event>)
    requires Valid(s) && t in s.threads && s.threads[t].Cancelling?
    ensures Possible(s, events) && forall k :: 0 <= k < |events| ==> GoesOn(events[k])
    ensures After(s, events).threads == s.threads - {t}
    decreases |s.threads[t].todo|
  {
    assert ThreadOk(s, s.threads[t]);
    var todo := s.threads[t].todo;
    if todo == {} {
      NoSteps(Apply(s, CancelReturns(t)));
      Chain(s, CancelReturns(t), []);
      events := [CancelReturns(t)] + [];
    } else {
      var x :| x in todo;
      var e := CancelScope(t, x);
      var s' := Apply(s, e);
      assert s'.threads[t] == Cancelling(todo - {x}) && s'.threads - {t} == s.threads - {t};
      StepKeepsValid(s, e);
      hide Valid, Enabled, Apply, Possible, After;
      var rest := CancelReturnsAtLast(s', t);
      Chain(s, e, rest);
      events := [e] + rest;
    }
  }

  /** From every reachable state every goroutine between locks can go on to its end, whatever
      the others do not do, until none is left. */
  lemma {:induction false} EveryoneCanReturn(s: State) returns (events: seq<Event>)
    requires Valid(s)
    ensures Possible(s, events) && forall k :: 0 <= k < |events| ==> GoesOn(events[k])
    ensures After(s, events).threads == map[]
    decreases |s.threads|
  {
    NoSteps(s);
    if s.threads == map[] {
      events := [];
    } else {
      var t :| t in s.threads;
      hide Possible, After, Valid, GoesOn;
      var first;
      if s.threads[t].Cancelling? { first := CancelReturnsAtLast(s, t); } else { first := ThreadReturns(s, t); }
      RunKeepsValid(s, first);
      assert |s.threads - {t}| < |s.threads| by { assert (s.threads - {t}).Keys == s.threads.Keys - {t}; }
      var rest := EveryoneCanReturn(After(s, first));
      RunsCompose(s, first, rest);
      events := first + rest;
    }
  }

  /** Sessions may begin and end, calls start, and cancellation and steering arrive at any time;
      a call that is active can finish. */
  lemma AnythingMayArrive(s: State, session: SessionId, cancel: CancelId, x: ScopeId, call: CallId)
    ensures Enabled(s, Begin(session)) && Enabled(s, End(session)) && Enabled(s, CancelSnapshot(session))
    ensures Enabled(s, Steer(session)) && Enabled(s, Register(session, cancel))
    ensures x < |s.scopes| ==> Enabled(s, Event.Started(x, call))
    ensures x < |s.scopes| ==> (Enabled(s, Event.Finished(x, call)) <==> call in s.scopes[x].active)
    ensures session !in s.active ==>
      var s' := Apply(s, Begin(session));
      && |s'.scopes| == |s.scopes| + 1 && s'.active == s.active[session := Session(|s.scopes|, false, None)]
      && |s.scopes| in Registered(s', session) && Registered(s, session) <= Registered(s', session)
    ensures session in s.active ==>
      var s' := Apply(s, End(session));
      && session !in s'.active
      && s'.threads == s.threads[s.nextThread := Ending(s.active[session].scope)]
    ensures session in s.active ==> Apply(s, Begin(session)) == s
    ensures session !in s.active ==> Apply(s, End(session)) == s
  {
  }

  // ---------- nothing happens unasked ----------

  /** What cancelled scopes, and those about to be, owe to the events before. */
  ghost predicate CancelAsked(s: State, events: seq<Event>) {
    && (forall x: nat :: x < |s.scopes| && s.scopes[x].cancelled && s.scopes[x].runs == 0 ==>
          CancelSnapshot(s.scopes[x].session) in events)
    && (forall t, x :: t in s.threads && s.threads[t].Cancelling? && x in s.threads[t].todo && x < |s.scopes| ==>
          CancelSnapshot(s.scopes[x].session) in events)
  }

  ghost predicate SessionsAsked(s: State, events: seq<Event>) {
    && (forall session :: session in s.active && s.active[session].steerPending ==> Steer(session) in events)
    && (forall session :: session in s.active && s.active[session].steerCancel.Some? ==>
          Register(session, s.active[session].steerCancel.value) in events)
  }

  ghost predicate SteersAsked(s: State, events: seq<Event>) {
    && (forall cancel :: cancel in s.delivered ==> SteerMet(events, cancel))
    && (forall t :: t in s.threads && s.threads[t].Requesting? ==> SteerMet(events, s.threads[t].cancel))
  }

  /** A steer of some session met this cancel function of it. */
  ghost predicate SteerMet(events: seq<Event>, cancel: CancelId) {
    exists session :: Steer(session) in events && Register(session, cancel) in events
  }

  lemma {:induction false} MetStays(events: seq<Event>, e: Event, cancel: CancelId)
    requires SteerMet(events, cancel)
    ensures SteerMet(events + [e], cancel)
  {
    var session :| Steer(session) in events && Register(session, cancel) in events;
    Longer(events, e);
    Met(events + [e], session, cancel);
  }

  lemma Longer(events: seq<Event>, e: Event)
    ensures e in events + [e] && forall d :: d in events ==> d in events + [e]
  {
  }

  /** Scopes are as before but for one that another step cancels. */
  lemma {:induction false} CancelStepIsAsked(s: State, events: seq<Event>, e: Event)
    requires Valid(s) && Enabled(s, e) && CancelAsked(s, events)
    ensures CancelAsked(Apply(s, e), events + [e])
  {
    Longer(events, e);
    RegisteredSessions(s);
    hide Valid;
    ScopesAsked(s, events, e);
    TodosAsked(s, events, e);
    hide *;
    BothAsked(Apply(s, e), events + [e]);
  }

  ghost predicate ScopeAsked(s: State, events: seq<Event>, x: ScopeId)
    requires x < |s.scopes|
  {
    s.scopes[x].cancelled && s.scopes[x].runs == 0 ==> CancelSnapshot(s.scopes[x].session) in events
  }

  ghost predicate TodoAsked(s: State, events: seq<Event>, t: ThreadId, x: ScopeId) {
    t in s.threads && s.threads[t].Cancelling? && x in s.threads[t].todo && x < |s.scopes| ==>
      CancelSnapshot(s.scopes[x].session) in events
  }

  lemma BothAsked(s: State, events: seq<Event>)
    requires (forall x: nat :: x < |s.scopes| ==> ScopeAsked(s, events, x)) && forall t, x :: TodoAsked(s, events, t, x)
    ensures CancelAsked(s, events)
  {
    forall x: nat | x < |s.scopes| && s.scopes[x].cancelled && s.scopes[x].runs == 0
      ensures CancelSnapshot(s.scopes[x].session) in events
    {
      assert ScopeAsked(s, events, x);
    }
    forall t, x | t in s.threads && s.threads[t].Cancelling? && x in s.threads[t].todo && x < |s.scopes|
      ensures CancelSnapshot(s.scopes[x].session) in events
    {
      assert TodoAsked(s, events, t, x);
    }
  }

  lemma {:induction false} ScopesAsked(s: State, events: seq<Event>, e: Event)
    requires Enabled(s, e) && CancelAsked(s, events)
    ensures forall x: nat :: x < |Apply(s, e).scopes| ==> ScopeAsked(Apply(s, e), events + [e], x)
  {
    Longer(events, e);
    var s' := Apply(s, e);
    forall x: nat | x < |s'.scopes| ensures ScopeAsked(s', events + [e], x) {
      if x < |s.scopes| { assert ScopeAsked(s, events, x); }
    }
  }

  lemma {:induction false} TodosAsked(s: State, events: seq<Event>, e: Event)
    requires Enabled(s, e) && CancelAsked(s, events)
    requires forall session, x :: session in s.toolScopes && x in s.toolScopes[session] ==>
      x < |s.scopes| && s.scopes[x].session == session
    requires forall t, x :: t in s.threads && s.threads[t].Cancelling? && x in s.threads[t].todo ==> x < |s.scopes|
    ensures forall t, x :: TodoAsked(Apply(s, e), events + [e], t, x)
  {
    Longer(events, e);
    var s' := Apply(s, e);
    forall t, x ensures TodoAsked(s', events + [e], t, x) {
      assert TodoAsked(s, events, t, x);
    }
  }

  lemma RegisteredSessions(s: State)
    requires Valid(s)
    ensures forall session, x :: session in s.toolScopes && x in s.toolScopes[session] ==>
      x < |s.scopes| && s.scopes[x].session == session
    ensures forall t, x :: t in s.threads && s.threads[t].Cancelling? && x in s.threads[t].todo ==> x < |s.scopes|
  {
    assert forall session :: session in s.toolScopes ==> RegisterOk(s, session);
    assert forall t :: t in s.threads ==> ThreadOk(s, s.threads[t]);
    hide ScopeOk, SessionOk;
  }

  lemma {:induction false} SessionStepIsAsked(s: State, events: seq<Event>, e: Event)
    requires Enabled(s, e) && SessionsAsked(s, events)
    ensures SessionsAsked(Apply(s, e), events + [e])
  {
    Longer(events, e);
  }

  lemma NewRequest(s: State, e: Event, t: ThreadId)
    requires Enabled(s, e) && t in Apply(s, e).threads && Apply(s, e).threads[t].Requesting?
    requires t !in s.threads || s.threads[t] != Apply(s, e).threads[t]
    ensures (e.Steer? || e.Register?) && e.session in s.active
    ensures var a := s.active[e.session];
      if e.Steer? then a.steerCancel == Some(Apply(s, e).threads[t].cancel)
      else a.steerPending && Apply(s, e).threads[t].cancel == e.cancel
  {
  }

  lemma {:induction false} SteerStepIsAsked(s: State, events: seq<Event>, e: Event)
    requires Enabled(s, e) && SessionsAsked(s, events) && SteersAsked(s, events)
    ensures SteersAsked(Apply(s, e), events + [e])
  {
    var s', longer := Apply(s, e), events + [e];
    Longer(events, e);
    if e.Steer? && e.session in s.active && s.active[e.session].steerCancel.Some? {
      Met(longer, e.session, s.active[e.session].steerCancel.value);
    }
    if e.Register? && e.session in s.active && s.active[e.session].steerPending { Met(longer, e.session, e.cancel); }
    hide SteerMet, SessionsAsked;
    forall cancel | cancel in s'.delivered ensures SteerMet(longer, cancel) {
      if cancel in s.delivered { MetStays(events, e, cancel); } else { MetStays(events, e, s.threads[e.thread].cancel); }
    }
    forall t | t in s'.threads && s'.threads[t].Requesting? ensures SteerMet(longer, s'.threads[t].cancel) {
      if t in s.threads && s'.threads[t] == s.threads[t] {
        MetStays(events, e, s.threads[t].cancel);
      } else {
        NewRequest(s, e, t);
      }
    }
  }

  lemma Met(events: seq<Event>, session: SessionId, cancel: CancelId)
    requires Steer(session) in events && Register(session, cancel) in events
    ensures SteerMet(events, cancel)
  {
  }

  lemma InitialIsAsked()
    ensures Valid(INITIAL) && CancelAsked(INITIAL, []) && SessionsAsked(INITIAL, []) && SteersAsked(INITIAL, [])
  {
  }

  lemma {:induction false} RunIsAsked(events: seq<Event>)
    requires Possible(INITIAL, events)
    ensures Valid(After(INITIAL, events)) && CancelAsked(After(INITIAL, events), events)
    ensures SessionsAsked(After(INITIAL, events), events) && SteersAsked(After(INITIAL, events), events)
    decreases |events|
  {
    NoSteps(INITIAL);
    InitialIsAsked();
    hide *;
    RunKeepsValid(INITIAL, events);
    if events != [] {
      var front, e := events[..|events| - 1], events[|events| - 1];
      LastStep(INITIAL, events);
      RunIsAsked(front);
      CancelStepIsAsked(After(INITIAL, front), front, e);
      SessionStepIsAsked(After(INITIAL, front), front, e);
      SteerStepIsAsked(After(INITIAL, front), front, e);
      assert front + [e] == events;
    }
  }

  /** In every run a scope is cancelled only by its own idle callback or by a CancelSession of
      its session, and a cancel function is called for steering only if it was registered for
      a session that was steered. */
  lemma {:induction false} NothingUnasked(events: seq<Event>, x: ScopeId, cancel: CancelId)
    requires Possible(INITIAL, events)
    ensures var s := After(INITIAL, events);
      && (x < |s.scopes| && s.scopes[x].cancelled ==> s.scopes[x].runs == 1 || CancelSnapshot(s.scopes[x].session) in events)
      && (Requested(s, cancel) ==> SteerMet(events, cancel))
  {
    hide Possible, After;
    RunIsAsked(events);
    if x < |After(INITIAL, events).scopes| { assert ScopeOk(After(INITIAL, events), x); }
  }

  // ---------- cancelling a session ----------

  /** What is still to be cancelled by the CancelSession call running as thread t. */
  ghost predicate CancelPending(s: State, t: ThreadId, snapshot: set<ScopeId>) {
    && t < s.nextThread
    && (t in s.threads ==> s.threads[t].Cancelling?)
    && forall x :: x in snapshot ==>
         x < |s.scopes| && (s.scopes[x].cancelled || (t in s.threads && x in s.threads[t].todo))
  }

  lemma StepKeepsPending(s: State, e: Event, t: ThreadId, snapshot: set<ScopeId>)
    requires Enabled(s, e) && CancelPending(s, t, snapshot)
    ensures CancelPending(Apply(s, e), t, snapshot)
  {
  }

  lemma {:induction false} RunKeepsPending(s: State, events: seq<Event>, t: ThreadId, snapshot: set<ScopeId>)
    requires Possible(s, events) && CancelPending(s, t, snapshot)
    ensures CancelPending(After(s, events), t, snapshot)
    decreases |events|
  {
    if events != [] {
      StepKeepsPending(s, events[0], t, snapshot);
      RunKeepsPending(Apply(s, events[0]), events[1..], t, snapshot);
    }
  }

  /** CancelSession cancels every tool that was active at its snapshot: once the call
      has returned, in whatever interleaving, the scope of each such tool is cancelled. */
  lemma {:induction false} CancelSessionReachesActiveTools(before: seq<Event>, session: SessionId, during: seq<Event>, x: ScopeId)
    requires Possible(INITIAL, before)
    requires Possible(Apply(After(INITIAL, before), CancelSnapshot(session)), during)
    requires x < |After(INITIAL, before).scopes|
    requires After(INITIAL, before).scopes[x].session == session && After(INITIAL, before).scopes[x].active != map[]
    requires After(INITIAL, before).nextThread
             !in After(Apply(After(INITIAL, before), CancelSnapshot(session)), during).threads
    ensures var s := After(Apply(After(INITIAL, before), CancelSnapshot(session)), during);
            x < |s.scopes| && s.scopes[x].cancelled
  {
    assert Valid(INITIAL);
    RunKeepsValid(INITIAL, before);
    var s := After(INITIAL, before);
    assert ScopeOk(s, x);
    var start := Apply(s, CancelSnapshot(session));
    var snapshot := Registered(s, session) + {x};
    assert session in s.toolScopes ==> RegisterOk(s, session);
    assert CancelPending(start, s.nextThread, snapshot);
    RunKeepsPending(start, during, s.nextThread, snapshot);
    assert x in snapshot;
  }

  /** Nothing leaks: with no goroutine left between locks, a scope whose model ended
      and whose calls have finished is cancelled and no longer registered, and a
      steering request that met a registered cancel function has been delivered. */
  lemma {:induction false} QuiescentStates(events: seq<Event>)
    requires Possible(INITIAL, events) && After(INITIAL, events).threads == map[]
    ensures var s := After(INITIAL, events);
            && (forall x: nat :: x < |s.scopes| && s.scopes[x].modelEnd && s.scopes[x].active == map[] ==>
                  s.scopes[x].cancelled && !IsRegistered(s, x))
            && (forall session :: session in s.active ==>
                  (s.active[session].steerPending && s.active[session].steerCancel.Some? ==>
                     s.active[session].steerCancel.value in s.delivered))
  {
    assert Valid(INITIAL);
    RunKeepsValid(INITIAL, events);
    var s := After(INITIAL, events);
    forall x: nat | x < |s.scopes| && s.scopes[x].modelEnd && s.scopes[x].active == map[]
      ensures s.scopes[x].cancelled && !IsRegistered(s, x)
    {
      assert ScopeOk(s, x) && !HasThread(s, Closing(x)) && !HasThread(s, Removing(x));
    }
    forall session | session in s.active
      ensures s.active[session].steerPending && s.active[session].steerCancel.Some? ==>
                s.active[session].steerCancel.value in s.delivered
    {
      assert SessionOk(s, session);
    }
  }

  // ---------- the objects ----------

  /** toolExecutionScope: each method is one lock section, and says whether the caller has
      closeIdle or the callback still to do. */
  class ToolExecutionScope {
    var session: SessionId
    var active: map<CallId, nat>
    var modelEnd: bool
    var idleDone: bool
    var cancelled: bool
    var runs: nat

    function Show(): Scope
      reads this
    {
      Scope(session, active, modelEnd, idleDone, cancelled, runs)
    }

    constructor (owner: SessionId)
      ensures Show() == Scope(owner, map[], false, false, false, 0)
    {
      session, active, modelEnd, idleDone, cancelled, runs := owner, map[], false, false, false, 0;
    }

    method Started(call: CallId)
      modifies `active
      ensures forall s: State, x: ScopeId :: x < |s.scopes| && s.scopes[x] == old(Show()) ==>
        StartedStep(s, x, call).scopes == s.scopes[x := Show()]
      ensures forall other :: Held(active, other) == Held(old(active), other) + if other == call then 1 else 0
    {
      var count := if call in active then active[call] else 0;
      active := active[call := count + 1];
    }

    method Finished(call: CallId) returns (idle: bool)
      modifies `active
      ensures forall s: State, x: ScopeId :: x < |s.scopes| && s.scopes[x] == old(Show()) ==>
        FinishedStep(s, x, call) == SpawnIf(SetScope(s, x, Show()), idle, Closing(x))
      ensures forall other :: other != call ==> Held(active, other) == Held(old(active), other)
      ensures Held(active, call) == if Held(old(active), call) == 0 then 0 else Held(old(active), call) - 1
    {
      var count := if call in active then active[call] else 0;
      if count <= 1 { active := active - {call}; } else { active := active[call := count - 1]; }
      idle := modelEnd && active == map[];
    }

    method ModelFinished() returns (idle: bool)
      modifies `modelEnd
      ensures forall s: State, t: ThreadId :: Enabled(s, Event.ModelFinished(t)) && s.scopes[s.threads[t].scope] == old(Show()) ==>
        ModelFinishedStep(s, t) == SpawnIf(SetScope(Ends(s, t), s.threads[t].scope, Show()), idle, Closing(s.threads[t].scope))
    {
      modelEnd := true;
      idle := active == map[];
    }

    method CancelAll()
      modifies `cancelled
      ensures Show() == old(Show()).(cancelled := true)
    {
      cancelled := true;
    }

    /** idleOnce.Do: first tells whether the callback runs. */
    method CloseIdle() returns (first: bool)
      modifies `idleDone, `cancelled, `runs
      ensures forall s: State, t: ThreadId :: Enabled(s, Event.CloseIdle(t)) && s.scopes[s.threads[t].scope] == old(Show()) ==>
        CloseIdleStep(s, t) == SpawnIf(SetScope(Ends(s, t), s.threads[t].scope, Show()), first, Removing(s.threads[t].scope))
    {
      first := !idleDone;
      if first { idleDone, cancelled, runs := true, true, runs + 1; }
    }
  }

  /** The session maps of Runtime, with scopes known by their number. */
  class AgentSessions {
    var active: map<SessionId, Session>
    var toolScopes: map<SessionId, set<ScopeId>>

    ghost predicate Shows(s: State)
      reads this
    {
      s.active == active && s.toolScopes == toolScopes
    }

    constructor ()
      ensures Shows(INITIAL)
    {
      active, toolScopes := map[], map[];
    }

    method BeginSession(session: SessionId, number: ScopeId) returns (started: bool)
      modifies this
      ensures forall s: State :: old(Shows(s)) && |s.scopes| == number ==> Shows(BeginStep(s, session))
      ensures started <==> session !in old(active)
    {
      if session in active { return false; }
      var registered := if session in toolScopes then toolScopes[session] else {};
      toolScopes := toolScopes[session := registered + {number}];
      active := active[session := Session(number, false, None)];
      started := true;
    }

    method EndSession(session: SessionId) returns (ended: Option<ScopeId>)
      modifies `active
      ensures forall s: State :: old(Shows(s)) ==> Shows(EndStep(s, session))
      ensures forall s: State :: old(Shows(s)) && ended.Some? ==>
        EndStep(s, session) == Spawn(s.(active := s.active - {session}), Ending(ended.value))
      ensures ended.None? <==> session !in old(active)
    {
      ended := if session in active then Some(active[session].scope) else None;
      active := active - {session};
    }

    method RemoveToolScope(session: SessionId, scope: ScopeId)
      modifies `toolScopes
      ensures forall s: State, t: ThreadId ::
        old(Shows(s)) && Enabled(s, RemoveScope(t)) && s.threads[t].scope == scope && s.scopes[scope].session == session ==>
        Shows(RemoveStep(s, t))
    {
      var rest := (if session in toolScopes then toolScopes[session] else {}) - {scope};
      if rest == {} { toolScopes := toolScopes - {session}; } else { toolScopes := toolScopes[session := rest]; }
    }

    method SteerSession(session: SessionId) returns (found: bool, cancel: Option<CancelId>)
      modifies `active
      ensures forall s: State :: old(Shows(s)) ==> Shows(SteerStep(s, session))
      ensures found <==> session in old(active)
      ensures cancel == if found then old(active)[session].steerCancel else None
    {
      if session !in active { return false, None; }
      found, cancel := true, active[session].steerCancel;
      active := active[session := active[session].(steerPending := true)];
    }

    method RegisterSteerCancel(session: SessionId, cancel: CancelId) returns (pending: bool)
      modifies `active
      ensures forall s: State :: old(Shows(s)) ==> Shows(RegisterStep(s, session, cancel))
      ensures pending <==> session in old(active) && old(active)[session].steerPending
    {
      pending := session in active && active[session].steerPending;
      if session in active { active := active[session := active[session].(steerCancel := Some(cancel))]; }
    }
  }
}
