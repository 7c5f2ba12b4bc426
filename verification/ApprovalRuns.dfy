/** Approvals, their executions, background tasks and shutdown, as atomic store calls
    and lock sections. The id of an approval also names its run. */
module ApprovalRuns {
  import opened Wrappers

  type RunId = nat
  type TaskId = nat

  datatype Status = Pending | Approved | Rejected

  /** One approval with everything kept about its run. The counters say how many
      goroutines stand between granting and registering, have been launched, are
      executing, have ended, or were refused by startApprovedExecution. */
  datatype Run = Run(
    status: Status, request: string, recorded: string, decisions: nat,
    starting: nat, launched: nat, executing: nat, ended: nat, refused: nat,
    registered: bool,     // in executionCancels
    marked: bool,         // in cancelledExecutions
    ctxCancelled: bool)   // its cancel function has been called

  function NewRun(request: string, recorded: string): Run {
    Run(Pending, request, recorded, 0, 0, 0, 0, 0, 0, false, false, false)
  }

  /** Where the goroutine of StartTask stands: inside submit; holding the approval that
      submit returned; about to reject it because the task is gone; or past all that. */
  datatype Worker = Submitting | Got(run: RunId) | Late(run: RunId) | Past

  /** What CancelTask still does after its lock, for the approval it found recorded. */
  datatype Tail = Reading | Rejecting | Marking | Firing | Done

  datatype Cancellation = NotCancelled | NothingRecorded | Cancelling(run: RunId, tail: Tail)

  /** One taskState, with whether the in-memory map still holds it and how often it left. */
  datatype Job = Job(inMap: bool, left: nat, status: string, approval: Option<RunId>, output: string,
                     worker: Worker, cancellation: Cancellation)

  const NEW_JOB: Job := Job(true, 0, "running", None, "", Submitting, NotCancelled)

  datatype State = State(
    runs: map<RunId, Run>,
    jobs: map<TaskId, Job>,
    stopping: set<RunId>,   // cancel functions taken by CancelSessionToolExecutions
    closed: bool)

  const INITIAL: State := State(map[], map[], {}, false)

  datatype Event =
    | StartTask(task: TaskId)
    | Submit(run: RunId, request: string, recorded: string)                // a foreground request
    | SubmitForTask(task: TaskId, run: RunId, request: string, recorded: string)
    | SubmitEnds(task: TaskId, status: string)
    | RecordApproval(task: TaskId)
    | LateReject(task: TaskId)
    | Stream(task: TaskId, chunk: string)
    | Approve(run: RunId)          // ApprovePendingAndStartRun of ApproveAsync
    | Start(run: RunId)            // the lock section of startApprovedExecution
    | Execute(run: RunId)
    | ExecutionEnds(run: RunId)
    | Reject(run: RunId)
    | CancelTask(task: TaskId)
    | ReadStatus(task: TaskId)
    | RejectTail(task: TaskId)
    | MarkTail(task: TaskId)       // the lock section of cancelApprovedExecution
    | FireTail(task: TaskId)
    | Stop(run: RunId)             // the same section, called by CancelSessionToolExecutions
    | FireStop(run: RunId)
    | Track(task: TaskId, status: string, terminal: bool)
    | Interrupt(task: TaskId)
    | Shutdown

  // ---------- one run ----------

  /** DecideApproval and ApprovePendingAndStartRun change a pending approval only. */
  function Decide(r: Run, status: Status): Run {
    if r.status != Pending then r else r.(status := status, decisions := r.decisions + 1)
  }

  /** approveForExecution: the persisted request must still have the recorded digest. */
  function Grant(digest: string -> string, r: Run): Run {
    if r.status == Pending && digest(r.request) == r.recorded
    then Decide(r, Approved).(starting := r.starting + 1) else r
  }

  function Register(closed: bool, r: Run): Run
    requires r.starting > 0
  {
    var r' := r.(starting := r.starting - 1);
    if closed then r'.(refused := r.refused + 1)
    else if r.marked then r'.(marked := false, refused := r.refused + 1)
    else r'.(registered := true, launched := r.launched + 1, ctxCancelled := false)
  }

  function Begin(r: Run): Run
    requires r.launched > 0
  {
    r.(launched := r.launched - 1, executing := r.executing + 1)
  }

  function EndRun(r: Run): Run
    requires r.executing > 0
  {
    r.(executing := r.executing - 1, ended := r.ended + 1, registered := false, marked := false)
  }

  function Mark(r: Run): Run { if r.registered then r else r.(marked := true) }

  function Fire(r: Run): Run { r.(ctxCancelled := true) }

  // ---------- one task ----------

  predicate Cancellable(status: string) {
    status == "running" || status == "waiting_for_approval" || status == "approval_required"
  }

  /** delete(s.tasks, id) under the lock that makes the last change. */
  function Leave(j: Job, status: string): Job {
    j.(inMap := false, left := j.left + 1, status := status)
  }

  function Record(j: Job): Job
    requires j.worker.Got?
  {
    if j.inMap then j.(status := "approval_required", approval := Some(j.worker.run), worker := Past)
    else j.(worker := Late(j.worker.run))
  }

  function Cancel(j: Job): Job {
    if !j.inMap || !Cancellable(j.status) then j
    else Leave(j, "cancelled").(cancellation :=
      if j.approval.None? then NothingRecorded else Cancelling(j.approval.value, Reading))
  }

  /** The tail of CancelTask, given the run of its approval. */
  function NextTail(tail: Tail, r: Run): Tail {
    match tail
    case Reading => if r.status == Pending then Rejecting else Marking
    case Rejecting => if r.status == Pending then Done else Marking
    case Marking => if r.registered then Firing else Done
    case Firing => Done
    case Done => Done
  }

  // ---------- steps ----------

  predicate TailIs(s: State, t: TaskId, tail: Tail) {
    && t in s.jobs
    && s.jobs[t].cancellation.Cancelling?
    && s.jobs[t].cancellation.tail == tail
    && s.jobs[t].cancellation.run in s.runs
  }

  predicate Enabled(s: State, e: Event) {
    match e
    case StartTask(t) => t !in s.jobs
    case Submit(a, _, _) => a !in s.runs
    case SubmitForTask(t, a, _, _) => t in s.jobs && s.jobs[t].worker.Submitting? && a !in s.runs
    case SubmitEnds(t, _) => t in s.jobs && s.jobs[t].worker.Submitting?
    case RecordApproval(t) => t in s.jobs && s.jobs[t].worker.Got?
    case LateReject(t) => t in s.jobs && s.jobs[t].worker.Late? && s.jobs[t].worker.run in s.runs
    case Stream(t, _) => t in s.jobs
    case Approve(a) => a in s.runs
    case Start(a) => a in s.runs && s.runs[a].starting > 0
    case Execute(a) => a in s.runs && s.runs[a].launched > 0
    case ExecutionEnds(a) => a in s.runs && s.runs[a].executing > 0
    case Reject(a) => a in s.runs
    case CancelTask(t) => t in s.jobs
    case ReadStatus(t) => TailIs(s, t, Reading)
    case RejectTail(t) => TailIs(s, t, Rejecting)
    case MarkTail(t) => TailIs(s, t, Marking)
    case FireTail(t) => TailIs(s, t, Firing)
    case Stop(a) => a in s.runs && s.runs[a].status == Approved
    case FireStop(a) => a in s.stopping && a in s.runs
    case Track(t, _, _) => t in s.jobs
    case Interrupt(t) => t in s.jobs
    case Shutdown => true
  }

  /** The run a step reads and may write. */
  function Target(s: State, e: Event): Option<RunId>
    requires Enabled(s, e)
  {
    match e
    case Approve(a) => Some(a)
    case Start(a) => Some(a)
    case Execute(a) => Some(a)
    case ExecutionEnds(a) => Some(a)
    case Reject(a) => Some(a)
    case Stop(a) => Some(a)
    case FireStop(a) => Some(a)
    case LateReject(t) => Some(s.jobs[t].worker.run)
    case RejectTail(t) => Some(s.jobs[t].cancellation.run)
    case MarkTail(t) => Some(s.jobs[t].cancellation.run)
    case FireTail(t) => Some(s.jobs[t].cancellation.run)
    case _ => None
  }

  function RunAfter(digest: string -> string, s: State, e: Event): Run
    requires Enabled(s, e) && Target(s, e).Some?
  {
    var r := s.runs[Target(s, e).value];
    match e
    case Approve(_) => Grant(digest, r)
    case Start(_) => Register(s.closed, r)
    case Execute(_) => Begin(r)
    case ExecutionEnds(_) => EndRun(r)
    case Reject(_) => Decide(r, Rejected)
    case LateReject(_) => Decide(r, Rejected)
    case RejectTail(_) => Decide(r, Rejected)
    case Stop(_) => Mark(r)
    case MarkTail(_) => Mark(r)
    case FireStop(_) => Fire(r)
    case FireTail(_) => Fire(r)
  }

  function RunsAfter(digest: string -> string, s: State, e: Event): map<RunId, Run>
    requires Enabled(s, e)
  {
    match e
    case Submit(a, request, recorded) => s.runs[a := NewRun(request, recorded)]
    case SubmitForTask(_, a, request, recorded) => s.runs[a := NewRun(request, recorded)]
    case _ => if Target(s, e).None? then s.runs else s.runs[Target(s, e).value := RunAfter(digest, s, e)]
  }

  function Advance(s: State, j: Job): Job
    requires j.cancellation.Cancelling? && j.cancellation.run in s.runs
  {
    j.(cancellation := j.cancellation.(tail := NextTail(j.cancellation.tail, s.runs[j.cancellation.run])))
  }

  predicate TailStep(e: Event) { e.ReadStatus? || e.RejectTail? || e.MarkTail? || e.FireTail? }

  predicate TouchesTask(e: Event) {
    || e.SubmitForTask? || e.SubmitEnds? || e.RecordApproval? || e.LateReject? || e.Stream?
    || e.CancelTask? || TailStep(e) || e.Track? || e.Interrupt?
  }

  function JobAfter(s: State, e: Event): Job
    requires Enabled(s, e) && TouchesTask(e)
  {
    var j := s.jobs[e.task];
    match e
    case SubmitForTask(_, a, _, _) => j.(worker := Got(a))
    case SubmitEnds(_, status) => if j.inMap then Leave(j, status).(worker := Past) else j.(worker := Past)
    case RecordApproval(_) => Record(j)
    case LateReject(_) => j.(worker := Past)
    case Stream(_, chunk) => if j.inMap then j.(output := j.output + chunk) else j
    case CancelTask(_) => Cancel(j)
    case Track(_, status, terminal) =>
      if !j.inMap then j else if terminal then Leave(j, status) else j.(status := status)
    case Interrupt(_) => if j.inMap then Leave(j, "interrupted") else j
    case ReadStatus(_) => Advance(s, j)
    case RejectTail(_) => Advance(s, j)
    case MarkTail(_) => Advance(s, j)
    case FireTail(_) => Advance(s, j)
  }

  function JobsAfter(s: State, e: Event): map<TaskId, Job>
    requires Enabled(s, e)
  {
    if e.StartTask? then s.jobs[e.task := NEW_JOB]
    else if TouchesTask(e) then s.jobs[e.task := JobAfter(s, e)]
    else s.jobs
  }

  function StoppingAfter(s: State, e: Event): set<RunId>
    requires Enabled(s, e)
  {
    match e
    case Stop(a) => if s.runs[a].registered then s.stopping + {a} else s.stopping
    case FireStop(a) => s.stopping - {a}
    case _ => s.stopping
  }

  function Apply(digest: string -> string, s: State, e: Event): State
    requires Enabled(s, e)
  {
    State(RunsAfter(digest, s, e), JobsAfter(s, e), StoppingAfter(s, e), s.closed || e.Shutdown?)
  }

  // ---------- the invariant ----------

  predicate RunOk(digest: string -> string, r: Run) {
    && r.decisions == (if r.status == Pending then 0 else 1)
    && r.starting + r.launched + r.executing + r.ended + r.refused == (if r.status == Approved then 1 else 0)
    && (r.status == Approved ==> digest(r.request) == r.recorded)
    && (r.registered <==> r.launched + r.executing == 1)
    && (r.marked ==> r.status != Pending)
    && (r.ctxCancelled ==> r.starting == 0 && r.status == Approved)
  }

  /** No execution of this run has a live context, now or later. */
  predicate Settled(closed: bool, r: Run) {
    && r.status != Pending
    && (r.starting > 0 ==> r.marked || closed)
    && (r.registered ==> r.ctxCancelled || closed)
  }

  /** CancelTask has found run r recorded and stands at this tail. */
  predicate TailOk(closed: bool, r: Run, tail: Tail) {
    && (tail.Marking? ==> r.status != Pending)
    && (tail.Firing? ==> r.status == Approved && r.starting == 0)
    && (tail.Done? ==> Settled(closed, r))
  }

  predicate JobOk(s: State, j: Job) {
    && j.left == (if j.inMap then 0 else 1)
    && (j.inMap ==> j.cancellation.NotCancelled?)
    && (j.approval.Some? ==> j.approval.value in s.runs)
    && (j.worker.Got? || j.worker.Late? ==> j.worker.run in s.runs)
    && (j.cancellation.Cancelling? ==>
          j.cancellation.run in s.runs && TailOk(s.closed, s.runs[j.cancellation.run], j.cancellation.tail))
  }

  /** A cancel function is at hand only for a run that has registered. */
  predicate StopOk(s: State, a: RunId) {
    a in s.runs && s.runs[a].status == Approved && s.runs[a].starting == 0
  }

  ghost predicate Valid(digest: string -> string, s: State) {
    && (forall a :: a in s.runs ==> RunOk(digest, s.runs[a]))
    && (forall t :: t in s.jobs ==> JobOk(s, s.jobs[t]))
    && (forall a :: a in s.stopping ==> StopOk(s, a))
  }

  /** How one step may change one run, whatever the step. */
  ghost predicate RunStep(digest: string -> string, closed: bool, r: Run, r': Run) {
    || r' == r
    || r' == Decide(r, Rejected)
    || r' == Grant(digest, r)
    || (r.starting > 0 && r' == Register(closed, r))
    || (r.launched > 0 && r' == Begin(r))
    || (r.executing > 0 && r' == EndRun(r))
    || (r.status != Pending && r' == Mark(r))
    || (r.status == Approved && r.starting == 0 && r' == Fire(r))
  }

  /** What the invariant gives a step that marks or cancels a run. */
  predicate TargetDecided(s: State, e: Event)
    requires Enabled(s, e)
  {
    match e
    case MarkTail(t) => s.runs[s.jobs[t].cancellation.run].status != Pending
    case FireTail(t) => StopOk(s, s.jobs[t].cancellation.run)
    case FireStop(a) => StopOk(s, a)
    case _ => true
  }

  lemma {:induction false} TargetIsDecided(digest: string -> string, s: State, e: Event)
    requires Valid(digest, s) && Enabled(s, e)
    ensures TargetDecided(s, e)
  {
    hide RunOk;
    if e.MarkTail? || e.FireTail? { assert JobOk(s, s.jobs[e.task]); }
  }

  lemma {:induction false} StepOfRun(digest: string -> string, s: State, e: Event, a: RunId)
    requires Enabled(s, e) && TargetDecided(s, e) && a in s.runs
    ensures a in RunsAfter(digest, s, e)
    ensures RunStep(digest, s.closed, s.runs[a], RunsAfter(digest, s, e)[a])
  {
    hide Decide, Grant, Register, Begin, EndRun, Mark, Fire;
  }

  lemma RunStepOk(digest: string -> string, closed: bool, r: Run, r': Run)
    requires RunOk(digest, r) && RunStep(digest, closed, r, r')
    ensures RunOk(digest, r')
    ensures r.status != Pending ==> r'.status == r.status && r'.decisions == r.decisions
    ensures r'.request == r.request && r'.recorded == r.recorded
    ensures r.status == Approved && r.starting == 0 ==> r'.starting == 0
  {
  }

  lemma SettledStays(digest: string -> string, closed: bool, closed': bool, r: Run, r': Run)
    requires RunOk(digest, r) && RunStep(digest, closed, r, r') && Settled(closed, r) && (closed ==> closed')
    ensures Settled(closed', r')
  {
  }

  lemma {:induction false} TailStaysOk(digest: string -> string, closed: bool, closed': bool, r: Run, r': Run, tail: Tail)
    requires RunOk(digest, r) && RunStep(digest, closed, r, r') && TailOk(closed, r, tail) && (closed ==> closed')
    ensures TailOk(closed', r', tail)
  {
    hide RunStep, RunOk, Settled;
    RunStepOk(digest, closed, r, r');
    if tail.Done? { SettledStays(digest, closed, closed', r, r'); }
  }

  lemma {:induction false} StepGrowsRun(digest: string -> string, s: State, e: Event, a: RunId)
    requires Valid(digest, s) && Enabled(s, e) && a in s.runs
    ensures a in RunsAfter(digest, s, e)
    ensures RunOk(digest, s.runs[a]) && RunStep(digest, s.closed, s.runs[a], RunsAfter(digest, s, e)[a])
    ensures RunOk(digest, RunsAfter(digest, s, e)[a])
    ensures s.runs[a].status != Pending ==> RunsAfter(digest, s, e)[a].status == s.runs[a].status
    ensures StopOk(s, a) ==>
      RunsAfter(digest, s, e)[a].status == Approved && RunsAfter(digest, s, e)[a].starting == 0
  {
    TargetIsDecided(digest, s, e);
    hide RunsAfter, RunOk, RunStep, TargetDecided, Enabled;
    StepOfRun(digest, s, e, a);
    RunStepOk(digest, s.closed, s.runs[a], RunsAfter(digest, s, e)[a]);
  }

  /** A task a step does not touch stays in order whatever happens to the runs. */
  lemma {:induction false} JobStaysOk(digest: string -> string, s: State, e: Event, j: Job)
    requires Valid(digest, s) && Enabled(s, e) && JobOk(s, j)
    ensures JobOk(Apply(digest, s, e), j)
  {
    hide RunsAfter, JobsAfter, StoppingAfter, RunOk, RunStep, TailOk, Enabled, Valid;
    if j.approval.Some? { StepGrowsRun(digest, s, e, j.approval.value); }
    if j.worker.Got? || j.worker.Late? { StepGrowsRun(digest, s, e, j.worker.run); }
    if j.cancellation.Cancelling? {
      var a := j.cancellation.run;
      StepGrowsRun(digest, s, e, a);
      TailStaysOk(digest, s.closed, Apply(digest, s, e).closed, s.runs[a], RunsAfter(digest, s, e)[a],
                  j.cancellation.tail);
    }
  }

  /** What a step makes of its own task, the end of a tail apart, suits the runs before it. */
  lemma {:induction false} JobMoves(digest: string -> string, s: State, e: Event)
    requires Valid(digest, s) && Enabled(s, e) && TouchesTask(e) && !TailStep(e) && !e.SubmitForTask?
    ensures JobOk(s, JobAfter(s, e))
  {
    assert JobOk(s, s.jobs[e.task]);
    hide Settled, RunOk;
  }

  lemma {:induction false} NewApprovalKept(digest: string -> string, s: State, e: Event)
    requires Valid(digest, s) && Enabled(s, e) && e.SubmitForTask?
    ensures JobOk(Apply(digest, s, e), JobAfter(s, e))
  {
    JobStaysOk(digest, s, e, s.jobs[e.task]);
    hide TailOk, Valid;
  }

  /** Each step of the tail leaves the run decided, stoppable or settled, as the next one needs. */
  lemma {:induction false} TailAdvances(digest: string -> string, s: State, e: Event)
    requires Valid(digest, s) && Enabled(s, e) && TailStep(e)
    ensures var a := s.jobs[e.task].cancellation.run;
      TailOk(s.closed, RunsAfter(digest, s, e)[a], JobAfter(s, e).cancellation.tail)
  {
    var a := s.jobs[e.task].cancellation.run;
    assert JobOk(s, s.jobs[e.task]);
    assert RunOk(digest, s.runs[a]);
    hide Valid, JobOk;
  }

  lemma {:induction false} TailKept(digest: string -> string, s: State, e: Event)
    requires Valid(digest, s) && Enabled(s, e) && TailStep(e)
    ensures JobOk(Apply(digest, s, e), JobAfter(s, e))
  {
    assert JobOk(s, s.jobs[e.task]);
    JobStaysOk(digest, s, e, s.jobs[e.task]);
    TailAdvances(digest, s, e);
    hide RunsAfter, TailOk, Valid, NextTail;
  }

  lemma {:induction false} StepKeepsJob(digest: string -> string, s: State, e: Event, t: TaskId)
    requires Valid(digest, s) && Enabled(s, e) && t in JobsAfter(s, e)
    ensures JobOk(Apply(digest, s, e), JobsAfter(s, e)[t])
  {
    if e.StartTask? && e.task == t {
    } else if TouchesTask(e) && e.task == t {
      hide Apply, JobOk, JobAfter, Enabled, Valid;
      if TailStep(e) { TailKept(digest, s, e); }
      else if e.SubmitForTask? { NewApprovalKept(digest, s, e); }
      else {
        JobMoves(digest, s, e);
        JobStaysOk(digest, s, e, JobAfter(s, e));
      }
    } else {
      assert JobOk(s, s.jobs[t]);
      hide Apply, JobOk, JobAfter, Enabled, Valid;
      JobStaysOk(digest, s, e, s.jobs[t]);
    }
  }

  lemma {:induction false} StepKeepsRun(digest: string -> string, s: State, e: Event, a: RunId)
    requires Valid(digest, s) && Enabled(s, e) && a in RunsAfter(digest, s, e)
    ensures RunOk(digest, RunsAfter(digest, s, e)[a])
  {
    if a in s.runs {
      hide *;
      StepGrowsRun(digest, s, e, a);
    } else {
      hide Valid, RunAfter;
    }
  }

  lemma {:induction false} StepKeepsStop(digest: string -> string, s: State, e: Event, a: RunId)
    requires Valid(digest, s) && Enabled(s, e) && a in StoppingAfter(s, e)
    ensures StopOk(Apply(digest, s, e), a)
  {
    assert a in s.runs && StopOk(s, a) by {
      if a !in s.stopping { assert RunOk(digest, s.runs[a]); }
    }
    hide RunsAfter, StoppingAfter, JobsAfter, Valid, Enabled;
    StepGrowsRun(digest, s, e, a);
  }

  lemma {:induction false} StepKeepsValid(digest: string -> string, s: State, e: Event)
    requires Valid(digest, s) && Enabled(s, e)
    ensures Valid(digest, Apply(digest, s, e))
  {
    hide RunsAfter, StoppingAfter, JobsAfter, Enabled, RunOk, JobOk, StopOk;
    var s' := Apply(digest, s, e);
    forall a | a in s'.runs ensures RunOk(digest, s'.runs[a]) { StepKeepsRun(digest, s, e, a); }
    forall t | t in s'.jobs ensures JobOk(s', s'.jobs[t]) { StepKeepsJob(digest, s, e, t); }
    forall a | a in s'.stopping ensures StopOk(s', a) { StepKeepsStop(digest, s, e, a); }
  }

  // ---------- runs of the whole system ----------

  predicate Possible(digest: string -> string, s: State, events: seq<Event>)
    decreases |events|
  {
    events == [] || (Enabled(s, events[0]) && Possible(digest, Apply(digest, s, events[0]), events[1..]))
  }

  function After(digest: string -> string, s: State, events: seq<Event>): State
    requires Possible(digest, s, events)
    decreases |events|
  {
    if events == [] then s else After(digest, Apply(digest, s, events[0]), events[1..])
  }

  lemma {:induction false} RunKeepsValid(digest: string -> string, s: State, events: seq<Event>)
    requires Valid(digest, s) && Possible(digest, s, events)
    ensures Valid(digest, After(digest, s, events))
    decreases |events|
  {
    hide Valid, Apply;
    if events != [] {
      StepKeepsValid(digest, s, events[0]);
      RunKeepsValid(digest, Apply(digest, s, events[0]), events[1..]);
    }
  }

  lemma {:induction false} ReachableStates(digest: string -> string, events: seq<Event>)
    requires Possible(digest, INITIAL, events)
    ensures Valid(digest, After(digest, INITIAL, events))
  {
    RunKeepsValid(digest, INITIAL, events);
  }

  /** An approval is decided at most once, its run is executed at most once, and only with
      an approval whose recorded digest is that of the persisted request. */
  lemma {:induction false} ExecutedAtMostOnce(digest: string -> string, events: seq<Event>, a: RunId)
    requires Possible(digest, INITIAL, events) && a in After(digest, INITIAL, events).runs
    ensures var r := After(digest, INITIAL, events).runs[a];
      && r.decisions <= 1
      && r.launched + r.executing + r.ended <= 1
      && (r.launched + r.executing + r.ended == 1 ==> r.status == Approved && digest(r.request) == r.recorded)
  {
    hide Possible, After, Enabled;
    ReachableStates(digest, events);
    assert RunOk(digest, After(digest, INITIAL, events).runs[a]);
  }

  lemma {:induction false} DecisionIsFinal(digest: string -> string, s: State, events: seq<Event>, a: RunId)
    requires Valid(digest, s) && Possible(digest, s, events) && a in s.runs && s.runs[a].status != Pending
    ensures a in After(digest, s, events).runs
    ensures After(digest, s, events).runs[a].status == s.runs[a].status
    decreases |events|
  {
    hide Valid, RunsAfter, JobsAfter, RunOk, RunStep, Enabled;
    if events != [] {
      StepKeepsValid(digest, s, events[0]);
      StepGrowsRun(digest, s, events[0], a);
      DecisionIsFinal(digest, Apply(digest, s, events[0]), events[1..], a);
    }
  }

  // ---------- cancelling a run ----------

  /** The run's execution is registered and nothing has cancelled its context. Shutdown counts
      as cancelling every context at once: the service's context is cancelled first, and each
      execution hangs its own on it by an AfterFunc, which startApprovedExecution registers
      just after its lock section and which then fires without delay. */
  predicate Live(s: State, a: RunId) {
    a in s.runs && s.runs[a].registered && !s.runs[a].ctxCancelled && !s.closed
  }

  /** Readable off the approval, the two cancellation maps and the closed flag. */
  predicate Dead(digest: string -> string, closed: bool, r: Run) {
    if r.status == Pending then closed || digest(r.request) != r.recorded else Settled(closed, r)
  }

  lemma {:induction false} DeadStays(digest: string -> string, closed: bool, closed': bool, r: Run, r': Run)
    requires RunOk(digest, r) && RunStep(digest, closed, r, r') && Dead(digest, closed, r) && (closed ==> closed')
    ensures Dead(digest, closed', r')
  {
    if r.status != Pending {
      hide RunStep, Settled;
      RunStepOk(digest, closed, r, r');
      SettledStays(digest, closed, closed', r, r');
    }
  }

  lemma {:induction false} DeadForEver(digest: string -> string, s: State, events: seq<Event>, a: RunId)
    requires Valid(digest, s) && Possible(digest, s, events) && a in s.runs && Dead(digest, s.closed, s.runs[a])
    ensures !Live(After(digest, s, events), a)
    decreases |events|
  {
    if events == [] {
      assert RunOk(digest, s.runs[a]);
    } else {
      hide Valid, RunsAfter, JobsAfter, RunOk, RunStep, Dead, Live, Enabled;
      var s' := Apply(digest, s, events[0]);
      StepKeepsValid(digest, s, events[0]);
      StepGrowsRun(digest, s, events[0], a);
      DeadStays(digest, s.closed, s'.closed, s.runs[a], s'.runs[a]);
      DeadForEver(digest, s', events[1..], a);
    }
  }

  lemma {:induction false} OneStep(digest: string -> string, s: State, e: Event)
    requires Enabled(s, e)
    ensures Possible(digest, s, [e]) && After(digest, s, [e]) == Apply(digest, s, e)
  {
    hide Enabled, Apply;
    assert [e][1..] == [];
  }

  lemma {:induction false} TwoSteps(digest: string -> string, s: State, e: Event, e': Event)
    requires Enabled(s, e) && Enabled(Apply(digest, s, e), e')
    ensures Possible(digest, s, [e, e'])
    ensures After(digest, s, [e, e']) == Apply(digest, Apply(digest, s, e), e')
  {
    hide Enabled, Apply;
    assert [e, e'][1..] == [e'];
    OneStep(digest, Apply(digest, s, e), e');
  }

  lemma {:induction false} LiveWithin(digest: string -> string, s: State, a: RunId) returns (events: seq<Event>)
    requires Valid(digest, s) && a in s.runs && !Dead(digest, s.closed, s.runs[a])
    ensures Possible(digest, s, events) && Live(After(digest, s, events), a)
  {
    assert RunOk(digest, s.runs[a]);
    hide Valid, JobsAfter, StoppingAfter;
    if s.runs[a].status == Pending {
      events := [Approve(a), Start(a)];
      TwoSteps(digest, s, Approve(a), Start(a));
    } else if s.runs[a].starting > 0 {
      events := [Start(a)];
      OneStep(digest, s, Start(a));
    } else {
      events := [];
    }
  }

  /** Dead is exactly the condition under which no continuation gives the run a live execution. */
  lemma {:induction false} DeadExactly(digest: string -> string, s: State, a: RunId)
    requires Valid(digest, s) && a in s.runs
    ensures Dead(digest, s.closed, s.runs[a]) <==>
      (forall events :: Possible(digest, s, events) ==> !Live(After(digest, s, events), a))
  {
    hide *;
    if Dead(digest, s.closed, s.runs[a]) {
      forall events | Possible(digest, s, events) ensures !Live(After(digest, s, events), a) {
        DeadForEver(digest, s, events, a);
      }
    } else {
      var events := LiveWithin(digest, s, a);
    }
  }

  /** Once CancelTask is through with the approval it found, that run is never live again. */
  lemma {:induction false} CancelledTaskStaysDead(digest: string -> string, s: State, events: seq<Event>, t: TaskId)
    requires Valid(digest, s) && Possible(digest, s, events) && TailIs(s, t, Done)
    ensures !Live(After(digest, s, events), s.jobs[t].cancellation.run)
  {
    assert JobOk(s, s.jobs[t]);
    hide Valid, Possible, After, Enabled, Live;
    var a := s.jobs[t].cancellation.run;
    assert Dead(digest, s.closed, s.runs[a]);
    DeadForEver(digest, s, events, a);
  }

  function TailEvent(t: TaskId, tail: Tail): Event
    requires !tail.Done?
  {
    match tail
    case Reading => ReadStatus(t)
    case Rejecting => RejectTail(t)
    case Marking => MarkTail(t)
    case Firing => FireTail(t)
  }

  function TailRank(tail: Tail): nat {
    match tail
    case Reading => 4
    case Rejecting => 3
    case Marking => 2
    case Firing => 1
    case Done => 0
  }

  lemma {:induction false} TailStepWorks(digest: string -> string, s: State, t: TaskId, tail: Tail)
    requires Valid(digest, s) && TailIs(s, t, tail) && !tail.Done?
    ensures Enabled(s, TailEvent(t, tail))
    ensures var s' := Apply(digest, s, TailEvent(t, tail));
      && TailIs(s', t, s'.jobs[t].cancellation.tail)
      && s'.jobs[t].cancellation.run == s.jobs[t].cancellation.run
      && TailRank(s'.jobs[t].cancellation.tail) < TailRank(tail)
  {
    StepGrowsRun(digest, s, TailEvent(t, tail), s.jobs[t].cancellation.run);
    hide RunsAfter, Valid, RunOk, RunStep;
  }

  /** And it always gets through, by at most four steps of its own, whatever state it is in. */
  lemma {:induction false} CancelTaskFinishes(digest: string -> string, s: State, t: TaskId, tail: Tail)
    returns (events: seq<Event>)
    requires Valid(digest, s) && TailIs(s, t, tail)
    ensures |events| <= TailRank(tail)
    ensures forall i :: 0 <= i < |events| ==> TailStep(events[i]) && events[i].task == t
    ensures Possible(digest, s, events) && TailIs(After(digest, s, events), t, Done)
    ensures After(digest, s, events).jobs[t].cancellation.run == s.jobs[t].cancellation.run
    decreases TailRank(tail)
  {
    events := [];
    if !tail.Done? {
      var e := TailEvent(t, tail);
      var s' := Apply(digest, s, e);
      TailStepWorks(digest, s, t, tail);
      StepKeepsValid(digest, s, e);
      hide Valid, Apply, Enabled, RunsAfter;
      var rest := CancelTaskFinishes(digest, s', t, s'.jobs[t].cancellation.tail);
      events := [e] + rest;
      assert events[1..] == rest;
    }
  }

  // ---------- cancelling a task, from the call on ----------

  /** The statuses in which CancelTask accepts a task. */
  predicate MayBeCancelled(j: Job) {
    j.inMap && (j.status == "running" || j.status == "waiting_for_approval" || j.status == "approval_required")
  }

  /** CancelTask refuses every other task and then changes nothing; an accepted one leaves the
      map as cancelled, and an approval it recorded is what the call goes on with. */
  lemma CancelTaskTakesUp(digest: string -> string, s: State, t: TaskId)
    requires t in s.jobs
    ensures Enabled(s, CancelTask(t))
    ensures var j, s' := s.jobs[t], Apply(digest, s, CancelTask(t));
      var accepted := j.inMap && (j.status == "running" || j.status == "waiting_for_approval" || j.status == "approval_required");
      && s'.runs == s.runs && s'.stopping == s.stopping && s'.closed == s.closed
      && s'.jobs == s.jobs[t := s'.jobs[t]]
      && (!accepted ==> s' == s)
      && (accepted ==>
            && !s'.jobs[t].inMap && s'.jobs[t].status == "cancelled" && s'.jobs[t].left == s.jobs[t].left + 1
            && s'.jobs[t].approval == s.jobs[t].approval && s'.jobs[t].output == s.jobs[t].output
            && (s.jobs[t].approval.Some? ==> s'.jobs[t].cancellation == Cancelling(s.jobs[t].approval.value, Reading)))
  {
    assert s.jobs[t := s.jobs[t]] == s.jobs;
  }

  lemma RecordedStays(digest: string -> string, s: State, e: Event, t: TaskId)
    requires Enabled(s, e) && t in s.jobs && s.jobs[t].worker.Past?
    ensures t in JobsAfter(s, e) && JobsAfter(s, e)[t].worker.Past? && JobsAfter(s, e)[t].approval == s.jobs[t].approval
  {
  }

  lemma {:induction false} RunKeepsRecorded(digest: string -> string, s: State, events: seq<Event>, t: TaskId)
    requires Possible(digest, s, events) && t in s.jobs && s.jobs[t].worker.Past?
    ensures t in After(digest, s, events).jobs && After(digest, s, events).jobs[t].approval == s.jobs[t].approval
    decreases |events|
  {
    hide RunsAfter, JobsAfter, StoppingAfter, Enabled;
    if events != [] {
      RecordedStays(digest, s, events[0], t);
      RunKeepsRecorded(digest, Apply(digest, s, events[0]), events[1..], t);
    }
  }

  lemma RecordingTakes(digest: string -> string, s: State, t: TaskId)
    requires Enabled(s, RecordApproval(t)) && s.jobs[t].inMap
    ensures var j := Apply(digest, s, RecordApproval(t)).jobs[t];
      && j.inMap && j.status == "approval_required" && MayBeCancelled(j)
      && j.worker.Past? && j.approval == Some(s.jobs[t].worker.run)
  {
  }

  /** The approval that a task's submission returned, once recorded with the task still there,
      is the one a later CancelTask finds, whatever happens in between. */
  lemma {:induction false} RecordingLasts(digest: string -> string, s: State, t: TaskId, events: seq<Event>)
    requires Enabled(s, RecordApproval(t)) && s.jobs[t].inMap
    requires Possible(digest, Apply(digest, s, RecordApproval(t)), events)
    ensures MayBeCancelled(Apply(digest, s, RecordApproval(t)).jobs[t])
    ensures var s' := After(digest, Apply(digest, s, RecordApproval(t)), events);
      t in s'.jobs && s'.jobs[t].approval == Some(s.jobs[t].worker.run)
  {
    hide Possible, After, Enabled, MayBeCancelled;
    RecordingTakes(digest, s, t);
    RunKeepsRecorded(digest, Apply(digest, s, RecordApproval(t)), events, t);
  }

  /** The steps the call of CancelTask makes after its lock. */
  predicate OwnStep(t: TaskId, e: Event) {
    e == ReadStatus(t) || e == RejectTail(t) || e == MarkTail(t) || e == FireTail(t)
  }

  function OwnSteps(t: TaskId, events: seq<Event>): nat
    decreases |events|
  {
    if events == [] then 0 else (if OwnStep(t, events[0]) then 1 else 0) + OwnSteps(t, events[1..])
  }

  lemma {:induction false} OthersLeaveTail(digest: string -> string, s: State, e: Event, t: TaskId)
    requires Valid(digest, s) && Enabled(s, e) && t in s.jobs && !s.jobs[t].inMap && s.jobs[t].cancellation.Cancelling?
    requires !OwnStep(t, e)
    ensures t in JobsAfter(s, e) && !JobsAfter(s, e)[t].inMap && JobsAfter(s, e)[t].cancellation == s.jobs[t].cancellation
  {
    hide Valid;
  }

  lemma {:induction false} OwnStepAdvances(digest: string -> string, s: State, e: Event, t: TaskId)
    requires Valid(digest, s) && Enabled(s, e) && t in s.jobs && !s.jobs[t].inMap && s.jobs[t].cancellation.Cancelling?
    requires OwnStep(t, e)
    ensures t in JobsAfter(s, e) && !JobsAfter(s, e)[t].inMap && JobsAfter(s, e)[t].cancellation.Cancelling?
    ensures JobsAfter(s, e)[t].cancellation.run == s.jobs[t].cancellation.run
    ensures TailRank(JobsAfter(s, e)[t].cancellation.tail) < TailRank(s.jobs[t].cancellation.tail)
  {
    hide Valid;
  }

  lemma {:induction false} TailGoesOn(digest: string -> string, s: State, events: seq<Event>, t: TaskId)
    requires Valid(digest, s) && Possible(digest, s, events)
    requires t in s.jobs && !s.jobs[t].inMap && s.jobs[t].cancellation.Cancelling?
    ensures Valid(digest, After(digest, s, events)) && t in After(digest, s, events).jobs
    ensures var c := After(digest, s, events).jobs[t].cancellation;
      && c.Cancelling? && c.run == s.jobs[t].cancellation.run
      && OwnSteps(t, events) + TailRank(c.tail) <= TailRank(s.jobs[t].cancellation.tail)
    decreases |events|
  {
    hide Valid, RunsAfter, JobsAfter, StoppingAfter, Enabled, TailRank, OwnStep;
    if events != [] {
      StepKeepsValid(digest, s, events[0]);
      if OwnStep(t, events[0]) {
        OwnStepAdvances(digest, s, events[0], t);
      } else {
        OthersLeaveTail(digest, s, events[0], t);
      }
      TailGoesOn(digest, Apply(digest, s, events[0]), events[1..], t);
    }
  }

  lemma {:induction false} TailIsEnabled(digest: string -> string, s: State, t: TaskId)
    requires Valid(digest, s) && t in s.jobs && s.jobs[t].cancellation.Cancelling?
    ensures var c := s.jobs[t].cancellation;
      && c.run in s.runs
      && (if c.tail.Done? then Dead(digest, s.closed, s.runs[c.run])
          else OwnStep(t, TailEvent(t, c.tail)) && Enabled(s, TailEvent(t, c.tail)))
  {
    assert JobOk(s, s.jobs[t]);
    hide Valid, RunOk;
  }

  /** A call of CancelTask that meets a recorded approval always gets through: in whatever
      interleaving it has made at most four steps of its own and either can make the next one
      or is done, and once it is done the run of that approval is dead and never live again. */
  lemma {:induction false} CancelTaskKillsItsRun(digest: string -> string, before: seq<Event>, t: TaskId, events: seq<Event>)
    requires Possible(digest, INITIAL, before) && t in After(digest, INITIAL, before).jobs
    requires var j := After(digest, INITIAL, before).jobs[t];
      && j.inMap && j.approval.Some?
      && (j.status == "running" || j.status == "waiting_for_approval" || j.status == "approval_required")
    requires Possible(digest, Apply(digest, After(digest, INITIAL, before), CancelTask(t)), events)
    ensures
      var s := After(digest, INITIAL, before);
      var a := s.jobs[t].approval.value;
      var s' := After(digest, Apply(digest, s, CancelTask(t)), events);
      && t in s'.jobs && s'.jobs[t].cancellation.Cancelling? && a in s'.runs
      && OwnSteps(t, events) <= 4
      && (OwnSteps(t, events) == 4 ==> s'.jobs[t].cancellation.tail.Done?)
      && (!s'.jobs[t].cancellation.tail.Done? ==> exists e :: OwnStep(t, e) && Enabled(s', e))
      && (s'.jobs[t].cancellation.tail.Done? ==>
            && Dead(digest, s'.closed, s'.runs[a])
            && forall more :: Possible(digest, s', more) ==> !Live(After(digest, s', more), a))
  {
    var s := After(digest, INITIAL, before);
    assert TailRank(Reading) == 4 && forall tail :: TailRank(tail) == 0 <==> tail.Done?;
    hide *;
    ReachableStates(digest, before);
    CancelTaskTakesUp(digest, s, t);
    StepKeepsValid(digest, s, CancelTask(t));
    var s1 := Apply(digest, s, CancelTask(t));
    TailGoesOn(digest, s1, events, t);
    var s' := After(digest, s1, events);
    TailIsEnabled(digest, s', t);
    var c := s'.jobs[t].cancellation;
    if c.tail.Done? {
      DeadExactly(digest, s', c.run);
    } else {
      assert OwnStep(t, TailEvent(t, c.tail)) && Enabled(s', TailEvent(t, c.tail));
    }
  }

  /** Undisturbed, the call rejects an approval that is pending, and otherwise marks the run or
      calls the cancel function it finds registered. */
  lemma {:induction false} CancelTaskAlone(digest: string -> string, s: State, t: TaskId) returns (events: seq<Event>)
    requires Valid(digest, s) && TailIs(s, t, Reading)
    ensures Possible(digest, s, events) && TailIs(After(digest, s, events), t, Done)
    ensures var a := s.jobs[t].cancellation.run;
      var r, s' := s.runs[a], After(digest, s, events);
      if r.status == Pending then events == [ReadStatus(t), RejectTail(t)] && s'.runs == s.runs[a := r.(status := Rejected, decisions := r.decisions + 1)]
      else if r.registered then events == [ReadStatus(t), MarkTail(t), FireTail(t)] && s'.runs == s.runs[a := r.(ctxCancelled := true)]
      else events == [ReadStatus(t), MarkTail(t)] && s'.runs == s.runs[a := r.(marked := true)]
  {
    var a := s.jobs[t].cancellation.run;
    var r := s.runs[a];
    ReadingTells(digest, s, t);
    var s1 := Apply(digest, s, ReadStatus(t));
    if r.status == Pending {
      events := [ReadStatus(t), RejectTail(t)];
      RejectingEnds(digest, s1, t);
      TwoSteps(digest, s, ReadStatus(t), RejectTail(t));
    } else {
      MarkingGoesOn(digest, s1, t);
      if r.registered {
        events := [ReadStatus(t), MarkTail(t), FireTail(t)];
        FiringEnds(digest, Apply(digest, s1, MarkTail(t)), t);
        TwoSteps(digest, s1, MarkTail(t), FireTail(t));
        assert events[1..] == [MarkTail(t), FireTail(t)];
      } else {
        events := [ReadStatus(t), MarkTail(t)];
        TwoSteps(digest, s, ReadStatus(t), MarkTail(t));
      }
    }
    hide Apply, Valid;
  }

  lemma ReadingTells(digest: string -> string, s: State, t: TaskId)
    requires TailIs(s, t, Reading)
    ensures Enabled(s, ReadStatus(t))
    ensures var a := s.jobs[t].cancellation.run; var s' := Apply(digest, s, ReadStatus(t));
      && s'.runs == s.runs && t in s'.jobs && s'.jobs[t].cancellation.Cancelling? && s'.jobs[t].cancellation.run == a
      && TailIs(s', t, if s.runs[a].status == Pending then Rejecting else Marking)
  {
  }

  lemma RejectingEnds(digest: string -> string, s: State, t: TaskId)
    requires TailIs(s, t, Rejecting) && s.runs[s.jobs[t].cancellation.run].status == Pending
    ensures Enabled(s, RejectTail(t)) && TailIs(Apply(digest, s, RejectTail(t)), t, Done)
    ensures var a := s.jobs[t].cancellation.run;
      Apply(digest, s, RejectTail(t)).runs == s.runs[a := s.runs[a].(status := Rejected, decisions := s.runs[a].decisions + 1)]
  {
  }

  lemma MarkingGoesOn(digest: string -> string, s: State, t: TaskId)
    requires TailIs(s, t, Marking)
    ensures Enabled(s, MarkTail(t))
    ensures var a := s.jobs[t].cancellation.run; var r, s' := s.runs[a], Apply(digest, s, MarkTail(t));
      && t in s'.jobs && s'.jobs[t].cancellation.Cancelling? && s'.jobs[t].cancellation.run == a
      && TailIs(s', t, if r.registered then Firing else Done)
      && s'.runs == s.runs[a := if r.registered then r else r.(marked := true)]
  {
  }

  lemma FiringEnds(digest: string -> string, s: State, t: TaskId)
    requires TailIs(s, t, Firing)
    ensures Enabled(s, FireTail(t)) && TailIs(Apply(digest, s, FireTail(t)), t, Done)
    ensures var a := s.jobs[t].cancellation.run;
      Apply(digest, s, FireTail(t)).runs == s.runs[a := s.runs[a].(ctxCancelled := true)]
  {
  }

  // ---------- stopping a session's executions ----------

  lemma {:induction false} StopTakesHold(digest: string -> string, s: State, a: RunId)
    requires Valid(digest, s) && Enabled(s, Stop(a))
    ensures var s' := Apply(digest, s, Stop(a));
      a in s'.runs && (a in s'.stopping || Dead(digest, s'.closed, s'.runs[a]))
  {
    assert RunOk(digest, s.runs[a]);
    hide Valid;
  }

  lemma {:induction false} FireStopKills(digest: string -> string, s: State, a: RunId)
    requires Valid(digest, s) && Enabled(s, FireStop(a))
    ensures var s' := Apply(digest, s, FireStop(a)); a in s'.runs && Dead(digest, s'.closed, s'.runs[a])
  {
    assert RunOk(digest, s.runs[a]) && StopOk(s, a);
    hide Valid;
  }

  lemma StoppingStays(digest: string -> string, s: State, e: Event, a: RunId)
    requires Enabled(s, e) && a in s.stopping && e != FireStop(a)
    ensures a in Apply(digest, s, e).stopping
  {
  }

  lemma {:induction false} StepKeepsDead(digest: string -> string, s: State, e: Event, a: RunId)
    requires Valid(digest, s) && Enabled(s, e) && a in s.runs && Dead(digest, s.closed, s.runs[a])
    ensures var s' := Apply(digest, s, e); a in s'.runs && Dead(digest, s'.closed, s'.runs[a])
  {
    assert RunOk(digest, s.runs[a]);
    StepGrowsRun(digest, s, e, a);
    hide Valid, RunsAfter, JobsAfter, StoppingAfter, RunOk, RunStep, Dead, Enabled;
    DeadStays(digest, s.closed, Apply(digest, s, e).closed, s.runs[a], Apply(digest, s, e).runs[a]);
  }

  lemma {:induction false} StopGoesOn(digest: string -> string, s: State, events: seq<Event>, a: RunId)
    requires Valid(digest, s) && Possible(digest, s, events) && a in s.runs
    requires a in s.stopping || Dead(digest, s.closed, s.runs[a])
    ensures var s' := After(digest, s, events);
      && Valid(digest, s') && a in s'.runs && (a in s'.stopping || Dead(digest, s'.closed, s'.runs[a]))
      && (Dead(digest, s.closed, s.runs[a]) || FireStop(a) in events ==> Dead(digest, s'.closed, s'.runs[a]))
    decreases |events|
  {
    hide Valid, Apply, Enabled, Dead;
    if events != [] {
      var e := events[0];
      var s1 := Apply(digest, s, e);
      StepKeepsValid(digest, s, e);
      StepGrowsRun(digest, s, e, a);
      assert a in s1.runs by { RunsOfApply(digest, s, e); }
      if Dead(digest, s.closed, s.runs[a]) { StepKeepsDead(digest, s, e, a); }
      else if e == FireStop(a) { FireStopKills(digest, s, a); }
      else { StoppingStays(digest, s, e, a); }
      StopGoesOn(digest, s1, events[1..], a);
    }
  }

  lemma RunsOfApply(digest: string -> string, s: State, e: Event)
    requires Enabled(s, e)
    ensures Apply(digest, s, e).runs == RunsAfter(digest, s, e)
  {
    hide RunsAfter, JobsAfter, StoppingAfter;
  }

  /** CancelSessionToolExecutions on an approved run: whatever runs in between, either its cancel
      function is at hand and can be called, or the run is dead; and once called it is. */
  lemma {:induction false} StopKillsItsRun(digest: string -> string, s: State, a: RunId, events: seq<Event>)
    requires Valid(digest, s) && Enabled(s, Stop(a)) && Possible(digest, Apply(digest, s, Stop(a)), events)
    ensures var s' := After(digest, Apply(digest, s, Stop(a)), events);
      && a in s'.runs
      && (Enabled(s', FireStop(a)) || Dead(digest, s'.closed, s'.runs[a]))
      && (FireStop(a) in events ==> Dead(digest, s'.closed, s'.runs[a]))
  {
    hide Valid, Apply, Possible, After, Dead, StopOk;
    StopTakesHold(digest, s, a);
    StepKeepsValid(digest, s, Stop(a));
    StopGoesOn(digest, Apply(digest, s, Stop(a)), events, a);
  }

  // ---------- what the other steps do ----------

  /** Requests, answers, polls, tasks, cancellations and shutdown arrive at any time. */
  lemma AnythingMayArrive(s: State, a: RunId, request: string, recorded: string)
    ensures Enabled(s, Shutdown)
    ensures Enabled(s, Submit(a, request, recorded)) <==> a !in s.runs
    ensures a in s.runs ==> Enabled(s, Approve(a)) && Enabled(s, Reject(a))
    ensures a in s.runs && s.runs[a].status == Approved ==> Enabled(s, Stop(a))
  {
  }

  lemma TasksMayBeTouched(s: State, t: TaskId, a: RunId, text: string, status: string, terminal: bool)
    ensures Enabled(s, StartTask(t)) <==> t !in s.jobs
    ensures t in s.jobs ==>
      Enabled(s, CancelTask(t)) && Enabled(s, Interrupt(t)) && Enabled(s, Track(t, status, terminal)) && Enabled(s, Stream(t, text))
    ensures t in s.jobs && s.jobs[t].worker.Submitting? ==>
      Enabled(s, SubmitEnds(t, status)) && (a !in s.runs ==> Enabled(s, SubmitForTask(t, a, text, status)))
    ensures t in s.jobs && s.jobs[t].worker.Got? ==> Enabled(s, RecordApproval(t))
  {
  }

  lemma {:induction false} RunKeepsRequest(digest: string -> string, s: State, events: seq<Event>, a: RunId)
    requires Valid(digest, s) && Possible(digest, s, events) && a in s.runs
    ensures a in After(digest, s, events).runs
    ensures After(digest, s, events).runs[a].request == s.runs[a].request && After(digest, s, events).runs[a].recorded == s.runs[a].recorded
    decreases |events|
  {
    hide Valid, RunsAfter, JobsAfter, StoppingAfter, RunStep, Enabled;
    if events != [] {
      RunIsOk(digest, s, a);
      StepKeepsValid(digest, s, events[0]);
      StepGrowsRun(digest, s, events[0], a);
      hide RunOk;
      RunStepOk(digest, s.closed, s.runs[a], Apply(digest, s, events[0]).runs[a]);
      RunKeepsRequest(digest, Apply(digest, s, events[0]), events[1..], a);
    }
  }

  lemma RunIsOk(digest: string -> string, s: State, a: RunId)
    requires Valid(digest, s) && a in s.runs
    ensures RunOk(digest, s.runs[a])
  {
    hide JobOk, StopOk;
  }

  /** A submitted command is pending with nothing launched, and keeps its request and its
      recorded digest for good. */
  lemma {:induction false} SubmittedIsPending(digest: string -> string, s: State, e: Event, events: seq<Event>)
    requires Valid(digest, s) && Enabled(s, e) && (e.Submit? || e.SubmitForTask?)
    requires Possible(digest, Apply(digest, s, e), events)
    ensures e.run in Apply(digest, s, e).runs
    ensures var r := Apply(digest, s, e).runs[e.run];
      && r.status == Pending && r.decisions == 0
      && r.starting == r.launched == r.executing == r.ended == r.refused == 0
      && !r.registered && !r.marked && !r.ctxCancelled
    ensures e.run in After(digest, Apply(digest, s, e), events).runs
    ensures After(digest, Apply(digest, s, e), events).runs[e.run].request == e.request
    ensures After(digest, Apply(digest, s, e), events).runs[e.run].recorded == e.recorded
    ensures e.SubmitForTask? ==> Apply(digest, s, e).jobs[e.task].worker == Got(e.run)
  {
    StepKeepsValid(digest, s, e);
    assert Apply(digest, s, e).runs[e.run] == Run(Pending, e.request, e.recorded, 0, 0, 0, 0, 0, 0, false, false, false);
    hide Valid, Possible, After;
    RunKeepsRequest(digest, Apply(digest, s, e), events, e.run);
  }

  /** An approved run that is to start is either launched, with its cancel function registered,
      or refused: after shutdown, or because of a mark, which is used up. */
  lemma StartExactly(digest: string -> string, s: State, a: RunId)
    requires a in s.runs && s.runs[a].starting > 0
    ensures Enabled(s, Start(a)) && a in Apply(digest, s, Start(a)).runs
    ensures var r, r' := s.runs[a], Apply(digest, s, Start(a)).runs[a];
      && r'.starting == r.starting - 1 && r'.launched + r'.refused == r.launched + r.refused + 1
      && (r'.launched == r.launched + 1 <==> !s.closed && !r.marked)
      && (r'.launched == r.launched + 1 ==> r'.registered && !r'.ctxCancelled)
      && (r'.launched == r.launched ==> r'.registered == r.registered && (s.closed || !r'.marked))
      && r'.status == r.status && r'.executing == r.executing
  {
  }

  /** A launched execution can run, undisturbed, to its end; its run is then over and gone from the maps. */
  lemma {:induction false} ExecutionRunsToItsEnd(digest: string -> string, s: State, a: RunId)
    requires Valid(digest, s) && a in s.runs && s.runs[a].launched > 0
    ensures Possible(digest, s, [Execute(a), ExecutionEnds(a)])
    ensures var s' := After(digest, s, [Execute(a), ExecutionEnds(a)]);
      && a in s'.runs && s'.runs == s.runs[a := s'.runs[a]]
      && s'.runs[a].ended == 1 && s'.runs[a].launched == 0 && s'.runs[a].executing == 0
      && !s'.runs[a].registered && !s'.runs[a].marked && s'.runs[a].status == Approved
  {
    assert RunOk(digest, s.runs[a]);
    hide Valid;
    TwoSteps(digest, s, Execute(a), ExecutionEnds(a));
  }

  /** The fields of a task that its readers see change at these steps, in these ways, and at no other. */
  lemma TaskStepExactly(digest: string -> string, s: State, e: Event, t: TaskId)
    requires Enabled(s, e) && t in s.jobs
    ensures t in JobsAfter(s, e)
    ensures var j, j' := s.jobs[t], JobsAfter(s, e)[t];
      && (!j.inMap ==> !j'.inMap && j'.status == j.status && j'.output == j.output && j'.approval == j.approval)
      && (j.inMap ==>
            && j'.output == (if e.Stream? && e.task == t then j.output + e.chunk else j.output)
            && j'.approval == (if e == RecordApproval(t) then Some(j.worker.run) else j.approval)
            && (!j'.inMap <==>
                  || (e == CancelTask(t) && MayBeCancelled(j)) || (e.SubmitEnds? && e.task == t)
                  || (e.Track? && e.task == t && e.terminal) || e == Interrupt(t))
            && j'.status == (if e == CancelTask(t) && MayBeCancelled(j) then "cancelled"
                             else if e == Interrupt(t) then "interrupted"
                             else if e == RecordApproval(t) then "approval_required"
                             else if (e.SubmitEnds? || e.Track?) && e.task == t then e.status
                             else j.status))
      && (e.SubmitEnds? && e.task == t ==> j'.worker.Past?)
  {
  }

  /** What is streamed to a task while it is in the map. */
  ghost function Streamed(digest: string -> string, s: State, events: seq<Event>, t: TaskId): string
    requires Possible(digest, s, events) && t in s.jobs
    decreases |events|
  {
    if events == [] || !s.jobs[t].inMap then ""
    else
      TaskStepExactly(digest, s, events[0], t);
      (if events[0].Stream? && events[0].task == t then events[0].chunk else "")
      + Streamed(digest, Apply(digest, s, events[0]), events[1..], t)
  }

  /** A task's output is all that was streamed to it until it left the map, in order. */
  lemma {:induction false} OutputIsStreamed(digest: string -> string, s: State, events: seq<Event>, t: TaskId)
    requires Possible(digest, s, events) && t in s.jobs
    ensures t in After(digest, s, events).jobs
    ensures After(digest, s, events).jobs[t].output == s.jobs[t].output + Streamed(digest, s, events, t)
    decreases |events|
  {
    if events == [] || !s.jobs[t].inMap {
      assert s.jobs[t].output + "" == s.jobs[t].output;
      if events != [] { GoneTaskIsFrozen(digest, s, events, t); }
    } else {
      hide Enabled, RunsAfter, JobsAfter, StoppingAfter;
      TaskStepExactly(digest, s, events[0], t);
      var s1 := Apply(digest, s, events[0]);
      OutputIsStreamed(digest, s1, events[1..], t);
      var chunk := if events[0].Stream? && events[0].task == t then events[0].chunk else "";
      var rest := Streamed(digest, s1, events[1..], t);
      assert s.jobs[t].output + chunk + rest == s.jobs[t].output + (chunk + rest);
      assert s.jobs[t].output + "" == s.jobs[t].output;
    }
  }

  // ---------- a run cancelled before it registers ----------

  /** Cancelled, refused or rejected before registering. */
  predicate Refused(digest: string -> string, closed: bool, r: Run) {
    && r.launched + r.executing + r.ended == 0
    && (if r.status == Pending then closed || digest(r.request) != r.recorded
        else r.starting > 0 ==> r.marked || closed)
  }

  lemma RefusedStays(digest: string -> string, closed: bool, closed': bool, r: Run, r': Run)
    requires RunOk(digest, r) && RunStep(digest, closed, r, r') && Refused(digest, closed, r) && (closed ==> closed')
    ensures Refused(digest, closed', r')
  {
  }

  lemma {:induction false} RefusedForEver(digest: string -> string, s: State, events: seq<Event>, a: RunId)
    requires Valid(digest, s) && Possible(digest, s, events) && a in s.runs && Refused(digest, s.closed, s.runs[a])
    ensures a in After(digest, s, events).runs
    ensures After(digest, s, events).runs[a].executing + After(digest, s, events).runs[a].ended == 0
    decreases |events|
  {
    hide Valid, RunsAfter, JobsAfter, RunOk, RunStep, Enabled;
    if events != [] {
      hide Refused;
      var s' := Apply(digest, s, events[0]);
      StepKeepsValid(digest, s, events[0]);
      StepGrowsRun(digest, s, events[0], a);
      RefusedStays(digest, s.closed, s'.closed, s.runs[a], s'.runs[a]);
      RefusedForEver(digest, s', events[1..], a);
    }
  }

  lemma {:induction false} ExecutesWithin(digest: string -> string, s: State, a: RunId) returns (events: seq<Event>)
    requires Valid(digest, s) && a in s.runs && !Refused(digest, s.closed, s.runs[a])
    ensures Possible(digest, s, events) && a in After(digest, s, events).runs
    ensures After(digest, s, events).runs[a].executing + After(digest, s, events).runs[a].ended > 0
  {
    assert RunOk(digest, s.runs[a]);
    hide Valid, JobsAfter, StoppingAfter;
    var r := s.runs[a];
    if r.status == Pending {
      var s' := Apply(digest, s, Approve(a));
      events := [Approve(a), Start(a), Execute(a)];
      assert events[1..] == [Start(a), Execute(a)];
      TwoSteps(digest, s', Start(a), Execute(a));
    } else if r.starting > 0 {
      events := [Start(a), Execute(a)];
      TwoSteps(digest, s, Start(a), Execute(a));
    } else if r.launched > 0 {
      events := [Execute(a)];
      OneStep(digest, s, Execute(a));
    } else {
      events := [];
    }
  }

  lemma {:induction false} RefusedExactly(digest: string -> string, s: State, a: RunId)
    requires Valid(digest, s) && a in s.runs
    ensures Refused(digest, s.closed, s.runs[a]) <==>
      (forall events :: Possible(digest, s, events) ==>
        && a in After(digest, s, events).runs
        && After(digest, s, events).runs[a].executing + After(digest, s, events).runs[a].ended == 0)
  {
    hide *;
    if Refused(digest, s.closed, s.runs[a]) {
      forall events | Possible(digest, s, events)
        ensures a in After(digest, s, events).runs &&
          After(digest, s, events).runs[a].executing + After(digest, s, events).runs[a].ended == 0
      {
        RefusedForEver(digest, s, events, a);
      }
    } else {
      var events := ExecutesWithin(digest, s, a);
    }
  }

  // ---------- shutdown ----------

  lemma ClosedStep(digest: string -> string, r: Run, r': Run)
    requires RunStep(digest, true, r, r')
    ensures r'.launched + r'.executing + r'.ended == r.launched + r.executing + r.ended
  {
  }

  /** How often an execution of this approval was launched. */
  function Launches(s: State, a: RunId): nat {
    if a in s.runs then s.runs[a].launched + s.runs[a].executing + s.runs[a].ended else 0
  }

  lemma {:induction false} ClosedStepLaunchesNothing(digest: string -> string, s: State, e: Event, a: RunId)
    requires Valid(digest, s) && Enabled(s, e) && s.closed
    ensures Launches(Apply(digest, s, e), a) == Launches(s, a)
    ensures a in s.runs ==> a in Apply(digest, s, e).runs
  {
    if a in s.runs {
      hide Valid, RunsAfter, JobsAfter, RunStep, Enabled;
      StepGrowsRun(digest, s, e, a);
      ClosedStep(digest, s.runs[a], Apply(digest, s, e).runs[a]);
    } else {
      hide Valid, JobsAfter, RunAfter, StoppingAfter;
      if a in RunsAfter(digest, s, e) { NewRunIsIdle(digest, s, e, a); }
    }
  }

  lemma {:induction false} NewRunIsIdle(digest: string -> string, s: State, e: Event, a: RunId)
    requires Valid(digest, s) && Enabled(s, e) && a !in s.runs && a in RunsAfter(digest, s, e)
    ensures var r := RunsAfter(digest, s, e)[a]; r.launched + r.executing + r.ended == 0
  {
    hide Valid, RunAfter, Target, Enabled;
    if Target(s, e).Some? { TargetIsThere(s, e); }
  }

  lemma TargetIsThere(s: State, e: Event)
    requires Enabled(s, e) && Target(s, e).Some?
    ensures Target(s, e).value in s.runs
  {
  }

  /** After Shutdown no execution is launched, for no approval that was there and for none
      that comes later: those launched before are all there will be. */
  lemma {:induction false} NothingStartsAfterShutdown(digest: string -> string, s: State, events: seq<Event>, a: RunId)
    requires Valid(digest, s) && Possible(digest, s, events) && s.closed
    ensures Launches(After(digest, s, events), a) == Launches(s, a)
    ensures a in s.runs ==> a in After(digest, s, events).runs
    decreases |events|
  {
    if events != [] {
      hide Valid, RunsAfter, JobsAfter, StoppingAfter, Enabled, Launches;
      StepKeepsValid(digest, s, events[0]);
      ClosedStepLaunchesNothing(digest, s, events[0], a);
      NothingStartsAfterShutdown(digest, Apply(digest, s, events[0]), events[1..], a);
    }
  }

  // ---------- the task map ----------

  /** A task is deleted from the map exactly once, by whichever path gets there first. */
  lemma {:induction false} EveryTaskLeavesOnce(digest: string -> string, events: seq<Event>, t: TaskId)
    requires Possible(digest, INITIAL, events) && t in After(digest, INITIAL, events).jobs
    ensures var j := After(digest, INITIAL, events).jobs[t]; j.left == if j.inMap then 0 else 1
  {
    hide Possible, After, Enabled;
    ReachableStates(digest, events);
    assert JobOk(After(digest, INITIAL, events), After(digest, INITIAL, events).jobs[t]);
  }

  lemma GoneStep(s: State, e: Event, t: TaskId)
    requires Enabled(s, e) && t in s.jobs && !s.jobs[t].inMap
    ensures t in JobsAfter(s, e)
    ensures var j := s.jobs[t]; var j' := JobsAfter(s, e)[t];
      && !j'.inMap && j'.left == j.left
      && j'.status == j.status && j'.approval == j.approval && j'.output == j.output
  {
  }

  /** After it left, no stream callback, poll or late answer changes it. */
  lemma {:induction false} GoneTaskIsFrozen(digest: string -> string, s: State, events: seq<Event>, t: TaskId)
    requires Possible(digest, s, events) && t in s.jobs && !s.jobs[t].inMap
    ensures t in After(digest, s, events).jobs
    ensures var j := s.jobs[t]; var j' := After(digest, s, events).jobs[t];
      && !j'.inMap && j'.left == j.left
      && j'.status == j.status && j'.approval == j.approval && j'.output == j.output
    decreases |events|
  {
    hide RunsAfter, JobsAfter, Enabled;
    if events != [] {
      GoneStep(s, events[0], t);
      GoneTaskIsFrozen(digest, Apply(digest, s, events[0]), events[1..], t);
    }
  }

  // ---------- an approval that arrives after its task was cancelled ----------

  /** StartTask's goroutine ignores the error of this Reject: it helps only a pending approval. */
  lemma {:induction false} LateRejectHelpsOnlyPending(digest: string -> string, s: State, t: TaskId)
    requires Valid(digest, s) && Enabled(s, LateReject(t))
    ensures var a := s.jobs[t].worker.run; var s' := Apply(digest, s, LateReject(t));
      && a in s'.runs
      && (Dead(digest, s'.closed, s'.runs[a]) <==>
          s.runs[a].status == Pending || Dead(digest, s.closed, s.runs[a]))
  {
    assert RunOk(digest, s.runs[s.jobs[t].worker.run]);
    hide Valid, JobsAfter, StoppingAfter;
  }

  function LateApproval(digest: string -> string): seq<Event> {
    [StartTask(0), SubmitForTask(0, 7, "uptime", digest("uptime")), CancelTask(0), Approve(7),
     RecordApproval(0), LateReject(0), Start(7), Execute(7)]
  }

  lemma {:induction false} RunsCompose(digest: string -> string, s: State, xs: seq<Event>, ys: seq<Event>)
    requires Possible(digest, s, xs) && Possible(digest, After(digest, s, xs), ys)
    ensures Possible(digest, s, xs + ys)
    ensures After(digest, s, xs + ys) == After(digest, After(digest, s, xs), ys)
    decreases |xs|
  {
    hide Enabled, Apply;
    if xs == [] {
      assert xs + ys == ys;
    } else {
      assert (xs + ys)[0] == xs[0] && (xs + ys)[1..] == xs[1..] + ys;
      RunsCompose(digest, Apply(digest, s, xs[0]), xs[1..], ys);
    }
  }

  const CANCELLED_BARE: Job := Job(false, 1, "cancelled", None, "", Got(7), NothingRecorded)

  lemma {:induction false} CancelledBeforeRecorded(digest: string -> string)
    ensures var events := [StartTask(0), SubmitForTask(0, 7, "uptime", digest("uptime")), CancelTask(0)];
      && Possible(digest, INITIAL, events)
      && After(digest, INITIAL, events).runs == map[7 := NewRun("uptime", digest("uptime"))]
      && After(digest, INITIAL, events).jobs == map[0 := CANCELLED_BARE]
      && !After(digest, INITIAL, events).closed
  {
    var submit := SubmitForTask(0, 7, "uptime", digest("uptime"));
    var s1 := Apply(digest, INITIAL, StartTask(0));
    assert s1.jobs == map[0 := NEW_JOB];
    TwoSteps(digest, s1, submit, CancelTask(0));
    assert [StartTask(0), submit, CancelTask(0)][1..] == [submit, CancelTask(0)];
  }

  lemma {:induction false} ApprovedThenRecorded(digest: string -> string, s: State)
    requires s.runs == map[7 := NewRun("uptime", digest("uptime"))] && s.jobs == map[0 := CANCELLED_BARE]
    ensures var events := [Approve(7), RecordApproval(0), LateReject(0)];
      && Possible(digest, s, events)
      && After(digest, s, events).runs == map[7 := Grant(digest, s.runs[7])]
      && After(digest, s, events).jobs == map[0 := CANCELLED_BARE.(worker := Past)]
      && After(digest, s, events).closed == s.closed
  {
    var s1 := Apply(digest, s, Approve(7));
    assert s1.jobs == s.jobs && s1.runs == map[7 := Grant(digest, s.runs[7])];
    var s2 := Apply(digest, s1, RecordApproval(0));
    assert s2.jobs == map[0 := CANCELLED_BARE.(worker := Late(7))] && s2.runs == s1.runs;
    TwoSteps(digest, s1, RecordApproval(0), LateReject(0));
    assert [Approve(7), RecordApproval(0), LateReject(0)][1..] == [RecordApproval(0), LateReject(0)];
  }

  /** A task cancelled before its approval is recorded can still see its command executed:
      the operator approves before the late rejection. */
  lemma {:induction false} CancelledTaskMayStillExecute(digest: string -> string)
    ensures Possible(digest, INITIAL, LateApproval(digest))
    ensures var s := After(digest, INITIAL, LateApproval(digest));
      && 0 in s.jobs && s.jobs[0].status == "cancelled" && s.jobs[0].cancellation == NothingRecorded
      && Live(s, 7) && s.runs[7].executing == 1
  {
    hide Possible, After;
    var first := [StartTask(0), SubmitForTask(0, 7, "uptime", digest("uptime")), CancelTask(0)];
    var second := [Approve(7), RecordApproval(0), LateReject(0)];
    CancelledBeforeRecorded(digest);
    var s := After(digest, INITIAL, first);
    ApprovedThenRecorded(digest, s);
    RunsCompose(digest, INITIAL, first, second);
    var s' := After(digest, INITIAL, first + second);
    TwoSteps(digest, s', Start(7), Execute(7));
    RunsCompose(digest, INITIAL, first + second, [Start(7), Execute(7)]);
    assert LateApproval(digest) == (first + second) + [Start(7), Execute(7)];
  }

  // ---------- the maps behind executionMu ----------

  datatype StartAnswer = Launched | ShuttingDown | CancelledBefore

  /** executionCancels and cancelledExecutions; each method is one lock section. */
  class ExecutionRegistry {
    var closed: bool
    var cancels: set<RunId>
    var cancelled: set<RunId>

    /** The registry as far as run a goes. */
    predicate Shows(a: RunId, r: Run)
      reads this
    {
      (r.registered <==> a in cancels) && (r.marked <==> a in cancelled)
    }

    constructor ()
      ensures !closed && cancels == {} && cancelled == {}
    {
      closed, cancels, cancelled := false, {}, {};
    }

    method StartApprovedExecution(a: RunId) returns (answer: StartAnswer)
      modifies `cancels, `cancelled
      ensures answer == if closed then ShuttingDown else if a in old(cancelled) then CancelledBefore else Launched
      ensures cancels == if answer == Launched then old(cancels) + {a} else old(cancels)
      ensures cancelled == if answer == CancelledBefore then old(cancelled) - {a} else old(cancelled)
      ensures forall r: Run :: old(Shows(a, r)) && r.starting > 0 ==>
        Shows(a, Register(closed, r)) && (answer == Launched <==> Register(closed, r).launched == r.launched + 1)
      ensures forall b: RunId, r: Run :: b != a && old(Shows(b, r)) ==> Shows(b, r)
    {
      if closed { return ShuttingDown; }
      if a in cancelled {
        cancelled := cancelled - {a};
        return CancelledBefore;
      }
      cancels := cancels + {a};
      answer := Launched;
    }

    method ExecutionEnded(a: RunId)
      modifies `cancels, `cancelled
      ensures cancels == old(cancels) - {a} && cancelled == old(cancelled) - {a}
      ensures forall r: Run :: old(Shows(a, r)) && r.executing > 0 ==> Shows(a, EndRun(r))
      ensures forall b: RunId, r: Run :: b != a && old(Shows(b, r)) ==> Shows(b, r)
    {
      cancels := cancels - {a};
      cancelled := cancelled - {a};
    }

    /** The caller calls the cancel function it found. */
    method CancelApprovedExecution(a: RunId) returns (found: bool)
      modifies `cancelled
      ensures found == (a in cancels) && cancelled == if found then old(cancelled) else old(cancelled) + {a}
      ensures forall r: Run :: old(Shows(a, r)) ==> Shows(a, Mark(r)) && (found <==> r.registered)
      ensures forall b: RunId, r: Run :: b != a && old(Shows(b, r)) ==> Shows(b, r)
    {
      found := a in cancels;
      if !found { cancelled := cancelled + {a}; }
    }

    method Shutdown()
      modifies `closed
      ensures closed
    {
      closed := true;
    }
  }
}
