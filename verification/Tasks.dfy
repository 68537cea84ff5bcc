/**
 The durable build tasks of all sessions, as a state and one function for each store transaction.

 Row ids are positions: no session, task or run is ever deleted. A transaction commits a new state or
 is refused and rolled back. Within a session, tasks are listed in the order of their insertion.
*/
module Tasks {
  import opened Basics
  import opened Text
  import E = Evidence

  datatype SessionStatus = Active | Paused | Cancelling | Cancelled | Quarantined | Complete {
    /** The statuses in which a session can still run or be made to run. */
    predicate Open() {
      Active? || Paused?
    }
  }

  datatype Session = Session(status: SessionStatus, phase: E.Phase)

  /** `Dropped` is the status "cancelled" of a task or run. */
  datatype TaskStatus = Pending | Running | Succeeded | Failed | Blocked | Dropped | Interrupted {
    predicate Terminal() {
      Succeeded? || Failed? || Dropped? || Interrupted?
    }
  }

  datatype Backend = Local | Cloud

  /** How a task asks to be routed. */
  datatype Requested = ToLocal | ToCloud | Adaptive(localFirst: bool) | Unknown

  /** A task as its creator describes it. */
  datatype Form = Form(
    phase: E.Phase, kind: E.Kind, title: string, route: Requested, contract: Option<E.Contract>,
    key: string, maxAttempts: int)

  datatype Task = Task(
    session: nat, form: Form, deps: seq<nat>,
    status: TaskStatus, max: nat, attempts: nat, active: Option<nat>)

  /** `files` is history for the proofs: the workspace as it was when the run's result was judged. */
  datatype Run = Run(
    task: nat, session: nat, attempt: nat, worker: string, backend: Backend,
    status: TaskStatus, result: Option<E.Result>, files: set<string>)

  datatype State = State(sessions: seq<Session>, tasks: seq<Task>, runs: seq<Run>)

  function Empty(): State {
    State([], [], [])
  }

  datatype Refusal =
    | SessionMissing | TaskMissing | RunMissing
    | TitleBlank | AttemptsInvalid | DependencyForeign | WorkerBlank | ReasonBlank
    | NotClaimable | AttemptsExhausted | StatusNotTerminal | RunTerminal
    | NotRetryable | SessionClosed | NoRun | CloudRetry | BadTransition
    | IndexViolated

  type Attempt<T> = Basics.Attempt<State, T, Refusal>

  // ---- lookups ---------------------------------------------------------------------------------

  /** Without repetitions, in order of first occurrence. */
  function Distinct(ids: seq<nat>): (r: seq<nat>)
    ensures forall d :: d in r <==> d in ids
  {
    if |ids| == 0 then []
    else
      var r := Distinct(ids[..|ids| - 1]);
      var last := ids[|ids| - 1];
      assert forall d :: d in ids <==> d in ids[..|ids| - 1] || d == last;
      if last in r then r else r + [last]
  }

  /** Among the first `n` tasks, the one of this session with this idempotency key. */
  function FindKeyUpTo(tasks: seq<Task>, session: nat, key: string, n: nat): (r: Option<nat>)
    requires n <= |tasks|
    ensures r.Some? ==> r.value < n && tasks[r.value].session == session && tasks[r.value].form.key == key
    ensures r.None? ==> forall t | 0 <= t < n && tasks[t].session == session :: tasks[t].form.key != key
  {
    if n == 0 then None
    else if tasks[n - 1].session == session && tasks[n - 1].form.key == key then Some(n - 1)
    else FindKeyUpTo(tasks, session, key, n - 1)
  }

  function FindKey(tasks: seq<Task>, session: nat, key: string): (r: Option<nat>)
    ensures r.Some? ==> r.value < |tasks| && tasks[r.value].session == session && tasks[r.value].form.key == key
    ensures r.None? ==> forall t | 0 <= t < |tasks| && tasks[t].session == session :: tasks[t].form.key != key
  {
    FindKeyUpTo(tasks, session, key, |tasks|)
  }

  predicate DependenciesFit(tasks: seq<Task>, session: nat, deps: seq<nat>) {
    forall d | d in deps :: d < |tasks| && tasks[d].session == session
  }

  predicate DependenciesSucceeded(tasks: seq<Task>, deps: seq<nat>) {
    forall d | d in deps :: d < |tasks| && tasks[d].status == Succeeded
  }

  predicate AttemptTaken(runs: seq<Run>, task: nat, attempt: nat) {
    exists r :: 0 <= r < |runs| && runs[r].task == task && runs[r].attempt == attempt
  }

  predicate AnyRunning(tasks: seq<Task>, session: nat) {
    exists t :: 0 <= t < |tasks| && tasks[t].session == session && tasks[t].status == Running
  }

  predicate HasRun(runs: seq<Run>, task: nat) {
    exists r :: 0 <= r < |runs| && runs[r].task == task
  }

  /** Among the first `n` runs, the newest one of a task. */
  function LastRunUpTo(runs: seq<Run>, task: nat, n: nat): (r: Option<nat>)
    requires n <= |runs|
    ensures r.Some? ==> r.value < n && runs[r.value].task == task
    ensures r.Some? ==> forall i | r.value < i < n :: runs[i].task != task
    ensures r.None? ==> forall i | 0 <= i < n :: runs[i].task != task
  {
    if n == 0 then None
    else if runs[n - 1].task == task then Some(n - 1)
    else LastRunUpTo(runs, task, n - 1)
  }

  // ---- creation and claiming -------------------------------------------------------------------

  function CreateSession(s: State): Attempt<nat> {
    Done(s.(sessions := s.sessions + [Session(Active, E.Approval)]), |s.sessions|)
  }

  function CreateTask(s: State, session: nat, form: Form, deps: seq<nat>): Attempt<nat> {
    var key := Strip(form.key);
    if Blank(form.title) then Refused(TitleBlank)
    else if form.maxAttempts < 1 then Refused(AttemptsInvalid)
    else if session >= |s.sessions| then Refused(SessionMissing)
    else if key != "" && FindKey(s.tasks, session, key).Some? then
      Done(s, FindKey(s.tasks, session, key).value)
    else if !DependenciesFit(s.tasks, session, deps) then Refused(DependencyForeign)
    else
      var task := Task(session, form.(key := key), Distinct(deps), Pending, form.maxAttempts, 0, None);
      Done(s.(tasks := s.tasks + [task]), |s.tasks|)
  }

  predicate Ready(s: State, t: nat) {
    && t < |s.tasks|
    && s.tasks[t].status == Pending
    && s.tasks[t].session < |s.sessions|
    && s.sessions[s.tasks[t].session].status == Active
    && DependenciesSucceeded(s.tasks, s.tasks[t].deps)
  }

  function ClaimTask(s: State, t: nat, worker: string, backend: Backend): Attempt<nat> {
    if Blank(worker) then Refused(WorkerBlank)
    else if t >= |s.tasks| then Refused(TaskMissing)
    else
      var task := s.tasks[t];
      var attempt := task.attempts + 1;
      if !Ready(s, t) then Refused(NotClaimable)
      else if attempt > task.max then Refused(AttemptsExhausted)
      else if AttemptTaken(s.runs, t, attempt) then Refused(IndexViolated)
      else
        var run := Run(t, task.session, attempt, worker, backend, Running, None, {});
        var claimed := task.(status := Running, attempts := attempt, active := Some(|s.runs|));
        Done(s.(tasks := s.tasks[t := claimed], runs := s.runs + [run]), |s.runs|)
  }

  // ---- ending a run ----------------------------------------------------------------------------

  /** A cancelling session with nothing left running is cancelled. */
  function FinalizeCancellation(s: State, session: nat): State {
    if session < |s.sessions| && s.sessions[session].status == Cancelling && !AnyRunning(s.tasks, session) then
      s.(sessions := s.sessions[session := s.sessions[session].(status := Cancelled)])
    else s
  }

  /** Writes the end of a run to its row, and to its task if that task still names it as active. */
  function EndRun(s: State, r: nat, run: Run, status: TaskStatus): State
    requires r < |s.runs|
  {
    var t := s.runs[r].task;
    var tasks :=
      if t < |s.tasks| && s.tasks[t].active == Some(r) then
        s.tasks[t := s.tasks[t].(status := status, active := None)]
      else s.tasks;
    FinalizeCancellation(s.(tasks := tasks, runs := s.runs[r := run]), s.runs[r].session)
  }

  /** A run that did not succeed may be followed by another one of its task. */
  predicate Repeatable(s: State, run: Run) {
    run.backend != Cloud && run.task < |s.tasks| && run.attempt < s.tasks[run.task].max
  }

  function FinishRun(s: State, r: nat, status: TaskStatus, result: E.Result, files: set<string>): Attempt<()> {
    if !status.Terminal() then Refused(StatusNotTerminal)
    else if r >= |s.runs| then Refused(RunMissing)
    else if s.runs[r].status != Running then Refused(RunTerminal)
    else
      var run := s.runs[r];
      var again := (status == Failed || status == Interrupted) && Repeatable(s, run);
      Done(EndRun(s, r, run.(status := status, result := Some(result), files := files),
                  if again then Pending else status), ())
  }

  /** Recovery of one run after a crash. */
  function RecoverRun(s: State, r: nat): State {
    if r >= |s.runs| || s.runs[r].status != Running || s.runs[r].task >= |s.tasks| then s
    else EndRun(s, r, s.runs[r].(status := Interrupted), if Repeatable(s, s.runs[r]) then Pending else Failed)
  }

  /** Recovery of the first `n` runs, in order. */
  function RecoverUpTo(s: State, n: nat): State {
    Iterate(RecoverRun, s, n)
  }

  function Recover(s: State): State {
    RecoverUpTo(s, |s.runs|)
  }

  function RetryFailedLocal(s: State, session: nat, t: nat, reason: string, actor: string): Attempt<()> {
    if Blank(reason) || Blank(actor) then Refused(ReasonBlank)
    else if t >= |s.tasks| || s.tasks[t].session != session then Refused(TaskMissing)
    else if s.tasks[t].status != Failed && s.tasks[t].status != Interrupted then Refused(NotRetryable)
    else if session >= |s.sessions| || !s.sessions[session].status.Open() then Refused(SessionClosed)
    else
      var task := s.tasks[t];
      match LastRunUpTo(s.runs, t, |s.runs|)
      case None => Refused(NoRun)
      case Some(r) =>
        if s.runs[r].backend == Cloud then Refused(CloudRetry)
        else
          var max := if task.attempts + 1 > task.max then task.attempts + 1 else task.max;
          Done(s.(tasks := s.tasks[t := task.(status := Pending, max := max, active := None)]), ())
  }

  // ---- sessions --------------------------------------------------------------------------------

  function SetSession(s: State, session: nat, status: SessionStatus): State
    requires session < |s.sessions|
  {
    s.(sessions := s.sessions[session := s.sessions[session].(status := status)])
  }

  function MoveSession(s: State, session: nat, from: SessionStatus, to: SessionStatus): Attempt<()> {
    if session >= |s.sessions| then Refused(SessionMissing)
    else if s.sessions[session].status != from then Refused(BadTransition)
    else Done(SetSession(s, session, to), ())
  }

  function QuarantineSession(s: State, session: nat, reason: string, actor: string): Attempt<()> {
    if Blank(reason) || Blank(actor) then Refused(ReasonBlank)
    else if session >= |s.sessions| then Refused(SessionMissing)
    else if s.sessions[session].status == Complete || s.sessions[session].status == Cancelled then
      Refused(BadTransition)
    else Done(SetSession(s, session, Quarantined), ())
  }

  function Drop(task: Task, session: nat): Task {
    if task.session == session && (task.status == Pending || task.status == Blocked) then task.(status := Dropped)
    else task
  }

  /** Cancels from any status: what has not started is dropped, what runs is waited for. */
  function CancelSession(s: State, session: nat): Attempt<()> {
    if session >= |s.sessions| then Refused(SessionMissing)
    else
      var status := if AnyRunning(s.tasks, session) then Cancelling else Cancelled;
      var tasks := seq(|s.tasks|, t requires 0 <= t < |s.tasks| => Drop(s.tasks[t], session));
      Done(SetSession(s.(tasks := tasks), session, status), ())
  }

  function CheckpointSession(s: State, session: nat, phase: E.Phase): Attempt<()> {
    if session >= |s.sessions| then Refused(SessionMissing)
    else
      var status := if phase == E.Complete then Complete else s.sessions[session].status;
      Done(s.(sessions := s.sessions[session := Session(status, phase)]), ())
  }

  // ---- runs of transactions --------------------------------------------------------------------

  datatype Op =
    | OpCreateSession
    | OpCreateTask(session: nat, form: Form, deps: seq<nat>)
    | OpClaim(task: nat, worker: string, backend: Backend)
    | OpFinish(run: nat, status: TaskStatus, result: E.Result, files: set<string>)
    | OpRecover
    | OpRetry(session: nat, task: nat, reason: string, actor: string)
    | OpPause(session: nat)
    | OpResume(session: nat)
    | OpQuarantine(session: nat, reason: string, actor: string)
    | OpCancel(session: nat)
    | OpCheckpoint(session: nat, phase: E.Phase)

  function Step(s: State, op: Op): State {
    match op
    case OpCreateSession => CreateSession(s).After(s)
    case OpCreateTask(session, form, deps) => CreateTask(s, session, form, deps).After(s)
    case OpClaim(t, worker, backend) => ClaimTask(s, t, worker, backend).After(s)
    case OpFinish(r, status, result, files) => FinishRun(s, r, status, result, files).After(s)
    case OpRecover => Recover(s)
    case OpRetry(session, t, reason, actor) => RetryFailedLocal(s, session, t, reason, actor).After(s)
    case OpPause(session) => MoveSession(s, session, Active, Paused).After(s)
    case OpResume(session) => MoveSession(s, session, Paused, Active).After(s)
    case OpQuarantine(session, reason, actor) => QuarantineSession(s, session, reason, actor).After(s)
    case OpCancel(session) => CancelSession(s, session).After(s)
    case OpCheckpoint(session, phase) => CheckpointSession(s, session, phase).After(s)
  }

  /** Any interleaving of transactions, from any workers and operators. */
  function Steps(s: State, ops: seq<Op>): State {
    if |ops| == 0 then s else Step(Steps(s, ops[..|ops| - 1]), ops[|ops| - 1])
  }

  lemma {:induction false} StepsConcat(s: State, a: seq<Op>, b: seq<Op>)
    ensures Steps(s, a + b) == Steps(Steps(s, a), b)
  {
    if |b| == 0 {
      assert a + b == a;
    } else {
      StepsConcat(s, a, b[..|b| - 1]);
      assert (a + b)[..|a + b| - 1] == a + b[..|b| - 1];
    }
  }
}
