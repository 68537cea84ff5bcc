/**
 One step of the orchestrator and the worker loop around it.

 A step reads the session, ensures a plan, picks the first ready task, routes and claims it, has it
 executed, gates the evidence, reports the end of the run and checkpoints the session. These are
 separate transactions, and other callers' transactions come between any two of them: `meanwhile` says
 which. What a step does is the trace of all of them, its own and the others', in order.
*/
module Orchestrator {
  import opened Basics
  import opened Tasks
  import opened Plan
  import E = Evidence

  /** The points of a step at which others may act. */
  datatype Moment =
    | BeforePlan | BeforeTask(j: nat) | BeforeReady | BeforeClaim | WhileWorking
    | BeforeFinish | BeforeCheckpoint | BeforeReport | BeforeIdle | BeforeComplete

  datatype Route = LocalRoute | CloudRoute | FounderRoute

  /** The router's answer about an adaptive task. */
  datatype Answer = Answer(route: Route, onlyLeaseMissing: bool)

  datatype Outcome = Returned(result: E.Result) | Threw

  /** What a step does not decide: who works, what the router and the executor answer, which files the
      gate finds, and what others do meanwhile. `cloudReady` holds if the session has a usable lease of
      the task's provider and a cloud executor is configured. */
  datatype Turn = Turn(
    worker: string, mobile: bool, answer: Answer, cloudReady: bool,
    outcome: Outcome, files: set<string>, meanwhile: Moment -> seq<Op>)
  {
    function WhilePlanning(): nat -> seq<Op> {
      (j: nat) => meanwhile(BeforeTask(j))
    }
  }

  /** `Stopped` stands for the session's own status, `Ran` for the end of a run. */
  datatype Report =
    | Missing | Raised
    | Stopped(status: SessionStatus)
    | FounderNeeded(task: nat) | FailedTasks | Idle | AllDone
    | Ran(task: nat, run: nat, end: TaskStatus, complete: bool)

  datatype Turned = Turned(acts: seq<Act>, report: Report) {
    function After(before: seq<Act>): Turned {
      Turned(before + acts, report)
    }
  }

  // ---- choosing a task -------------------------------------------------------------------------

  function PhaseOrder(phase: E.Phase): nat {
    match phase
    case Assessment => 0
    case Approval => 1
    case Discovery => 2
    case Requirements => 3
    case Architecture => 4
    case Planning => 5
    case Implementation => 6
    case Verifying => 7
    case Reviewing => 8
    case Release => 9
    case Complete => 10
  }

  function FirstReadyUpTo(s: State, session: nat, n: nat): (r: Option<nat>)
    requires n <= |s.tasks|
    ensures r.Some? ==> r.value < n && s.tasks[r.value].session == session && Ready(s, r.value)
    ensures r.None? ==> forall t | 0 <= t < n && s.tasks[t].session == session :: !Ready(s, t)
    ensures r.Some? ==> forall t | 0 <= t < n && s.tasks[t].session == session && Ready(s, t) ::
              var a, b := PhaseOrder(s.tasks[r.value].form.phase), PhaseOrder(s.tasks[t].form.phase);
              a < b || (a == b && r.value <= t)
  {
    if n == 0 then None
    else
      var r := FirstReadyUpTo(s, session, n - 1);
      if s.tasks[n - 1].session != session || !Ready(s, n - 1) then r
      else if r.None? || PhaseOrder(s.tasks[n - 1].form.phase) < PhaseOrder(s.tasks[r.value].form.phase) then
        Some(n - 1)
      else r
  }

  /** The ready task of the earliest phase, and of those the oldest. */
  function FirstReady(s: State, session: nat): (r: Option<nat>)
    ensures r.Some? ==> r.value < |s.tasks| && s.tasks[r.value].session == session && Ready(s, r.value)
    ensures r.None? ==> forall t | 0 <= t < |s.tasks| && s.tasks[t].session == session :: !Ready(s, t)
    ensures r.Some? ==> forall t | 0 <= t < |s.tasks| && s.tasks[t].session == session && Ready(s, t) ::
              var a, b := PhaseOrder(s.tasks[r.value].form.phase), PhaseOrder(s.tasks[t].form.phase);
              a < b || (a == b && r.value <= t)
  {
    FirstReadyUpTo(s, session, |s.tasks|)
  }

  function ListTasks(tasks: seq<Task>, session: nat): (listed: seq<Seen>)
    ensures |listed| == |Ids(tasks, session)|
    ensures forall k | 0 <= k < |listed| :: var id := Ids(tasks, session)[k]; listed[k] == Seen(id, tasks[id])
  {
    var ids := Ids(tasks, session);
    seq(|ids|, k requires 0 <= k < |ids| => Seen(ids[k], tasks[ids[k]]))
  }

  function RouteTask(form: Form, turn: Turn): Route {
    match form.route
    case ToLocal => LocalRoute
    case ToCloud => if turn.cloudReady then CloudRoute else FounderRoute
    case Unknown => FounderRoute
    case Adaptive(localFirst) =>
      if turn.answer.route == FounderRoute && localFirst && turn.answer.onlyLeaseMissing then LocalRoute
      else turn.answer.route
  }

  /** A checkpoint task always succeeds, and an executor that throws fails its task. */
  function Dispatch(kind: E.Kind, outcome: Outcome): E.Result {
    if kind == E.Checkpoint then E.Result(true, None, [], None, E.NotChecked, E.NotReviewed)
    else
      match outcome
      case Returned(result) => result
      case Threw => E.Result(false, Some(E.ExecutorError), [], None, E.NotChecked, E.NotReviewed)
  }

  // ---- one step --------------------------------------------------------------------------------

  function Tell(s: State, session: nat, task: nat, run: nat, end: TaskStatus, turn: Turn): Turned {
    var before := Others(turn.meanwhile(BeforeReport));
    var at := Play(s, before);
    var complete := session < |at.sessions| && at.sessions[session].status == SessionStatus.Complete;
    Turned(before, Ran(task, run, end, complete))
  }

  function Close(s: State, session: nat, seen: Seen, run: nat, end: TaskStatus, turn: Turn): Turned {
    if end != Succeeded then Tell(s, session, seen.id, run, end, turn)
    else
      var before := Others(turn.meanwhile(BeforeCheckpoint));
      match CheckpointSession(Play(s, before), session, seen.task.form.phase)
      case Refused(_) => Turned(before, Raised)
      case Done(u, _) =>
        Tell(u, session, seen.id, run, end, turn).After([Act(true, OpCheckpoint(session, seen.task.form.phase))])
        .After(before)
  }

  function Conclude(
      s: State, session: nat, seen: Seen, run: nat, end: TaskStatus, result: E.Result, turn: Turn): Turned
  {
    var before := Others(turn.meanwhile(BeforeFinish));
    match FinishRun(Play(s, before), run, end, result, turn.files)
    case Refused(_) => Turned(before, Raised)
    case Done(u, _) =>
      Close(u, session, seen, run, end, turn).After([Act(true, OpFinish(run, end, result, turn.files))]).After(before)
  }

  /** The session was stopped while its task was worked on. */
  predicate Halted(s: State, session: nat) {
    session < |s.sessions| && s.sessions[session].status in {Cancelling, Cancelled, Quarantined}
  }

  function Work(s: State, session: nat, seen: Seen, run: nat, turn: Turn): Turned {
    var before := Others(turn.meanwhile(WhileWorking));
    var at := Play(s, before);
    var form := seen.task.form;
    match E.ApplyGate(form.kind, form.phase, form.contract, Dispatch(form.kind, turn.outcome), turn.files)
    case None => Turned(before, Raised)
    case Some(result) =>
      var end := if Halted(at, session) then Dropped else if result.ok then Succeeded else Failed;
      Conclude(at, session, seen, run, end, result, turn).After(before)
  }

  function TakeOn(s: State, session: nat, seen: Seen, turn: Turn): Turned {
    var route := RouteTask(seen.task.form, turn);
    if route == FounderRoute then Turned([], FounderNeeded(seen.id))
    else
      var before := Others(turn.meanwhile(BeforeClaim));
      var backend := if route == CloudRoute then Cloud else Local;
      match ClaimTask(Play(s, before), seen.id, turn.worker, backend)
      case Refused(_) => Turned(before, Raised)
      case Done(u, run) =>
        Work(u, session, seen, run, turn).After([Act(true, OpClaim(seen.id, turn.worker, backend))]).After(before)
  }

  predicate AllSeenSucceeded(tasks: seq<Seen>) {
    |tasks| > 0 && forall k | 0 <= k < |tasks| :: tasks[k].task.status == Succeeded
  }

  /** Nothing is ready: the tasks as they were listed when the step began decide what is reported. */
  function IdleResult(s: State, session: nat, tasks: seq<Seen>, turn: Turn): Turned {
    var before := Others(turn.meanwhile(BeforeIdle));
    var at := Play(s, before);
    if session >= |at.sessions| then Turned(before, Raised)
    else if at.sessions[session].status != Active then Turned(before, Stopped(at.sessions[session].status))
    else if exists k :: 0 <= k < |tasks| && tasks[k].task.status == Failed then Turned(before, FailedTasks)
    else if AllSeenSucceeded(tasks) then
      Turned(Others(turn.meanwhile(BeforeComplete)) + [Act(true, OpCheckpoint(session, E.Complete))], AllDone)
      .After(before)
    else Turned(before, Idle)
  }

  function Pick(s: State, session: nat, tasks: seq<Seen>, turn: Turn): Turned {
    var before := Others(turn.meanwhile(BeforeReady));
    var at := Play(s, before);
    match FirstReady(at, session)
    case None => IdleResult(at, session, tasks, turn).After(before)
    case Some(t) => TakeOn(at, session, Seen(t, at.tasks[t]), turn).After(before)
  }

  function EnsurePlan(s: State, session: nat, turn: Turn): Turned {
    var listed := ListTasks(s.tasks, session);
    if |listed| > 0 then Pick(s, session, listed, turn)
    else
      var p := MakePlan(s, session, turn.mobile, turn.WhilePlanning());
      if p.refused then Turned(p.acts, Raised)
      else Pick(Play(s, p.acts), session, p.tasks, turn).After(p.acts)
  }

  function RunNext(s: State, session: nat, turn: Turn): Turned {
    if session >= |s.sessions| then Turned([], Missing)
    else if s.sessions[session].status != Active then Turned([], Stopped(s.sessions[session].status))
    else
      var before := Others(turn.meanwhile(BeforePlan));
      EnsurePlan(Play(s, before), session, turn).After(before)
  }

  // ---- the worker loop -------------------------------------------------------------------------

  /** One round of the loop: whether it finds the manager stopping, what others do before it reads the
      session and before the step, and the step's turn. */
  datatype Round = Round(stopping: bool, before: seq<Op>, between: seq<Op>, turn: Turn)

  /** `Ended` carries the report on which the loop, or an exception, ended the work. */
  datatype LoopReport = Stopping | Ended(report: Report) | Bounded

  /** What the loop has done so far. No report means that it goes round again. */
  datatype Looped = Looped(acts: seq<Act>, report: Option<LoopReport>)

  /** The reports after which the loop does not go round again. */
  predicate EndsLoop(report: Report) {
    match report
    case Missing | Raised => true
    case FounderNeeded(_) | FailedTasks | Idle | AllDone => true
    case Stopped(status) =>
      status == SessionStatus.Complete || status == SessionStatus.Paused || status == SessionStatus.Cancelled
    case Ran(_, _, end, complete) => complete || end == Dropped
  }

  function RunRound(s: State, session: nat, round: Round): Looped {
    if round.stopping then Looped([], Some(Stopping))
    else
      var before := Others(round.before);
      var at := Play(s, before);
      if session >= |at.sessions| then Looped(before, Some(Ended(Missing)))
      else if at.sessions[session].status != Active then
        Looped(before, Some(Ended(Stopped(at.sessions[session].status))))
      else
        var between := Others(round.between);
        var turned := RunNext(Play(at, between), session, round.turn);
        Looped(before + (between + turned.acts), if EndsLoop(turned.report) then Some(Ended(turned.report)) else None)
  }

  function NextRound(s: State, session: nat, rounds: nat -> Round, l: Looped, i: nat): Looped {
    if l.report.Some? then l
    else
      var r := RunRound(Play(s, l.acts), session, rounds(i));
      Looped(l.acts + r.acts, r.report)
  }

  function Rounds(s: State, session: nat, rounds: nat -> Round): (Looped, nat) -> Looped {
    (l: Looped, i: nat) => NextRound(s, session, rounds, l, i)
  }

  /** The first `n` rounds. */
  function RoundsUpTo(s: State, session: nat, rounds: nat -> Round, n: nat): Looped {
    Iterate(Rounds(s, session, rounds), Looped([], None), n)
  }

  lemma RoundsUpToNext(s: State, session: nat, rounds: nat -> Round, i: nat)
    ensures RoundsUpTo(s, session, rounds, i + 1) == NextRound(s, session, rounds, RoundsUpTo(s, session, rounds, i), i)
  {
  }

  /** A report ends the loop. */
  lemma {:induction false} EndedForGood(s: State, session: nat, rounds: nat -> Round, l: Looped, i: nat, n: nat)
    requires l == RoundsUpTo(s, session, rounds, i) && l.report.Some? && i <= n
    ensures RoundsUpTo(s, session, rounds, n) == l
  {
    if i < n {
      EndedForGood(s, session, rounds, l, i, n - 1);
    }
  }

  /** What a worker does to its session, and how that ends. */
  function RunSession(s: State, session: nat, limit: nat, rounds: nat -> Round): (seq<Act>, LoopReport) {
    var l := RoundsUpTo(s, session, rounds, limit);
    (l.acts, if l.report.Some? then l.report.value else Bounded)
  }
}
