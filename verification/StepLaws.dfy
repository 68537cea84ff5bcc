/**
 What a step of the orchestrator does when nobody disturbs it, and what its parts answer.

 The answers are written out case by case, apart from the functions that compute them.
*/
module StepLaws {
  import opened Basics
  import opened Text
  import opened Tasks
  import opened TaskInvariants
  import opened TaskSteps
  import opened Plan
  import opened Orchestrator
  import O = Orchestrator
  import opened OrchestratorLaws
  import opened GateLaws
  import E = Evidence

  // ---- the parts of a step ---------------------------------------------------------------------

  /** The phases in their order. */
  function PhasesInOrder(): seq<E.Phase> {
    [E.Assessment, E.Approval, E.Discovery, E.Requirements, E.Architecture, E.Planning, E.Implementation,
     E.Verifying, E.Reviewing, E.Release, E.Complete]
  }

  lemma PhaseOrderExactly(i: nat)
    requires i < 11
    ensures PhaseOrder(PhasesInOrder()[i]) == i
  {
  }

  lemma ReadyExactly(s: State, t: nat)
    ensures Ready(s, t) <==> Claimable(s, t)
  {
  }

  /** Which tasks run locally, which in the cloud and which need the founder. */
  lemma RouteExactly(form: Form, turn: Turn)
    ensures RouteTask(form, turn) == LocalRoute <==>
            || form.route == ToLocal
            || (form.route.Adaptive? && turn.answer.route == LocalRoute)
            || (form.route == Adaptive(true) && turn.answer.route == FounderRoute && turn.answer.onlyLeaseMissing)
    ensures RouteTask(form, turn) == CloudRoute <==>
            || (form.route == ToCloud && turn.cloudReady)
            || (form.route.Adaptive? && turn.answer.route == CloudRoute)
  {
  }

  /** A checkpoint task succeeds by itself. Any other reports what its executor returned, or an error if that
      threw. */
  lemma DispatchExactly(kind: E.Kind, outcome: O.Outcome)
    ensures var r := Dispatch(kind, outcome);
            && (kind == E.Checkpoint ==>
                  r.ok && r.failure == None && r.changed == [] && r.workspace == None
                  && r.mechanical == E.NotChecked && r.verifier == E.NotReviewed)
            && (kind != E.Checkpoint && outcome.Returned? ==> r == outcome.result)
            && (kind != E.Checkpoint && outcome.Threw? ==> !r.ok && r.failure == Some(E.ExecutorError))
  {
  }

  /** So a success that passes the gate is a checkpoint's, or what an executor returned. */
  lemma SuccessIsExecuted(form: Form, turn: Turn)
    ensures var g := E.ApplyGate(form.kind, form.phase, form.contract, Dispatch(form.kind, turn.outcome), turn.files);
            g.Some? && g.value.ok && form.kind != E.Checkpoint ==>
              turn.outcome.Returned? && turn.outcome.result == g.value
  {
    E.GateRaisesExactly(form.kind, form.phase, form.contract, Dispatch(form.kind, turn.outcome), turn.files);
    var g := E.ApplyGate(form.kind, form.phase, form.contract, Dispatch(form.kind, turn.outcome), turn.files);
    if g.Some? {
      E.GatePassesExactly(form.kind, form.phase, form.contract, Dispatch(form.kind, turn.outcome), turn.files);
    }
  }

  /** The loop goes on after an ordinary run, successful or not, and after finding the session neither active nor
      in a status that it stops for. */
  lemma EndsLoopExactly(report: Report)
    ensures !EndsLoop(report) <==>
            || (report.Ran? && !report.complete && report.end != Dropped)
            || (report.Stopped? && report.status in {SessionStatus.Active, SessionStatus.Cancelling,
                                                     SessionStatus.Quarantined})
  {
  }

  // ---- an undisturbed step ---------------------------------------------------------------------

  lemma NobodyActs(turn: Turn, m: Moment)
    requires Undisturbed(turn)
    ensures Others(turn.meanwhile(m)) == []
  {
  }

  lemma Alone(turned: Turned)
    ensures turned.After([]) == turned
  {
    assert [] + turned.acts == turned.acts;
  }

  /** A step does nothing to a session that is missing or not active, but for reporting that. */
  lemma StoppedStepReports(s: State, session: nat, turn: Turn)
    ensures session >= |s.sessions| ==> RunNext(s, session, turn) == Turned([], Missing)
    ensures session < |s.sessions| && s.sessions[session].status != Active ==>
              RunNext(s, session, turn) == Turned([], Stopped(s.sessions[session].status))
  {
  }

  lemma StepPicks(s: State, session: nat, turn: Turn)
    requires session < |s.sessions| && s.sessions[session].status == Active && Undisturbed(turn)
    requires Ids(s.tasks, session) != []
    ensures RunNext(s, session, turn) ==
            match FirstReady(s, session)
            case None => IdleResult(s, session, ListTasks(s.tasks, session), turn)
            case Some(t) => TakeOn(s, session, Seen(t, s.tasks[t]), turn)
  {
    NobodyActs(turn, BeforePlan);
    NobodyActs(turn, BeforeReady);
    var listed := ListTasks(s.tasks, session);
    Alone(Pick(s, session, listed, turn));
    match FirstReady(s, session)
    case None => Alone(IdleResult(s, session, listed, turn));
    case Some(t) => Alone(TakeOn(s, session, Seen(t, s.tasks[t]), turn));
  }

  ghost predicate HasSome(s: State, session: nat, status: TaskStatus) {
    exists t :: 0 <= t < |s.tasks| && s.tasks[t].session == session && s.tasks[t].status == status
  }

  ghost predicate HasOnly(s: State, session: nat, status: TaskStatus) {
    forall t | 0 <= t < |s.tasks| && s.tasks[t].session == session :: s.tasks[t].status == status
  }

  /** With nothing ready: a failed task blocks the session, tasks that have all succeeded complete it, and otherwise
      the step is idle. */
  lemma IdleStepReports(s: State, session: nat, turn: Turn)
    requires session < |s.sessions| && s.sessions[session].status == Active && Undisturbed(turn)
    requires Ids(s.tasks, session) != []
    requires forall t | 0 <= t < |s.tasks| && s.tasks[t].session == session :: !Claimable(s, t)
    ensures RunNext(s, session, turn) ==
            if HasSome(s, session, Failed) then Turned([], FailedTasks)
            else if HasOnly(s, session, Succeeded) then
              Turned([Act(true, OpCheckpoint(session, E.Complete))], AllDone)
            else Turned([], Idle)
  {
    StepPicks(s, session, turn);
    if FirstReady(s, session).Some? {
      ReadyExactly(s, FirstReady(s, session).value);
    }
    IdleReports(s, session, turn);
  }

  lemma IdleReports(s: State, session: nat, turn: Turn)
    requires session < |s.sessions| && s.sessions[session].status == Active && Undisturbed(turn)
    requires Ids(s.tasks, session) != []
    ensures IdleResult(s, session, ListTasks(s.tasks, session), turn) ==
            if HasSome(s, session, Failed) then Turned([], FailedTasks)
            else if HasOnly(s, session, Succeeded) then
              Turned([Act(true, OpCheckpoint(session, E.Complete))], AllDone)
            else Turned([], Idle)
  {
    NobodyActs(turn, BeforeIdle);
    NobodyActs(turn, BeforeComplete);
    ListedHas(s, session, Failed);
    ListedAre(s, session, Succeeded);
    var complete := [Act(true, OpCheckpoint(session, E.Complete))];
    assert [] + complete == complete;
    Alone(Turned(complete, AllDone));
  }

  lemma ListedAre(s: State, session: nat, status: TaskStatus)
    ensures var listed := ListTasks(s.tasks, session);
            (forall k | 0 <= k < |listed| :: listed[k].task.status == status) <==> HasOnly(s, session, status)
  {
    var listed := ListTasks(s.tasks, session);
    if forall k | 0 <= k < |listed| :: listed[k].task.status == status {
      forall t | 0 <= t < |s.tasks| && s.tasks[t].session == session ensures s.tasks[t].status == status {
        var k := Rank(s.tasks, session, t);
        assert listed[k].task.status == status;
      }
    }
  }

  lemma ListedHas(s: State, session: nat, status: TaskStatus)
    ensures var listed := ListTasks(s.tasks, session);
            (exists k :: 0 <= k < |listed| && listed[k].task.status == status) <==>
            HasSome(s, session, status)
  {
    var listed := ListTasks(s.tasks, session);
    if t :| 0 <= t < |s.tasks| && s.tasks[t].session == session && s.tasks[t].status == status {
      var k := Rank(s.tasks, session, t);
      assert listed[k].task.status == status;
    }
  }

  /** The gate's answer to what the task's executor did. */
  function Answered(form: Form, turn: Turn): Option<E.Result> {
    E.ApplyGate(form.kind, form.phase, form.contract, Dispatch(form.kind, turn.outcome), turn.files)
  }

  /** What the step does with a task that it takes on under a backend. */
  function TakenOn(s: State, session: nat, t: nat, turn: Turn, backend: Backend): Turned
    requires t < |s.tasks|
  {
    var form := s.tasks[t].form;
    var claim := Act(true, OpClaim(t, turn.worker, backend));
    match Answered(form, turn)
    case None => Turned([claim], Raised)
    case Some(g) =>
      var end := if g.ok then Succeeded else Failed;
      var finish := Act(true, OpFinish(|s.runs|, end, g, turn.files));
      var checkpoint := Act(true, OpCheckpoint(session, form.phase));
      Turned([claim, finish] + (if g.ok then [checkpoint] else []),
             Ran(t, |s.runs|, end, g.ok && form.phase == E.Complete))
  }

  /** An undisturbed step takes on its ready task: it claims it under the backend of its route, has it executed,
      gates what that returned, and reports the end of the run; after a success it records the phase. */
  lemma StepRunsTask(s: State, session: nat, turn: Turn, t: nat)
    requires Valid(s) && session < |s.sessions| && s.sessions[session].status == Active && Undisturbed(turn)
    requires FirstReady(s, session) == Some(t) && !Blank(turn.worker)
    ensures RunNext(s, session, turn) ==
            match RouteTask(s.tasks[t].form, turn)
            case FounderRoute => Turned([], FounderNeeded(t))
            case CloudRoute => TakenOn(s, session, t, turn, Cloud)
            case LocalRoute => TakenOn(s, session, t, turn, Local)
  {
    var k := Rank(s.tasks, session, t);
    StepPicks(s, session, turn);
    if RouteTask(s.tasks[t].form, turn) != FounderRoute {
      var backend := if RouteTask(s.tasks[t].form, turn) == CloudRoute then Cloud else Local;
      ReadyExactly(s, t);
      ClaimExactly(s, t, turn.worker, backend);
      TakesOn(s, session, turn, t, backend);
    }
  }

  lemma TakesOn(s: State, session: nat, turn: Turn, t: nat, backend: Backend)
    requires Valid(s) && session < |s.sessions| && s.sessions[session].status == Active && Undisturbed(turn)
    requires t < |s.tasks| && s.tasks[t].session == session && ClaimTask(s, t, turn.worker, backend).Done?
    requires RouteTask(s.tasks[t].form, turn) != FounderRoute
    requires backend == if RouteTask(s.tasks[t].form, turn) == CloudRoute then Cloud else Local
    ensures TakeOn(s, session, Seen(t, s.tasks[t]), turn) == TakenOn(s, session, t, turn, backend)
  {
    var u := ClaimTask(s, t, turn.worker, backend).state;
    var seen := Seen(t, s.tasks[t]);
    NobodyActs(turn, BeforeClaim);
    ClaimExactly(s, t, turn.worker, backend);
    StepKeepsValid(s, OpClaim(t, turn.worker, backend));
    Works(u, session, seen, |s.runs|, turn);
    var worked := Work(u, session, seen, |s.runs|, turn);
    Alone(worked.After([Act(true, OpClaim(t, turn.worker, backend))]));
    assert TakeOn(s, session, seen, turn) == worked.After([Act(true, OpClaim(t, turn.worker, backend))]);
  }

  /** What the step does with the run that it claimed. */
  function Worked(session: nat, seen: Seen, run: nat, turn: Turn): Turned {
    var form := seen.task.form;
    match Answered(form, turn)
    case None => Turned([], Raised)
    case Some(g) =>
      var end := if g.ok then Succeeded else Failed;
      var finish := Act(true, OpFinish(run, end, g, turn.files));
      var checkpoint := Act(true, OpCheckpoint(session, form.phase));
      Turned([finish] + (if g.ok then [checkpoint] else []), Ran(seen.id, run, end, g.ok && form.phase == E.Complete))
  }

  lemma Works(u: State, session: nat, seen: Seen, run: nat, turn: Turn)
    requires Valid(u) && session < |u.sessions| && u.sessions[session].status == Active && Undisturbed(turn)
    requires run < |u.runs| && u.runs[run].status == Running && u.runs[run].session == session
    ensures Work(u, session, seen, run, turn) == Worked(session, seen, run, turn)
  {
    NobodyActs(turn, WhileWorking);
    if Answered(seen.task.form, turn).Some? {
      var g := Answered(seen.task.form, turn).value;
      var end := if g.ok then Succeeded else Failed;
      Concludes(u, session, seen, run, end, g, turn);
      Alone(Conclude(u, session, seen, run, end, g, turn));
    }
  }

  lemma Concludes(u: State, session: nat, seen: Seen, run: nat, end: TaskStatus, g: E.Result, turn: Turn)
    requires Valid(u) && session < |u.sessions| && u.sessions[session].status == Active && Undisturbed(turn)
    requires run < |u.runs| && u.runs[run].status == Running && u.runs[run].session == session
    requires end == Succeeded || end == Failed
    ensures Conclude(u, session, seen, run, end, g, turn) ==
            Turned([Act(true, OpFinish(run, end, g, turn.files))]
                   + (if end == Succeeded then [Act(true, OpCheckpoint(session, seen.task.form.phase))] else []),
                   Ran(seen.id, run, end, end == Succeeded && seen.task.form.phase == E.Complete))
  {
    NobodyActs(turn, BeforeFinish);
    FinishExactly(u, run, end, g, turn.files);
    var v := FinishRun(u, run, end, g, turn.files).state;
    ClosesRun(v, session, seen, run, end, turn);
    var closed := Close(v, session, seen, run, end, turn);
    Alone(closed.After([Act(true, OpFinish(run, end, g, turn.files))]));
  }

  lemma ClosesRun(v: State, session: nat, seen: Seen, run: nat, end: TaskStatus, turn: Turn)
    requires session < |v.sessions| && v.sessions[session].status == Active && Undisturbed(turn)
    ensures Close(v, session, seen, run, end, turn) ==
            Turned(if end == Succeeded then [Act(true, OpCheckpoint(session, seen.task.form.phase))] else [],
                   Ran(seen.id, run, end, end == Succeeded && seen.task.form.phase == E.Complete))
  {
    NobodyActs(turn, BeforeCheckpoint);
    NobodyActs(turn, BeforeReport);
    if end == Succeeded {
      var act := Act(true, OpCheckpoint(session, seen.task.form.phase));
      var told := Tell(CheckpointSession(v, session, seen.task.form.phase).state, session, seen.id, run, end, turn);
      assert [act] + told.acts == [act];
      Alone(told.After([act]));
    }
  }

  /** If the session was stopped while its task was worked on, whatever came of it, the run is ended as cancelled
      and no phase is recorded. */
  lemma StoppedWorkIsDropped(s: State, session: nat, seen: Seen, run: nat, turn: Turn)
    requires var at := Play(s, Others(turn.meanwhile(WhileWorking)));
             session < |at.sessions|
             && at.sessions[session].status in {SessionStatus.Cancelling, SessionStatus.Cancelled, Quarantined}
    ensures var acts := Work(s, session, seen, run, turn).acts;
            forall i | 0 <= i < |acts| && acts[i].mine ::
              acts[i].op.OpFinish? && acts[i].op.run == run && acts[i].op.status == Dropped
  {
    var before := Others(turn.meanwhile(WhileWorking));
    var at := Play(s, before);
    if Answered(seen.task.form, turn).Some? {
      var g := Answered(seen.task.form, turn).value;
      ConcludeTrace(at, session, seen, run, Dropped, g, turn);
    }
  }

  // ---- a round of the loop ---------------------------------------------------------------------

  /** A round does nothing if the manager is stopping or the session is missing or not active, but for reporting
      that; otherwise it is a step, after which the loop goes on or ends with its report. */
  lemma RoundExactly(s: State, session: nat, round: Round)
    ensures round.stopping ==> RunRound(s, session, round) == Looped([], Some(Stopping))
    ensures !round.stopping && round.before == [] && round.between == [] ==>
              RunRound(s, session, round) ==
              if session >= |s.sessions| then Looped([], Some(Ended(Missing)))
              else if s.sessions[session].status != Active then
                Looped([], Some(Ended(Stopped(s.sessions[session].status))))
              else
                var turned := RunNext(s, session, round.turn);
                Looped(turned.acts, if EndsLoop(turned.report) then Some(Ended(turned.report)) else None)
  {
    if !round.stopping && round.before == [] && round.between == [] {
      assert Others([]) == [];
      var acts := RunNext(s, session, round.turn).acts;
      assert [] + ([] + acts) == acts;
    }
  }
}
