/**
 The planner, the orchestrator and the execution manager, working on a store that others also change.

 Each method's contract ties the store to the trace of the step's own transactions and of those that
 other callers make meanwhile, about which the laws of the other modules are proved.
*/
module BuildWorkers {
  import opened Basics
  import opened Text
  import T = Tasks
  import opened TaskInvariants
  import P = Plan
  import O = Orchestrator
  import E = Evidence
  import opened TaskStore

  class BuildPlanner {
    const store: BuildStore

    constructor (store: BuildStore)
      ensures this.store == store
    {
      this.store := store;
    }

    /** Creates task number `j`, after what others do before it. In the ghost state `start` the planning
        began, and `p` is what it has come to. */
    method CreateNext(session: nat, mobile: bool, meanwhile: nat -> seq<T.Op>, j: nat, previous: seq<nat>,
                      ghost start: T.State, ghost p: P.Planned)
      returns (created: Option<P.Seen>)
      requires Valid(store.State()) && j < P.LENGTH
      requires store.State() == P.Play(start, p.acts) && !p.refused && p.deps == previous
      modifies store
      ensures Valid(store.State())
      ensures var next := P.PlanNext(start, session, mobile, meanwhile, j, p);
              && store.State() == P.Play(start, next.acts)
              && next.refused == created.None?
              && (created.Some? ==> next.tasks == p.tasks + [created.value] && next.deps == [created.value.id])
    {
      ghost var before := P.Others(meanwhile(j));
      ghost var act := P.Act(true, T.OpCreateTask(session, P.Spec(j, mobile), previous));
      P.PlayConcat(start, p.acts, before);
      P.PlayConcat(start, p.acts, before + [act]);
      P.PlayConcat(store.State(), before, [act]);
      store.Meanwhile(meanwhile(j));
      P.PlayOne(store.State(), act);
      var r := store.CreateTask(session, P.Spec(j, mobile), previous);
      match r
      case Ok(id) => created := Some(P.Seen(id, store.tasks[id]));
      case Err(_) => created := None;
    }

    /** Creates the nine tasks, carrying the id of the previous one. */
    method MakePlan(session: nat, mobile: bool, meanwhile: nat -> seq<T.Op>) returns (planned: Option<seq<P.Seen>>)
      requires Valid(store.State())
      modifies store
      ensures Valid(store.State())
      ensures var p := P.MakePlan(old(store.State()), session, mobile, meanwhile);
              && store.State() == P.Play(old(store.State()), p.acts)
              && planned == if p.refused then None else Some(p.tasks)
    {
      ghost var start := store.State();
      ghost var p := P.PlanUpTo(start, session, mobile, meanwhile, 0);
      var tasks: seq<P.Seen> := [];
      var previous: seq<nat> := [];
      for j := 0 to P.LENGTH
        invariant Valid(store.State()) && store.State() == P.Play(start, p.acts)
        invariant p == P.PlanUpTo(start, session, mobile, meanwhile, j)
        invariant !p.refused && p.tasks == tasks && p.deps == previous
      {
        P.PlanUpToNext(start, session, mobile, meanwhile, j);
        var created := CreateNext(session, mobile, meanwhile, j, previous, start, p);
        p := P.PlanUpTo(start, session, mobile, meanwhile, j + 1);
        if created.None? {
          P.RefusedForGood(start, session, mobile, meanwhile, p, j + 1, P.LENGTH);
          return None;
        }
        tasks, previous := tasks + [created.value], [created.value.id];
      }
      planned := Some(tasks);
    }
  }

  /** A trace of two parts leads where the second leads from where the first leads. */
  lemma ThenPlay(s: T.State, before: seq<P.Act>, turned: O.Turned)
    ensures P.Play(s, turned.After(before).acts) == P.Play(P.Play(s, before), turned.acts)
  {
    P.PlayConcat(s, before, turned.acts);
  }

  lemma ThenStep(s: T.State, act: P.Act, turned: O.Turned)
    ensures P.Play(s, turned.After([act]).acts) == P.Play(T.Step(s, act.op), turned.acts)
  {
    P.PlayConcat(s, [act], turned.acts);
    P.PlayOne(s, act);
  }

  class BuildOrchestrator {
    const store: BuildStore
    const planner: BuildPlanner

    constructor (planner: BuildPlanner)
      ensures this.planner == planner && store == planner.store
    {
      this.planner := planner;
      this.store := planner.store;
    }

    method Tell(session: nat, task: nat, run: nat, end: T.TaskStatus, turn: O.Turn) returns (report: O.Report)
      requires Valid(store.State())
      modifies store
      ensures Valid(store.State())
      ensures var turned := O.Tell(old(store.State()), session, task, run, end, turn);
              report == turned.report && store.State() == P.Play(old(store.State()), turned.acts)
    {
      store.Meanwhile(turn.meanwhile(O.BeforeReport));
      var complete := session < |store.sessions| && store.sessions[session].status == T.SessionStatus.Complete;
      report := O.Ran(task, run, end, complete);
    }

    /** After the run has ended: the checkpoint of a success, and the report. */
    method Close(session: nat, seen: P.Seen, run: nat, end: T.TaskStatus, turn: O.Turn) returns (report: O.Report)
      requires Valid(store.State())
      modifies store
      ensures Valid(store.State())
      ensures var turned := O.Close(old(store.State()), session, seen, run, end, turn);
              report == turned.report && store.State() == P.Play(old(store.State()), turned.acts)
    {
      ghost var s := store.State();
      if end == T.Succeeded {
        ghost var before := P.Others(turn.meanwhile(O.BeforeCheckpoint));
        store.Meanwhile(turn.meanwhile(O.BeforeCheckpoint));
        ghost var at := store.State();
        ghost var act := P.Act(true, T.OpCheckpoint(session, seen.task.form.phase));
        var saved := store.Checkpoint(session, seen.task.form.phase);
        if saved.Err? {
          return O.Raised;
        }
        ghost var told := O.Tell(store.State(), session, seen.id, run, end, turn);
        ThenPlay(s, before, told.After([act]));
        ThenStep(at, act, told);
      }
      report := Tell(session, seen.id, run, end, turn);
    }

    /** Ends the run with its result. */
    method Conclude(session: nat, seen: P.Seen, run: nat, end: T.TaskStatus, result: E.Result, turn: O.Turn)
      returns (report: O.Report)
      requires Valid(store.State())
      modifies store
      ensures Valid(store.State())
      ensures var turned := O.Conclude(old(store.State()), session, seen, run, end, result, turn);
              report == turned.report && store.State() == P.Play(old(store.State()), turned.acts)
    {
      ghost var s := store.State();
      ghost var before := P.Others(turn.meanwhile(O.BeforeFinish));
      store.Meanwhile(turn.meanwhile(O.BeforeFinish));
      ghost var at := store.State();
      ghost var act := P.Act(true, T.OpFinish(run, end, result, turn.files));
      var finished := store.FinishTaskRun(run, end, result, turn.files);
      if finished.Err? {
        return O.Raised;
      }
      ghost var closed := O.Close(store.State(), session, seen, run, end, turn);
      ThenPlay(s, before, closed.After([act]));
      ThenStep(at, act, closed);
      report := Close(session, seen, run, end, turn);
    }

    /** Has the task executed while others go on, and judges the result. */
    method Work(session: nat, seen: P.Seen, run: nat, turn: O.Turn) returns (report: O.Report)
      requires Valid(store.State())
      modifies store
      ensures Valid(store.State())
      ensures var turned := O.Work(old(store.State()), session, seen, run, turn);
              report == turned.report && store.State() == P.Play(old(store.State()), turned.acts)
    {
      ghost var s := store.State();
      ghost var before := P.Others(turn.meanwhile(O.WhileWorking));
      store.Meanwhile(turn.meanwhile(O.WhileWorking));
      var form := seen.task.form;
      var gated := E.ApplyGate(form.kind, form.phase, form.contract, O.Dispatch(form.kind, turn.outcome), turn.files);
      if gated.None? {
        return O.Raised;
      }
      var result := gated.value;
      var halted := && session < |store.sessions|
                    && store.sessions[session].status in {T.Cancelling, T.Cancelled, T.Quarantined};
      var end := if halted then T.Dropped else if result.ok then T.Succeeded else T.Failed;
      ThenPlay(s, before, O.Conclude(store.State(), session, seen, run, end, result, turn));
      report := Conclude(session, seen, run, end, result, turn);
    }

    /** Routes, claims and works on a ready task. */
    method TakeOn(session: nat, seen: P.Seen, turn: O.Turn) returns (report: O.Report)
      requires Valid(store.State())
      modifies store
      ensures Valid(store.State())
      ensures var turned := O.TakeOn(old(store.State()), session, seen, turn);
              report == turned.report && store.State() == P.Play(old(store.State()), turned.acts)
    {
      ghost var s := store.State();
      var route := O.RouteTask(seen.task.form, turn);
      if route == O.FounderRoute {
        return O.FounderNeeded(seen.id);
      }
      var backend := if route == O.CloudRoute then T.Cloud else T.Local;
      ghost var before := P.Others(turn.meanwhile(O.BeforeClaim));
      store.Meanwhile(turn.meanwhile(O.BeforeClaim));
      ghost var at := store.State();
      ghost var act := P.Act(true, T.OpClaim(seen.id, turn.worker, backend));
      var claimed := store.ClaimTask(seen.id, turn.worker, backend);
      if claimed.Err? {
        return O.Raised;
      }
      ghost var worked := O.Work(store.State(), session, seen, claimed.value, turn);
      ThenPlay(s, before, worked.After([act]));
      ThenStep(at, act, worked);
      report := Work(session, seen, claimed.value, turn);
    }

    method IdleResult(session: nat, tasks: seq<P.Seen>, turn: O.Turn) returns (report: O.Report)
      requires Valid(store.State())
      modifies store
      ensures Valid(store.State())
      ensures var turned := O.IdleResult(old(store.State()), session, tasks, turn);
              report == turned.report && store.State() == P.Play(old(store.State()), turned.acts)
    {
      ghost var s := store.State();
      ghost var before := P.Others(turn.meanwhile(O.BeforeIdle));
      store.Meanwhile(turn.meanwhile(O.BeforeIdle));
      if session >= |store.sessions| {
        return O.Raised;
      }
      if store.sessions[session].status != T.Active {
        return O.Stopped(store.sessions[session].status);
      }
      if exists k :: 0 <= k < |tasks| && tasks[k].task.status == T.Failed {
        return O.FailedTasks;
      }
      if O.AllSeenSucceeded(tasks) {
        ghost var at := store.State();
        ghost var later := P.Others(turn.meanwhile(O.BeforeComplete));
        ghost var act := P.Act(true, T.OpCheckpoint(session, E.Complete));
        store.Meanwhile(turn.meanwhile(O.BeforeComplete));
        P.PlayOne(store.State(), act);
        P.PlayConcat(at, later, [act]);
        ThenPlay(s, before, O.Turned(later + [act], O.AllDone));
        var _ := store.Checkpoint(session, E.Complete);
        return O.AllDone;
      }
      report := O.Idle;
    }

    /** From the listed tasks on: the first ready one, or what to report if there is none. */
    method Pick(session: nat, tasks: seq<P.Seen>, turn: O.Turn) returns (report: O.Report)
      requires Valid(store.State())
      modifies store
      ensures Valid(store.State())
      ensures var turned := O.Pick(old(store.State()), session, tasks, turn);
              report == turned.report && store.State() == P.Play(old(store.State()), turned.acts)
    {
      ghost var s := store.State();
      ghost var before := P.Others(turn.meanwhile(O.BeforeReady));
      store.Meanwhile(turn.meanwhile(O.BeforeReady));
      ghost var at := store.State();
      var ready := O.FirstReady(T.State(store.sessions, store.tasks, store.runs), session);
      if ready.None? {
        ThenPlay(s, before, O.IdleResult(at, session, tasks, turn));
        report := IdleResult(session, tasks, turn);
      } else {
        var seen := P.Seen(ready.value, store.tasks[ready.value]);
        ThenPlay(s, before, O.TakeOn(at, session, seen, turn));
        report := TakeOn(session, seen, turn);
      }
    }

    method EnsurePlan(session: nat, turn: O.Turn) returns (report: O.Report)
      requires Valid(store.State()) && planner.store == store
      modifies store
      ensures Valid(store.State())
      ensures var turned := O.EnsurePlan(old(store.State()), session, turn);
              report == turned.report && store.State() == P.Play(old(store.State()), turned.acts)
    {
      ghost var s := store.State();
      var listed := O.ListTasks(store.tasks, session);
      if |listed| > 0 {
        report := Pick(session, listed, turn);
      } else {
        ghost var p := P.MakePlan(s, session, turn.mobile, turn.WhilePlanning());
        var planned := planner.MakePlan(session, turn.mobile, turn.WhilePlanning());
        if planned.None? {
          return O.Raised;
        }
        ThenPlay(s, p.acts, O.Pick(store.State(), session, planned.value, turn));
        report := Pick(session, planned.value, turn);
      }
    }

    /** Claims and executes at most one ready task. */
    method RunNext(session: nat, turn: O.Turn) returns (report: O.Report)
      requires Valid(store.State()) && planner.store == store
      modifies store
      ensures Valid(store.State())
      ensures var turned := O.RunNext(old(store.State()), session, turn);
              report == turned.report && store.State() == P.Play(old(store.State()), turned.acts)
    {
      ghost var s := store.State();
      if session >= |store.sessions| {
        return O.Missing;
      }
      if store.sessions[session].status != T.Active {
        return O.Stopped(store.sessions[session].status);
      }
      store.Meanwhile(turn.meanwhile(O.BeforePlan));
      ThenPlay(s, P.Others(turn.meanwhile(O.BeforePlan)), O.EnsurePlan(store.State(), session, turn));
      report := EnsurePlan(session, turn);
    }
  }

  /** A worker that was submitted for a session. */
  datatype Future = Future(session: nat, done: bool)

  datatype StartReport =
    | Started | NoSuchSession | ManagerStopped | SessionClosed(status: T.SessionStatus) | AlreadyRunning

  class BuildExecutionManager {
    const store: BuildStore
    const orchestrator: BuildOrchestrator
    const maxTasksPerRun: nat
    var stopping: bool
    var submitted: seq<Future>
    var futures: map<nat, nat>

    constructor (orchestrator: BuildOrchestrator, maxTasksPerRun: nat)
      ensures this.orchestrator == orchestrator && store == orchestrator.store
      ensures this.maxTasksPerRun >= 1 && this.maxTasksPerRun >= maxTasksPerRun
      ensures !stopping && Registered() && forall session :: !Live(session)
    {
      this.orchestrator := orchestrator;
      store := orchestrator.store;
      this.maxTasksPerRun := if maxTasksPerRun < 1 then 1 else maxTasksPerRun;
      stopping := false;
      submitted := [];
      futures := map[];
    }

    /** Every worker that is not done is the one registered for its session. */
    ghost predicate Registered()
      reads this
    {
      && (forall session | session in futures ::
            futures[session] < |submitted| && submitted[futures[session]].session == session)
      && (forall f | 0 <= f < |submitted| && !submitted[f].done ::
            submitted[f].session in futures && futures[submitted[f].session] == f)
    }

    ghost predicate Live(session: nat)
      reads this
    {
      exists f :: 0 <= f < |submitted| && submitted[f].session == session && !submitted[f].done
    }

    /** So no session ever has two workers at once. */
    lemma OneWorkerPerSession(f: nat, g: nat)
      requires Registered() && f < |submitted| && g < |submitted|
      requires !submitted[f].done && !submitted[g].done && submitted[f].session == submitted[g].session
      ensures f == g
    {
    }

    /** Submits a worker for a session, resuming it if it is paused, unless one is still at work. */
    method Start(session: nat) returns (r: StartReport)
      requires Valid(store.State()) && Registered()
      modifies this, store
      ensures Valid(store.State()) && Registered() && stopping == old(stopping)
      ensures var s := old(store.State());
              && r == (if session >= |s.sessions| then NoSuchSession
                       else if stopping then ManagerStopped
                       else if s.sessions[session].status in {T.Cancelled, T.Quarantined, T.SessionStatus.Complete}
                         then SessionClosed(s.sessions[session].status)
                       else if old(Live(session)) then AlreadyRunning
                       else Started)
              && store.State() == (if (r == Started || r == AlreadyRunning) && s.sessions[session].status == T.Paused
                                   then T.SetSession(s, session, T.Active) else s)
      ensures forall i :: Live(i) <==> old(Live(i)) || (r == Started && i == session)
    {
      if session >= |store.sessions| {
        return NoSuchSession;
      }
      if stopping {
        return ManagerStopped;
      }
      var status := store.sessions[session].status;
      if status in {T.Cancelled, T.Quarantined, T.SessionStatus.Complete} {
        return SessionClosed(status);
      }
      if status == T.Paused {
        var _ := store.SetSessionStatus(session, T.Paused, T.Active);
      }
      var submitted := Submit(session);
      r := if submitted then Started else AlreadyRunning;
    }

    /** Under the lock: registers a new worker for the session unless its worker is still at work. */
    method Submit(session: nat) returns (r: bool)
      requires Registered()
      modifies this`submitted, this`futures
      ensures Registered() && r == !old(Live(session))
      ensures submitted == old(submitted) + (if r then [Future(session, false)] else [])
      ensures forall i :: Live(i) <==> old(Live(i)) || i == session
    {
      if session in futures && !submitted[futures[session]].done {
        return false;
      }
      ghost var before := submitted;
      submitted := submitted + [Future(session, false)];
      futures := futures[session := |submitted| - 1];
      assert submitted[|before|] == Future(session, false);
      assert forall f | 0 <= f < |before| :: submitted[f] == before[f];
      r := true;
    }

    /** A worker has ended. */
    method Done(f: nat)
      requires Registered() && f < |submitted|
      modifies this`submitted
      ensures Registered()
      ensures submitted == old(submitted)[f := old(submitted[f]).(done := true)]
    {
      submitted := submitted[f := submitted[f].(done := true)];
    }

    /** After a crash: interrupted runs are recovered, and each of the newest ten thousand sessions that is
        active and has pending work gets a worker. */
    method Recover()
      requires Valid(store.State()) && Registered()
      modifies this, store
      ensures Valid(store.State()) && Registered() && stopping == old(stopping)
      ensures store.State() == T.Recover(old(store.State()))
      ensures forall i | 0 <= i < |store.sessions| && |store.sessions| - i <= 10000
                         && HasPendingWork(store.State(), i) :: stopping || Live(i)
    {
      store.RecoverInterruptedRuns();
      ghost var recovered := store.State();
      var n := |store.sessions|;
      var first := if n > 10000 then n - 10000 else 0;
      for i := first to n
        invariant Valid(store.State()) && Registered() && stopping == old(stopping)
        invariant store.State() == recovered
        invariant forall k | first <= k < i && HasPendingWork(recovered, k) :: stopping || Live(k)
      {
        if HasPendingWork(T.State(store.sessions, store.tasks, store.runs), i) {
          var _ := Start(i);
        }
      }
    }

    /** Works on a session until there is a reason to stop, for a bounded number of rounds. */
    method RunSession(session: nat, rounds: nat -> O.Round) returns (report: O.LoopReport)
      requires Valid(store.State()) && orchestrator.store == store && orchestrator.planner.store == store
      modifies store
      ensures Valid(store.State())
      ensures var (acts, end) := O.RunSession(old(store.State()), session, maxTasksPerRun, rounds);
              report == end && store.State() == P.Play(old(store.State()), acts)
    {
      ghost var start := store.State();
      ghost var l := O.RoundsUpTo(start, session, rounds, 0);
      for i := 0 to maxTasksPerRun
        invariant Valid(store.State()) && store.State() == P.Play(start, l.acts)
        invariant l == O.RoundsUpTo(start, session, rounds, i) && l.report.None?
      {
        var ended := RunRoundAfter(session, rounds, i, start, l);
        l := O.RoundsUpTo(start, session, rounds, i + 1);
        if ended.Some? {
          O.EndedForGood(start, session, rounds, l, i + 1, maxTasksPerRun);
          return ended.value;
        }
      }
      report := O.Bounded;
    }

    /** Round number `i`, after the rounds `l` since the ghost state `start`. */
    method RunRoundAfter(session: nat, rounds: nat -> O.Round, i: nat, ghost start: T.State, ghost l: O.Looped)
      returns (ended: Option<O.LoopReport>)
      requires Valid(store.State()) && orchestrator.store == store && orchestrator.planner.store == store
      requires l == O.RoundsUpTo(start, session, rounds, i) && l.report.None?
      requires store.State() == P.Play(start, l.acts)
      modifies store
      ensures Valid(store.State())
      ensures var next := O.RoundsUpTo(start, session, rounds, i + 1);
              ended == next.report && store.State() == P.Play(start, next.acts)
    {
      O.RoundsUpToNext(start, session, rounds, i);
      P.PlayConcat(start, l.acts, O.RunRound(store.State(), session, rounds(i)).acts);
      ended := RunRound(session, rounds(i));
    }

    /** One round of the loop. No report means that it goes round again. */
    method RunRound(session: nat, round: O.Round) returns (ended: Option<O.LoopReport>)
      requires Valid(store.State()) && orchestrator.store == store && orchestrator.planner.store == store
      modifies store
      ensures Valid(store.State())
      ensures var l := O.RunRound(old(store.State()), session, round);
              ended == l.report && store.State() == P.Play(old(store.State()), l.acts)
    {
      if round.stopping {
        return Some(O.Stopping);
      }
      ghost var s := store.State();
      store.Meanwhile(round.before);
      ghost var at := store.State();
      if session >= |store.sessions| {
        return Some(O.Ended(O.Missing));
      }
      if store.sessions[session].status != T.Active {
        return Some(O.Ended(O.Stopped(store.sessions[session].status)));
      }
      store.Meanwhile(round.between);
      ghost var turned := O.RunNext(store.State(), session, round.turn);
      P.PlayConcat(s, P.Others(round.before), P.Others(round.between) + turned.acts);
      P.PlayConcat(at, P.Others(round.between), turned.acts);
      var report := orchestrator.RunNext(session, round.turn);
      ended := if O.EndsLoop(report) then Some(O.Ended(report)) else None;
    }
  }

  predicate HasPendingWork(s: T.State, session: nat) {
    && session < |s.sessions| && s.sessions[session].status == T.Active
    && exists t :: 0 <= t < |s.tasks| && s.tasks[t].session == session && s.tasks[t].status == T.Pending
  }
}
