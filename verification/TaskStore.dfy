/**
 The build tasks as a store whose rows change in place.

 Every method commits or leaves all rows alone, and its contract ties the rows to the transaction of the
 same name.
*/
module TaskStore {
  import opened Basics
  import opened Text
  import T = Tasks
  import opened TaskInvariants
  import P = Plan
  import E = Evidence

  class BuildStore {
    var sessions: seq<T.Session>
    var tasks: seq<T.Task>
    var runs: seq<T.Run>

    ghost function State(): T.State
      reads this
    {
      T.State(sessions, tasks, runs)
    }

    constructor ()
      ensures State() == T.Empty() && Valid(State())
    {
      sessions, tasks, runs := [], [], [];
    }

    method CreateSession() returns (id: nat)
      requires Valid(State())
      modifies this
      ensures Valid(State())
      ensures var a := T.CreateSession(old(State())); State() == a.state && id == a.value
    {
      CreateSessionKeepsValid(State());
      id := |sessions|;
      sessions := sessions + [T.Session(T.Active, E.Approval)];
    }

    method CreateTask(session: nat, form: T.Form, deps: seq<nat>) returns (r: Outcome<nat, T.Refusal>)
      requires Valid(State())
      modifies this
      ensures Valid(State())
      ensures var a := T.CreateTask(old(State()), session, form, deps);
              State() == a.After(old(State())) && r == a.Outcome()
      ensures r.Ok? ==> r.value < |tasks|
    {
      CreateTaskKeepsValid(State(), session, form, deps);
      if Blank(form.title) {
        return Err(T.TitleBlank);
      }
      if form.maxAttempts < 1 {
        return Err(T.AttemptsInvalid);
      }
      if session >= |sessions| {
        return Err(T.SessionMissing);
      }
      var key := Strip(form.key);
      if key != "" {
        var existing := T.FindKey(tasks, session, key);
        if existing.Some? {
          return Ok(existing.value);
        }
      }
      if !T.DependenciesFit(tasks, session, deps) {
        return Err(T.DependencyForeign);
      }
      tasks := tasks + [T.Task(session, form.(key := key), T.Distinct(deps), T.Pending, form.maxAttempts, 0, None)];
      r := Ok(|tasks| - 1);
    }

    method ClaimTask(t: nat, worker: string, backend: T.Backend) returns (r: Outcome<nat, T.Refusal>)
      requires Valid(State())
      modifies this
      ensures Valid(State())
      ensures var a := T.ClaimTask(old(State()), t, worker, backend);
              State() == a.After(old(State())) && r == a.Outcome()
    {
      ClaimKeepsValid(State(), t, worker, backend);
      if Blank(worker) {
        return Err(T.WorkerBlank);
      }
      if t >= |tasks| {
        return Err(T.TaskMissing);
      }
      var task := tasks[t];
      if task.status != T.Pending || task.session >= |sessions| || sessions[task.session].status != T.Active
         || !T.DependenciesSucceeded(tasks, task.deps) {
        return Err(T.NotClaimable);
      }
      var attempt := task.attempts + 1;
      if attempt > task.max {
        return Err(T.AttemptsExhausted);
      }
      if T.AttemptTaken(runs, t, attempt) {
        return Err(T.IndexViolated);
      }
      runs := runs + [T.Run(t, task.session, attempt, worker, backend, T.Running, None, {})];
      tasks := tasks[t := task.(status := T.Running, attempts := attempt, active := Some(|runs| - 1))];
      r := Ok(|runs| - 1);
    }

    method FinalizeCancellation(session: nat)
      modifies this`sessions
      ensures State() == T.FinalizeCancellation(old(State()), session)
    {
      if session < |sessions| && sessions[session].status == T.Cancelling && !T.AnyRunning(tasks, session) {
        sessions := sessions[session := sessions[session].(status := T.Cancelled)];
      }
    }

    /** The rows of a run and of its task at the run's end. */
    method EndRun(r: nat, run: T.Run, status: T.TaskStatus)
      requires r < |runs|
      modifies this
      ensures State() == T.EndRun(old(State()), r, run, status)
    {
      var t, session := runs[r].task, runs[r].session;
      runs := runs[r := run];
      if t < |tasks| && tasks[t].active == Some(r) {
        tasks := tasks[t := tasks[t].(status := status, active := None)];
      }
      FinalizeCancellation(session);
    }

    method FinishTaskRun(r: nat, status: T.TaskStatus, result: E.Result, files: set<string>)
      returns (o: Outcome<(), T.Refusal>)
      requires Valid(State())
      modifies this
      ensures Valid(State())
      ensures var a := T.FinishRun(old(State()), r, status, result, files);
              State() == a.After(old(State())) && o == a.Outcome()
    {
      FinishKeepsValid(State(), r, status, result, files);
      if !status.Terminal() {
        return Err(T.StatusNotTerminal);
      }
      if r >= |runs| {
        return Err(T.RunMissing);
      }
      var run := runs[r];
      if run.status != T.Running {
        return Err(T.RunTerminal);
      }
      var again := && (status == T.Failed || status == T.Interrupted)
                   && run.backend != T.Cloud && run.task < |tasks| && run.attempt < tasks[run.task].max;
      EndRun(r, run.(status := status, result := Some(result), files := files), if again then T.Pending else status);
      o := Ok(());
    }

    /** Recovery after a crash, run by run. */
    method RecoverInterruptedRuns()
      requires Valid(State())
      modifies this
      ensures Valid(State()) && State() == T.Recover(old(State()))
    {
      var n := |runs|;
      for r := 0 to n
        invariant |runs| == n && State() == T.RecoverUpTo(old(State()), r)
      {
        var run := runs[r];
        if run.status == T.Running && run.task < |tasks| {
          var again := run.backend != T.Cloud && run.attempt < tasks[run.task].max;
          EndRun(r, run.(status := T.Interrupted), if again then T.Pending else T.Failed);
        }
      }
      RecoverKeepsValid(old(State()), n);
    }

    method RetryFailedLocalTask(session: nat, t: nat, reason: string, actor: string) returns (o: Outcome<(), T.Refusal>)
      requires Valid(State())
      modifies this
      ensures Valid(State())
      ensures var a := T.RetryFailedLocal(old(State()), session, t, reason, actor);
              State() == a.After(old(State())) && o == a.Outcome()
    {
      RetryKeepsValid(State(), session, t, reason, actor);
      if Blank(reason) || Blank(actor) {
        return Err(T.ReasonBlank);
      }
      if t >= |tasks| || tasks[t].session != session {
        return Err(T.TaskMissing);
      }
      var task := tasks[t];
      if task.status != T.Failed && task.status != T.Interrupted {
        return Err(T.NotRetryable);
      }
      if session >= |sessions| || !sessions[session].status.Open() {
        return Err(T.SessionClosed);
      }
      var previous := T.LastRunUpTo(runs, t, |runs|);
      if previous.None? {
        return Err(T.NoRun);
      }
      if runs[previous.value].backend == T.Cloud {
        return Err(T.CloudRetry);
      }
      var max := if task.attempts + 1 > task.max then task.attempts + 1 else task.max;
      tasks := tasks[t := task.(status := T.Pending, max := max, active := None)];
      o := Ok(());
    }

    method SetSessionStatus(session: nat, from: T.SessionStatus, to: T.SessionStatus)
      returns (o: Outcome<(), T.Refusal>)
      requires Valid(State()) && to != T.Cancelling && to != T.Cancelled
      modifies this
      ensures Valid(State())
      ensures var a := T.MoveSession(old(State()), session, from, to);
              State() == a.After(old(State())) && o == a.Outcome()
    {
      MoveKeepsValid(State(), session, from, to);
      if session >= |sessions| {
        return Err(T.SessionMissing);
      }
      if sessions[session].status != from {
        return Err(T.BadTransition);
      }
      sessions := sessions[session := sessions[session].(status := to)];
      o := Ok(());
    }

    method QuarantineSession(session: nat, reason: string, actor: string) returns (o: Outcome<(), T.Refusal>)
      requires Valid(State())
      modifies this
      ensures Valid(State())
      ensures var a := T.QuarantineSession(old(State()), session, reason, actor);
              State() == a.After(old(State())) && o == a.Outcome()
    {
      QuarantineKeepsValid(State(), session, reason, actor);
      if Blank(reason) || Blank(actor) {
        return Err(T.ReasonBlank);
      }
      if session >= |sessions| {
        return Err(T.SessionMissing);
      }
      var status := sessions[session].status;
      if status == T.SessionStatus.Complete || status == T.Cancelled {
        return Err(T.BadTransition);
      }
      sessions := sessions[session := sessions[session].(status := T.Quarantined)];
      o := Ok(());
    }

    method CancelSession(session: nat) returns (o: Outcome<(), T.Refusal>)
      requires Valid(State())
      modifies this
      ensures Valid(State())
      ensures var a := T.CancelSession(old(State()), session);
              State() == a.After(old(State())) && o == a.Outcome()
    {
      CancelKeepsValid(State(), session);
      if session >= |sessions| {
        return Err(T.SessionMissing);
      }
      var status := if T.AnyRunning(tasks, session) then T.Cancelling else T.Cancelled;
      var before := tasks;
      tasks := seq(|before|, t requires 0 <= t < |before| => T.Drop(before[t], session));
      sessions := sessions[session := sessions[session].(status := status)];
      assert tasks == T.CancelSession(old(State()), session).state.tasks;
      o := Ok(());
    }

    method Checkpoint(session: nat, phase: E.Phase) returns (o: Outcome<(), T.Refusal>)
      requires Valid(State())
      modifies this
      ensures Valid(State())
      ensures var a := T.CheckpointSession(old(State()), session, phase);
              State() == a.After(old(State())) && o == a.Outcome()
    {
      CheckpointKeepsValid(State(), session, phase);
      if session >= |sessions| {
        return Err(T.SessionMissing);
      }
      var status := if phase == E.Complete then T.SessionStatus.Complete else sessions[session].status;
      sessions := sessions[session := T.Session(status, phase)];
      o := Ok(());
    }

    /** Whichever transaction another caller asks for. */
    method Perform(op: T.Op)
      requires Valid(State())
      modifies this
      ensures Valid(State()) && State() == T.Step(old(State()), op)
    {
      match op
      case OpCreateSession => var _ := CreateSession();
      case OpCreateTask(session, form, deps) => var _ := CreateTask(session, form, deps);
      case OpClaim(t, worker, backend) => var _ := ClaimTask(t, worker, backend);
      case OpFinish(r, status, result, files) => var _ := FinishTaskRun(r, status, result, files);
      case OpRecover => RecoverInterruptedRuns();
      case OpRetry(session, t, reason, actor) => var _ := RetryFailedLocalTask(session, t, reason, actor);
      case OpPause(session) => var _ := SetSessionStatus(session, T.Active, T.Paused);
      case OpResume(session) => var _ := SetSessionStatus(session, T.Paused, T.Active);
      case OpQuarantine(session, reason, actor) => var _ := QuarantineSession(session, reason, actor);
      case OpCancel(session) => var _ := CancelSession(session);
      case OpCheckpoint(session, phase) => var _ := Checkpoint(session, phase);
    }

    /** Any run of transactions by other callers. */
    method Meanwhile(ops: seq<T.Op>)
      requires Valid(State())
      modifies this
      ensures Valid(State()) && State() == P.Play(old(State()), P.Others(ops))
    {
      ghost var acts := P.Others(ops);
      for i := 0 to |ops|
        invariant Valid(State()) && State() == P.Play(old(State()), acts[..i])
      {
        Perform(ops[i]);
        assert acts[..i + 1][..i] == acts[..i];
      }
      assert acts[..|ops|] == acts;
    }
  }
}
