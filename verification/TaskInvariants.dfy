/**
 What every transaction on tasks keeps, whatever the interleaving of workers, operators and recovery.

 A task is running exactly while it names a running run of its own. Its runs carry the attempt numbers
 1, 2, ... up to its attempt count, in order. Its dependencies are older tasks of its session, and all
 of them had succeeded before its first run. A cloud run is its task's last. A cancelling session has a
 running task, and a cancelled one has none.
*/
module TaskInvariants {
  import opened Basics
  import opened Text
  import opened Tasks
  import E = Evidence

  /** How many of the first `n` runs are of task `t`. */
  function RunsOf(runs: seq<Run>, t: nat, n: nat): (c: nat)
    requires n <= |runs|
    ensures c <= n
  {
    if n == 0 then 0 else RunsOf(runs, t, n - 1) + (if runs[n - 1].task == t then 1 else 0)
  }

  ghost predicate TaskOk(s: State, t: nat)
    requires t < |s.tasks|
  {
    var task := s.tasks[t];
    && task.session < |s.sessions|
    && (forall d | d in task.deps :: d < t && s.tasks[d].session == task.session)
    && task.attempts == RunsOf(s.runs, t, |s.runs|) <= task.max
    && (task.status == Running <==> task.active.Some?)
    && (task.active.Some? ==>
          && task.active.value < |s.runs|
          && s.runs[task.active.value].task == t
          && s.runs[task.active.value].status == Running)
    && (task.status == Pending ==> task.attempts < task.max)
    && (task.attempts > 0 ==> DependenciesSucceeded(s.tasks, task.deps))
    && (task.status in {Running, Succeeded, Failed, Interrupted} ==> task.attempts > 0)
    && task.status != Blocked
  }

  ghost predicate RunOk(s: State, r: nat)
    requires r < |s.runs|
  {
    var run := s.runs[r];
    && run.task < |s.tasks|
    && run.session == s.tasks[run.task].session
    && run.attempt == RunsOf(s.runs, run.task, r) + 1
    && (run.status == Running || run.status.Terminal())
    && (run.status == Running ==> s.tasks[run.task].active == Some(r) && run.attempt == s.tasks[run.task].attempts)
    && (run.backend == Cloud ==> s.tasks[run.task].attempts == run.attempt && s.tasks[run.task].status != Pending)
  }

  ghost predicate SessionOk(s: State, i: nat)
    requires i < |s.sessions|
  {
    && (s.sessions[i].status == Cancelling ==> AnyRunning(s.tasks, i))
    && (s.sessions[i].status == Cancelled ==> !AnyRunning(s.tasks, i))
  }

  /** No two tasks of a session share a non-empty idempotency key. */
  ghost predicate KeysDistinct(tasks: seq<Task>) {
    forall i, j | 0 <= i < j < |tasks| && tasks[i].session == tasks[j].session ::
      tasks[i].form.key == "" || tasks[i].form.key != tasks[j].form.key
  }

  ghost predicate Valid(s: State) {
    && (forall t | 0 <= t < |s.tasks| :: TaskOk(s, t))
    && (forall r | 0 <= r < |s.runs| :: RunOk(s, r))
    && (forall i | 0 <= i < |s.sessions| :: SessionOk(s, i))
    && KeysDistinct(s.tasks)
  }

  // ---- counting runs ---------------------------------------------------------------------------

  lemma {:induction false} RunsOfSameTasks(a: seq<Run>, b: seq<Run>, t: nat, n: nat)
    requires n <= |a| && n <= |b|
    requires forall i | 0 <= i < n :: a[i].task == b[i].task
    ensures RunsOf(a, t, n) == RunsOf(b, t, n)
  {
    if n > 0 {
      RunsOfSameTasks(a, b, t, n - 1);
    }
  }

  lemma {:induction false} RunsOfMonotone(runs: seq<Run>, t: nat, m: nat, n: nat)
    requires m <= n <= |runs|
    ensures RunsOf(runs, t, m) <= RunsOf(runs, t, n)
    ensures m < n && runs[m].task == t ==> RunsOf(runs, t, m) < RunsOf(runs, t, n)
    ensures (forall i | m <= i < n :: runs[i].task != t) ==> RunsOf(runs, t, m) == RunsOf(runs, t, n)
  {
    if m < n {
      RunsOfMonotone(runs, t, m, n - 1);
    }
  }

  // ---- writes that keep the invariant ----------------------------------------------------------

  /** The columns of a task that no transaction but its insertion writes. */
  predicate SameTask(a: Task, b: Task) {
    a.session == b.session && a.form == b.form && a.deps == b.deps
  }

  predicate SameTasks(a: seq<Task>, b: seq<Task>) {
    |a| == |b| && forall t | 0 <= t < |a| :: SameTask(a[t], b[t])
  }

  lemma CreateTaskKeepsValid(s: State, session: nat, form: Form, deps: seq<nat>)
    requires Valid(s)
    ensures Valid(CreateTask(s, session, form, deps).After(s))
  {
    var a := CreateTask(s, session, form, deps);
    if a.Done? && a.state != s {
      var n, u := |s.tasks|, a.state;
      assert u.tasks[..n] == s.tasks;
      assert RunsOf(s.runs, n, |s.runs|) == 0 by {
        NoRunsOfNewTask(s, |s.runs|);
      }
      forall t | 0 <= t < n + 1 ensures TaskOk(u, t) {
        if t < n {
          assert TaskOk(s, t);
        }
      }
      forall r | 0 <= r < |s.runs| ensures RunOk(u, r) {
        assert RunOk(s, r);
      }
      forall i | 0 <= i < |s.sessions| ensures SessionOk(u, i) {
        assert SessionOk(s, i);
        AppendKeepsRunning(s.tasks, u.tasks[n], i);
      }
    }
  }

  lemma {:induction false} NoRunsOfNewTask(s: State, n: nat)
    requires n <= |s.runs| && forall r | 0 <= r < |s.runs| :: RunOk(s, r)
    ensures RunsOf(s.runs, |s.tasks|, n) == 0
  {
    if n > 0 {
      NoRunsOfNewTask(s, n - 1);
      assert RunOk(s, n - 1);
    }
  }

  lemma AppendKeepsRunning(tasks: seq<Task>, task: Task, i: nat)
    requires task.status != Running
    ensures AnyRunning(tasks + [task], i) <==> AnyRunning(tasks, i)
  {
    if AnyRunning(tasks, i) {
      var t :| 0 <= t < |tasks| && tasks[t].session == i && tasks[t].status == Running;
      assert (tasks + [task])[t] == tasks[t];
    }
  }

  // ---- claiming --------------------------------------------------------------------------------

  /** The next attempt number of a task is never taken. */
  lemma AttemptFree(s: State, t: nat)
    requires Valid(s) && t < |s.tasks|
    ensures !AttemptTaken(s.runs, t, s.tasks[t].attempts + 1)
  {
    assert TaskOk(s, t);
    forall r | 0 <= r < |s.runs| && s.runs[r].task == t ensures s.runs[r].attempt <= s.tasks[t].attempts {
      assert RunOk(s, r);
      RunsOfMonotone(s.runs, t, r, |s.runs|);
    }
  }

  /** A pending task always has an attempt left, and a claim is refused only for what the caller can see. */
  lemma ClaimSucceedsExactly(s: State, t: nat, worker: string, backend: Backend)
    requires Valid(s)
    ensures ClaimTask(s, t, worker, backend).Done? <==> !Blank(worker) && Ready(s, t)
    ensures ClaimTask(s, t, worker, backend).Refused? ==>
              ClaimTask(s, t, worker, backend).error in {WorkerBlank, TaskMissing, NotClaimable}
  {
    if t < |s.tasks| {
      assert TaskOk(s, t);
      AttemptFree(s, t);
    }
  }

  lemma ClaimKeepsTasks(s: State, t: nat, worker: string, backend: Backend)
    requires Valid(s) && ClaimTask(s, t, worker, backend).Done?
    ensures var u := ClaimTask(s, t, worker, backend).state;
            forall k | 0 <= k < |u.tasks| :: TaskOk(u, k)
  {
    var u := ClaimTask(s, t, worker, backend).state;
    var n := |s.runs|;
    forall k | 0 <= k < |u.tasks| ensures TaskOk(u, k) {
      assert TaskOk(s, k);
      RunsOfSameTasks(s.runs, u.runs, k, n);
    }
  }

  lemma ClaimKeepsRuns(s: State, t: nat, worker: string, backend: Backend)
    requires Valid(s) && ClaimTask(s, t, worker, backend).Done?
    ensures var u := ClaimTask(s, t, worker, backend).state;
            forall r | 0 <= r < |u.runs| :: RunOk(u, r)
  {
    var u := ClaimTask(s, t, worker, backend).state;
    var n := |s.runs|;
    assert TaskOk(s, t);
    forall r | 0 <= r < n + 1 ensures RunOk(u, r) {
      RunsOfSameTasks(s.runs, u.runs, u.runs[r].task, r);
      if r < n {
        assert RunOk(s, r);
      }
    }
  }

  lemma ClaimKeepsValid(s: State, t: nat, worker: string, backend: Backend)
    requires Valid(s)
    ensures Valid(ClaimTask(s, t, worker, backend).After(s))
  {
    var a := ClaimTask(s, t, worker, backend);
    if a.Done? {
      var u := a.state;
      ClaimKeepsTasks(s, t, worker, backend);
      ClaimKeepsRuns(s, t, worker, backend);
      forall i | 0 <= i < |s.sessions| ensures SessionOk(u, i) {
        assert SessionOk(s, i);
        if AnyRunning(s.tasks, i) {
          var k :| 0 <= k < |s.tasks| && s.tasks[k].session == i && s.tasks[k].status == Running;
          assert u.tasks[k].session == i && u.tasks[k].status == Running;
        }
      }
    }
  }

  // ---- ending runs -----------------------------------------------------------------------------

  /** How a run may end: with a terminal row, and with a task that is pending only if another attempt is
      allowed. */
  predicate Ending(s: State, r: nat, run: Run, status: TaskStatus) {
    && r < |s.runs| && s.runs[r].status == Running
    && run == s.runs[r].(status := run.status, result := run.result, files := run.files)
    && run.status.Terminal()
    && (status == Pending || status.Terminal())
    && (status == Pending ==> Repeatable(s, run))
  }

  lemma StillSucceeded(tasks: seq<Task>, t: nat, task: Task, deps: seq<nat>)
    requires t < |tasks| && tasks[t].status != Succeeded && DependenciesSucceeded(tasks, deps)
    ensures DependenciesSucceeded(tasks[t := task], deps)
  {
  }

  lemma EndKeepsTask(s: State, r: nat, run: Run, status: TaskStatus, k: nat)
    requires Valid(s) && Ending(s, r, run, status) && k < |s.tasks|
    ensures TaskOk(EndRun(s, r, run, status), k)
  {
    var u, t := EndRun(s, r, run, status), s.runs[r].task;
    assert RunOk(s, r);
    assert TaskOk(s, t) && TaskOk(s, k);
    assert u.tasks == s.tasks[t := s.tasks[t].(status := status, active := None)];
    RunsOfSameTasks(s.runs, u.runs, k, |s.runs|);
    if s.tasks[k].attempts > 0 {
      StillSucceeded(s.tasks, t, u.tasks[t], s.tasks[k].deps);
    }
    if k != t {
      assert u.tasks[k] == s.tasks[k] && s.tasks[k].active != Some(r);
    }
  }

  /** Runs of one task have different attempt numbers. */
  lemma AttemptsDistinct(s: State, q: nat, r: nat)
    requires Valid(s) && q < |s.runs| && r < |s.runs| && s.runs[q].task == s.runs[r].task
    requires s.runs[q].attempt == s.runs[r].attempt
    ensures q == r
  {
    assert RunOk(s, q) && RunOk(s, r);
    if q < r {
      RunsOfMonotone(s.runs, s.runs[r].task, q, r);
    } else if r < q {
      RunsOfMonotone(s.runs, s.runs[r].task, r, q);
    }
  }

  lemma EndKeepsRuns(s: State, r: nat, run: Run, status: TaskStatus)
    requires Valid(s) && Ending(s, r, run, status)
    ensures var u := EndRun(s, r, run, status);
            forall q | 0 <= q < |u.runs| :: RunOk(u, q)
  {
    var u := EndRun(s, r, run, status);
    assert RunOk(s, r) && TaskOk(s, s.runs[r].task);
    forall q | 0 <= q < |u.runs| ensures RunOk(u, q) {
      assert RunOk(s, q);
      RunsOfSameTasks(s.runs, u.runs, s.runs[q].task, q);
      if s.runs[q].task == s.runs[r].task && s.runs[q].attempt == s.runs[r].attempt {
        AttemptsDistinct(s, q, r);
      }
    }
  }

  lemma EndKeepsValid(s: State, r: nat, run: Run, status: TaskStatus)
    requires Valid(s) && Ending(s, r, run, status)
    ensures Valid(EndRun(s, r, run, status))
  {
    var u := EndRun(s, r, run, status);
    forall k | 0 <= k < |u.tasks| ensures TaskOk(u, k) {
      EndKeepsTask(s, r, run, status, k);
    }
    EndKeepsRuns(s, r, run, status);
    assert RunOk(s, r);
    forall i | 0 <= i < |u.sessions| ensures SessionOk(u, i) {
      assert SessionOk(s, i);
      if AnyRunning(s.tasks, i) && i != s.runs[r].session {
        var k :| 0 <= k < |s.tasks| && s.tasks[k].session == i && s.tasks[k].status == Running;
        assert u.tasks[k].session == i && u.tasks[k].status == Running;
      }
    }
  }

  lemma FinishKeepsValid(s: State, r: nat, status: TaskStatus, result: E.Result, files: set<string>)
    requires Valid(s)
    ensures Valid(FinishRun(s, r, status, result, files).After(s))
  {
    if FinishRun(s, r, status, result, files).Done? {
      var run := s.runs[r].(status := status, result := Some(result), files := files);
      var again := (status == Failed || status == Interrupted) && Repeatable(s, s.runs[r]);
      EndKeepsValid(s, r, run, if again then Pending else status);
    }
  }

  lemma RecoverRunKeepsValid(s: State, r: nat)
    requires Valid(s)
    ensures Valid(RecoverRun(s, r))
  {
    if r < |s.runs| && s.runs[r].status == Running && s.runs[r].task < |s.tasks| {
      var run := s.runs[r];
      EndKeepsValid(s, r, run.(status := Interrupted), if Repeatable(s, run) then Pending else Failed);
    }
  }

  lemma RecoverKeepsValid(s: State, n: nat)
    requires Valid(s)
    ensures Valid(RecoverUpTo(s, n))
  {
    var inv := (t: State, j: nat) => Valid(t);
    forall t: State, j: nat | inv(t, j) ensures inv(RecoverRun(t, j), j + 1) {
      RecoverRunKeepsValid(t, j);
    }
    IterateKeeps(RecoverRun, inv, s, n);
  }

  // ---- operators -------------------------------------------------------------------------------

  /** Rewriting tasks that do not run, without undoing a success or making a cloud task pending. */
  ghost predicate Rewrite(s: State, tasks: seq<Task>) {
    && |tasks| == |s.tasks|
    && forall t | 0 <= t < |tasks| ::
         || tasks[t] == s.tasks[t]
         || (&& SameTask(tasks[t], s.tasks[t]) && tasks[t].attempts == s.tasks[t].attempts <= tasks[t].max
             && s.tasks[t].status != Running && s.tasks[t].status != Succeeded && tasks[t].active == None
             && ((tasks[t].status == Dropped)
                 || (tasks[t].status == Pending && tasks[t].attempts < tasks[t].max && !CloudRan(s, t))))
  }

  ghost predicate CloudRan(s: State, t: nat) {
    exists r :: 0 <= r < |s.runs| && s.runs[r].task == t && s.runs[r].backend == Cloud
  }

  lemma RewriteKeepsRunning(s: State, tasks: seq<Task>, i: nat)
    requires Rewrite(s, tasks)
    ensures AnyRunning(tasks, i) <==> AnyRunning(s.tasks, i)
  {
    if AnyRunning(s.tasks, i) {
      var t :| 0 <= t < |s.tasks| && s.tasks[t].session == i && s.tasks[t].status == Running;
      assert tasks[t] == s.tasks[t];
    }
    if AnyRunning(tasks, i) {
      var t :| 0 <= t < |tasks| && tasks[t].session == i && tasks[t].status == Running;
      assert tasks[t] == s.tasks[t];
    }
  }

  lemma RewriteKeepsTask(s: State, tasks: seq<Task>, t: nat)
    requires Valid(s) && Rewrite(s, tasks) && t < |tasks|
    ensures TaskOk(s.(tasks := tasks), t)
  {
    assert TaskOk(s, t);
    forall d | d in tasks[t].deps ensures d < t && tasks[d].session == s.tasks[d].session
                                          && (s.tasks[d].status == Succeeded ==> tasks[d].status == Succeeded) {
    }
  }

  lemma RewriteKeepsRun(s: State, tasks: seq<Task>, r: nat)
    requires Valid(s) && Rewrite(s, tasks) && r < |s.runs|
    ensures RunOk(s.(tasks := tasks), r)
  {
    assert RunOk(s, r);
    assert TaskOk(s, s.runs[r].task);
  }

  lemma RewriteKeepsValid(s: State, tasks: seq<Task>)
    requires Valid(s) && Rewrite(s, tasks)
    ensures Valid(s.(tasks := tasks))
  {
    var u := s.(tasks := tasks);
    forall t | 0 <= t < |tasks| ensures TaskOk(u, t) {
      RewriteKeepsTask(s, tasks, t);
    }
    forall r | 0 <= r < |s.runs| ensures RunOk(u, r) {
      RewriteKeepsRun(s, tasks, r);
    }
    forall i | 0 <= i < |s.sessions| ensures SessionOk(u, i) {
      assert SessionOk(s, i);
      RewriteKeepsRunning(s, tasks, i);
    }
  }

  lemma SessionUpdateKeepsValid(s: State, i: nat, session: Session)
    requires Valid(s) && i < |s.sessions|
    requires session.status == Cancelling ==> AnyRunning(s.tasks, i)
    requires session.status == Cancelled ==> !AnyRunning(s.tasks, i)
    ensures Valid(s.(sessions := s.sessions[i := session]))
  {
    var u := s.(sessions := s.sessions[i := session]);
    forall t | 0 <= t < |s.tasks| ensures TaskOk(u, t) {
      assert TaskOk(s, t);
    }
    forall r | 0 <= r < |s.runs| ensures RunOk(u, r) {
      assert RunOk(s, r);
    }
    forall k | 0 <= k < |s.sessions| ensures SessionOk(u, k) {
      assert SessionOk(s, k);
    }
  }

  /** A failed or interrupted task has run, so the missing-run refusal of a retry is unreachable, and none
      of its runs was in the cloud if its last one was not. */
  lemma LastRunIsNewest(s: State, t: nat)
    requires Valid(s) && t < |s.tasks|
    ensures s.tasks[t].attempts > 0 <==> LastRunUpTo(s.runs, t, |s.runs|).Some?
    ensures s.tasks[t].attempts > 0 ==>
              var r := LastRunUpTo(s.runs, t, |s.runs|).value;
              && s.runs[r].attempt == s.tasks[t].attempts
              && (CloudRan(s, t) <==> s.runs[r].backend == Cloud)
  {
    assert TaskOk(s, t);
    var last := LastRunUpTo(s.runs, t, |s.runs|);
    if last.Some? {
      var r := last.value;
      assert RunOk(s, r);
      RunsOfMonotone(s.runs, t, r + 1, |s.runs|);
      if CloudRan(s, t) {
        var q :| 0 <= q < |s.runs| && s.runs[q].task == t && s.runs[q].backend == Cloud;
        assert RunOk(s, q);
        AttemptsDistinct(s, q, r);
      }
    } else {
      RunsOfMonotone(s.runs, t, 0, |s.runs|);
    }
  }

  lemma RetryKeepsValid(s: State, session: nat, t: nat, reason: string, actor: string)
    requires Valid(s)
    ensures Valid(RetryFailedLocal(s, session, t, reason, actor).After(s))
  {
    var a := RetryFailedLocal(s, session, t, reason, actor);
    if a.Done? {
      assert TaskOk(s, t);
      LastRunIsNewest(s, t);
      RewriteKeepsValid(s, a.state.tasks);
    }
  }

  lemma CancelKeepsValid(s: State, session: nat)
    requires Valid(s)
    ensures Valid(CancelSession(s, session).After(s))
  {
    if session < |s.sessions| {
      var tasks := seq(|s.tasks|, t requires 0 <= t < |s.tasks| => Drop(s.tasks[t], session));
      forall t | 0 <= t < |tasks| ensures tasks[t] == Drop(s.tasks[t], session) && TaskOk(s, t) {
      }
      RewriteKeepsValid(s, tasks);
      RewriteKeepsRunning(s, tasks, session);
      var status := if AnyRunning(s.tasks, session) then Cancelling else Cancelled;
      SessionUpdateKeepsValid(s.(tasks := tasks), session, s.sessions[session].(status := status));
    }
  }

  lemma MoveKeepsValid(s: State, session: nat, from: SessionStatus, to: SessionStatus)
    requires Valid(s) && to != Cancelling && to != Cancelled
    ensures Valid(MoveSession(s, session, from, to).After(s))
  {
    if session < |s.sessions| {
      SessionUpdateKeepsValid(s, session, s.sessions[session].(status := to));
    }
  }

  lemma QuarantineKeepsValid(s: State, session: nat, reason: string, actor: string)
    requires Valid(s)
    ensures Valid(QuarantineSession(s, session, reason, actor).After(s))
  {
    if session < |s.sessions| {
      SessionUpdateKeepsValid(s, session, s.sessions[session].(status := Quarantined));
    }
  }

  lemma CheckpointKeepsValid(s: State, session: nat, phase: E.Phase)
    requires Valid(s)
    ensures Valid(CheckpointSession(s, session, phase).After(s))
  {
    var a := CheckpointSession(s, session, phase);
    if session < |s.sessions| {
      assert SessionOk(s, session);
      SessionUpdateKeepsValid(s, session, a.state.sessions[session]);
    }
  }

  lemma CreateSessionKeepsValid(s: State)
    requires Valid(s)
    ensures Valid(CreateSession(s).state)
  {
    var u := CreateSession(s).state;
    forall t | 0 <= t < |s.tasks| ensures TaskOk(u, t) {
      assert TaskOk(s, t);
    }
    forall r | 0 <= r < |s.runs| ensures RunOk(u, r) {
      assert RunOk(s, r);
    }
    forall i | 0 <= i < |u.sessions| ensures SessionOk(u, i) {
      if i < |s.sessions| {
        assert SessionOk(s, i);
      }
    }
  }

  // ---- steps and runs --------------------------------------------------------------------------

  lemma StepKeepsValid(s: State, op: Op)
    requires Valid(s)
    ensures Valid(Step(s, op))
  {
    match op
    case OpCreateSession => CreateSessionKeepsValid(s);
    case OpCreateTask(session, form, deps) => CreateTaskKeepsValid(s, session, form, deps);
    case OpClaim(t, worker, backend) => ClaimKeepsValid(s, t, worker, backend);
    case OpFinish(r, status, result, files) => FinishKeepsValid(s, r, status, result, files);
    case OpRecover => RecoverKeepsValid(s, |s.runs|);
    case OpRetry(session, t, reason, actor) => RetryKeepsValid(s, session, t, reason, actor);
    case OpPause(session) => MoveKeepsValid(s, session, Active, Paused);
    case OpResume(session) => MoveKeepsValid(s, session, Paused, Active);
    case OpQuarantine(session, reason, actor) => QuarantineKeepsValid(s, session, reason, actor);
    case OpCancel(session) => CancelKeepsValid(s, session);
    case OpCheckpoint(session, phase) => CheckpointKeepsValid(s, session, phase);
  }

  lemma {:induction false} StepsKeepValid(s: State, ops: seq<Op>)
    requires Valid(s)
    ensures Valid(Steps(s, ops))
  {
    if |ops| > 0 {
      StepsKeepValid(s, ops[..|ops| - 1]);
      StepKeepsValid(Steps(s, ops[..|ops| - 1]), ops[|ops| - 1]);
    }
  }
}
