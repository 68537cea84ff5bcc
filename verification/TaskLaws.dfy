/** Laws of the build tasks over whole runs of transactions. */
module TaskLaws {
  import opened Basics
  import opened Text
  import opened Tasks
  import opened TaskInvariants
  import E = Evidence

  // ---- what a step may change ------------------------------------------------------------------

  predicate SameRun(a: Run, b: Run) {
    && a.task == b.task && a.session == b.session && a.attempt == b.attempt
    && a.worker == b.worker && a.backend == b.backend
  }

  /** Tasks keep their description and their success. */
  ghost predicate TasksAdvance(a: seq<Task>, b: seq<Task>) {
    && |a| <= |b|
    && (forall t | 0 <= t < |a| :: SameTask(a[t], b[t]))
    && (forall t | 0 <= t < |a| && a[t].status == Succeeded :: b[t].status == Succeeded)
  }

  /** Runs keep their owner, and ended runs keep everything. */
  ghost predicate RunsAdvance(a: seq<Run>, b: seq<Run>) {
    && |a| <= |b|
    && (forall r | 0 <= r < |a| :: SameRun(a[r], b[r]))
    && (forall r | 0 <= r < |a| && a[r].status != Running :: b[r] == a[r])
  }

  /** A session that has stopped stays stopped, and new runs belong to sessions that had not. */
  ghost predicate SessionsAdvance(s: State, u: State) {
    && |s.sessions| <= |u.sessions|
    && (forall i | 0 <= i < |s.sessions| && !s.sessions[i].status.Open() :: !u.sessions[i].status.Open())
    && (forall r | |s.runs| <= r < |u.runs| ::
          u.runs[r].session < |s.sessions| ==> s.sessions[u.runs[r].session].status.Open())
  }

  ghost predicate Advances(s: State, u: State) {
    TasksAdvance(s.tasks, u.tasks) && RunsAdvance(s.runs, u.runs) && SessionsAdvance(s, u)
  }

  lemma AdvancesReflexively(s: State)
    ensures Advances(s, s)
  {
  }

  lemma AdvancesTransitively(s: State, u: State, v: State)
    requires Advances(s, u) && Advances(u, v)
    ensures Advances(s, v)
  {
    forall t | 0 <= t < |s.tasks| ensures SameTask(s.tasks[t], v.tasks[t]) {
      assert SameTask(s.tasks[t], u.tasks[t]) && SameTask(u.tasks[t], v.tasks[t]);
    }
    forall r | 0 <= r < |s.runs| ensures SameRun(s.runs[r], v.runs[r]) {
      assert SameRun(s.runs[r], u.runs[r]) && SameRun(u.runs[r], v.runs[r]);
    }
  }

  lemma EndAdvances(s: State, r: nat, run: Run, status: TaskStatus)
    requires Valid(s) && Ending(s, r, run, status)
    ensures Advances(s, EndRun(s, r, run, status))
  {
    assert RunOk(s, r);
    assert TaskOk(s, s.runs[r].task);
  }

  lemma RecoverRunAdvances(s: State, r: nat)
    requires Valid(s) && r < |s.runs|
    ensures Advances(s, RecoverRun(s, r)) && RecoverRun(s, r).runs[r].status != Running
  {
    assert RunOk(s, r);
    var run := s.runs[r];
    if run.status == Running {
      EndAdvances(s, r, run.(status := Interrupted), if Repeatable(s, run) then Pending else Failed);
    }
  }

  /** The first `n` runs have ended. */
  ghost predicate Ended(s: State, n: nat) {
    n <= |s.runs| && forall r | 0 <= r < n :: s.runs[r].status != Running
  }

  lemma OneMoreEnded(s: State, u: State, v: State, n: nat)
    requires Advances(s, u) && Advances(u, v)
    requires Ended(u, n) && n < |v.runs| && v.runs[n].status != Running
    ensures Advances(s, v) && Ended(v, n + 1)
  {
    AdvancesTransitively(s, u, v);
  }

  lemma RecoverAdvances(s: State, n: nat)
    requires Valid(s) && n <= |s.runs|
    ensures Advances(s, RecoverUpTo(s, n)) && Valid(RecoverUpTo(s, n))
    ensures |RecoverUpTo(s, n).runs| == |s.runs| && Ended(RecoverUpTo(s, n), n)
  {
    var inv := (t: State, j: nat) => Advances(s, t) && Valid(t) && |t.runs| == |s.runs| && Ended(t, j);
    AdvancesReflexively(s);
    forall t: State, j: nat | j < n && inv(t, j) ensures inv(RecoverRun(t, j), j + 1) {
      RecoverRunKeepsValid(t, j);
      RecoverRunAdvances(t, j);
      OneMoreEnded(s, t, RecoverRun(t, j), j);
    }
    IterateKeeps(RecoverRun, inv, s, n);
  }

  /** Recovery changes no column of a task but its status and its active run. */
  ghost predicate OnlyStatus(a: seq<Task>, b: seq<Task>) {
    && |a| == |b|
    && forall t | 0 <= t < |a| :: SameTask(a[t], b[t]) && a[t].max == b[t].max && a[t].attempts == b[t].attempts
  }

  lemma RecoverOnlyStatus(s: State, n: nat)
    ensures OnlyStatus(s.tasks, RecoverUpTo(s, n).tasks)
  {
    var inv := (t: State, j: nat) => OnlyStatus(s.tasks, t.tasks);
    forall t: State, j: nat | inv(t, j) ensures inv(RecoverRun(t, j), j + 1) {
    }
    IterateKeeps(RecoverRun, inv, s, n);
  }

  lemma FinishAdvances(s: State, r: nat, status: TaskStatus, result: E.Result, files: set<string>)
    requires Valid(s)
    ensures Advances(s, FinishRun(s, r, status, result, files).After(s))
  {
    if FinishRun(s, r, status, result, files).Done? {
      var run := s.runs[r].(status := status, result := Some(result), files := files);
      var again := (status == Failed || status == Interrupted) && Repeatable(s, s.runs[r]);
      EndAdvances(s, r, run, if again then Pending else status);
    }
  }

  lemma CancelAdvances(s: State, session: nat)
    ensures Advances(s, CancelSession(s, session).After(s))
  {
    if session < |s.sessions| {
      var u := CancelSession(s, session).state;
      assert forall t | 0 <= t < |s.tasks| :: u.tasks[t] == Drop(s.tasks[t], session);
    }
  }

  lemma ClaimAdvances(s: State, t: nat, worker: string, backend: Backend)
    ensures Advances(s, ClaimTask(s, t, worker, backend).After(s))
  {
  }

  lemma RetryAdvances(s: State, session: nat, t: nat, reason: string, actor: string)
    ensures Advances(s, RetryFailedLocal(s, session, t, reason, actor).After(s))
  {
  }

  lemma CreateAdvances(s: State, session: nat, form: Form, deps: seq<nat>)
    ensures Advances(s, CreateTask(s, session, form, deps).After(s))
  {
  }

  lemma StepAdvances(s: State, op: Op)
    requires Valid(s)
    ensures Advances(s, Step(s, op))
  {
    match op
    case OpFinish(r, status, result, files) => FinishAdvances(s, r, status, result, files);
    case OpRecover => RecoverAdvances(s, |s.runs|);
    case OpCancel(session) => CancelAdvances(s, session);
    case OpCreateSession =>
    case OpCreateTask(session, form, deps) => CreateAdvances(s, session, form, deps);
    case OpClaim(t, worker, backend) => ClaimAdvances(s, t, worker, backend);
    case OpRetry(session, t, reason, actor) => RetryAdvances(s, session, t, reason, actor);
    case OpPause(_) =>
    case OpResume(_) =>
    case OpQuarantine(_, _, _) =>
    case OpCheckpoint(_, _) =>
  }

  lemma {:induction false} StepsAdvance(s: State, ops: seq<Op>)
    requires Valid(s)
    ensures Advances(s, Steps(s, ops)) && Valid(Steps(s, ops))
  {
    if |ops| > 0 {
      StepsAdvance(s, ops[..|ops| - 1]);
      StepAdvances(Steps(s, ops[..|ops| - 1]), ops[|ops| - 1]);
      StepKeepsValid(Steps(s, ops[..|ops| - 1]), ops[|ops| - 1]);
      AdvancesTransitively(s, Steps(s, ops[..|ops| - 1]), Steps(s, ops));
    }
  }

  lemma EmptyIsValid()
    ensures Valid(Empty())
  {
  }

  // ---- single owner ----------------------------------------------------------------------------

  /** Under every interleaving, a task is running exactly while one run of it is, that run is the one its
      task names, and no task has two. */
  lemma SingleOwner(ops: seq<Op>, t: nat)
    requires t < |Steps(Empty(), ops).tasks|
    ensures var s := Steps(Empty(), ops);
            && (s.tasks[t].status == Running <==>
                  exists r :: 0 <= r < |s.runs| && s.runs[r].task == t && s.runs[r].status == Running)
            && (forall r | 0 <= r < |s.runs| && s.runs[r].task == t && s.runs[r].status == Running ::
                  s.tasks[t].active == Some(r))
  {
    var s := Steps(Empty(), ops);
    EmptyIsValid();
    StepsKeepValid(Empty(), ops);
    assert TaskOk(s, t);
    forall r | 0 <= r < |s.runs| && s.runs[r].task == t && s.runs[r].status == Running
      ensures s.tasks[t].active == Some(r)
    {
      assert RunOk(s, r);
    }
  }

  /** A run that has ended never changes again, so its worker's late report is refused. */
  lemma EndedRunIsFrozen(s: State, r: nat, ops: seq<Op>, status: TaskStatus, result: E.Result, files: set<string>)
    requires Valid(s) && r < |s.runs| && s.runs[r].status != Running
    ensures var u := Steps(s, ops);
            && r < |u.runs| && u.runs[r] == s.runs[r]
            && FinishRun(u, r, status, result, files).After(u) == u
            && FinishRun(u, r, status, result, files).Refused?
  {
    StepsAdvance(s, ops);
  }

  /** The sessions are the same, but for some that were cancelling and are cancelled. */
  ghost predicate OnlyCancels(a: seq<Session>, b: seq<Session>) {
    && |a| == |b|
    && forall i | 0 <= i < |a| :: a[i] == b[i] || (a[i].status == Cancelling && b[i].status == Cancelled)
  }

  lemma RecoverOnlyCancels(s: State, n: nat)
    ensures OnlyCancels(s.sessions, RecoverUpTo(s, n).sessions)
  {
    var inv := (t: State, j: nat) => OnlyCancels(s.sessions, t.sessions);
    forall t: State, j: nat | inv(t, j) ensures inv(RecoverRun(t, j), j + 1) {
    }
    IterateKeeps(RecoverRun, inv, s, n);
  }

  /** After recovery nothing runs, and each session that was cancelling is cancelled. A worker that outlived
      the crash cannot change any task with its old run, ever after. */
  lemma RecoverSettles(s: State, ops: seq<Op>, r: nat, status: TaskStatus, result: E.Result, files: set<string>)
    requires Valid(s) && r < |s.runs|
    ensures var u := Recover(s);
            && (forall t | 0 <= t < |u.tasks| :: u.tasks[t].status != Running)
            && |u.sessions| == |s.sessions|
            && (forall i | 0 <= i < |u.sessions| ::
                  u.sessions[i].status == if s.sessions[i].status == Cancelling then Cancelled
                                          else s.sessions[i].status)
            && FinishRun(Steps(u, ops), r, status, result, files).Refused?
  {
    var u := Recover(s);
    RecoverAdvances(s, |s.runs|);
    EndedRunIsFrozen(u, r, ops, status, result, files);
    forall t | 0 <= t < |u.tasks| ensures u.tasks[t].status != Running {
      assert TaskOk(u, t);
    }
    RecoverOnlyCancels(s, |s.runs|);
    forall i | 0 <= i < |u.sessions|
      ensures u.sessions[i].status == if s.sessions[i].status == Cancelling then Cancelled else s.sessions[i].status
    {
      assert SessionOk(u, i);
    }
  }

  // ---- cloud work is never retried -------------------------------------------------------------

  /** A cloud run is the last one its task ever gets, whatever ends it and whoever asks for a retry. */
  lemma CloudRunIsLast(s: State, r: nat, ops: seq<Op>, session: nat, reason: string, actor: string)
    requires Valid(s) && r < |s.runs| && s.runs[r].backend == Cloud
    ensures var u := Steps(s, ops); var t := s.runs[r].task;
            && (forall q | 0 <= q < |u.runs| && u.runs[q].task == t :: q <= r)
            && t < |u.tasks| && u.tasks[t].status != Pending
            && RetryFailedLocal(u, session, t, reason, actor).Refused?
  {
    var u, t := Steps(s, ops), s.runs[r].task;
    StepsAdvance(s, ops);
    assert SameRun(s.runs[r], u.runs[r]);
    assert RunOk(u, r) && TaskOk(u, t);
    forall q | 0 <= q < |u.runs| && u.runs[q].task == t ensures q <= r {
      assert RunOk(u, q);
      if q > r {
        RunsOfMonotone(u.runs, t, r, q);
        RunsOfMonotone(u.runs, t, q, |u.runs|);
      }
    }
    LastRunIsNewest(u, t);
    assert CloudRan(u, t);
  }

  // ---- dependencies ----------------------------------------------------------------------------

  /** Dependencies are older tasks of the same session. Success is for ever. A task that has ever had a
      run had, and for ever after has, all its dependencies succeeded. */
  lemma DependencySafety(s: State, t: nat, ops: seq<Op>)
    requires Valid(s) && t < |s.tasks|
    ensures var u := Steps(s, ops);
            && t < |u.tasks| && u.tasks[t].deps == s.tasks[t].deps
            && (forall d | d in s.tasks[t].deps :: d < t && s.tasks[d].session == s.tasks[t].session)
            && (s.tasks[t].status == Succeeded ==> u.tasks[t].status == Succeeded)
            && (HasRun(s.runs, t) ==>
                  forall d | d in s.tasks[t].deps :: s.tasks[d].status == Succeeded && u.tasks[d].status == Succeeded)
  {
    StepsAdvance(s, ops);
    assert SameTask(s.tasks[t], Steps(s, ops).tasks[t]);
    assert TaskOk(s, t);
    if HasRun(s.runs, t) {
      var r :| 0 <= r < |s.runs| && s.runs[r].task == t;
      RunsOfMonotone(s.runs, t, r, |s.runs|);
    }
  }

  /** The oldest pending task of a session. */
  lemma {:induction false} OldestPending(s: State, session: nat, t: nat) returns (oldest: nat)
    requires t < |s.tasks| && s.tasks[t].session == session && s.tasks[t].status == Pending
    ensures oldest <= t && s.tasks[oldest].session == session && s.tasks[oldest].status == Pending
    ensures forall k | 0 <= k < oldest && s.tasks[k].session == session :: s.tasks[k].status != Pending
  {
    oldest := t;
    if k :| 0 <= k < t && s.tasks[k].session == session && s.tasks[k].status == Pending {
      oldest := OldestPending(s, session, k);
    }
  }

  /** An active session with a pending task but no ready one has a task that is neither pending nor
      succeeded, so a session of pending and succeeded tasks alone is never stuck. */
  lemma Progress(s: State, session: nat, t: nat)
    requires Valid(s) && session < |s.sessions| && s.sessions[session].status == Active
    requires t < |s.tasks| && s.tasks[t].session == session && s.tasks[t].status == Pending
    requires forall k | 0 <= k < |s.tasks| && s.tasks[k].session == session :: !Ready(s, k)
    ensures exists k :: 0 <= k < t && s.tasks[k].session == session
                        && s.tasks[k].status in {Running, Failed, Interrupted, Dropped}
  {
    var oldest := OldestPending(s, session, t);
    assert TaskOk(s, oldest);
    var d :| d in s.tasks[oldest].deps && s.tasks[d].status != Succeeded;
    assert TaskOk(s, d);
    assert s.tasks[d].session == session && s.tasks[d].status in {Running, Failed, Interrupted, Dropped};
  }

  // ---- attempts --------------------------------------------------------------------------------

  /** The transaction is an operator's retry of task `t`, and it is granted. */
  predicate Retries(s: State, op: Op, t: nat) {
    op.OpRetry? && op.task == t && RetryFailedLocal(s, op.session, t, op.reason, op.actor).Done?
  }

  /** How often a retry of task `t` was granted in a run. */
  function RetriesOf(ops: seq<Op>, t: nat): nat {
    if |ops| == 0 then 0
    else
      var before := ops[..|ops| - 1];
      RetriesOf(before, t) + (if Retries(Steps(Empty(), before), ops[|ops| - 1], t) then 1 else 0)
  }

  lemma StepMax(s: State, op: Op, t: nat)
    requires Valid(s) && t < |s.tasks|
    ensures t < |Step(s, op).tasks|
    ensures Step(s, op).tasks[t].max <= s.tasks[t].max + (if Retries(s, op, t) then 1 else 0)
  {
    assert TaskOk(s, t);
    if op.OpRecover? {
      RecoverOnlyStatus(s, |s.runs|);
    }
  }

  lemma NewTaskMax(s: State, op: Op, t: nat)
    requires |s.tasks| <= t < |Step(s, op).tasks|
    ensures Step(s, op).tasks[t].max == Step(s, op).tasks[t].form.maxAttempts
  {
    if op.OpRecover? {
      RecoverOnlyStatus(s, |s.runs|);
    }
  }

  lemma {:induction false} MaxBounded(ops: seq<Op>, t: nat)
    requires t < |Steps(Empty(), ops).tasks|
    ensures var task := Steps(Empty(), ops).tasks[t]; task.max <= task.form.maxAttempts + RetriesOf(ops, t)
  {
    if |ops| > 0 {
      var before, last := ops[..|ops| - 1], ops[|ops| - 1];
      var s := Steps(Empty(), before);
      EmptyIsValid();
      StepsKeepValid(Empty(), before);
      if t < |s.tasks| {
        MaxBounded(before, t);
        StepMax(s, last, t);
        StepAdvances(s, last);
        assert SameTask(s.tasks[t], Step(s, last).tasks[t]);
      } else {
        NewTaskMax(s, last, t);
      }
    }
  }

  /** The attempt count is the number of runs, the runs carry the numbers from one up in order, a pending
      task has an attempt left, and over a whole run of transactions there are at most as many runs of a
      task as it was created with plus the retries that were granted. */
  lemma AttemptAccounting(ops: seq<Op>, t: nat)
    requires t < |Steps(Empty(), ops).tasks|
    ensures var s := Steps(Empty(), ops); var task := s.tasks[t];
            && task.attempts == RunsOf(s.runs, t, |s.runs|)
            && (forall r | 0 <= r < |s.runs| && s.runs[r].task == t ::
                  1 <= s.runs[r].attempt == RunsOf(s.runs, t, r) + 1 <= task.attempts)
            && (task.status == Pending ==> task.attempts < task.max)
            && task.attempts <= task.form.maxAttempts + RetriesOf(ops, t)
  {
    var s := Steps(Empty(), ops);
    EmptyIsValid();
    StepsKeepValid(Empty(), ops);
    assert TaskOk(s, t);
    MaxBounded(ops, t);
    forall r | 0 <= r < |s.runs| && s.runs[r].task == t
      ensures 1 <= s.runs[r].attempt == RunsOf(s.runs, t, r) + 1 <= s.tasks[t].attempts
    {
      assert RunOk(s, r);
      RunsOfMonotone(s.runs, t, r, |s.runs|);
    }
  }

  // ---- stopping --------------------------------------------------------------------------------

  /** A session that is neither active nor paused never is again, and gets no further run. */
  lemma StoppingIsPermanent(s: State, session: nat, ops: seq<Op>)
    requires Valid(s) && session < |s.sessions| && !s.sessions[session].status.Open()
    ensures var u := Steps(s, ops);
            && session < |u.sessions| && !u.sessions[session].status.Open()
            && (forall r | 0 <= r < |u.runs| && u.runs[r].session == session :: r < |s.runs|)
  {
    StepsAdvance(s, ops);
  }

  /** In every reachable state a cancelling session waits for a running task and a cancelled one has
      none. So ending a run of a cancelling session cancels it exactly if that was the last one. */
  lemma CancellationSettles(s: State, r: nat, status: TaskStatus, result: E.Result, files: set<string>)
    requires Valid(s) && r < |s.runs| && s.runs[r].session < |s.sessions|
    requires s.sessions[s.runs[r].session].status == Cancelling
    requires FinishRun(s, r, status, result, files).Done?
    ensures var u := FinishRun(s, r, status, result, files).state; var i := s.runs[r].session;
            && AnyRunning(s.tasks, i)
            && u.sessions[i].status in {Cancelling, Cancelled}
            && (u.sessions[i].status == Cancelled <==>
                  forall t | 0 <= t < |s.tasks| && s.tasks[t].session == i && s.tasks[t].status == Running ::
                    t == s.runs[r].task)
  {
    var u, i := FinishRun(s, r, status, result, files).state, s.runs[r].session;
    FinishKeepsValid(s, r, status, result, files);
    assert SessionOk(s, i) && SessionOk(u, i);
    assert RunOk(s, r) && TaskOk(s, s.runs[r].task);
    forall t | 0 <= t < |s.tasks| && t != s.runs[r].task ensures u.tasks[t] == s.tasks[t] {
    }
    if t :| 0 <= t < |s.tasks| && s.tasks[t].session == i && s.tasks[t].status == Running && t != s.runs[r].task {
      assert u.tasks[t].session == i && u.tasks[t].status == Running;
    }
  }
}
