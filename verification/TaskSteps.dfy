/**
 What each transaction on sessions, tasks and runs does, column by column, and exactly when it commits.

 The conditions and the new rows are written out, apart from the functions that compute them.
*/
module TaskSteps {
  import opened Basics
  import opened Text
  import opened Tasks
  import opened TaskInvariants
  import opened TaskLaws
  import E = Evidence

  /** All rows but this one are as they were. */
  predicate OthersSame<T(==)>(a: seq<T>, b: seq<T>, k: nat) {
    |a| == |b| && forall i | 0 <= i < |a| && i != k :: a[i] == b[i]
  }

  // ---- claiming --------------------------------------------------------------------------------

  /** A pending task of an active session, all of whose dependencies have succeeded. */
  predicate Claimable(s: State, t: nat) {
    && t < |s.tasks| && s.tasks[t].status == Pending
    && s.tasks[t].session < |s.sessions| && s.sessions[s.tasks[t].session].status == Active
    && forall d | d in s.tasks[t].deps :: d < |s.tasks| && s.tasks[d].status == Succeeded
  }

  /** A claim commits exactly for a named worker and a claimable task. It appends one running run, with the
      worker, the backend and the attempt number that it was claimed with, and makes the task name it. */
  lemma ClaimExactly(s: State, t: nat, worker: string, backend: Backend)
    requires Valid(s)
    ensures var a := ClaimTask(s, t, worker, backend);
            && (a.Done? <==> !Blank(worker) && Claimable(s, t))
            && (a.Done? ==>
                  && a.value == |s.runs| && a.state.sessions == s.sessions
                  && a.state.runs == s.runs + [Run(t, s.tasks[t].session, s.tasks[t].attempts + 1, worker, backend,
                                                   Running, None, {})]
                  && OthersSame(s.tasks, a.state.tasks, t)
                  && a.state.tasks[t] == s.tasks[t].(status := Running, attempts := s.tasks[t].attempts + 1,
                                                     active := Some(|s.runs|)))
  {
    ClaimSucceedsExactly(s, t, worker, backend);
  }

  /** A task that was claimed for the cloud never gets another run, and no retry of it is ever granted. */
  lemma CloudClaimIsLast(s: State, t: nat, worker: string, ops: seq<Op>, session: nat, reason: string, actor: string)
    requires Valid(s) && ClaimTask(s, t, worker, Cloud).Done?
    ensures var u := Steps(ClaimTask(s, t, worker, Cloud).state, ops);
            && (forall q | 0 <= q < |u.runs| && u.runs[q].task == t :: q <= |s.runs|)
            && t < |u.tasks| && u.tasks[t].status != Pending
            && RetryFailedLocal(u, session, t, reason, actor).Refused?
  {
    var a := ClaimTask(s, t, worker, Cloud).state;
    ClaimExactly(s, t, worker, Cloud);
    StepKeepsValid(s, OpClaim(t, worker, Cloud));
    CloudRunIsLast(a, |s.runs|, ops, session, reason, actor);
  }

  // ---- ending runs -----------------------------------------------------------------------------

  /** Another attempt follows a run that failed or was interrupted if it was local and the task has attempts
      left. */
  predicate AnotherAttempt(run: Run, task: Task) {
    run.backend == Local && task.attempts < task.max
  }

  /** A session that was cancelling is cancelled once nothing of it runs; no other one changes. */
  predicate SessionsAfter(s: State, u: State, session: nat) {
    && OthersSame(s.sessions, u.sessions, session)
    && (session < |s.sessions| ==>
          u.sessions[session] ==
            if s.sessions[session].status == Cancelling
               && forall t | 0 <= t < |u.tasks| && u.tasks[t].session == session :: u.tasks[t].status != Running
            then s.sessions[session].(status := Cancelled) else s.sessions[session])
  }

  /** Run `r` has ended as `run`, and its task with `status`. */
  predicate EndedAs(s: State, u: State, r: nat, run: Run, status: TaskStatus)
    requires r < |s.runs| && s.runs[r].task < |s.tasks|
  {
    var t := s.runs[r].task;
    && u.runs == s.runs[r := run]
    && u.tasks == s.tasks[t := s.tasks[t].(status := status, active := None)]
    && SessionsAfter(s, u, s.runs[r].session)
  }

  lemma EndsAs(s: State, r: nat, run: Run, status: TaskStatus)
    requires Valid(s) && r < |s.runs| && s.runs[r].status == Running
    ensures s.runs[r].task < |s.tasks| && EndedAs(s, EndRun(s, r, run, status), r, run, status)
  {
    assert RunOk(s, r);
  }

  /** A running run can be ended once, with a terminal status. A failed or interrupted task is pending again
      if another attempt follows, and has the status of the run otherwise. */
  lemma FinishExactly(s: State, r: nat, status: TaskStatus, result: E.Result, files: set<string>)
    requires Valid(s)
    ensures var a := FinishRun(s, r, status, result, files);
            && (a.Done? <==>
                  && status in {Succeeded, Failed, Dropped, Interrupted}
                  && r < |s.runs| && s.runs[r].status == Running)
            && (a.Done? ==>
                  && s.runs[r].task < |s.tasks|
                  && EndedAs(s, a.state, r,
                             s.runs[r].(status := status, result := Some(result), files := files),
                             if status in {Failed, Interrupted} && AnotherAttempt(s.runs[r], s.tasks[s.runs[r].task])
                             then Pending else status))
  {
    if r < |s.runs| && s.runs[r].status == Running {
      assert RunOk(s, r);
      var run := s.runs[r].(status := status, result := Some(result), files := files);
      var again := status in {Failed, Interrupted} && AnotherAttempt(s.runs[r], s.tasks[s.runs[r].task]);
      EndsAs(s, r, run, if again then Pending else status);
    }
  }

  /** What recovery makes of a run, and of a task by its active run. */
  function RecoveredRun(run: Run): Run {
    if run.status == Running then run.(status := Interrupted) else run
  }

  function RecoveredTask(task: Task, runs: seq<Run>): Task {
    if task.status == Running && task.active.Some? && task.active.value < |runs| then
      task.(status := if AnotherAttempt(runs[task.active.value], task) then Pending else Failed, active := None)
    else task
  }

  /** The first `n` runs are recovered, and so are the tasks that they belong to. */
  ghost predicate RecoveredSoFar(s: State, u: State, n: nat) {
    && |u.runs| == |s.runs| && |u.tasks| == |s.tasks|
    && (forall r | 0 <= r < |s.runs| :: u.runs[r] == if r < n then RecoveredRun(s.runs[r]) else s.runs[r])
    && (forall t | 0 <= t < |s.tasks| ::
          u.tasks[t] == if s.tasks[t].active.Some? && s.tasks[t].active.value < n then RecoveredTask(s.tasks[t], s.runs)
                        else s.tasks[t])
  }

  lemma RecoversOneMore(s: State, u: State, n: nat)
    requires Valid(s) && Valid(u) && RecoveredSoFar(s, u, n) && n < |s.runs|
    ensures RecoveredSoFar(s, RecoverRun(u, n), n + 1)
  {
    assert RunOk(s, n) && RunOk(u, n);
    var t := s.runs[n].task;
    assert TaskOk(s, t) && TaskOk(u, t);
    forall k | 0 <= k < |s.tasks| && s.tasks[k].active == Some(n) ensures k == t && s.runs[n].status == Running {
      assert TaskOk(s, k);
    }
    if u.runs[n].status == Running {
      EndsAs(u, n, u.runs[n].(status := Interrupted), if Repeatable(u, u.runs[n]) then Pending else Failed);
    }
  }

  /** After a crash, each running run is interrupted. Its task is pending again if another attempt follows, and
      has failed otherwise. */
  lemma RecoverExactly(s: State)
    requires Valid(s)
    ensures var u := Recover(s);
            && |u.runs| == |s.runs| && |u.tasks| == |s.tasks|
            && (forall r | 0 <= r < |s.runs| :: u.runs[r] == RecoveredRun(s.runs[r]))
            && (forall t | 0 <= t < |s.tasks| && s.tasks[t].status != Running :: u.tasks[t] == s.tasks[t])
            && (forall t | 0 <= t < |s.tasks| && s.tasks[t].status == Running ::
                  && s.tasks[t].active.Some? && s.tasks[t].active.value < |s.runs|
                  && u.tasks[t] == s.tasks[t].(
                       active := None,
                       status := if AnotherAttempt(s.runs[s.tasks[t].active.value], s.tasks[t]) then Pending
                                 else Failed))
  {
    var inv := (u: State, n: nat) => Valid(u) && (n <= |s.runs| ==> RecoveredSoFar(s, u, n));
    forall u: State, n: nat | n < |s.runs| && inv(u, n) ensures inv(RecoverRun(u, n), n + 1) {
      RecoverRunKeepsValid(u, n);
      RecoversOneMore(s, u, n);
    }
    IterateKeeps(RecoverRun, inv, s, |s.runs|);
    var u := Recover(s);
    assert RecoveredSoFar(s, u, |s.runs|);
    forall t | 0 <= t < |s.tasks| && s.tasks[t].status == Running
      ensures s.tasks[t].active.Some? && s.tasks[t].active.value < |s.runs|
      ensures u.tasks[t] == RecoveredTask(s.tasks[t], s.runs)
    {
      assert TaskOk(s, t);
    }
    forall t | 0 <= t < |s.tasks| && s.tasks[t].status != Running ensures s.tasks[t].active.None? {
      assert TaskOk(s, t);
    }
  }

  // ---- operators -------------------------------------------------------------------------------

  /** A retry is granted exactly for a failed or interrupted task of the session, which is active or paused, if
      a reason and an actor are given and no run of the task was in the cloud. */
  lemma RetryExactly(s: State, session: nat, t: nat, reason: string, actor: string)
    requires Valid(s)
    ensures var a := RetryFailedLocal(s, session, t, reason, actor);
            && (a.Done? <==>
                  && !Blank(reason) && !Blank(actor)
                  && t < |s.tasks| && s.tasks[t].session == session && s.tasks[t].status in {Failed, Interrupted}
                  && session < |s.sessions|
                  && s.sessions[session].status in {SessionStatus.Active, SessionStatus.Paused}
                  && forall r | 0 <= r < |s.runs| && s.runs[r].task == t :: s.runs[r].backend != Cloud)
            && (a.Done? ==>
                  && a.state.sessions == s.sessions && a.state.runs == s.runs && OthersSame(s.tasks, a.state.tasks, t)
                  && a.state.tasks[t] == s.tasks[t].(
                       status := Pending, active := None,
                       max := if s.tasks[t].attempts < s.tasks[t].max then s.tasks[t].max else s.tasks[t].attempts + 1))
  {
    if t < |s.tasks| && s.tasks[t].status in {Failed, Interrupted} {
      assert TaskOk(s, t);
      LastRunIsNewest(s, t);
    }
  }

  /** A task with a key that the session has already is that task. Otherwise one is inserted, pending, with
      the given description, if its title is not blank, it may be attempted, the session exists and the
      dependencies are tasks of it. */
  lemma CreateTaskExactly(s: State, session: nat, form: Form, deps: seq<nat>)
    ensures var a := CreateTask(s, session, form, deps); var key := Strip(form.key);
            && (a.Refused? <==>
                  || Blank(form.title) || form.maxAttempts < 1 || session >= |s.sessions|
                  || (!Keyed(s.tasks, session, key)
                      && exists d :: d in deps && (d >= |s.tasks| || s.tasks[d].session != session)))
            && (a.Done? && Keyed(s.tasks, session, key) ==>
                  && a.state == s && a.value < |s.tasks|
                  && s.tasks[a.value].session == session && s.tasks[a.value].form.key == key)
            && (a.Done? && !Keyed(s.tasks, session, key) ==>
                  && a.value == |s.tasks| && a.state.sessions == s.sessions && a.state.runs == s.runs
                  && |a.state.tasks| == |s.tasks| + 1 && a.state.tasks[..|s.tasks|] == s.tasks
                  && var task := a.state.tasks[|s.tasks|];
                     && task.session == session && task.form == form.(key := key)
                     && (forall d :: d in task.deps <==> d in deps)
                     && task.status == Pending && task.max == form.maxAttempts && task.attempts == 0
                     && task.active == None)
  {
  }

  predicate FirstAt(ids: seq<nat>, d: nat, p: nat) {
    p < |ids| && ids[p] == d && d !in ids[..p]
  }

  /** Its dependencies are listed once each, in the order in which they are first named. */
  lemma {:induction false} DependenciesInOrder(ids: seq<nat>, i: nat, j: nat, p: nat, q: nat)
    requires i < j < |Distinct(ids)| && FirstAt(ids, Distinct(ids)[i], p) && FirstAt(ids, Distinct(ids)[j], q)
    ensures p < q
  {
    var n := |ids| - 1;
    var before := ids[..n];
    var r := Distinct(before);
    assert r[i] in before;
    FirstInPrefix(ids, n, r[i], p);
    if j < |r| {
      assert r[j] in before;
      FirstInPrefix(ids, n, r[j], q);
      DependenciesInOrder(before, i, j, p, q);
    }
  }

  lemma FirstInPrefix(ids: seq<nat>, n: nat, d: nat, p: nat)
    requires n <= |ids| && d in ids[..n] && FirstAt(ids, d, p)
    ensures p < n && FirstAt(ids[..n], d, p)
  {
    assert ids[..n][..if p < n then p else n] == ids[..if p < n then p else n];
  }

  predicate Keyed(tasks: seq<Task>, session: nat, key: string) {
    key != "" && exists t :: 0 <= t < |tasks| && tasks[t].session == session && tasks[t].form.key == key
  }

  /** A new session is active and awaits approval. */
  lemma CreateSessionExactly(s: State)
    ensures CreateSession(s) ==
            Done(s.(sessions := s.sessions + [Session(SessionStatus.Active, E.Approval)]), |s.sessions|)
  {
  }

  /** Pausing and resuming move the session from the one status to the other. */
  lemma PauseAndResumeExactly(s: State, session: nat)
    ensures Step(s, OpPause(session)) ==
            if session < |s.sessions| && s.sessions[session].status == SessionStatus.Active
            then s.(sessions := s.sessions[session := s.sessions[session].(status := SessionStatus.Paused)]) else s
    ensures Step(s, OpResume(session)) ==
            if session < |s.sessions| && s.sessions[session].status == SessionStatus.Paused
            then s.(sessions := s.sessions[session := s.sessions[session].(status := SessionStatus.Active)]) else s
  {
  }

  /** A session can be quarantined unless it is complete or cancelled. */
  lemma QuarantineExactly(s: State, session: nat, reason: string, actor: string)
    ensures var a := QuarantineSession(s, session, reason, actor);
            && (a.Done? <==>
                  && !Blank(reason) && !Blank(actor) && session < |s.sessions|
                  && s.sessions[session].status !in {SessionStatus.Complete, SessionStatus.Cancelled})
            && (a.Done? ==>
                  var quarantined := s.sessions[session].(status := SessionStatus.Quarantined);
                  a.state == s.(sessions := s.sessions[session := quarantined]))
  {
  }

  /** Cancelling drops the session's pending and blocked tasks and leaves it cancelling while one is running. */
  lemma CancelExactly(s: State, session: nat)
    ensures var a := CancelSession(s, session);
            && (a.Done? <==> session < |s.sessions|)
            && (a.Done? ==>
                  && a.state.runs == s.runs && |a.state.tasks| == |s.tasks|
                  && (forall t | 0 <= t < |s.tasks| ::
                        a.state.tasks[t] ==
                          if s.tasks[t].session == session && s.tasks[t].status in {Pending, Blocked}
                          then s.tasks[t].(status := Dropped) else s.tasks[t])
                  && OthersSame(s.sessions, a.state.sessions, session)
                  && a.state.sessions[session] == s.sessions[session].(
                       status := if exists t :: 0 <= t < |s.tasks| && s.tasks[t].session == session
                                                && s.tasks[t].status == Running
                                 then Cancelling else Cancelled))
  {
    if session < |s.sessions| {
      var u := CancelSession(s, session).state;
      assert forall t | 0 <= t < |s.tasks| :: u.tasks[t] == Drop(s.tasks[t], session);
    }
  }

  /** A checkpoint records its phase, and at the last one completes the session. */
  lemma CheckpointExactly(s: State, session: nat, phase: E.Phase)
    ensures var a := CheckpointSession(s, session, phase);
            && (a.Done? <==> session < |s.sessions|)
            && (a.Done? ==>
                  && a.state.tasks == s.tasks && a.state.runs == s.runs
                  && OthersSame(s.sessions, a.state.sessions, session)
                  && a.state.sessions[session].phase == phase
                  && a.state.sessions[session].status ==
                     (if phase == E.Complete then SessionStatus.Complete else s.sessions[session].status))
  {
  }
}
