/**
 What workers owe each other, and what it buys: every success on record was earned.

 A transaction is good, for one session, if it reports success of its tasks only with earned evidence,
 completes it only when the whole plan is there and has succeeded, and creates tasks in it only as a
 planner does. A caller is careful if it makes good transactions for as long as everybody has; callers that are
 careful together make good transactions only.
*/
module Honesty {
  import opened Basics
  import opened Text
  import opened Tasks
  import opened TaskInvariants
  import opened TaskLaws
  import opened Plan
  import E = Evidence

  predicate EarnedFor(task: Task, result: E.Result, files: set<string>) {
    E.Earned(task.form.kind, task.form.phase, task.form.contract, result, files)
  }

  predicate AllSucceeded(tasks: seq<Task>, session: nat) {
    forall t | 0 <= t < |tasks| && tasks[t].session == session :: tasks[t].status == Succeeded
  }

  /** The run is one of the session's tasks. */
  predicate Concerns(s: State, session: nat, r: nat) {
    r < |s.runs| && s.runs[r].task < |s.tasks| && s.tasks[s.runs[r].task].session == session
  }

  ghost predicate Good(s: State, session: nat, op: Op) {
    && Planning(s, session, op)
    && (op.OpFinish? && op.status == Succeeded && Concerns(s, session, op.run) ==>
          EarnedFor(s.tasks[s.runs[op.run].task], op.result, op.files))
    && (op.OpCheckpoint? && op.session == session && op.phase == E.Complete ==>
          Materialized(s, session) && AllSucceeded(s.tasks, session))
  }

  /** Transaction number `i` of the trace is good where it happens. */
  ghost predicate GoodAt(s: State, session: nat, acts: seq<Act>, i: nat)
    requires i < |acts|
  {
    Good(Play(s, acts[..i]), session, acts[i].op)
  }

  /** Every transaction of the trace is good. */
  ghost predicate AllGood(s: State, session: nat, acts: seq<Act>) {
    forall i | 0 <= i < |acts| :: GoodAt(s, session, acts, i)
  }

  lemma GoodInConcat(s: State, session: nat, a: seq<Act>, b: seq<Act>, i: nat)
    requires i < |a| + |b|
    ensures GoodAt(s, session, a + b, i) <==>
            if i < |a| then GoodAt(s, session, a, i) else GoodAt(Play(s, a), session, b, i - |a|)
  {
    if i < |a| {
      assert (a + b)[..i] == a[..i];
    } else {
      assert (a + b)[..i] == a + b[..i - |a|];
      PlayConcat(s, a, b[..i - |a|]);
    }
  }

  lemma GoodConcat(s: State, session: nat, a: seq<Act>, b: seq<Act>)
    ensures AllGood(s, session, a + b) <==> AllGood(s, session, a) && AllGood(Play(s, a), session, b)
  {
    forall i | 0 <= i < |a| + |b|
      ensures GoodAt(s, session, a + b, i) <==>
              if i < |a| then GoodAt(s, session, a, i) else GoodAt(Play(s, a), session, b, i - |a|)
    {
      GoodInConcat(s, session, a, b, i);
    }
    if AllGood(s, session, a + b) {
      forall i | 0 <= i < |a| ensures GoodAt(s, session, a, i) {
        assert GoodAt(s, session, a + b, i);
      }
      forall i | 0 <= i < |b| ensures GoodAt(Play(s, a), session, b, i) {
        assert GoodAt(s, session, a + b, |a| + i);
      }
    }
  }

  /** Each transaction of the caller itself is good if all transactions before it were. */
  ghost predicate Careful(s: State, session: nat, acts: seq<Act>) {
    forall i | 0 <= i < |acts| && acts[i].mine && (forall k | 0 <= k < i :: GoodAt(s, session, acts, k)) ::
      GoodAt(s, session, acts, i)
  }

  /** Carefulness of a trace from that of its parts, the second after a good first. */
  lemma CarefulThen(s: State, session: nat, a: seq<Act>, b: seq<Act>)
    requires Careful(s, session, a)
    requires AllGood(s, session, a) ==> Careful(Play(s, a), session, b)
    ensures Careful(s, session, a + b)
  {
    forall i | 0 <= i < |a| + |b|
      ensures GoodAt(s, session, a + b, i) <==>
              if i < |a| then GoodAt(s, session, a, i) else GoodAt(Play(s, a), session, b, i - |a|)
    {
      GoodInConcat(s, session, a, b, i);
    }
    forall i | 0 <= i < |a| + |b| && (a + b)[i].mine && (forall k | 0 <= k < i :: GoodAt(s, session, a + b, k))
      ensures GoodAt(s, session, a + b, i)
    {
      if i >= |a| {
        forall k | 0 <= k < |a| ensures GoodAt(s, session, a, k) {
          assert GoodAt(s, session, a + b, k);
        }
        forall k | 0 <= k < i - |a| ensures GoodAt(Play(s, a), session, b, k) {
          assert GoodAt(s, session, a + b, |a| + k);
        }
      } else {
        forall k | 0 <= k < i ensures GoodAt(s, session, a, k) {
          assert GoodAt(s, session, a + b, k);
        }
      }
    }
  }

  /** Others act first. */
  lemma CarefulAfterOthers(s: State, session: nat, ops: seq<Op>, rest: seq<Act>)
    requires AllGood(s, session, Others(ops)) ==> Careful(Play(s, Others(ops)), session, rest)
    ensures Careful(s, session, Others(ops) + rest)
  {
    CarefulThen(s, session, Others(ops), rest);
  }

  /** The caller itself acts first. */
  lemma CarefulAfterMine(s: State, session: nat, op: Op, rest: seq<Act>)
    requires Good(s, session, op) && Careful(Step(s, op), session, rest)
    ensures Careful(s, session, [Act(true, op)] + rest)
  {
    GoodOne(s, session, Act(true, op));
    PlayOne(s, Act(true, op));
    CarefulThen(s, session, [Act(true, op)], rest);
  }

  lemma CarefulPrefix(s: State, session: nat, a: seq<Act>, acts: seq<Act>)
    requires a <= acts && Careful(s, session, acts)
    ensures Careful(s, session, a)
  {
    forall i | 0 <= i < |a| ensures GoodAt(s, session, a, i) <==> GoodAt(s, session, acts, i) {
      assert a[..i] == acts[..i];
    }
  }

  lemma GoodOne(s: State, session: nat, act: Act)
    requires Good(s, session, act.op)
    ensures AllGood(s, session, [act])
  {
    assert [act][..0] == [];
  }

  // ---- evidence --------------------------------------------------------------------------------

  predicate SucceededRun(s: State, r: nat, t: nat) {
    r < |s.runs| && s.runs[r].task == t && s.runs[r].status == Succeeded
  }

  ghost predicate SucceededBefore(s: State, r: nat, t: nat) {
    exists q: nat :: q < r && SucceededRun(s, q, t)
  }

  /** The result on record earns the success. */
  ghost predicate RunEarned(s: State, r: nat)
    requires r < |s.runs|
  {
    var run := s.runs[r];
    run.task < |s.tasks| && run.result.Some? && EarnedFor(s.tasks[run.task], run.result.value, run.files)
  }

  /** Before the run was claimed, each dependency of its task had a run that succeeded. */
  ghost predicate RunInOrder(s: State, r: nat)
    requires r < |s.runs| && s.runs[r].task < |s.tasks|
  {
    forall d | d in s.tasks[s.runs[r].task].deps :: SucceededBefore(s, r, d)
  }

  /** Every success of the session's tasks is earned, rests on a run, and came in order. */
  ghost predicate Evidenced(s: State, session: nat) {
    && (forall r | 0 <= r < |s.runs| && Concerns(s, session, r) && s.runs[r].status == Succeeded :: RunEarned(s, r))
    && (forall t | 0 <= t < |s.tasks| && s.tasks[t].session == session && s.tasks[t].status == Succeeded ::
          exists r :: SucceededRun(s, r, t))
    && (forall r | 0 <= r < |s.runs| && Concerns(s, session, r) :: RunInOrder(s, r))
  }

  lemma StillSucceededRun(s: State, u: State, r: nat, t: nat)
    requires Advances(s, u) && SucceededRun(s, r, t)
    ensures SucceededRun(u, r, t)
  {
  }

  lemma StillConcerns(s: State, u: State, session: nat, r: nat)
    requires Valid(s) && Advances(s, u) && r < |s.runs|
    ensures Concerns(u, session, r) <==> Concerns(s, session, r)
  {
    assert RunOk(s, r) && SameRun(s.runs[r], u.runs[r]);
    assert SameTask(s.tasks[s.runs[r].task], u.tasks[s.runs[r].task]);
  }

  lemma StillInOrder(s: State, u: State, r: nat)
    requires Valid(s) && Advances(s, u) && r < |s.runs| && s.runs[r].task < |s.tasks| && RunInOrder(s, r)
    ensures r < |u.runs| && u.runs[r].task < |u.tasks| && RunInOrder(u, r)
  {
    assert SameRun(s.runs[r], u.runs[r]);
    var t := s.runs[r].task;
    assert SameTask(s.tasks[t], u.tasks[t]);
    forall d | d in u.tasks[t].deps ensures SucceededBefore(u, r, d) {
      var q: nat :| q < r && SucceededRun(s, q, d);
      StillSucceededRun(s, u, q, d);
    }
  }

  lemma StillEarned(s: State, u: State, r: nat)
    requires Advances(s, u) && r < |s.runs| && s.runs[r].status == Succeeded && RunEarned(s, r)
    ensures RunEarned(u, r)
  {
    assert SameTask(s.tasks[s.runs[r].task], u.tasks[s.runs[r].task]);
  }

  /** The session's runs that were there stay in order, and so are new ones. */
  lemma OrderKept(s: State, u: State, session: nat)
    requires Valid(s) && Evidenced(s, session) && Advances(s, u)
    requires forall r | |s.runs| <= r < |u.runs| && Concerns(u, session, r) :: RunInOrder(u, r)
    ensures forall r | 0 <= r < |u.runs| && Concerns(u, session, r) :: RunInOrder(u, r)
  {
    forall r | 0 <= r < |s.runs| && Concerns(u, session, r) ensures RunInOrder(u, r) {
      StillConcerns(s, u, session, r);
      StillInOrder(s, u, r);
    }
  }

  /** A success that is on record stays so, with the run that it rests on. */
  lemma RecordKept(s: State, u: State, session: nat, t: nat)
    requires Evidenced(s, session) && Advances(s, u)
    requires t < |s.tasks| && s.tasks[t].session == session && s.tasks[t].status == Succeeded
    ensures exists r :: SucceededRun(u, r, t)
  {
    var r :| SucceededRun(s, r, t);
    StillSucceededRun(s, u, r, t);
  }

  /** Evidence is kept by any step that reports no success of the session. */
  lemma EvidenceKept(s: State, u: State, session: nat)
    requires Valid(s) && Evidenced(s, session) && Advances(s, u)
    requires forall r | 0 <= r < |u.runs| && Concerns(u, session, r) && u.runs[r].status == Succeeded ::
               r < |s.runs| && s.runs[r].status == Succeeded
    requires forall t | 0 <= t < |u.tasks| && u.tasks[t].session == session && u.tasks[t].status == Succeeded ::
               t < |s.tasks| && s.tasks[t].status == Succeeded
    requires forall r | |s.runs| <= r < |u.runs| && Concerns(u, session, r) :: RunInOrder(u, r)
    ensures Evidenced(u, session)
  {
    OrderKept(s, u, session);
    forall r | 0 <= r < |u.runs| && Concerns(u, session, r) && u.runs[r].status == Succeeded ensures RunEarned(u, r) {
      StillConcerns(s, u, session, r);
      StillEarned(s, u, r);
    }
    forall t | 0 <= t < |u.tasks| && u.tasks[t].session == session && u.tasks[t].status == Succeeded
      ensures exists r :: SucceededRun(u, r, t)
    {
      assert SameTask(s.tasks[t], u.tasks[t]);
      RecordKept(s, u, session, t);
    }
  }

  lemma ClaimKeepsEvidence(s: State, session: nat, t: nat, worker: string, backend: Backend)
    requires Valid(s) && Evidenced(s, session)
    ensures Evidenced(ClaimTask(s, t, worker, backend).After(s), session)
  {
    var u := ClaimTask(s, t, worker, backend).After(s);
    ClaimAdvances(s, t, worker, backend);
    if u != s {
      var r := |s.runs|;
      if s.tasks[t].session == session {
        assert TaskOk(s, t);
        forall d | d in u.tasks[t].deps ensures SucceededBefore(u, r, d) {
          var q :| SucceededRun(s, q, d);
          StillSucceededRun(s, u, q, d);
        }
        assert RunInOrder(u, r);
      }
      EvidenceKept(s, u, session);
    }
  }

  /** A run may end in any way, if it is not a success of the session. */
  lemma EndKeepsEvidence(s: State, session: nat, r: nat, run: Run, status: TaskStatus)
    requires Valid(s) && Evidenced(s, session) && Ending(s, r, run, status)
    requires !Concerns(s, session, r) || (run.status != Succeeded && status != Succeeded)
    ensures Evidenced(EndRun(s, r, run, status), session)
  {
    var u := EndRun(s, r, run, status);
    EndAdvances(s, r, run, status);
    assert RunOk(s, r);
    StillConcerns(s, u, session, r);
    EvidenceKept(s, u, session);
  }

  lemma SuccessKeepsEvidence(s: State, session: nat, r: nat, result: E.Result, files: set<string>)
    requires Valid(s) && Evidenced(s, session) && r < |s.runs| && s.runs[r].status == Running
    requires Concerns(s, session, r) && EarnedFor(s.tasks[s.runs[r].task], result, files)
    ensures var run := s.runs[r].(status := Succeeded, result := Some(result), files := files);
            Evidenced(EndRun(s, r, run, Succeeded), session)
  {
    var run := s.runs[r].(status := Succeeded, result := Some(result), files := files);
    var u := EndRun(s, r, run, Succeeded);
    EndAdvances(s, r, run, Succeeded);
    assert SucceededRun(u, r, run.task);
    OrderKept(s, u, session);
    forall q | 0 <= q < |u.runs| && Concerns(u, session, q) && u.runs[q].status == Succeeded ensures RunEarned(u, q) {
      StillConcerns(s, u, session, q);
      assert SameTask(s.tasks[s.runs[q].task], u.tasks[s.runs[q].task]);
    }
    forall t | 0 <= t < |u.tasks| && u.tasks[t].session == session && u.tasks[t].status == Succeeded
      ensures exists q :: SucceededRun(u, q, t)
    {
      if t != run.task {
        assert SameTask(s.tasks[t], u.tasks[t]);
        RecordKept(s, u, session, t);
      }
    }
  }

  lemma FinishKeepsEvidence(s: State, session: nat, op: Op)
    requires Valid(s) && Evidenced(s, session) && op.OpFinish? && Good(s, session, op)
    ensures Evidenced(Step(s, op), session)
  {
    var r, status := op.run, op.status;
    if FinishRun(s, r, status, op.result, op.files).Done? {
      var run := s.runs[r].(status := status, result := Some(op.result), files := op.files);
      var again := (status == Failed || status == Interrupted) && Repeatable(s, s.runs[r]);
      assert RunOk(s, r);
      if status == Succeeded && Concerns(s, session, r) {
        SuccessKeepsEvidence(s, session, r, op.result, op.files);
      } else {
        EndKeepsEvidence(s, session, r, run, if again then Pending else status);
      }
    }
  }

  lemma RecoverRunKeepsEvidence(s: State, session: nat, r: nat)
    requires Valid(s) && Evidenced(s, session)
    ensures Evidenced(RecoverRun(s, r), session)
  {
    if r < |s.runs| && s.runs[r].status == Running && s.runs[r].task < |s.tasks| {
      var run := s.runs[r];
      EndKeepsEvidence(s, session, r, run.(status := Interrupted), if Repeatable(s, run) then Pending else Failed);
    }
  }

  lemma RecoverKeepsEvidence(s: State, session: nat, n: nat)
    requires Valid(s) && Evidenced(s, session)
    ensures Evidenced(RecoverUpTo(s, n), session)
  {
    var inv := (t: State, j: nat) => Valid(t) && Evidenced(t, session);
    forall t: State, j: nat | inv(t, j) ensures inv(RecoverRun(t, j), j + 1) {
      RecoverRunKeepsValid(t, j);
      RecoverRunKeepsEvidence(t, session, j);
    }
    IterateKeeps(RecoverRun, inv, s, n);
  }

  lemma OperatorKeepsEvidence(s: State, session: nat, op: Op)
    requires Valid(s) && Evidenced(s, session)
    requires !op.OpClaim? && !op.OpFinish? && !op.OpRecover?
    ensures Evidenced(Step(s, op), session)
  {
    StepAdvances(s, op);
    EvidenceKept(s, Step(s, op), session);
  }

  lemma StepKeepsEvidence(s: State, session: nat, op: Op)
    requires Valid(s) && Evidenced(s, session) && Good(s, session, op)
    ensures Evidenced(Step(s, op), session)
  {
    if op.OpClaim? {
      ClaimKeepsEvidence(s, session, op.task, op.worker, op.backend);
    } else if op.OpFinish? {
      FinishKeepsEvidence(s, session, op);
    } else if op.OpRecover? {
      RecoverKeepsEvidence(s, session, |s.runs|);
    } else {
      OperatorKeepsEvidence(s, session, op);
    }
  }

  // ---- whole runs of good transactions ---------------------------------------------------------

  /** If the session is complete, the whole plan is there and every one of its tasks has succeeded. */
  ghost predicate CompleteIsEarned(s: State, session: nat) {
    && session < |s.sessions|
    && (s.sessions[session].status == Complete ==> Materialized(s, session) && AllSucceeded(s.tasks, session))
  }

  /** What good transactions keep of a session: its tasks are a beginning of the plan, in the first place of
      none of it. */
  ghost predicate Honest(s: State, session: nat) {
    Valid(s) && Evidenced(s, session) && Chain(s.tasks, session) && CompleteIsEarned(s, session)
  }

  lemma GoodStepKeepsPlan(s: State, session: nat, op: Op)
    requires Valid(s) && Materialized(s, session) && Good(s, session, op)
    ensures Materialized(Step(s, op), session)
    ensures Ids(Step(s, op).tasks, session) == Ids(s.tasks, session)
  {
    StepKeepsChain(s, session, op);
  }

  /** The status of a session becomes complete only by a checkpoint. */
  lemma OnlyCheckpointCompletes(s: State, session: nat, op: Op)
    requires session < |s.sessions| && s.sessions[session].status != Complete
    requires !(op.OpCheckpoint? && op.session == session && op.phase == E.Complete)
    ensures session < |Step(s, op).sessions| && Step(s, op).sessions[session].status != Complete
  {
    if op.OpRecover? {
      RecoverOnlyCancels(s, |s.runs|);
    }
  }

  lemma SuccessSpreads(s: State, u: State, session: nat)
    requires Advances(s, u) && AllSucceeded(s.tasks, session)
    requires Ids(u.tasks, session) == Ids(s.tasks, session)
    ensures AllSucceeded(u.tasks, session)
  {
    forall t | 0 <= t < |u.tasks| && u.tasks[t].session == session ensures u.tasks[t].status == Succeeded {
      var k := Rank(u.tasks, session, t);
      assert s.tasks[Ids(s.tasks, session)[k]].status == Succeeded;
    }
  }

  lemma GoodStepKeepsHonest(s: State, session: nat, op: Op)
    requires Honest(s, session) && Good(s, session, op)
    ensures Honest(Step(s, op), session)
    ensures Materialized(s, session) ==>
              Materialized(Step(s, op), session) && Ids(Step(s, op).tasks, session) == Ids(s.tasks, session)
  {
    var u := Step(s, op);
    StepKeepsValid(s, op);
    StepAdvances(s, op);
    StepKeepsEvidence(s, session, op);
    StepKeepsChain(s, session, op);
    if Materialized(s, session) {
      GoodStepKeepsPlan(s, session, op);
    }
    if u.sessions[session].status == Complete {
      if s.sessions[session].status != Complete {
        if !(op.OpCheckpoint? && op.session == session && op.phase == E.Complete) {
          OnlyCheckpointCompletes(s, session, op);
        }
      }
      SuccessSpreads(s, u, session);
    }
  }

  lemma GoodButLast(s: State, session: nat, acts: seq<Act>)
    requires |acts| > 0 && AllGood(s, session, acts)
    ensures AllGood(s, session, acts[..|acts| - 1])
    ensures Good(Play(s, acts[..|acts| - 1]), session, acts[|acts| - 1].op)
  {
    var before := acts[..|acts| - 1];
    assert acts == before + acts[|acts| - 1..];
    GoodConcat(s, session, before, acts[|acts| - 1..]);
    assert GoodAt(s, session, acts, |acts| - 1);
  }

  lemma {:induction false} GoodActsKeepHonest(s: State, session: nat, acts: seq<Act>)
    requires Honest(s, session) && AllGood(s, session, acts)
    ensures Honest(Play(s, acts), session)
    ensures Materialized(s, session) ==>
              Materialized(Play(s, acts), session) && Ids(Play(s, acts).tasks, session) == Ids(s.tasks, session)
  {
    if |acts| > 0 {
      var before := acts[..|acts| - 1];
      GoodButLast(s, session, acts);
      GoodActsKeepHonest(s, session, before);
      GoodStepKeepsHonest(Play(s, before), session, acts[|acts| - 1].op);
    }
  }

  /** The nine tasks of the plan have succeeded; each success rests on a run whose result earned it; and
      before any run of a task, the task before it in the plan had succeeded. */
  ghost predicate PlanEarned(u: State, session: nat) {
    var ids := Ids(u.tasks, session);
    |ids| == LENGTH && forall j | 0 <= j < LENGTH :: PhaseEarned(u, ids, j)
  }

  ghost predicate PhaseEarned(u: State, ids: seq<nat>, j: nat)
    requires j < |ids|
  {
    && ids[j] < |u.tasks| && u.tasks[ids[j]].status == Succeeded
    && IsSpec(u.tasks[ids[j]].form, j)
    && (exists r :: SucceededRun(u, r, ids[j]) && RunEarned(u, r))
    && (forall r | 0 <= r < |u.runs| && u.runs[r].task == ids[j] && j > 0 :: SucceededBefore(u, r, ids[j - 1]))
  }

  /** Completion is earned: from a state in which the session has no tasks, the whole plan or a beginning of
      it, whatever the interleaving of good transactions, a complete session has its plan earned. */
  lemma CompletionIsEarned(s: State, session: nat, acts: seq<Act>)
    requires Honest(s, session) && AllGood(s, session, acts)
    requires session < |Play(s, acts).sessions| && Play(s, acts).sessions[session].status == Complete
    ensures PlanEarned(Play(s, acts), session)
  {
    GoodActsKeepHonest(s, session, acts);
    var u := Play(s, acts);
    forall j | 0 <= j < LENGTH ensures PhaseEarned(u, Ids(u.tasks, session), j) {
      CompletePhaseIsEarned(u, session, j);
    }
  }

  lemma CompletePhaseIsEarned(u: State, session: nat, j: nat)
    requires Honest(u, session) && u.sessions[session].status == Complete && j < LENGTH
    ensures PhaseEarned(u, Ids(u.tasks, session), j)
  {
    var ids := Ids(u.tasks, session);
    assert ChainTask(u.tasks, ids, j);
    assert u.tasks[ids[j]].session == session;
    var r :| SucceededRun(u, r, ids[j]);
    assert RunEarned(u, r);
    forall q | 0 <= q < |u.runs| && u.runs[q].task == ids[j] && j > 0
      ensures SucceededBefore(u, q, ids[j - 1])
    {
      assert RunInOrder(u, q);
      assert ids[j - 1] in u.tasks[ids[j]].deps;
    }
  }
}
