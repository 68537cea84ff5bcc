/**
 The worker loop ends.

 A session's fuel is what its tasks have left of their attempts, plus what the plan would still bring.
 Without new tasks outside the plan and without operator retries, nothing adds fuel, and each step that
 ends a run has used some up.
*/
module WorkerLaws {
  import opened Basics
  import opened Text
  import opened Tasks
  import opened TaskInvariants
  import opened TaskLaws
  import opened Plan
  import opened Orchestrator
  import E = Evidence

  /** Neither a task outside the plan nor an operator's retry, for this session. */
  predicate Quiet(session: nat, op: Op) {
    && !(op.OpRetry? && op.session == session)
    && (op.OpCreateTask? && op.session == session ==> exists j: nat :: j < LENGTH && IsSpec(op.form, j))
  }

  ghost predicate AllQuiet(session: nat, acts: seq<Act>) {
    forall i | 0 <= i < |acts| :: Quiet(session, acts[i].op)
  }

  ghost predicate OthersQuiet(session: nat, acts: seq<Act>) {
    forall i | 0 <= i < |acts| && !acts[i].mine :: Quiet(session, acts[i].op)
  }

  // ---- fuel ------------------------------------------------------------------------------------

  function AttemptsLeft(task: Task): nat {
    if task.max > task.attempts then task.max - task.attempts else 0
  }

  function UnitsUpTo(tasks: seq<Task>, session: nat, n: nat): nat
    requires n <= |tasks|
  {
    if n == 0 then 0
    else UnitsUpTo(tasks, session, n - 1) + (if tasks[n - 1].session == session then AttemptsLeft(tasks[n - 1]) else 0)
  }

  /** The attempts of the tasks that the session lacks, of the first `j` tasks of a plan with these keys. */
  function LackingUpTo(tasks: seq<Task>, session: nat, keys: seq<string>, j: nat): nat
    requires j <= |keys|
  {
    if j == 0 then 0
    else
      LackingUpTo(tasks, session, keys, j - 1) +
      (if FindKey(tasks, session, keys[j - 1]).None? then AttemptsAt(j - 1) else 0)
  }

  function PlanKeys(): (keys: seq<string>)
    ensures |keys| == LENGTH && forall j | 0 <= j < LENGTH :: keys[j] == Key(j)
  {
    seq(LENGTH, j requires 0 <= j < LENGTH => Key(j))
  }

  function Fuel(tasks: seq<Task>, session: nat): nat {
    UnitsUpTo(tasks, session, |tasks|) + LackingUpTo(tasks, session, PlanKeys(), LENGTH)
  }

  /** A session without tasks has fourteen units before it. */
  lemma FreshFuel(tasks: seq<Task>, session: nat)
    requires forall t | 0 <= t < |tasks| :: tasks[t].session != session
    ensures Fuel(tasks, session) == 14
  {
    NoUnits(tasks, session, |tasks|);
    AllLacking(tasks, session, PlanKeys(), LENGTH);
    assert SpecAttempts(9) == 14 by {
      assert SpecAttempts(1) == 1 && SpecAttempts(3) == 5 && SpecAttempts(5) == 9 && SpecAttempts(7) == 12;
    }
  }

  function SpecAttempts(j: nat): nat {
    if j == 0 then 0 else SpecAttempts(j - 1) + AttemptsAt(j - 1)
  }

  lemma {:induction false} NoUnits(tasks: seq<Task>, session: nat, n: nat)
    requires n <= |tasks| && forall t | 0 <= t < |tasks| :: tasks[t].session != session
    ensures UnitsUpTo(tasks, session, n) == 0
  {
    if n > 0 {
      NoUnits(tasks, session, n - 1);
    }
  }

  lemma {:induction false} AllLacking(tasks: seq<Task>, session: nat, keys: seq<string>, j: nat)
    requires j <= |keys| && forall t | 0 <= t < |tasks| :: tasks[t].session != session
    ensures LackingUpTo(tasks, session, keys, j) == SpecAttempts(j)
  {
    if j > 0 {
      AllLacking(tasks, session, keys, j - 1);
    }
  }

  // ---- tasks that are rewritten ----------------------------------------------------------------

  /** The tasks are the same, and those of the session have at most the attempts left that they had. */
  ghost predicate Burns(a: seq<Task>, b: seq<Task>, session: nat) {
    && SameTasks(a, b)
    && forall t | 0 <= t < |a| && a[t].session == session :: AttemptsLeft(b[t]) <= AttemptsLeft(a[t])
  }

  lemma {:induction false} BurnsUnits(a: seq<Task>, b: seq<Task>, session: nat, n: nat)
    requires Burns(a, b, session) && n <= |a|
    ensures UnitsUpTo(b, session, n) <= UnitsUpTo(a, session, n)
    ensures forall t | 0 <= t < n && a[t].session == session && AttemptsLeft(b[t]) < AttemptsLeft(a[t]) ::
              UnitsUpTo(b, session, n) < UnitsUpTo(a, session, n)
  {
    if n > 0 {
      BurnsUnits(a, b, session, n - 1);
      assert SameTask(a[n - 1], b[n - 1]);
    }
  }

  lemma {:induction false} SameKeysFound(a: seq<Task>, b: seq<Task>, session: nat, key: string, n: nat)
    requires n <= |a| && n <= |b| && forall t | 0 <= t < n :: SameTask(a[t], b[t])
    ensures FindKeyUpTo(a, session, key, n) == FindKeyUpTo(b, session, key, n)
  {
    if n > 0 {
      SameKeysFound(a, b, session, key, n - 1);
      assert SameTask(a[n - 1], b[n - 1]);
    }
  }

  lemma {:induction false} SameLacking(a: seq<Task>, b: seq<Task>, session: nat, keys: seq<string>, j: nat)
    requires SameTasks(a, b) && j <= |keys|
    ensures LackingUpTo(a, session, keys, j) == LackingUpTo(b, session, keys, j)
  {
    if j > 0 {
      SameLacking(a, b, session, keys, j - 1);
      SameKeysFound(a, b, session, keys[j - 1], |a|);
    }
  }

  lemma BurnsFuel(a: seq<Task>, b: seq<Task>, session: nat)
    requires Burns(a, b, session)
    ensures Fuel(b, session) <= Fuel(a, session)
    ensures forall t | 0 <= t < |a| && a[t].session == session && AttemptsLeft(b[t]) < AttemptsLeft(a[t]) ::
              Fuel(b, session) < Fuel(a, session)
  {
    BurnsUnits(a, b, session, |a|);
    SameLacking(a, b, session, PlanKeys(), LENGTH);
  }

  // ---- tasks that are created ------------------------------------------------------------------

  lemma {:induction false} UnitsOfPrefix(a: seq<Task>, b: seq<Task>, session: nat, n: nat)
    requires n <= |a| <= |b| && b[..|a|] == a
    ensures UnitsUpTo(b, session, n) == UnitsUpTo(a, session, n)
  {
    if n > 0 {
      UnitsOfPrefix(a, b, session, n - 1);
      assert b[n - 1] == a[n - 1];
    }
  }

  lemma FoundAfterAppend(tasks: seq<Task>, task: Task, session: nat, key: string)
    ensures FindKey(tasks + [task], session, key) ==
            if task.session == session && task.form.key == key then Some(|tasks|) else FindKey(tasks, session, key)
  {
    SameKeysFound(tasks, tasks + [task], session, key, |tasks|);
  }

  /** The session lacks no more of the plan with one more task, and less if it is a missing task of it. */
  lemma {:induction false} AppendLacking(tasks: seq<Task>, task: Task, session: nat, keys: seq<string>, j: nat)
    requires j <= |keys|
    ensures LackingUpTo(tasks + [task], session, keys, j) <= LackingUpTo(tasks, session, keys, j)
    ensures task.session != session ==>
              LackingUpTo(tasks + [task], session, keys, j) == LackingUpTo(tasks, session, keys, j)
  {
    if j > 0 {
      AppendLacking(tasks, task, session, keys, j - 1);
      FoundAfterAppend(tasks, task, session, keys[j - 1]);
    }
  }

  lemma {:induction false} PlanTaskLacking(
      tasks: seq<Task>, task: Task, session: nat, keys: seq<string>, j: nat, i: nat)
    requires i < j <= |keys|
    requires task.session == session && task.form.key == keys[i] && FindKey(tasks, session, keys[i]).None?
    ensures LackingUpTo(tasks + [task], session, keys, j) + AttemptsAt(i) <= LackingUpTo(tasks, session, keys, j)
  {
    FoundAfterAppend(tasks, task, session, keys[j - 1]);
    if i < j - 1 {
      PlanTaskLacking(tasks, task, session, keys, j - 1, i);
    } else {
      AppendLacking(tasks, task, session, keys, j - 1);
    }
  }

  lemma PlanTaskFuel(tasks: seq<Task>, task: Task, session: nat, i: nat)
    requires i < LENGTH && task.session == session && task.form.key == PlanKeys()[i]
    requires AttemptsLeft(task) == AttemptsAt(i) && FindKey(tasks, session, task.form.key).None?
    ensures Fuel(tasks + [task], session) <= Fuel(tasks, session)
  {
    UnitsOfPrefix(tasks, tasks + [task], session, |tasks|);
    PlanTaskLacking(tasks, task, session, PlanKeys(), LENGTH, i);
  }

  lemma Created(s: State, session: nat, form: Form, deps: seq<nat>)
    requires Acceptable(form)
    ensures var u := CreateTask(s, session, form, deps).After(s);
            || u == s
            || (&& FindKey(s.tasks, session, form.key).None?
                && u.tasks == s.tasks + [Task(session, form, Distinct(deps), Pending, form.maxAttempts, 0, None)])
  {
    assert form.(key := Strip(form.key)) == form;
  }

  lemma CreationFuel(s: State, session: nat, form: Form, deps: seq<nat>, i: nat)
    requires i < LENGTH && IsSpec(form, i)
    ensures Fuel(CreateTask(s, session, form, deps).After(s).tasks, session) <= Fuel(s.tasks, session)
  {
    SpecIsAcceptable(form, i);
    Created(s, session, form, deps);
    var u := CreateTask(s, session, form, deps).After(s);
    if u != s {
      PlanTaskFuel(s.tasks, Task(session, form, Distinct(deps), Pending, form.maxAttempts, 0, None), session, i);
    }
  }

  lemma OtherCreationFuel(s: State, session: nat, other: nat, form: Form, deps: seq<nat>)
    requires other != session
    ensures Fuel(CreateTask(s, other, form, deps).After(s).tasks, session) == Fuel(s.tasks, session)
  {
    var u := CreateTask(s, other, form, deps).After(s);
    if u != s {
      var task := u.tasks[|s.tasks|];
      assert u.tasks == s.tasks + [task];
      UnitsOfPrefix(s.tasks, u.tasks, session, |s.tasks|);
      AppendLacking(s.tasks, task, session, PlanKeys(), LENGTH);
    }
  }

  // ---- every transaction -----------------------------------------------------------------------

  lemma RunOpBurns(s: State, session: nat, op: Op)
    requires Valid(s) && (op.OpClaim? || op.OpFinish? || op.OpRecover?)
    ensures Burns(s.tasks, Step(s, op).tasks, session)
  {
    if op.OpRecover? {
      RecoverOnlyStatus(s, |s.runs|);
    }
  }

  lemma QuietBurns(s: State, session: nat, op: Op)
    requires Valid(s) && Quiet(session, op) && !op.OpCreateTask?
    ensures Burns(s.tasks, Step(s, op).tasks, session)
  {
    if op.OpClaim? || op.OpFinish? || op.OpRecover? {
      RunOpBurns(s, session, op);
    }
  }

  lemma StepFuel(s: State, session: nat, op: Op)
    requires Valid(s) && Quiet(session, op)
    ensures Fuel(Step(s, op).tasks, session) <= Fuel(s.tasks, session)
  {
    if op.OpCreateTask? && op.session == session {
      var j: nat :| j < LENGTH && IsSpec(op.form, j);
      CreationFuel(s, session, op.form, op.deps, j);
    } else if op.OpCreateTask? {
      OtherCreationFuel(s, session, op.session, op.form, op.deps);
    } else {
      QuietBurns(s, session, op);
      BurnsFuel(s.tasks, Step(s, op).tasks, session);
    }
  }

  lemma {:induction false} QuietFuel(s: State, session: nat, acts: seq<Act>)
    requires Valid(s) && AllQuiet(session, acts)
    ensures Valid(Play(s, acts)) && Fuel(Play(s, acts).tasks, session) <= Fuel(s.tasks, session)
  {
    if |acts| > 0 {
      var before := acts[..|acts| - 1];
      QuietFuel(s, session, before);
      StepFuel(Play(s, before), session, acts[|acts| - 1].op);
      StepKeepsValid(Play(s, before), acts[|acts| - 1].op);
    }
  }

  /** A claim uses up a unit of its task's session. */
  lemma ClaimFuel(s: State, session: nat, t: nat, worker: string, backend: Backend)
    requires Valid(s) && ClaimTask(s, t, worker, backend).Done?
    requires s.tasks[t].session == session
    ensures Fuel(ClaimTask(s, t, worker, backend).state.tasks, session) < Fuel(s.tasks, session)
  {
    var u := ClaimTask(s, t, worker, backend).state;
    assert TaskOk(s, t);
    assert AttemptsLeft(u.tasks[t]) < AttemptsLeft(s.tasks[t]);
    BurnsFuel(s.tasks, u.tasks, session);
  }

  // ---- a step of the orchestrator --------------------------------------------------------------

  /** A step's own transactions are quiet. */
  ghost predicate MineQuiet(session: nat, acts: seq<Act>) {
    forall i | 0 <= i < |acts| && acts[i].mine :: Quiet(session, acts[i].op)
  }

  lemma PlanNextIsQuiet(s: State, session: nat, mobile: bool, meanwhile: nat -> seq<Op>, j: nat, p: Planned)
    requires j < LENGTH && MineQuiet(session, p.acts)
    ensures MineQuiet(session, PlanNext(s, session, mobile, meanwhile, j, p).acts)
  {
    var op := OpCreateTask(session, Spec(j, mobile), p.deps);
    assert IsSpec(op.form, j) && Quiet(session, op);
  }

  lemma PlanIsQuiet(s: State, session: nat, mobile: bool, meanwhile: nat -> seq<Op>)
    ensures MineQuiet(session, MakePlan(s, session, mobile, meanwhile).acts)
  {
    var inv := (p: Planned, j: nat) => MineQuiet(session, p.acts);
    var next := Planner(s, session, mobile, meanwhile);
    forall p: Planned, j: nat | j < LENGTH && inv(p, j) ensures inv(next(p, j), j + 1) {
      PlanNextIsQuiet(s, session, mobile, meanwhile, j, p);
    }
    IterateKeeps(next, inv, Planned([], [], [], false), LENGTH);
  }

  lemma TakeOnIsQuiet(s: State, session: nat, seen: Seen, turn: Turn)
    ensures MineQuiet(session, TakeOn(s, session, seen, turn).acts)
  {
    var at := Play(s, Others(turn.meanwhile(BeforeClaim)));
    var backend := if RouteTask(seen.task.form, turn) == CloudRoute then Cloud else Local;
    var a := ClaimTask(at, seen.id, turn.worker, backend);
    if a.Done? {
      WorkIsQuiet(a.state, session, seen, a.value, turn);
    }
  }

  lemma WorkIsQuiet(s: State, session: nat, seen: Seen, run: nat, turn: Turn)
    ensures MineQuiet(session, Work(s, session, seen, run, turn).acts)
  {
    var at := Play(s, Others(turn.meanwhile(WhileWorking)));
    var form := seen.task.form;
    var gate := E.ApplyGate(form.kind, form.phase, form.contract, Dispatch(form.kind, turn.outcome), turn.files);
    if gate.Some? {
      var end := if Halted(at, session) then Dropped else if gate.value.ok then Succeeded else Failed;
      ConcludeIsQuiet(at, session, seen, run, end, gate.value, turn);
    }
  }

  lemma ConcludeIsQuiet(s: State, session: nat, seen: Seen, run: nat, end: TaskStatus, result: E.Result, turn: Turn)
    ensures MineQuiet(session, Conclude(s, session, seen, run, end, result, turn).acts)
  {
    var at := Play(s, Others(turn.meanwhile(BeforeFinish)));
    var a := FinishRun(at, run, end, result, turn.files);
    if a.Done? {
      assert MineQuiet(session, Close(a.state, session, seen, run, end, turn).acts);
    }
  }

  lemma PickIsQuiet(s: State, session: nat, tasks: seq<Seen>, turn: Turn)
    ensures MineQuiet(session, Pick(s, session, tasks, turn).acts)
  {
    var at := Play(s, Others(turn.meanwhile(BeforeReady)));
    match FirstReady(at, session)
    case None => assert MineQuiet(session, IdleResult(at, session, tasks, turn).acts);
    case Some(t) => TakeOnIsQuiet(at, session, Seen(t, at.tasks[t]), turn);
  }

  lemma RunNextIsQuiet(s: State, session: nat, turn: Turn)
    ensures MineQuiet(session, RunNext(s, session, turn).acts)
  {
    var at := Play(s, Others(turn.meanwhile(BeforePlan)));
    EnsurePlanIsQuiet(at, session, turn);
  }

  lemma EnsurePlanIsQuiet(s: State, session: nat, turn: Turn)
    ensures MineQuiet(session, EnsurePlan(s, session, turn).acts)
  {
    var listed := ListTasks(s.tasks, session);
    if |listed| > 0 {
      PickIsQuiet(s, session, listed, turn);
    } else {
      PlanIsQuiet(s, session, turn.mobile, turn.WhilePlanning());
      var p := MakePlan(s, session, turn.mobile, turn.WhilePlanning());
      if !p.refused {
        PickIsQuiet(Play(s, p.acts), session, p.tasks, turn);
      }
    }
  }

  /** The first part of a quiet trace, and the rest from where it leads. */
  lemma QuietThen(s: State, session: nat, before: seq<Act>, rest: seq<Act>)
    requires Valid(s) && AllQuiet(session, before + rest)
    ensures Play(s, before + rest) == Play(Play(s, before), rest)
    ensures Valid(Play(s, before)) && AllQuiet(session, rest)
    ensures Fuel(Play(s, before).tasks, session) <= Fuel(s.tasks, session)
    ensures Advances(s, Play(s, before))
  {
    PlayConcat(s, before, rest);
    forall i | 0 <= i < |before| ensures Quiet(session, before[i].op) {
      assert (before + rest)[i] == before[i];
    }
    forall i | 0 <= i < |rest| ensures Quiet(session, rest[i].op) {
      assert (before + rest)[|before| + i] == rest[i];
    }
    QuietFuel(s, session, before);
    PlayAdvances(s, before);
  }

  /** The trace used up fuel. */
  ghost predicate UsesFuel(s: State, session: nat, acts: seq<Act>) {
    Fuel(Play(s, acts).tasks, session) < Fuel(s.tasks, session)
  }

  lemma TakeOnUsesFuel(s: State, session: nat, seen: Seen, turn: Turn)
    requires Valid(s) && seen.id < |s.tasks| && s.tasks[seen.id].session == session
    requires AllQuiet(session, TakeOn(s, session, seen, turn).acts)
    requires TakeOn(s, session, seen, turn).report.Ran?
    ensures UsesFuel(s, session, TakeOn(s, session, seen, turn).acts)
  {
    var before := Others(turn.meanwhile(BeforeClaim));
    var at := Play(s, before);
    var backend := if RouteTask(seen.task.form, turn) == CloudRoute then Cloud else Local;
    var claim := Act(true, OpClaim(seen.id, turn.worker, backend));
    var a := ClaimTask(at, seen.id, turn.worker, backend);
    var rest := Work(a.state, session, seen, a.value, turn).acts;
    QuietThen(s, session, before, [claim] + rest);
    assert SameTask(s.tasks[seen.id], at.tasks[seen.id]);
    ClaimFuel(at, session, seen.id, turn.worker, backend);
    PlayOne(at, claim);
    QuietThen(at, session, [claim], rest);
    QuietFuel(a.state, session, rest);
  }

  lemma PickUsesFuel(s: State, session: nat, tasks: seq<Seen>, turn: Turn)
    requires Valid(s) && AllQuiet(session, Pick(s, session, tasks, turn).acts)
    requires Pick(s, session, tasks, turn).report.Ran?
    ensures UsesFuel(s, session, Pick(s, session, tasks, turn).acts)
  {
    var before := Others(turn.meanwhile(BeforeReady));
    var at := Play(s, before);
    var t := FirstReady(at, session).value;
    var seen := Seen(t, at.tasks[t]);
    QuietThen(s, session, before, TakeOn(at, session, seen, turn).acts);
    TakeOnUsesFuel(at, session, seen, turn);
  }

  lemma EnsurePlanUsesFuel(s: State, session: nat, turn: Turn)
    requires Valid(s) && AllQuiet(session, EnsurePlan(s, session, turn).acts)
    requires EnsurePlan(s, session, turn).report.Ran?
    ensures UsesFuel(s, session, EnsurePlan(s, session, turn).acts)
  {
    var listed := ListTasks(s.tasks, session);
    if |listed| > 0 {
      PickUsesFuel(s, session, listed, turn);
    } else {
      var p := MakePlan(s, session, turn.mobile, turn.WhilePlanning());
      var at := Play(s, p.acts);
      QuietThen(s, session, p.acts, Pick(at, session, p.tasks, turn).acts);
      PickUsesFuel(at, session, p.tasks, turn);
    }
  }

  lemma RunNextUsesFuel(s: State, session: nat, turn: Turn)
    requires Valid(s) && AllQuiet(session, RunNext(s, session, turn).acts)
    requires RunNext(s, session, turn).report.Ran?
    ensures UsesFuel(s, session, RunNext(s, session, turn).acts)
  {
    var before := Others(turn.meanwhile(BeforePlan));
    var at := Play(s, before);
    QuietThen(s, session, before, EnsurePlan(at, session, turn).acts);
    EnsurePlanUsesFuel(at, session, turn);
  }

  /** A step that reports the status of a stopped session leaves it with that status. */
  ghost predicate LeavesStopped(s: State, session: nat, turned: Turned) {
    turned.report.Stopped? ==>
      var u := Play(s, turned.acts);
      session < |u.sessions| && u.sessions[session].status == turned.report.status != Active
  }

  lemma StopsAfter(s: State, session: nat, before: seq<Act>, turned: Turned)
    requires LeavesStopped(Play(s, before), session, turned)
    ensures LeavesStopped(s, session, turned.After(before))
  {
    PlayConcat(s, before, turned.acts);
  }

  lemma PickLeavesStopped(s: State, session: nat, tasks: seq<Seen>, turn: Turn)
    ensures LeavesStopped(s, session, Pick(s, session, tasks, turn))
  {
    var before := Others(turn.meanwhile(BeforeReady));
    var at := Play(s, before);
    if FirstReady(at, session).None? {
      StopsAfter(s, session, before, IdleResult(at, session, tasks, turn));
    }
  }

  lemma RunNextLeavesStopped(s: State, session: nat, turn: Turn)
    ensures LeavesStopped(s, session, RunNext(s, session, turn))
  {
    var before := Others(turn.meanwhile(BeforePlan));
    var at := Play(s, before);
    var listed := ListTasks(at.tasks, session);
    if |listed| > 0 {
      PickLeavesStopped(at, session, listed, turn);
    } else {
      var p := MakePlan(at, session, turn.mobile, turn.WhilePlanning());
      if !p.refused {
        PickLeavesStopped(Play(at, p.acts), session, p.tasks, turn);
        StopsAfter(at, session, p.acts, Pick(Play(at, p.acts), session, p.tasks, turn));
      }
    }
    StopsAfter(s, session, before, EnsurePlan(at, session, turn));
  }

  // ---- the loop --------------------------------------------------------------------------------

  ghost predicate SessionStopped(s: State, session: nat) {
    session < |s.sessions| && !s.sessions[session].status.Open()
  }

  lemma StaysStopped(s: State, session: nat, acts: seq<Act>)
    requires Valid(s) && SessionStopped(s, session)
    ensures SessionStopped(Play(s, acts), session)
  {
    PlayIsSteps(s, acts);
    StoppingIsPermanent(s, session, OpsOf(acts));
  }

  /** A step after which the loop goes round again has used up fuel, or its session has stopped for good. */
  lemma GoingRoundUsesFuel(s: State, session: nat, turn: Turn)
    requires Valid(s) && OthersQuiet(session, RunNext(s, session, turn).acts)
    requires !EndsLoop(RunNext(s, session, turn).report)
    ensures var acts := RunNext(s, session, turn).acts;
            UsesFuel(s, session, acts) || SessionStopped(Play(s, acts), session)
  {
    RunNextIsQuiet(s, session, turn);
    RunNextLeavesStopped(s, session, turn);
    if RunNext(s, session, turn).report.Ran? {
      RunNextUsesFuel(s, session, turn);
    }
  }

  lemma OthersQuietRest(session: nat, before: seq<Act>, rest: seq<Act>)
    requires OthersQuiet(session, before + rest)
    ensures OthersQuiet(session, before) && OthersQuiet(session, rest)
  {
    forall i | 0 <= i < |before| && !before[i].mine ensures Quiet(session, before[i].op) {
      assert (before + rest)[i] == before[i];
    }
    forall i | 0 <= i < |rest| && !rest[i].mine ensures Quiet(session, rest[i].op) {
      assert (before + rest)[|before| + i] == rest[i];
    }
  }

  /** A round after which the loop goes round again has used up fuel, or the session has stopped. */
  lemma RoundUsesFuel(s: State, session: nat, round: Round)
    requires Valid(s) && OthersQuiet(session, RunRound(s, session, round).acts)
    requires RunRound(s, session, round).report.None?
    ensures var acts := RunRound(s, session, round).acts;
            && Valid(Play(s, acts)) && !SessionStopped(s, session)
            && Fuel(Play(s, acts).tasks, session) <= Fuel(s.tasks, session)
            && (UsesFuel(s, session, acts) || SessionStopped(Play(s, acts), session))
  {
    var before, between := Others(round.before), Others(round.between);
    var at := Play(s, before);
    var ready := Play(at, between);
    var acts := RunNext(ready, session, round.turn).acts;
    OthersQuietRest(session, before, between + acts);
    OthersQuietRest(session, between, acts);
    PlayConcat(s, before, between + acts);
    PlayConcat(at, between, acts);
    QuietFuel(s, session, before);
    QuietFuel(at, session, between);
    RunNextIsQuiet(ready, session, round.turn);
    QuietFuel(ready, session, acts);
    GoingRoundUsesFuel(ready, session, round.turn);
    if SessionStopped(s, session) {
      StaysStopped(s, session, before);
    }
  }

  /** After `n` rounds the loop goes round again only if each round used up fuel, but for one that left the
      session stopped. */
  ghost predicate Bounds(s: State, session: nat, l: Looped, n: nat) {
    && l.report != Some(Bounded)
    && (OthersQuiet(session, l.acts) && l.report.None? ==>
      var u := Play(s, l.acts);
      && Valid(u)
      && n + Fuel(u.tasks, session) <= Fuel(s.tasks, session) + (if SessionStopped(u, session) then 1 else 0))
  }

  lemma NextRoundBounds(s: State, session: nat, rounds: nat -> Round, l: Looped, i: nat)
    requires Valid(s) && Bounds(s, session, l, i)
    ensures Bounds(s, session, NextRound(s, session, rounds, l, i), i + 1)
  {
    var next := NextRound(s, session, rounds, l, i);
    if OthersQuiet(session, next.acts) && next.report.None? {
      var u := Play(s, l.acts);
      var r := RunRound(u, session, rounds(i));
      OthersQuietRest(session, l.acts, r.acts);
      RoundUsesFuel(u, session, rounds(i));
      PlayConcat(s, l.acts, r.acts);
    }
  }

  lemma LoopBounds(s: State, session: nat, rounds: nat -> Round, n: nat)
    requires Valid(s)
    ensures Bounds(s, session, RoundsUpTo(s, session, rounds, n), n)
  {
    var inv := (l: Looped, i: nat) => Bounds(s, session, l, i);
    var next := Rounds(s, session, rounds);
    forall l: Looped, i: nat | i < n && inv(l, i) ensures inv(next(l, i), i + 1) {
      NextRoundBounds(s, session, rounds, l, i);
    }
    assert Bounds(s, session, Looped([], None), 0);
    IterateKeeps(next, inv, Looped([], None), n);
  }

  /** A worker never stops for want of rounds under a limit of two more than the session's fuel, whatever
      others do meanwhile, short of new tasks outside the plan and retries. */
  lemma NeverBounded(s: State, session: nat, limit: nat, rounds: nat -> Round)
    requires Valid(s) && limit > Fuel(s.tasks, session) + 1
    requires OthersQuiet(session, RunSession(s, session, limit, rounds).0)
    ensures RunSession(s, session, limit, rounds).1 != Bounded
  {
    LoopBounds(s, session, rounds, limit);
  }

  /** The fourteen units of a fresh plan are far below the default limit of 500 rounds. */
  lemma FreshSessionNeverBounded(s: State, session: nat, rounds: nat -> Round)
    requires Valid(s) && forall t | 0 <= t < |s.tasks| :: s.tasks[t].session != session
    requires OthersQuiet(session, RunSession(s, session, 500, rounds).0)
    ensures RunSession(s, session, 500, rounds).1 != Bounded
  {
    FreshFuel(s.tasks, session);
    NeverBounded(s, session, 500, rounds);
  }
}
