/**
 Steps of the orchestrator and planners are careful: whatever others do, their own transactions are good for
 as long as everybody's were. So any number of workers and planners may run together, and all they do
 together is good (`Together`).
*/
module OrchestratorLaws {
  import opened Basics
  import opened Text
  import opened Tasks
  import opened TaskInvariants
  import opened TaskLaws
  import opened Plan
  import opened Honesty
  import opened Orchestrator
  import E = Evidence

  // ---- composing traces ------------------------------------------------------------------------

  /** The state after the others' transactions at one moment, if they were good. */
  lemma AfterOthers(s: State, session: nat, ops: seq<Op>)
    requires Honest(s, session) && AllGood(s, session, Others(ops))
    ensures var u := Play(s, Others(ops));
            Honest(u, session) && Advances(s, u) && Ids(s.tasks, session) <= Ids(u.tasks, session)
  {
    GoodActsKeepHonest(s, session, Others(ops));
    PlayAdvances(s, Others(ops));
    IdsGrow(s.tasks, Play(s, Others(ops)).tasks, session);
  }

  /** The state after one good transaction of the step itself. */
  lemma AfterMine(s: State, session: nat, op: Op)
    requires Honest(s, session) && Good(s, session, op)
    ensures var u := Step(s, op);
            Honest(u, session) && Advances(s, u) && Ids(s.tasks, session) <= Ids(u.tasks, session)
  {
    GoodStepKeepsHonest(s, session, op);
    StepAdvances(s, op);
    IdsGrow(s.tasks, Step(s, op).tasks, session);
  }

  // ---- the steps of a step ---------------------------------------------------------------------

  lemma OthersAreCareful(s: State, session: nat, ops: seq<Op>)
    ensures Careful(s, session, Others(ops))
  {
  }

  lemma TellIsCareful(s: State, session: nat, task: nat, run: nat, end: TaskStatus, turn: Turn)
    ensures Careful(s, session, Tell(s, session, task, run, end, turn).acts)
  {
    OthersAreCareful(s, session, turn.meanwhile(BeforeReport));
  }

  /** In a chain, a task that has run has all its predecessors succeeded. */
  lemma {:induction false} ChainSucceeded(s: State, session: nat, i: nat, j: nat)
    requires Valid(s) && Materialized(s, session) && i < j < LENGTH
    requires s.tasks[Ids(s.tasks, session)[j]].attempts > 0
    ensures s.tasks[Ids(s.tasks, session)[i]].status == Succeeded
    decreases j
  {
    var ids := Ids(s.tasks, session);
    assert TaskOk(s, ids[j]) && ChainTask(s.tasks, ids, j);
    assert s.tasks[ids[j]].deps == [ids[j - 1]];
    assert ids[j - 1] in s.tasks[ids[j]].deps;
    if i < j - 1 {
      assert TaskOk(s, ids[j - 1]);
      ChainSucceeded(s, session, i, j - 1);
    }
  }

  /** The plan's last task is there only with the whole plan, and its success is success of all of it. */
  lemma LastSucceeded(s: State, session: nat, t: nat)
    requires Valid(s) && session < |s.sessions| && Chain(s.tasks, session) && t in Ids(s.tasks, session)
    requires s.tasks[t].form.phase == E.Complete && s.tasks[t].status == Succeeded
    ensures Materialized(s, session) && AllSucceeded(s.tasks, session)
  {
    var ids := Ids(s.tasks, session);
    var k :| 0 <= k < |ids| && ids[k] == t;
    assert ChainTask(s.tasks, ids, k) && TaskOk(s, t);
    assert k == LENGTH - 1;
    forall u | 0 <= u < |s.tasks| && s.tasks[u].session == session ensures s.tasks[u].status == Succeeded {
      var i := Rank(s.tasks, session, u);
      if i < k {
        ChainSucceeded(s, session, i, k);
      }
    }
  }

  /** A task of the session, as it was once seen. */
  ghost predicate Known(s: State, session: nat, seen: Seen) {
    && seen.id in Ids(s.tasks, session) && seen.id < |s.tasks|
    && SameTask(seen.task, s.tasks[seen.id])
  }

  lemma StillKnown(s: State, u: State, session: nat, seen: Seen)
    requires Known(s, session, seen) && Advances(s, u)
    requires Ids(s.tasks, session) <= Ids(u.tasks, session)
    ensures Known(u, session, seen)
  {
    var k :| 0 <= k < |Ids(s.tasks, session)| && Ids(s.tasks, session)[k] == seen.id;
    assert Ids(u.tasks, session)[k] == seen.id;
    assert SameTask(s.tasks[seen.id], u.tasks[seen.id]);
  }

  lemma KnownAfterOthers(s: State, session: nat, ops: seq<Op>, seen: Seen)
    requires Honest(s, session) && Known(s, session, seen) && AllGood(s, session, Others(ops))
    ensures var u := Play(s, Others(ops)); Honest(u, session) && Known(u, session, seen) && Advances(s, u)
  {
    AfterOthers(s, session, ops);
    StillKnown(s, Play(s, Others(ops)), session, seen);
  }

  lemma CheckpointIsCareful(s: State, session: nat, seen: Seen, run: nat, turn: Turn)
    requires Honest(s, session) && Known(s, session, seen) && s.tasks[seen.id].status == Succeeded
    ensures var op := OpCheckpoint(session, seen.task.form.phase);
            Careful(s, session, [Act(true, op)] + Tell(Step(s, op), session, seen.id, run, Succeeded, turn).acts)
  {
    var op := OpCheckpoint(session, seen.task.form.phase);
    if op.phase == E.Complete {
      LastSucceeded(s, session, seen.id);
    }
    TellIsCareful(Step(s, op), session, seen.id, run, Succeeded, turn);
    CarefulAfterMine(s, session, op, Tell(Step(s, op), session, seen.id, run, Succeeded, turn).acts);
  }

  lemma CloseIsCareful(s: State, session: nat, seen: Seen, run: nat, end: TaskStatus, turn: Turn)
    requires Honest(s, session) && Known(s, session, seen)
    requires end == Succeeded ==> s.tasks[seen.id].status == Succeeded
    ensures Careful(s, session, Close(s, session, seen, run, end, turn).acts)
  {
    if end != Succeeded {
      TellIsCareful(s, session, seen.id, run, end, turn);
    } else {
      var ops := turn.meanwhile(BeforeCheckpoint);
      var at := Play(s, Others(ops));
      if CheckpointSession(at, session, seen.task.form.phase).Refused? {
        OthersAreCareful(s, session, ops);
      } else {
        var op := OpCheckpoint(session, seen.task.form.phase);
        var rest := [Act(true, op)] + Tell(Step(at, op), session, seen.id, run, end, turn).acts;
        if AllGood(s, session, Others(ops)) {
          KnownAfterOthers(s, session, ops, seen);
          CheckpointIsCareful(at, session, seen, run, turn);
        }
        CarefulAfterOthers(s, session, ops, rest);
      }
    }
  }

  /** Run `run` belongs to the task that was taken on. */
  ghost predicate OwnRun(s: State, seen: Seen, run: nat) {
    run < |s.runs| && s.runs[run].task == seen.id
  }

  lemma SuccessIsRecorded(s: State, run: nat, result: E.Result, files: set<string>)
    requires Valid(s) && FinishRun(s, run, Succeeded, result, files).Done?
    ensures var u := FinishRun(s, run, Succeeded, result, files).state; var t := s.runs[run].task;
            t < |u.tasks| && u.tasks[t].status == Succeeded
  {
    assert RunOk(s, run);
  }

  lemma FinishedIsCareful(
      s: State, session: nat, seen: Seen, run: nat, end: TaskStatus, result: E.Result, turn: Turn)
    requires Honest(s, session) && Known(s, session, seen) && OwnRun(s, seen, run)
    requires end == Succeeded ==> EarnedFor(seen.task, result, turn.files)
    requires FinishRun(s, run, end, result, turn.files).Done?
    ensures var op := OpFinish(run, end, result, turn.files);
            Careful(s, session, [Act(true, op)] + Close(Step(s, op), session, seen, run, end, turn).acts)
  {
    var op := OpFinish(run, end, result, turn.files);
    AfterMine(s, session, op);
    StillKnown(s, Step(s, op), session, seen);
    if end == Succeeded {
      SuccessIsRecorded(s, run, result, turn.files);
    }
    CloseIsCareful(Step(s, op), session, seen, run, end, turn);
    CarefulAfterMine(s, session, op, Close(Step(s, op), session, seen, run, end, turn).acts);
  }

  lemma ConcludeTrace(
      s: State, session: nat, seen: Seen, run: nat, end: TaskStatus, result: E.Result, turn: Turn)
    ensures var before := Others(turn.meanwhile(BeforeFinish)); var at := Play(s, before);
            var op := OpFinish(run, end, result, turn.files);
            Conclude(s, session, seen, run, end, result, turn).acts
            == if FinishRun(at, run, end, result, turn.files).Refused? then before
               else before + ([Act(true, op)] + Close(Step(at, op), session, seen, run, end, turn).acts)
  {
  }

  lemma ConcludeIsCareful(
      s: State, session: nat, seen: Seen, run: nat, end: TaskStatus, result: E.Result, turn: Turn)
    requires Honest(s, session) && Known(s, session, seen) && OwnRun(s, seen, run)
    requires end == Succeeded ==> EarnedFor(seen.task, result, turn.files)
    ensures Careful(s, session, Conclude(s, session, seen, run, end, result, turn).acts)
  {
    var ops, op := turn.meanwhile(BeforeFinish), OpFinish(run, end, result, turn.files);
    var at := Play(s, Others(ops));
    ConcludeTrace(s, session, seen, run, end, result, turn);
    OthersAreCareful(s, session, ops);
    if FinishRun(at, run, end, result, turn.files).Done? {
      if AllGood(s, session, Others(ops)) {
        KnownAfterOthers(s, session, ops, seen);
        assert SameRun(s.runs[run], at.runs[run]);
        FinishedIsCareful(at, session, seen, run, end, result, turn);
      }
      CarefulAfterOthers(s, session, ops, [Act(true, op)] + Close(Step(at, op), session, seen, run, end, turn).acts);
    }
  }

  lemma WorkIsCareful(s: State, session: nat, seen: Seen, run: nat, turn: Turn)
    requires Honest(s, session) && Known(s, session, seen) && OwnRun(s, seen, run)
    ensures Careful(s, session, Work(s, session, seen, run, turn).acts)
  {
    var ops := turn.meanwhile(WhileWorking);
    var at := Play(s, Others(ops));
    var form := seen.task.form;
    var dispatched := Dispatch(form.kind, turn.outcome);
    var gate := E.ApplyGate(form.kind, form.phase, form.contract, dispatched, turn.files);
    if gate.None? {
      OthersAreCareful(s, session, ops);
    } else {
      var end := if Halted(at, session) then Dropped else if gate.value.ok then Succeeded else Failed;
      if AllGood(s, session, Others(ops)) {
        KnownAfterOthers(s, session, ops, seen);
        assert SameRun(s.runs[run], at.runs[run]);
        E.GatePassesExactly(form.kind, form.phase, form.contract, dispatched, turn.files);
        ConcludeIsCareful(at, session, seen, run, end, gate.value, turn);
      }
      CarefulAfterOthers(s, session, ops, Conclude(at, session, seen, run, end, gate.value, turn).acts);
    }
  }

  lemma ClaimedIsCareful(s: State, session: nat, seen: Seen, backend: Backend, turn: Turn)
    requires Honest(s, session) && Known(s, session, seen) && ClaimTask(s, seen.id, turn.worker, backend).Done?
    ensures var op := OpClaim(seen.id, turn.worker, backend);
            Careful(s, session, [Act(true, op)] + Work(Step(s, op), session, seen, |s.runs|, turn).acts)
  {
    var op := OpClaim(seen.id, turn.worker, backend);
    AfterMine(s, session, op);
    StillKnown(s, Step(s, op), session, seen);
    WorkIsCareful(Step(s, op), session, seen, |s.runs|, turn);
    CarefulAfterMine(s, session, op, Work(Step(s, op), session, seen, |s.runs|, turn).acts);
  }

  lemma TakeOnTrace(s: State, session: nat, seen: Seen, turn: Turn)
    ensures var route := RouteTask(seen.task.form, turn);
            var before := Others(turn.meanwhile(BeforeClaim)); var at := Play(s, before);
            var backend := if route == CloudRoute then Cloud else Local;
            var op := OpClaim(seen.id, turn.worker, backend);
            TakeOn(s, session, seen, turn).acts
            == if route == FounderRoute then []
               else if ClaimTask(at, seen.id, turn.worker, backend).Refused? then before
               else before + ([Act(true, op)] + Work(Step(at, op), session, seen, |at.runs|, turn).acts)
  {
  }

  lemma TakeOnIsCareful(s: State, session: nat, seen: Seen, turn: Turn)
    requires Honest(s, session) && Known(s, session, seen)
    ensures Careful(s, session, TakeOn(s, session, seen, turn).acts)
  {
    var ops := turn.meanwhile(BeforeClaim);
    var at := Play(s, Others(ops));
    var backend := if RouteTask(seen.task.form, turn) == CloudRoute then Cloud else Local;
    TakeOnTrace(s, session, seen, turn);
    OthersAreCareful(s, session, ops);
    if ClaimTask(at, seen.id, turn.worker, backend).Done? {
      var op := OpClaim(seen.id, turn.worker, backend);
      if AllGood(s, session, Others(ops)) {
        KnownAfterOthers(s, session, ops, seen);
        ClaimedIsCareful(at, session, seen, backend, turn);
      }
      CarefulAfterOthers(s, session, ops, [Act(true, op)] + Work(Step(at, op), session, seen, |at.runs|, turn).acts);
    }
  }

  /** The first tasks of the session, as they were listed in an earlier state. */
  ghost predicate Listed(s: State, session: nat, tasks: seq<Seen>) {
    && |tasks| <= |Ids(s.tasks, session)|
    && forall k | 0 <= k < |tasks| ::
         && tasks[k].id == Ids(s.tasks, session)[k]
         && (tasks[k].task.status == Succeeded ==> s.tasks[tasks[k].id].status == Succeeded)
  }

  lemma StillListed(s: State, u: State, session: nat, tasks: seq<Seen>)
    requires Listed(s, session, tasks) && Advances(s, u)
    requires Ids(s.tasks, session) <= Ids(u.tasks, session)
    ensures Listed(u, session, tasks)
  {
  }

  lemma AllSeenAreAll(s: State, session: nat, tasks: seq<Seen>)
    requires Listed(s, session, tasks) && AllSeenSucceeded(tasks) && |tasks| == |Ids(s.tasks, session)|
    ensures AllSucceeded(s.tasks, session)
  {
    forall t | 0 <= t < |s.tasks| && s.tasks[t].session == session ensures s.tasks[t].status == Succeeded {
      var k := Rank(s.tasks, session, t);
      assert tasks[k].id == t;
    }
  }

  /** If all listed tasks have succeeded, they are the whole plan. */
  predicate Conclusive(tasks: seq<Seen>) {
    AllSeenSucceeded(tasks) ==> |tasks| == LENGTH
  }

  lemma CompletingIsCareful(s: State, session: nat, tasks: seq<Seen>, turn: Turn)
    requires Honest(s, session) && Listed(s, session, tasks) && AllSeenSucceeded(tasks) && Conclusive(tasks)
    ensures Careful(s, session, Others(turn.meanwhile(BeforeComplete)) + [Act(true, OpCheckpoint(session, E.Complete))])
  {
    var ops, op := turn.meanwhile(BeforeComplete), OpCheckpoint(session, E.Complete);
    var u := Play(s, Others(ops));
    if AllGood(s, session, Others(ops)) {
      AfterOthers(s, session, ops);
      StillListed(s, u, session, tasks);
      AllSeenAreAll(u, session, tasks);
      GoodOne(u, session, Act(true, op));
    }
    CarefulAfterOthers(s, session, ops, [Act(true, op)]);
  }

  lemma IdleIsCareful(s: State, session: nat, tasks: seq<Seen>, turn: Turn)
    requires Honest(s, session) && Listed(s, session, tasks) && Conclusive(tasks)
    ensures Careful(s, session, IdleResult(s, session, tasks, turn).acts)
  {
    var ops := turn.meanwhile(BeforeIdle);
    var at := Play(s, Others(ops));
    if IdleResult(s, session, tasks, turn).report == AllDone {
      if AllGood(s, session, Others(ops)) {
        AfterOthers(s, session, ops);
        StillListed(s, at, session, tasks);
        CompletingIsCareful(at, session, tasks, turn);
      }
      CarefulAfterOthers(s, session, ops,
        Others(turn.meanwhile(BeforeComplete)) + [Act(true, OpCheckpoint(session, E.Complete))]);
    } else {
      OthersAreCareful(s, session, ops);
    }
  }

  lemma PickIsCareful(s: State, session: nat, tasks: seq<Seen>, turn: Turn)
    requires Honest(s, session) && Listed(s, session, tasks) && Conclusive(tasks)
    ensures Careful(s, session, Pick(s, session, tasks, turn).acts)
  {
    var ops := turn.meanwhile(BeforeReady);
    var at := Play(s, Others(ops));
    match FirstReady(at, session)
    case None =>
      if AllGood(s, session, Others(ops)) {
        AfterOthers(s, session, ops);
        StillListed(s, at, session, tasks);
        IdleIsCareful(at, session, tasks, turn);
      }
      CarefulAfterOthers(s, session, ops, IdleResult(at, session, tasks, turn).acts);
    case Some(t) =>
      if AllGood(s, session, Others(ops)) {
        AfterOthers(s, session, ops);
        var k := Rank(at.tasks, session, t);
        TakeOnIsCareful(at, session, Seen(t, at.tasks[t]), turn);
      }
      CarefulAfterOthers(s, session, ops, TakeOn(at, session, Seen(t, at.tasks[t]), turn).acts);
  }

  // ---- planning with others --------------------------------------------------------------------

  /** A session whose tasks are a beginning of the plan. */
  ghost predicate PlanBegun(s: State, session: nat) {
    Valid(s) && session < |s.sessions| && Chain(s.tasks, session)
  }

  lemma {:induction false} GoodActsKeepBegun(s: State, session: nat, acts: seq<Act>)
    requires PlanBegun(s, session) && AllGood(s, session, acts)
    ensures PlanBegun(Play(s, acts), session) && Ids(s.tasks, session) <= Ids(Play(s, acts).tasks, session)
  {
    if |acts| > 0 {
      var before := acts[..|acts| - 1];
      GoodButLast(s, session, acts);
      GoodActsKeepBegun(s, session, before);
      StepKeepsChain(Play(s, before), session, acts[|acts| - 1].op);
      StepKeepsValid(Play(s, before), acts[|acts| - 1].op);
    }
  }

  /** A planner's next creation, after good transactions of others, is good and never refused. */
  lemma CreationSucceeds(s: State, session: nat, mobile: bool, before: seq<Act>, j: nat, deps: seq<nat>)
    requires PlanBegun(s, session) && j < LENGTH && j <= |Ids(s.tasks, session)|
    requires deps == DepsAt(Ids(s.tasks, session), j)
    requires AllGood(s, session, before)
    ensures var at := Play(s, before); var op := OpCreateTask(session, Spec(j, mobile), deps);
            var a := CreateTask(at, session, Spec(j, mobile), deps);
            && a.Done? && a.value < |a.state.tasks|
            && a.state == Step(at, op) && Good(at, session, op)
            && PlanBegun(a.state, session) && Ids(s.tasks, session) <= Ids(a.state.tasks, session)
            && j < |Ids(a.state.tasks, session)| && Ids(a.state.tasks, session)[j] == a.value
  {
    var at := Play(s, before);
    GoodActsKeepBegun(s, session, before);
    CreationExtendsChain(at, session, Spec(j, mobile), j);
    CreationReturnsRow(at, session, Spec(j, mobile), deps);
    StepKeepsValid(at, OpCreateTask(session, Spec(j, mobile), deps));
  }

  /** The tasks a planner returned are the first of the session. */
  ghost predicate Returns(tasks: seq<Seen>, ids: seq<nat>) {
    |tasks| <= |ids| && forall k | 0 <= k < |tasks| :: tasks[k].id == ids[k]
  }

  /** A planner has made the first `n` tasks of the plan, if all transactions were good. */
  ghost predicate HasPlanned(s: State, session: nat, p: Planned, n: nat) {
    var u := Play(s, p.acts);
    && PlanBegun(u, session)
    && !p.refused && |p.tasks| == n <= |Ids(u.tasks, session)|
    && Returns(p.tasks, Ids(u.tasks, session))
    && p.deps == DepsAt(Ids(u.tasks, session), n)
  }

  ghost predicate PlansCarefully(s: State, session: nat, p: Planned, n: nat) {
    Careful(s, session, p.acts) && (AllGood(s, session, p.acts) ==> HasPlanned(s, session, p, n))
  }

  lemma CreationIsCareful(s: State, session: nat, mobile: bool, ops: seq<Op>, j: nat, deps: seq<nat>)
    requires PlanBegun(s, session) && j < LENGTH && j <= |Ids(s.tasks, session)|
    requires deps == DepsAt(Ids(s.tasks, session), j)
    ensures Careful(s, session, Others(ops) + [Act(true, OpCreateTask(session, Spec(j, mobile), deps))])
  {
    var act := Act(true, OpCreateTask(session, Spec(j, mobile), deps));
    if AllGood(s, session, Others(ops)) {
      CreationSucceeds(s, session, mobile, Others(ops), j, deps);
      GoodOne(Play(s, Others(ops)), session, act);
    }
    CarefulAfterOthers(s, session, ops, [act]);
  }

  lemma PlanNextIsCareful(s: State, session: nat, mobile: bool, meanwhile: nat -> seq<Op>, j: nat, p: Planned)
    requires j < LENGTH && PlansCarefully(s, session, p, j)
    ensures Careful(s, session, PlanNext(s, session, mobile, meanwhile, j, p).acts)
  {
    var now, ops := Play(s, p.acts), meanwhile(j);
    var act := Act(true, OpCreateTask(session, Spec(j, mobile), p.deps));
    var next := PlanNext(s, session, mobile, meanwhile, j, p);
    OthersAreCareful(now, session, ops);
    if AllGood(s, session, p.acts) {
      CreationIsCareful(now, session, mobile, ops, j, p.deps);
    }
    CarefulThen(s, session, p.acts, Others(ops));
    CarefulThen(s, session, p.acts, Others(ops) + [act]);
  }

  /** What others did before the creation was good, if all was. */
  lemma GoodBeforeCreation(s: State, session: nat, mobile: bool, meanwhile: nat -> seq<Op>, j: nat, p: Planned)
    requires j < LENGTH && !p.refused
    requires AllGood(s, session, PlanNext(s, session, mobile, meanwhile, j, p).acts)
    ensures AllGood(s, session, p.acts) && AllGood(Play(s, p.acts), session, Others(meanwhile(j)))
  {
    var before := Others(meanwhile(j));
    var act := Act(true, OpCreateTask(session, Spec(j, mobile), p.deps));
    GoodConcat(s, session, p.acts, before);
    GoodConcat(s, session, p.acts, before + [act]);
    GoodConcat(Play(s, p.acts), session, before, [act]);
  }

  /** The planner's progress after a creation that is not refused. */
  lemma PlanNextCreates(s: State, session: nat, mobile: bool, meanwhile: nat -> seq<Op>, j: nat, p: Planned)
    requires j < LENGTH && !p.refused
    requires CreateTask(Play(Play(s, p.acts), Others(meanwhile(j))), session, Spec(j, mobile), p.deps).Done?
    ensures var a := CreateTask(Play(Play(s, p.acts), Others(meanwhile(j))), session, Spec(j, mobile), p.deps);
            var next := PlanNext(s, session, mobile, meanwhile, j, p);
            && a.value < |a.state.tasks| && Play(s, next.acts) == a.state
            && next.tasks == p.tasks + [Seen(a.value, a.state.tasks[a.value])]
            && next.deps == [a.value] && !next.refused
  {
    var now, before := Play(s, p.acts), Others(meanwhile(j));
    var act := Act(true, OpCreateTask(session, Spec(j, mobile), p.deps));
    CreationReturnsRow(Play(now, before), session, Spec(j, mobile), p.deps);
    PlayConcat(s, p.acts, before + [act]);
    PlayConcat(now, before, [act]);
    PlayOne(Play(now, before), act);
  }

  lemma PlanNextMakesChain(s: State, session: nat, mobile: bool, meanwhile: nat -> seq<Op>, j: nat, p: Planned)
    requires j < LENGTH && PlansCarefully(s, session, p, j) && !p.refused
    requires AllGood(s, session, PlanNext(s, session, mobile, meanwhile, j, p).acts)
    ensures HasPlanned(s, session, PlanNext(s, session, mobile, meanwhile, j, p), j + 1)
  {
    GoodBeforeCreation(s, session, mobile, meanwhile, j, p);
    CreationSucceeds(Play(s, p.acts), session, mobile, Others(meanwhile(j)), j, p.deps);
    PlanNextCreates(s, session, mobile, meanwhile, j, p);
  }

  /** Planners race safely: however the transactions of several planners and workers interleave, a planner is
      careful, and once all transactions were good there are exactly the nine tasks, in a chain, which it
      returns. */
  lemma PlannersMakeOneChain(s: State, session: nat, mobile: bool, meanwhile: nat -> seq<Op>)
    requires PlanBegun(s, session)
    ensures var p := MakePlan(s, session, mobile, meanwhile); var u := Play(s, p.acts);
            && Careful(s, session, p.acts)
            && (AllGood(s, session, p.acts) ==>
                  && Materialized(u, session)
                  && !p.refused && |p.tasks| == LENGTH && Returns(p.tasks, Ids(u.tasks, session)))
  {
    var inv := (p: Planned, j: nat) => PlansCarefully(s, session, p, j);
    var next := Planner(s, session, mobile, meanwhile);
    forall p: Planned, j: nat | j < LENGTH && inv(p, j) ensures inv(next(p, j), j + 1) {
      PlanNextIsCareful(s, session, mobile, meanwhile, j, p);
      if AllGood(s, session, PlanNext(s, session, mobile, meanwhile, j, p).acts) {
        PlanNextMakesChain(s, session, mobile, meanwhile, j, p);
      }
    }
    IterateKeeps(next, inv, Planned([], [], [], false), LENGTH);
  }

  // ---- a whole step ----------------------------------------------------------------------------

  /** The tasks that a planner returned have succeeded if they had when it saw them. */
  ghost predicate SeenTruly(u: State, tasks: seq<Seen>) {
    forall k | 0 <= k < |tasks| ::
      && tasks[k].id < |u.tasks|
      && (tasks[k].task.status == Succeeded ==> u.tasks[tasks[k].id].status == Succeeded)
  }

  lemma PlanNextSeesTruly(s: State, session: nat, mobile: bool, meanwhile: nat -> seq<Op>, j: nat, p: Planned)
    requires Valid(s) && SeenTruly(Play(s, p.acts), p.tasks)
    ensures var next := PlanNext(s, session, mobile, meanwhile, j, p);
            SeenTruly(Play(s, next.acts), next.tasks)
  {
    if !p.refused && j < LENGTH {
      var now, before := Play(s, p.acts), Others(meanwhile(j));
      var act := Act(true, OpCreateTask(session, Spec(j, mobile), p.deps));
      SeenLater(s, p.acts, before, p.tasks);
      SeenLater(s, p.acts, before + [act], p.tasks);
      PlayConcat(s, p.acts, before + [act]);
      PlayConcat(now, before, [act]);
      PlayOne(Play(now, before), act);
      if CreateTask(Play(now, before), session, Spec(j, mobile), p.deps).Done? {
        CreationReturnsRow(Play(now, before), session, Spec(j, mobile), p.deps);
      }
    }
  }

  lemma SeenLater(s: State, a: seq<Act>, b: seq<Act>, tasks: seq<Seen>)
    requires Valid(s) && SeenTruly(Play(s, a), tasks)
    ensures SeenTruly(Play(s, a + b), tasks)
  {
    PlayAdvances(s, a);
    PlayAdvances(Play(s, a), b);
    PlayConcat(s, a, b);
  }

  lemma PlanSeesTruly(s: State, session: nat, mobile: bool, meanwhile: nat -> seq<Op>)
    requires Valid(s)
    ensures var p := MakePlan(s, session, mobile, meanwhile); SeenTruly(Play(s, p.acts), p.tasks)
  {
    var inv := (p: Planned, j: nat) => SeenTruly(Play(s, p.acts), p.tasks);
    var next := Planner(s, session, mobile, meanwhile);
    forall p: Planned, j: nat | j < LENGTH && inv(p, j) ensures inv(next(p, j), j + 1) {
      PlanNextSeesTruly(s, session, mobile, meanwhile, j, p);
    }
    IterateKeeps(next, inv, Planned([], [], [], false), LENGTH);
  }

  /** It is not so that all tasks of the session have succeeded and yet are only a beginning of the plan. */
  ghost predicate Fit(s: State, session: nat) {
    session < |s.sessions|
    && (Ids(s.tasks, session) == [] || Materialized(s, session) || !AllSucceeded(s.tasks, session))
  }

  lemma PlannedStepIsCareful(s: State, session: nat, turn: Turn)
    requires Honest(s, session)
    ensures var p := MakePlan(s, session, turn.mobile, turn.WhilePlanning());
            && Careful(s, session, p.acts)
            && Careful(s, session, p.acts + Pick(Play(s, p.acts), session, p.tasks, turn).acts)
  {
    var p := MakePlan(s, session, turn.mobile, turn.WhilePlanning());
    var u := Play(s, p.acts);
    PlannersMakeOneChain(s, session, turn.mobile, turn.WhilePlanning());
    PlanSeesTruly(s, session, turn.mobile, turn.WhilePlanning());
    if AllGood(s, session, p.acts) {
      GoodActsKeepHonest(s, session, p.acts);
      assert Listed(u, session, p.tasks);
      PickIsCareful(u, session, p.tasks, turn);
    }
    CarefulThen(s, session, p.acts, Pick(u, session, p.tasks, turn).acts);
  }

  lemma ListIsConclusive(s: State, session: nat)
    requires Honest(s, session) && Fit(s, session)
    ensures var listed := ListTasks(s.tasks, session); Listed(s, session, listed) && Conclusive(listed)
  {
    var listed := ListTasks(s.tasks, session);
    if AllSeenSucceeded(listed) {
      AllSeenAreAll(s, session, listed);
    }
  }

  lemma EnsurePlanIsCareful(s: State, session: nat, turn: Turn)
    requires Honest(s, session) && Fit(s, session)
    ensures Careful(s, session, EnsurePlan(s, session, turn).acts)
  {
    var listed := ListTasks(s.tasks, session);
    if |listed| > 0 {
      ListIsConclusive(s, session);
      PickIsCareful(s, session, listed, turn);
    } else {
      PlannedStepIsCareful(s, session, turn);
    }
  }

  /** When the step lists the session's tasks, they have not all succeeded as a mere beginning of the plan. */
  ghost predicate BeginsWell(s: State, session: nat, turn: Turn) {
    session < |s.sessions| && s.sessions[session].status == Active ==>
      Fit(Play(s, Others(turn.meanwhile(BeforePlan))), session)
  }

  /** A step is careful, whatever others do, if it begins well; on the whole plan it always does. */
  lemma RunNextIsCareful(s: State, session: nat, turn: Turn)
    requires Honest(s, session) && (Materialized(s, session) || BeginsWell(s, session, turn))
    ensures Careful(s, session, RunNext(s, session, turn).acts)
  {
    if s.sessions[session].status == Active {
      var ops := turn.meanwhile(BeforePlan);
      var at := Play(s, Others(ops));
      if AllGood(s, session, Others(ops)) {
        GoodActsKeepHonest(s, session, Others(ops));
        EnsurePlanIsCareful(at, session, turn);
      }
      CarefulAfterOthers(s, session, ops, EnsurePlan(at, session, turn).acts);
    }
  }

  // ---- planning again --------------------------------------------------------------------------

  /** Creating task `k` of the plan returns the row that is already there. */
  ghost predicate CreatesAgain(s: State, session: nat, mobile: bool, ids: seq<nat>, k: nat)
    requires k < LENGTH == |ids|
  {
    ids[k] < |s.tasks| && CreateTask(s, session, Spec(k, mobile), DepsAt(ids, k)) == Basics.Done(s, ids[k])
  }

  /** A planner has found the first `n` tasks of the plan and changed nothing. */
  ghost predicate HasFound(s: State, p: Planned, ids: seq<nat>, n: nat) {
    Play(s, p.acts) == s && !p.refused && |p.tasks| == n <= |ids| && Returns(p.tasks, ids) && p.deps == DepsAt(ids, n)
  }

  lemma FoundOneMore(s: State, p: Planned, act: Act, seen: Seen, ids: seq<nat>, j: nat)
    requires HasFound(s, p, ids, j) && j < |ids| && seen.id == ids[j] && Step(s, act.op) == s
    ensures HasFound(s, Plan.Planned(p.acts + ([] + [act]), p.tasks + [seen], [seen.id], false), ids, j + 1)
  {
    PlaysNothing(s, p.acts, act);
  }

  lemma PlaysNothing(s: State, acts: seq<Act>, act: Act)
    requires Play(s, acts) == s && Step(s, act.op) == s
    ensures Play(s, acts + ([] + [act])) == s
  {
    var one := [] + [act];
    assert one == [act];
    PlayOne(s, act);
    PlayConcat(s, acts, one);
  }

  lemma PlanNextAgain(
      s: State, session: nat, mobile: bool, meanwhile: nat -> seq<Op>, j: nat, p: Planned, ids: seq<nat>)
    requires j < LENGTH == |ids| && CreatesAgain(s, session, mobile, ids, j) && meanwhile(j) == []
    requires HasFound(s, p, ids, j)
    ensures HasFound(s, PlanNext(s, session, mobile, meanwhile, j, p), ids, j + 1)
  {
    assert Others(meanwhile(j)) == [];
    var act := Act(true, OpCreateTask(session, Spec(j, mobile), p.deps));
    FoundOneMore(s, p, act, Seen(ids[j], s.tasks[ids[j]]), ids, j);
  }

  lemma PlanAgain(s: State, session: nat, mobile: bool, meanwhile: nat -> seq<Op>, ids: seq<nat>)
    requires |ids| == LENGTH && forall k | 0 <= k < LENGTH :: CreatesAgain(s, session, mobile, ids, k)
    requires forall k :: meanwhile(k) == []
    ensures HasFound(s, MakePlan(s, session, mobile, meanwhile), ids, LENGTH)
  {
    var inv := (p: Planned, j: nat) => HasFound(s, p, ids, j);
    var next := Planner(s, session, mobile, meanwhile);
    forall p: Planned, j: nat | j < LENGTH && inv(p, j) ensures inv(next(p, j), j + 1) {
      assert CreatesAgain(s, session, mobile, ids, j);
      PlanNextAgain(s, session, mobile, meanwhile, j, p, ids);
    }
    IterateKeeps(next, inv, Planned([], [], [], false), LENGTH);
  }

  /** Planning is idempotent: making the plan again, undisturbed, changes nothing and returns the same
      nine tasks. */
  lemma PlanningIsIdempotent(s: State, session: nat, mobile: bool, meanwhile: nat -> seq<Op>)
    requires Materialized(s, session) && forall k :: meanwhile(k) == []
    ensures HasFound(s, MakePlan(s, session, mobile, meanwhile), Ids(s.tasks, session), LENGTH)
  {
    var ids := Ids(s.tasks, session);
    forall k | 0 <= k < LENGTH ensures CreatesAgain(s, session, mobile, ids, k) {
      CreationExtendsChain(s, session, Spec(k, mobile), k);
      CreationReturnsRow(s, session, Spec(k, mobile), DepsAt(ids, k));
    }
    PlanAgain(s, session, mobile, meanwhile, ids);
  }

  // ---- idling ----------------------------------------------------------------------------------

  ghost predicate Undisturbed(turn: Turn) {
    forall m :: turn.meanwhile(m) == []
  }

  lemma NothingMeanwhile(s: State, turn: Turn, m: Moment)
    requires Undisturbed(turn)
    ensures Play(s, Others(turn.meanwhile(m))) == s
  {
  }

  /** On an active session whose tasks are all pending or succeeded, an undisturbed step is never idle: it
      completes the session, or takes on a ready task unless that task needs the founder. */
  lemma NeverIdleOnPendingWork(s: State, session: nat, turn: Turn)
    requires Valid(s) && session < |s.sessions| && s.sessions[session].status == Active
    requires Undisturbed(turn) && Ids(s.tasks, session) != []
    requires forall t | 0 <= t < |s.tasks| && s.tasks[t].session == session ::
               s.tasks[t].status == Pending || s.tasks[t].status == Succeeded
    ensures var r := RunNext(s, session, turn).report;
            && (r == AllDone <==> AllSucceeded(s.tasks, session))
            && (r == AllDone || r.Ran? || r.FounderNeeded? || r == Raised)
  {
    NothingMeanwhile(s, turn, BeforePlan);
    NothingMeanwhile(s, turn, BeforeReady);
    NothingMeanwhile(s, turn, BeforeIdle);
    var ids, listed := Ids(s.tasks, session), ListTasks(s.tasks, session);
    assert s.tasks[ids[0]].session == session;
    if t :| 0 <= t < |s.tasks| && s.tasks[t].session == session && s.tasks[t].status == Pending {
      if FirstReady(s, session).None? {
        Progress(s, session, t);
      }
      assert !AllSucceeded(s.tasks, session);
    } else {
      assert FirstReady(s, session).None?;
      forall k | 0 <= k < |listed| ensures listed[k].task.status == Succeeded {
        assert s.tasks[ids[k]].session == session;
      }
    }
  }
}
