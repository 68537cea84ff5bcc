/** Where completion is not earned: a plan that was only begun. */
module TaskBoundaries {
  import opened Basics
  import opened Text
  import opened Tasks
  import opened TaskInvariants
  import opened TaskLaws
  import opened Plan
  import opened Orchestrator
  import opened OrchestratorLaws
  import H = Honesty
  import E = Evidence

  lemma UndisturbedCompletion(s: State, session: nat, turn: Turn)
    requires Valid(s) && session < |s.sessions| && s.sessions[session].status == Active && Undisturbed(turn)
    requires Ids(s.tasks, session) != [] && H.AllSucceeded(s.tasks, session)
    ensures RunNext(s, session, turn) == Turned([Act(true, OpCheckpoint(session, E.Complete))], AllDone)
  {
    NeverIdleOnPendingWork(s, session, turn);
    forall m ensures Others(turn.meanwhile(m)) == [] {
    }
    assert forall t | 0 <= t < |s.tasks| && s.tasks[t].session == session :: !Ready(s, t);
    assert EnsurePlan(s, session, turn).acts == Pick(s, session, ListTasks(s.tasks, session), turn).acts;
  }

  /** The trace completes the session and does nothing else. */
  ghost predicate OnlyCompletes(s: State, session: nat, acts: seq<Act>) {
    && session < |s.sessions|
    && Play(s, acts) == s.(sessions := s.sessions[session := Session(SessionStatus.Complete, E.Complete)])
  }

  lemma CheckpointCompletes(s: State, session: nat, r: Turned)
    requires session < |s.sessions|
    requires r == Turned([Act(true, OpCheckpoint(session, E.Complete))], AllDone)
    ensures r.report == AllDone && OnlyCompletes(s, session, r.acts)
  {
    PlayOne(s, Act(true, OpCheckpoint(session, E.Complete)));
  }

  /** An undisturbed step on an active session all of whose tasks have succeeded completes the session,
      whether or not the whole plan is there: a step does not finish a plan that somebody else began. */
  lemma SucceededSoFarCompletes(s: State, session: nat, turn: Turn)
    requires Valid(s) && session < |s.sessions| && s.sessions[session].status == Active && Undisturbed(turn)
    requires Ids(s.tasks, session) != [] && H.AllSucceeded(s.tasks, session)
    ensures RunNext(s, session, turn).report == AllDone
    ensures OnlyCompletes(s, session, RunNext(s, session, turn).acts)
  {
    UndisturbedCompletion(s, session, turn);
    CheckpointCompletes(s, session, RunNext(s, session, turn));
  }

  /** The condition on what a step begins on is exact: an undisturbed step on an honest and active session is
      careful exactly if the session is fit. */
  lemma CarefulExactlyIfFit(s: State, session: nat, turn: Turn)
    requires H.Honest(s, session) && s.sessions[session].status == Active && Undisturbed(turn)
    ensures H.Careful(s, session, RunNext(s, session, turn).acts) <==> Fit(s, session)
  {
    if Fit(s, session) {
      NothingMeanwhile(s, turn, BeforePlan);
      RunNextIsCareful(s, session, turn);
    } else {
      UndisturbedCompletion(s, session, turn);
      var op := OpCheckpoint(session, E.Complete);
      assert [Act(true, op)][..0] == [];
      assert H.GoodAt(s, session, [Act(true, op)], 0) <==> H.Good(s, session, op);
    }
  }

  /** The session has a succeeded task that is number `j` of the plan. */
  ghost predicate PhaseSucceeded(tasks: seq<Task>, session: nat, j: nat) {
    exists t :: 0 <= t < |tasks| && tasks[t].session == session && IsSpec(tasks[t].form, j)
                && tasks[t].status == Succeeded
  }

  ghost predicate AllPhasesSucceeded(tasks: seq<Task>, session: nat) {
    forall j | 0 <= j < LENGTH :: PhaseSucceeded(tasks, session, j)
  }

  /** With a begun plan, such a completion is earned, all nine phases having succeeded, exactly if the whole
      plan was there. */
  lemma EarnedExactlyByWholePlan(s: State, session: nat)
    requires PlanBegun(s, session) && H.AllSucceeded(s.tasks, session)
    ensures AllPhasesSucceeded(s.tasks, session) <==> Materialized(s, session)
  {
    var ids := Ids(s.tasks, session);
    if |ids| < LENGTH {
      var j := |ids|;
      if PhaseSucceeded(s.tasks, session, j) {
        var t :| 0 <= t < |s.tasks| && s.tasks[t].session == session && IsSpec(s.tasks[t].form, j);
        ChainKeys(s.tasks, session, j);
        SpecIsAcceptable(s.tasks[t].form, j);
      }
    } else {
      forall j | 0 <= j < LENGTH ensures PhaseSucceeded(s.tasks, session, j) {
        assert ChainTask(s.tasks, ids, j) && s.tasks[ids[j]].session == session;
      }
    }
  }

  // ---- such a session can be reached -----------------------------------------------------------

  function Discovery(): Task {
    Task(0, Spec(0, false), [], Succeeded, 1, 1, None)
  }

  function Checked(): E.Result {
    Dispatch(E.Checkpoint, Threw)
  }

  function Begun(): State {
    State([Session(Active, E.Approval)], [Discovery()],
          [Run(0, 0, 1, "w", Local, Succeeded, Some(Checked()), {})])
  }

  lemma CreateDiscovery(s: State)
    requires s == State([Session(Active, E.Approval)], [], [])
    ensures CreateTask(s, 0, Spec(0, false), []).After(s)
            == s.(tasks := [Discovery().(status := Pending, attempts := 0)])
  {
    SpecIsAcceptable(Spec(0, false), 0);
    CreateAppends(s, 0, Spec(0, false), []);
  }

  lemma ClaimDiscovery(s: State)
    requires s == State([Session(Active, E.Approval)], [Discovery().(status := Pending, attempts := 0)], [])
    ensures ClaimTask(s, 0, "w", Local).After(s)
            == State(s.sessions, [Discovery().(status := Running, active := Some(0))],
                     [Run(0, 0, 1, "w", Local, Running, None, {})])
  {
    assert !IsSpace("w"[0]);
  }

  lemma FinishDiscovery(s: State)
    requires s == State([Session(Active, E.Approval)], [Discovery().(status := Running, active := Some(0))],
                        [Run(0, 0, 1, "w", Local, Running, None, {})])
    ensures FinishRun(s, 0, Succeeded, Checked(), {}).After(s) == Begun()
  {
  }

  /** A planner that crashes after its first transaction, and a worker that runs that task. */
  function BeginOps(): seq<Op> {
    [OpCreateSession, OpCreateTask(0, Spec(0, false), []), OpClaim(0, "w", Local),
     OpFinish(0, Succeeded, Checked(), {})]
  }

  lemma BegunIsReachable()
    ensures Steps(Empty(), BeginOps()) == Begun()
  {
    var ops := BeginOps();
    assert ops[..3][..2] == ops[..2] && ops[..2][..1] == ops[..1] && ops[..1][..0] == [];
    var one := State([Session(Active, E.Approval)], [], []);
    assert Steps(Empty(), ops[..1]) == one;
    CreateDiscovery(one);
    var two := one.(tasks := [Discovery().(status := Pending, attempts := 0)]);
    assert Steps(Empty(), ops[..2]) == two;
    ClaimDiscovery(two);
    var three := ClaimTask(two, 0, "w", Local).After(two);
    assert Steps(Empty(), ops[..3]) == three;
    FinishDiscovery(three);
  }

  lemma BegunIsBegun()
    ensures PlanBegun(Begun(), 0) && Ids(Begun().tasks, 0) == [0] && !PhaseSucceeded(Begun().tasks, 0, 1)
  {
    var s := Begun();
    BegunIsReachable();
    EmptyIsValid();
    StepsKeepValid(Empty(), BeginOps());
    assert IdsUpTo(s.tasks, 0, 0) == [];
    assert ChainTask(s.tasks, [0], 0);
    KeysDiffer(0, 1);
  }

  /** So completion can come with eight of nine phases missing. */
  lemma CompletionWithoutPlan(turn: Turn)
    requires Undisturbed(turn)
    ensures var s := Steps(Empty(), BeginOps()); var u := Play(s, RunNext(s, 0, turn).acts);
            && |u.sessions| > 0 && u.sessions[0].status == SessionStatus.Complete
            && !PhaseSucceeded(u.tasks, 0, 1)
  {
    BegunIsReachable();
    BegunIsBegun();
    SucceededSoFarCompletes(Begun(), 0, turn);
  }
}
