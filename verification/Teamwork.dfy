/**
 Workers and planners together.

 Every transaction of a run has an owner. To its owner a run is a trace of its own transactions and those
 of others. If each worker's trace is that of its steps, nothing is presumed about any worker: being
 careful each, they are good together.
*/
module Teamwork {
  import opened Basics
  import opened Tasks
  import opened TaskInvariants
  import opened TaskLaws
  import opened Plan
  import opened Honesty
  import opened Orchestrator
  import opened OrchestratorLaws
  import E = Evidence

  // ---- what one worker does --------------------------------------------------------------------

  datatype Job = MakesPlan(mobile: bool, meanwhile: nat -> seq<Op>) | TakesStep(turn: Turn) | Rests

  /** A job, and what others do before it. */
  datatype Shift = Shift(before: seq<Op>, job: Job)

  function JobActs(s: State, session: nat, job: Job): seq<Act> {
    match job
    case MakesPlan(mobile, meanwhile) => MakePlan(s, session, mobile, meanwhile).acts
    case TakesStep(turn) => RunNext(s, session, turn).acts
    case Rests => []
  }

  function ShiftActs(s: State, session: nat, shift: Shift): seq<Act> {
    Others(shift.before) + JobActs(Play(s, Others(shift.before)), session, shift.job)
  }

  /** The trace of a worker that does one job after the other. */
  function Shifts(s: State, session: nat, shifts: seq<Shift>): seq<Act> {
    if |shifts| == 0 then []
    else
      var done := Shifts(s, session, shifts[..|shifts| - 1]);
      done + ShiftActs(Play(s, done), session, shifts[|shifts| - 1])
  }

  ghost predicate JobBeginsWell(s: State, session: nat, job: Job) {
    job.TakesStep? ==> BeginsWell(s, session, job.turn)
  }

  ghost predicate ShiftBeginsWell(s: State, session: nat, shifts: seq<Shift>, k: nat)
    requires k < |shifts|
  {
    JobBeginsWell(Play(Play(s, Shifts(s, session, shifts[..k])), Others(shifts[k].before)), session, shifts[k].job)
  }

  /** No step begins when all tasks have succeeded as a mere beginning of the plan. */
  ghost predicate AllBeginWell(s: State, session: nat, shifts: seq<Shift>) {
    forall k | 0 <= k < |shifts| :: ShiftBeginsWell(s, session, shifts, k)
  }

  lemma JobIsCareful(s: State, session: nat, job: Job)
    requires Honest(s, session) && (Materialized(s, session) || JobBeginsWell(s, session, job))
    ensures Careful(s, session, JobActs(s, session, job))
  {
    match job
    case MakesPlan(mobile, meanwhile) => PlannersMakeOneChain(s, session, mobile, meanwhile);
    case TakesStep(turn) => RunNextIsCareful(s, session, turn);
    case Rests =>
  }

  lemma ShiftIsCareful(s: State, session: nat, shift: Shift)
    requires Honest(s, session)
    requires Materialized(s, session) || JobBeginsWell(Play(s, Others(shift.before)), session, shift.job)
    ensures Careful(s, session, ShiftActs(s, session, shift))
  {
    var at := Play(s, Others(shift.before));
    if AllGood(s, session, Others(shift.before)) {
      GoodActsKeepHonest(s, session, Others(shift.before));
      JobIsCareful(at, session, shift.job);
    }
    CarefulAfterOthers(s, session, shift.before, JobActs(at, session, shift.job));
  }

  lemma NextShiftIsCareful(s: State, session: nat, done: seq<Act>, shift: Shift)
    requires Honest(s, session) && Careful(s, session, done)
    requires Materialized(s, session)
             || JobBeginsWell(Play(Play(s, done), Others(shift.before)), session, shift.job)
    ensures Careful(s, session, done + ShiftActs(Play(s, done), session, shift))
  {
    if AllGood(s, session, done) {
      GoodActsKeepHonest(s, session, done);
      ShiftIsCareful(Play(s, done), session, shift);
    }
    CarefulThen(s, session, done, ShiftActs(Play(s, done), session, shift));
  }

  lemma StillBeginWell(s: State, session: nat, shifts: seq<Shift>)
    requires |shifts| > 0 && AllBeginWell(s, session, shifts)
    ensures AllBeginWell(s, session, shifts[..|shifts| - 1])
    ensures ShiftBeginsWell(s, session, shifts, |shifts| - 1)
  {
    var before := shifts[..|shifts| - 1];
    forall k | 0 <= k < |before| ensures ShiftBeginsWell(s, session, before, k) {
      assert before[..k] == shifts[..k];
      assert ShiftBeginsWell(s, session, shifts, k);
    }
  }

  lemma {:induction false} ShiftsAreCareful(s: State, session: nat, shifts: seq<Shift>)
    requires Honest(s, session) && (Materialized(s, session) || AllBeginWell(s, session, shifts))
    ensures Careful(s, session, Shifts(s, session, shifts))
  {
    if |shifts| > 0 {
      if !Materialized(s, session) {
        StillBeginWell(s, session, shifts);
      }
      ShiftsAreCareful(s, session, shifts[..|shifts| - 1]);
      NextShiftIsCareful(s, session, Shifts(s, session, shifts[..|shifts| - 1]), shifts[|shifts| - 1]);
    }
  }

  lemma OthersTwice(s: State, a: seq<Op>, b: seq<Op>)
    ensures Others(a + b) == Others(a) + Others(b)
    ensures Play(s, Others(a + b)) == Play(Play(s, Others(a)), Others(b))
  {
    assert Others(a + b) == Others(a) + Others(b);
    PlayConcat(s, Others(a), Others(b));
  }

  lemma OneMoreShift(s: State, session: nat, shifts: seq<Shift>, shift: Shift)
    ensures var done := Shifts(s, session, shifts);
            Shifts(s, session, shifts + [shift]) == done + ShiftActs(Play(s, done), session, shift)
  {
    assert (shifts + [shift])[..|shifts|] == shifts;
  }

  lemma OneMoreBeginsWell(s: State, session: nat, shifts: seq<Shift>, shift: Shift)
    requires AllBeginWell(s, session, shifts)
    requires JobBeginsWell(Play(Play(s, Shifts(s, session, shifts)), Others(shift.before)), session, shift.job)
    ensures AllBeginWell(s, session, shifts + [shift])
  {
    var more := shifts + [shift];
    forall k | 0 <= k < |more| ensures ShiftBeginsWell(s, session, more, k) {
      if k < |shifts| {
        assert more[..k] == shifts[..k] && ShiftBeginsWell(s, session, shifts, k);
      } else {
        assert more[..k] == shifts;
      }
    }
  }

  // ---- the worker loop -------------------------------------------------------------------------

  /** The round finds its session active, and so takes a step. */
  predicate FindsActive(s: State, session: nat, round: Round) {
    var at := Play(s, Others(round.before));
    session < |at.sessions| && at.sessions[session].status == Active
  }

  /** What a round does that does not find the manager stopping. */
  function RoundShift(s: State, session: nat, round: Round): Shift {
    if FindsActive(s, session, round) then Shift(round.before + round.between, TakesStep(round.turn))
    else Shift(round.before, Rests)
  }

  lemma StepShift(s: State, session: nat, a: seq<Op>, b: seq<Op>, turn: Turn)
    ensures ShiftActs(s, session, Shift(a + b, TakesStep(turn)))
         == Others(a) + (Others(b) + RunNext(Play(Play(s, Others(a)), Others(b)), session, turn).acts)
  {
    OthersTwice(s, a, b);
    Reassociates(Others(a), Others(b), RunNext(Play(Play(s, Others(a)), Others(b)), session, turn).acts);
  }

  lemma Reassociates(a: seq<Act>, b: seq<Act>, c: seq<Act>)
    ensures (a + b) + c == a + (b + c)
  {
  }

  lemma RoundIsShift(s: State, session: nat, round: Round)
    requires !round.stopping
    ensures RunRound(s, session, round).acts == ShiftActs(s, session, RoundShift(s, session, round))
  {
    if FindsActive(s, session, round) {
      StepShift(s, session, round.before, round.between, round.turn);
    }
  }

  /** What a round of the loop does, if the loop has not ended. */
  function RoundJobs(s: State, session: nat, rounds: nat -> Round): (Looped, nat) -> seq<Shift> {
    (l: Looped, i: nat) =>
      if l.report.Some? || rounds(i).stopping then [] else [RoundShift(Play(s, l.acts), session, rounds(i))]
  }

  /** What the first `n` rounds of the loop do, one shift for each round until it ends. */
  function LoopShifts(s: State, session: nat, rounds: nat -> Round, n: nat): seq<Shift> {
    Collect(Rounds(s, session, rounds), RoundJobs(s, session, rounds), Looped([], None), n)
  }

  lemma NextRoundIsShift(s: State, session: nat, rounds: nat -> Round, l: Looped, i: nat, shifts: seq<Shift>)
    requires l.acts == Shifts(s, session, shifts)
    ensures NextRound(s, session, rounds, l, i).acts
         == Shifts(s, session, shifts + RoundJobs(s, session, rounds)(l, i))
  {
    if l.report.Some? || rounds(i).stopping {
      assert shifts + [] == shifts;
    } else {
      RoundIsShift(Play(s, l.acts), session, rounds(i));
      OneMoreShift(s, session, shifts, RoundShift(Play(s, l.acts), session, rounds(i)));
    }
  }

  /** The worker loop is such a worker. */
  lemma LoopIsShifts(s: State, session: nat, rounds: nat -> Round, n: nat)
    ensures RoundsUpTo(s, session, rounds, n).acts == Shifts(s, session, LoopShifts(s, session, rounds, n))
  {
    var next, jobs := Rounds(s, session, rounds), RoundJobs(s, session, rounds);
    var inv := (l: Looped, shifts: seq<Shift>) => l.acts == Shifts(s, session, shifts);
    forall l: Looped, shifts: seq<Shift>, i: nat | inv(l, shifts) ensures inv(next(l, i), shifts + jobs(l, i)) {
      NextRoundIsShift(s, session, rounds, l, i, shifts);
    }
    assert Shifts(s, session, []) == [];
    CollectKeeps(next, jobs, (l, i) => true, inv, Looped([], None), n);
  }

  /** If the round takes a step, that begins well. */
  ghost predicate RoundBeginsWell(s: State, session: nat, round: Round) {
    !round.stopping && FindsActive(s, session, round) ==>
      BeginsWell(Play(Play(s, Others(round.before)), Others(round.between)), session, round.turn)
  }

  /** The loop does not come to this round, or the round begins well. */
  ghost function BeginningWell(s: State, session: nat, rounds: nat -> Round): (Looped, nat) -> bool {
    (l: Looped, i: nat) => l.report.None? ==> RoundBeginsWell(Play(s, l.acts), session, rounds(i))
  }

  /** Every round that the loop comes to begins well. */
  ghost predicate LoopBeginsWell(s: State, session: nat, rounds: nat -> Round, n: nat) {
    Always(Rounds(s, session, rounds), BeginningWell(s, session, rounds), Looped([], None), n)
  }

  lemma RoundShiftBeginsWell(s: State, session: nat, round: Round)
    requires !round.stopping && RoundBeginsWell(s, session, round)
    ensures var shift := RoundShift(s, session, round);
            JobBeginsWell(Play(s, Others(shift.before)), session, shift.job)
  {
    OthersTwice(s, round.before, round.between);
  }

  lemma NextRoundBeginsWell(s: State, session: nat, rounds: nat -> Round, l: Looped, i: nat, shifts: seq<Shift>)
    requires l.acts == Shifts(s, session, shifts) && AllBeginWell(s, session, shifts)
    requires BeginningWell(s, session, rounds)(l, i)
    ensures AllBeginWell(s, session, shifts + RoundJobs(s, session, rounds)(l, i))
  {
    if l.report.Some? || rounds(i).stopping {
      assert shifts + [] == shifts;
    } else {
      RoundShiftBeginsWell(Play(s, l.acts), session, rounds(i));
      OneMoreBeginsWell(s, session, shifts, RoundShift(Play(s, l.acts), session, rounds(i)));
    }
  }

  lemma LoopShiftsBeginWell(s: State, session: nat, rounds: nat -> Round, n: nat)
    requires LoopBeginsWell(s, session, rounds, n)
    ensures AllBeginWell(s, session, LoopShifts(s, session, rounds, n))
  {
    var next, jobs := Rounds(s, session, rounds), RoundJobs(s, session, rounds);
    var inv := (l: Looped, shifts: seq<Shift>) =>
      l.acts == Shifts(s, session, shifts) && AllBeginWell(s, session, shifts);
    var begins := BeginningWell(s, session, rounds);
    forall l: Looped, shifts: seq<Shift>, i: nat | begins(l, i) && inv(l, shifts)
      ensures inv(next(l, i), shifts + jobs(l, i))
    {
      NextRoundIsShift(s, session, rounds, l, i, shifts);
      NextRoundBeginsWell(s, session, rounds, l, i, shifts);
    }
    assert Shifts(s, session, []) == [];
    CollectKeeps(next, jobs, begins, inv, Looped([], None), n);
  }

  // ---- all together ----------------------------------------------------------------------------

  datatype Deed = Deed(owner: nat, op: Op)

  /** The run as its owner `owner` sees it. */
  function View(run: seq<Deed>, owner: nat): (acts: seq<Act>)
    ensures |acts| == |run|
    ensures forall i | 0 <= i < |run| :: acts[i] == Act(run[i].owner == owner, run[i].op)
  {
    seq(|run|, i requires 0 <= i < |run| => Act(run[i].owner == owner, run[i].op))
  }

  /** To everyone a transaction is good or not. */
  lemma ViewsAgree(s: State, session: nat, run: seq<Deed>, o: nat, p: nat, i: nat)
    requires i < |run|
    ensures GoodAt(s, session, View(run, o), i) <==> GoodAt(s, session, View(run, p), i)
  {
    var a, b := View(run, o)[..i], View(run, p)[..i];
    PlayIsSteps(s, a);
    PlayIsSteps(s, b);
    assert OpsOf(a) == OpsOf(b);
  }

  /** The transaction is good, or its owner is careful. */
  ghost predicate GoodOrCareful(s: State, session: nat, run: seq<Deed>, i: nat)
    requires i < |run|
  {
    Careful(s, session, View(run, run[i].owner)) || GoodAt(s, session, View(run, run[i].owner), i)
  }

  lemma NextIsGood(s: State, session: nat, run: seq<Deed>, o: nat, n: nat)
    requires n < |run| && GoodOrCareful(s, session, run, n)
    requires forall i | 0 <= i < n :: GoodAt(s, session, View(run, o), i)
    ensures GoodAt(s, session, View(run, o), n)
  {
    var p := run[n].owner;
    forall i | 0 <= i < n ensures GoodAt(s, session, View(run, p), i) {
      ViewsAgree(s, session, run, o, p, i);
    }
    ViewsAgree(s, session, run, o, p, n);
  }

  /** If each transaction is good or its owner careful, all are good. */
  lemma {:induction false} Together(s: State, session: nat, run: seq<Deed>, o: nat, n: nat)
    requires n <= |run| && forall i | 0 <= i < |run| :: GoodOrCareful(s, session, run, i)
    ensures forall i | 0 <= i < n :: GoodAt(s, session, View(run, o), i)
  {
    if n > 0 {
      Together(s, session, run, o, n - 1);
      NextIsGood(s, session, run, o, n - 1);
    }
  }

  /** Up to where it has come, the worker has done these jobs, and begun each step well. */
  ghost predicate Works(s: State, session: nat, run: seq<Deed>, o: nat, shifts: seq<Shift>) {
    View(run, o) <= Shifts(s, session, shifts) && (Materialized(s, session) || AllBeginWell(s, session, shifts))
  }

  /** Any number of workers and planners may work on a session at once, from its first step on. If what the
      rest of the system does is good, then all that is done is good, and if it leaves the session complete,
      its plan was earned. Nothing is presumed about the workers but that each does its jobs, none of whose
      steps begins when all tasks have succeeded as a mere beginning of the plan. */
  lemma TeamCompletesEarned(s: State, session: nat, run: seq<Deed>, team: map<nat, seq<Shift>>, o: nat)
    requires Honest(s, session)
    requires forall w | w in team :: Works(s, session, run, w, team[w])
    requires forall i | 0 <= i < |run| && run[i].owner !in team :: GoodAt(s, session, View(run, run[i].owner), i)
    ensures AllGood(s, session, View(run, o))
    ensures var u := Play(s, View(run, o));
            && Honest(u, session)
            && (u.sessions[session].status == SessionStatus.Complete ==> PlanEarned(u, session))
  {
    forall i | 0 <= i < |run|
      ensures GoodOrCareful(s, session, run, i)
    {
      var w := run[i].owner;
      if w in team {
        ShiftsAreCareful(s, session, team[w]);
        CarefulPrefix(s, session, View(run, w), Shifts(s, session, team[w]));
      }
    }
    Together(s, session, run, o, |run|);
    GoodActsKeepHonest(s, session, View(run, o));
    if Play(s, View(run, o)).sessions[session].status == SessionStatus.Complete {
      CompletionIsEarned(s, session, View(run, o));
    }
  }

  /** A worker loop, and what others do after it has ended. */
  datatype Loop = Loop(limit: nat, rounds: nat -> Round, after: seq<Op>)

  function LoopActs(s: State, session: nat, loop: Loop): seq<Act> {
    RunSession(s, session, loop.limit, loop.rounds).0 + Others(loop.after)
  }

  function JobsOf(s: State, session: nat, loop: Loop): seq<Shift> {
    LoopShifts(s, session, loop.rounds, loop.limit) + [Shift(loop.after, Rests)]
  }

  /** Up to where it has come, the worker has gone round this loop, and each round that it came to began well. */
  ghost predicate Loops(s: State, session: nat, run: seq<Deed>, o: nat, loop: Loop) {
    && View(run, o) <= LoopActs(s, session, loop)
    && (Materialized(s, session) || LoopBeginsWell(s, session, loop.rounds, loop.limit))
  }

  lemma LoopWorks(s: State, session: nat, run: seq<Deed>, o: nat, loop: Loop)
    requires Loops(s, session, run, o, loop)
    ensures Works(s, session, run, o, JobsOf(s, session, loop))
  {
    var shifts := LoopShifts(s, session, loop.rounds, loop.limit);
    LoopIsShifts(s, session, loop.rounds, loop.limit);
    OneMoreShift(s, session, shifts, Shift(loop.after, Rests));
    assert Others(loop.after) + [] == Others(loop.after);
    if !Materialized(s, session) {
      LoopShiftsBeginWell(s, session, loop.rounds, loop.limit);
      OneMoreBeginsWell(s, session, shifts, Shift(loop.after, Rests));
    }
  }

  /** The law of teams for worker loops. */
  lemma LoopsCompleteEarned(s: State, session: nat, run: seq<Deed>, loops: map<nat, Loop>, o: nat)
    requires Honest(s, session)
    requires forall w | w in loops :: Loops(s, session, run, w, loops[w])
    requires forall i | 0 <= i < |run| && run[i].owner !in loops :: GoodAt(s, session, View(run, run[i].owner), i)
    ensures AllGood(s, session, View(run, o))
    ensures var u := Play(s, View(run, o));
            && Honest(u, session)
            && (u.sessions[session].status == SessionStatus.Complete ==> PlanEarned(u, session))
  {
    var team := map w | w in loops :: JobsOf(s, session, loops[w]);
    forall w | w in team ensures Works(s, session, run, w, team[w]) {
      LoopWorks(s, session, run, w, loops[w]);
    }
    TeamCompletesEarned(s, session, run, team, o);
  }

  /** What founders, operators, recovery and the workers of other sessions do is good, but for completing the
      session by decision. */
  lemma OthersAreGood(s: State, session: nat, op: Op)
    requires !(op.OpFinish? && Concerns(s, session, op.run)) && !(op.OpCreateTask? && op.session == session)
    requires !(op.OpCheckpoint? && op.session == session && op.phase == E.Complete)
    ensures Good(s, session, op)
  {
  }

  /** Whatever has happened before, a session that was just created is honest. */
  lemma NewSessionIsHonest(ops: seq<Op>)
    ensures Honest(CreateSession(Steps(Empty(), ops)).state, |Steps(Empty(), ops).sessions|)
  {
    var s := Steps(Empty(), ops);
    EmptyIsValid();
    StepsKeepValid(Empty(), ops);
    StepKeepsValid(s, OpCreateSession);
    var ids := Ids(s.tasks, |s.sessions|);
    assert |ids| > 0 ==> TaskOk(s, ids[0]);
    forall t | 0 <= t < |s.tasks| ensures s.tasks[t].session < |s.sessions| {
      assert TaskOk(s, t);
    }
  }
}
