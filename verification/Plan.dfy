/**
 The lifecycle plan: nine tasks, each depending on the one before it, created one transaction at a time
 while other workers go on.
*/
module Plan {
  import opened Basics
  import opened Text
  import opened Tasks
  import opened TaskInvariants
  import opened TaskLaws
  import E = Evidence

  const LENGTH: nat := 9

  function PhaseAt(j: nat): E.Phase
    requires j < LENGTH
  {
    match j
    case 0 => E.Discovery
    case 1 => E.Requirements
    case 2 => E.Architecture
    case 3 => E.Planning
    case 4 => E.Implementation
    case 5 => E.Verifying
    case 6 => E.Reviewing
    case 7 => E.Release
    case _ => E.Complete
  }

  function Name(j: nat): string
    requires j < LENGTH
  {
    match j
    case 0 => "discovery"
    case 1 => "requirements"
    case 2 => "architecture"
    case 3 => "planning"
    case 4 => "implementation"
    case 5 => "verification"
    case 6 => "review"
    case 7 => "release"
    case _ => "complete"
  }

  function Key(j: nat): string
    requires j < LENGTH
  {
    "lifecycle:" + Name(j)
  }

  /** The release task of a mobile product watches a workflow; otherwise it is a checkpoint. */
  function KindAt(j: nat, mobile: bool): E.Kind
    requires j < LENGTH
  {
    match j
    case 0 | 8 => E.Checkpoint
    case 5 => E.Verification
    case 6 => E.Review
    case 7 => if mobile then E.Github else E.Checkpoint
    case _ => E.Agent
  }

  function RouteAt(j: nat): Requested {
    if j == 2 || j == 4 then Adaptive(true) else ToLocal
  }

  function OutputContract(path: string): E.Contract {
    E.Contract([path], [path])
  }

  function ContractAt(j: nat): Option<E.Contract> {
    match j
    case 1 => Some(OutputContract(".zade/build/requirements.md"))
    case 2 => Some(OutputContract(".zade/build/architecture.md"))
    case 3 => Some(OutputContract(".zade/build/plan.md"))
    case _ => None
  }

  function AttemptsAt(j: nat): nat {
    if 1 <= j <= 5 then 2 else 1
  }

  /** The phase name stands in for the task's prose title. */
  function Spec(j: nat, mobile: bool): Form
    requires j < LENGTH
  {
    Form(PhaseAt(j), KindAt(j, mobile), Name(j), RouteAt(j), ContractAt(j), Key(j), AttemptsAt(j))
  }

  // ---- traces ----------------------------------------------------------------------------------

  /** A transaction, and whether the worker in question made it or somebody else did meanwhile. */
  datatype Act = Act(mine: bool, op: Op)

  function Others(ops: seq<Op>): (acts: seq<Act>)
    ensures |acts| == |ops| && forall i | 0 <= i < |acts| :: acts[i] == Act(false, ops[i])
  {
    seq(|ops|, i requires 0 <= i < |ops| => Act(false, ops[i]))
  }

  function Play(s: State, acts: seq<Act>): State {
    if |acts| == 0 then s else Step(Play(s, acts[..|acts| - 1]), acts[|acts| - 1].op)
  }

  function OpsOf(acts: seq<Act>): (ops: seq<Op>)
    ensures |ops| == |acts| && forall i | 0 <= i < |acts| :: ops[i] == acts[i].op
  {
    seq(|acts|, i requires 0 <= i < |acts| => acts[i].op)
  }

  /** A trace is a run of transactions, so all laws of runs apply to it. */
  lemma {:induction false} PlayIsSteps(s: State, acts: seq<Act>)
    ensures Play(s, acts) == Steps(s, OpsOf(acts))
  {
    if |acts| > 0 {
      PlayIsSteps(s, acts[..|acts| - 1]);
      assert OpsOf(acts)[..|acts| - 1] == OpsOf(acts[..|acts| - 1]);
    }
  }

  lemma {:induction false} PlayConcat(s: State, a: seq<Act>, b: seq<Act>)
    ensures Play(s, a + b) == Play(Play(s, a), b)
  {
    if |b| == 0 {
      assert a + b == a;
    } else {
      PlayConcat(s, a, b[..|b| - 1]);
      assert (a + b)[..|a + b| - 1] == a + b[..|b| - 1];
    }
  }

  lemma PlayOne(s: State, act: Act)
    ensures Play(s, [act]) == Step(s, act.op)
  {
    assert [act][..0] == [];
  }

  lemma PlayAdvances(s: State, acts: seq<Act>)
    requires Valid(s)
    ensures Valid(Play(s, acts)) && Advances(s, Play(s, acts))
  {
    PlayIsSteps(s, acts);
    StepsAdvance(s, OpsOf(acts));
  }

  // ---- planning --------------------------------------------------------------------------------

  /** A task as one read of it returned it. */
  datatype Seen = Seen(id: nat, task: Task)

  lemma CreationReturnsRow(s: State, session: nat, form: Form, deps: seq<nat>)
    requires CreateTask(s, session, form, deps).Done?
    ensures var a := CreateTask(s, session, form, deps); a.value < |a.state.tasks|
  {
  }

  /** A planner's progress: what has happened, the tasks its transactions returned, the dependencies of the
      next task, and whether a transaction was refused, which ends the planning. */
  datatype Planned = Planned(acts: seq<Act>, tasks: seq<Seen>, deps: seq<nat>, refused: bool)

  /** Creating task number `j`, after what others do before it. */
  function PlanNext(s: State, session: nat, mobile: bool, meanwhile: nat -> seq<Op>, j: nat, p: Planned): Planned {
    if p.refused || j >= LENGTH then p
    else
      var before := Others(meanwhile(j));
      var act := Act(true, OpCreateTask(session, Spec(j, mobile), p.deps));
      match CreateTask(Play(Play(s, p.acts), before), session, Spec(j, mobile), p.deps)
      case Refused(_) => p.(acts := p.acts + before, refused := true)
      case Done(u, id) =>
        if id < |u.tasks| then Planned(p.acts + (before + [act]), p.tasks + [Seen(id, u.tasks[id])], [id], false)
        else assert false; p
  }

  function Planner(s: State, session: nat, mobile: bool, meanwhile: nat -> seq<Op>): (Planned, nat) -> Planned {
    (p: Planned, j: nat) => PlanNext(s, session, mobile, meanwhile, j, p)
  }

  /** The creation of the first `n` tasks of the plan. */
  function PlanUpTo(s: State, session: nat, mobile: bool, meanwhile: nat -> seq<Op>, n: nat): Planned {
    Iterate(Planner(s, session, mobile, meanwhile), Planned([], [], [], false), n)
  }

  lemma PlanUpToNext(s: State, session: nat, mobile: bool, meanwhile: nat -> seq<Op>, j: nat)
    ensures PlanUpTo(s, session, mobile, meanwhile, j + 1)
            == PlanNext(s, session, mobile, meanwhile, j, PlanUpTo(s, session, mobile, meanwhile, j))
  {
  }

  /** A refusal ends the planning. */
  lemma {:induction false} RefusedForGood(
      s: State, session: nat, mobile: bool, meanwhile: nat -> seq<Op>, p: Planned, j: nat, n: nat)
    requires p == PlanUpTo(s, session, mobile, meanwhile, j) && p.refused && j <= n
    ensures PlanUpTo(s, session, mobile, meanwhile, n) == p
  {
    if j < n {
      RefusedForGood(s, session, mobile, meanwhile, p, j, n - 1);
    }
  }

  /** The plan of a session, made by one worker. */
  function MakePlan(s: State, session: nat, mobile: bool, meanwhile: nat -> seq<Op>): Planned {
    PlanUpTo(s, session, mobile, meanwhile, LENGTH)
  }

  // ---- keys ------------------------------------------------------------------------------------

  lemma KeysDiffer(i: nat, j: nat)
    requires i < j < LENGTH
    ensures Key(i) != Key(j)
  {
    assert Key(i)[10] == Name(i)[0] && Key(j)[10] == Name(j)[0];
  }

  lemma KeyIsStripped(j: nat)
    requires j < LENGTH
    ensures Strip(Key(j)) == Key(j) != "" && !Blank(Name(j))
  {
    var key, name := Key(j), Name(j);
    assert key[0] == 'l' && key[|key| - 1] == name[|name| - 1];
    assert !IsSpace(name[|name| - 1]) by {
      assert name[|name| - 1] in ['y', 's', 'e', 'g', 'n', 'w'];
    }
  }

  // ---- the tasks of a session ------------------------------------------------------------------

  /** The session's tasks among the first `n`, in order. */
  function IdsUpTo(tasks: seq<Task>, session: nat, n: nat): (ids: seq<nat>)
    requires n <= |tasks|
    ensures forall k | 0 <= k < |ids| :: ids[k] < n && tasks[ids[k]].session == session
    ensures forall i, k | 0 <= i < k < |ids| :: ids[i] < ids[k]
  {
    if n == 0 then []
    else
      var ids := IdsUpTo(tasks, session, n - 1);
      if tasks[n - 1].session == session then ids + [n - 1] else ids
  }

  function Ids(tasks: seq<Task>, session: nat): (ids: seq<nat>)
    ensures forall k | 0 <= k < |ids| :: ids[k] < |tasks| && tasks[ids[k]].session == session
    ensures forall i, k | 0 <= i < k < |ids| :: ids[i] < ids[k]
  {
    IdsUpTo(tasks, session, |tasks|)
  }

  /** Where a task of the session stands among its tasks. */
  lemma {:induction false} RankUpTo(tasks: seq<Task>, session: nat, n: nat, t: nat) returns (k: nat)
    requires t < n <= |tasks| && tasks[t].session == session
    ensures k < |IdsUpTo(tasks, session, n)| && IdsUpTo(tasks, session, n)[k] == t
  {
    if t == n - 1 {
      k := |IdsUpTo(tasks, session, n - 1)|;
    } else {
      k := RankUpTo(tasks, session, n - 1, t);
    }
  }

  lemma Rank(tasks: seq<Task>, session: nat, t: nat) returns (k: nat)
    requires t < |tasks| && tasks[t].session == session
    ensures k < |Ids(tasks, session)| && Ids(tasks, session)[k] == t
  {
    k := RankUpTo(tasks, session, |tasks|, t);
  }

  lemma {:induction false} IdsOfPrefix(a: seq<Task>, b: seq<Task>, session: nat, n: nat)
    requires n <= |a| && n <= |b| && forall t | 0 <= t < n :: a[t].session == b[t].session
    ensures IdsUpTo(a, session, n) == IdsUpTo(b, session, n)
  {
    if n > 0 {
      IdsOfPrefix(a, b, session, n - 1);
    }
  }

  lemma {:induction false} IdsUpToPrefix(tasks: seq<Task>, session: nat, m: nat, n: nat)
    requires m <= n <= |tasks|
    ensures IdsUpTo(tasks, session, m) <= IdsUpTo(tasks, session, n)
  {
    if m < n {
      IdsUpToPrefix(tasks, session, m, n - 1);
    }
  }

  /** Later states list the same tasks, and then any new ones. */
  lemma IdsGrow(a: seq<Task>, b: seq<Task>, session: nat)
    requires TasksAdvance(a, b)
    ensures Ids(a, session) <= Ids(b, session)
    ensures |a| == |b| ==> Ids(a, session) == Ids(b, session)
  {
    forall t | 0 <= t < |a| ensures a[t].session == b[t].session {
      assert SameTask(a[t], b[t]);
    }
    IdsOfPrefix(a, b, session, |a|);
    IdsUpToPrefix(b, session, |a|, |b|);
  }

  // ---- chains ----------------------------------------------------------------------------------

  function DepsAt(ids: seq<nat>, j: nat): seq<nat>
    requires j <= |ids|
  {
    if j == 0 then [] else [ids[j - 1]]
  }

  predicate IsSpec(form: Form, j: nat) {
    j < LENGTH && (form == Spec(j, true) || form == Spec(j, false))
  }

  predicate ChainTask(tasks: seq<Task>, ids: seq<nat>, j: nat)
    requires j < |ids| && ids[j] < |tasks|
  {
    IsSpec(tasks[ids[j]].form, j) && tasks[ids[j]].deps == DepsAt(ids, j)
  }

  /** A session's tasks are the first tasks of the plan, each depending on the one before. */
  ghost predicate Chain(tasks: seq<Task>, session: nat) {
    var ids := Ids(tasks, session);
    |ids| <= LENGTH && forall j | 0 <= j < |ids| :: ChainTask(tasks, ids, j)
  }

  /** The whole plan is there. */
  ghost predicate Materialized(s: State, session: nat) {
    session < |s.sessions| && Chain(s.tasks, session) && |Ids(s.tasks, session)| == LENGTH
  }

  lemma ChainKeys(tasks: seq<Task>, session: nat, j: nat)
    requires Chain(tasks, session) && j < LENGTH
    ensures var ids := Ids(tasks, session);
            FindKey(tasks, session, Key(j)) == if j < |ids| then Some(ids[j]) else None
  {
    var ids, found := Ids(tasks, session), FindKey(tasks, session, Key(j));
    if j < |ids| {
      assert ChainTask(tasks, ids, j);
    }
    if found.Some? {
      var i := Rank(tasks, session, found.value);
      assert ChainTask(tasks, ids, i);
      if i < j {
        KeysDiffer(i, j);
      } else if j < i {
        KeysDiffer(j, i);
      }
    }
  }

  /** Any creation of a task in the session is another planner's next step. */
  ghost predicate Planning(s: State, session: nat, op: Op) {
    op.OpCreateTask? && op.session == session ==>
      exists j :: 0 <= j <= |Ids(s.tasks, session)| && IsSpec(op.form, j)
                  && op.deps == DepsAt(Ids(s.tasks, session), j)
  }

  lemma OnlyCreationAdds(s: State, op: Op)
    requires !op.OpCreateTask?
    ensures |Step(s, op).tasks| == |s.tasks|
  {
    if op.OpRecover? {
      RecoverOnlyStatus(s, |s.runs|);
    }
  }

  lemma SameTasksKeepChain(a: seq<Task>, b: seq<Task>, session: nat)
    requires TasksAdvance(a, b) && |a| == |b| && Chain(a, session)
    ensures Chain(b, session)
  {
    IdsGrow(a, b, session);
    var ids := Ids(a, session);
    forall j | 0 <= j < |ids| ensures ChainTask(b, ids, j) {
      assert ChainTask(a, ids, j) && SameTask(a[ids[j]], b[ids[j]]);
    }
  }

  lemma AppendExtendsChain(tasks: seq<Task>, session: nat, task: Task)
    requires Chain(tasks, session) && |Ids(tasks, session)| < LENGTH
    requires task.session == session && IsSpec(task.form, |Ids(tasks, session)|)
    requires task.deps == DepsAt(Ids(tasks, session), |Ids(tasks, session)|)
    ensures Chain(tasks + [task], session)
    ensures Ids(tasks + [task], session) == Ids(tasks, session) + [|tasks|]
  {
    var ids, longer := Ids(tasks, session), tasks + [task];
    IdsOfPrefix(tasks, longer, session, |tasks|);
    assert Ids(longer, session) == ids + [|tasks|];
    forall k | 0 <= k < |ids| + 1 ensures ChainTask(longer, ids + [|tasks|], k) {
      if k < |ids| {
        assert ChainTask(tasks, ids, k);
      }
    }
  }

  lemma DistinctDeps(ids: seq<nat>, j: nat)
    requires j <= |ids|
    ensures Distinct(DepsAt(ids, j)) == DepsAt(ids, j)
  {
    var deps := DepsAt(ids, j);
    assert |deps| == 1 ==> deps[..0] == [];
  }

  predicate Acceptable(form: Form) {
    form.key != "" && Strip(form.key) == form.key && !Blank(form.title) && form.maxAttempts >= 1
  }

  lemma SpecIsAcceptable(form: Form, j: nat)
    requires IsSpec(form, j)
    ensures Acceptable(form) && form.key == Key(j)
  {
    KeyIsStripped(j);
  }

  lemma CreateFinds(s: State, session: nat, form: Form, deps: seq<nat>, t: nat)
    requires session < |s.sessions| && Acceptable(form) && FindKey(s.tasks, session, form.key) == Some(t)
    ensures CreateTask(s, session, form, deps) == Basics.Done(s, t)
  {
  }

  lemma CreateAppends(s: State, session: nat, form: Form, deps: seq<nat>)
    requires session < |s.sessions| && Acceptable(form) && FindKey(s.tasks, session, form.key).None?
    requires DependenciesFit(s.tasks, session, deps) && Distinct(deps) == deps
    ensures var task := Task(session, form, deps, Pending, form.maxAttempts, 0, None);
            CreateTask(s, session, form, deps) == Basics.Done(s.(tasks := s.tasks + [task]), |s.tasks|)
  {
    assert form.(key := Strip(form.key)) == form;
  }

  /** Creating the next task of a chain lengthens it by one; creating an earlier one again returns it. */
  lemma CreationExtendsChain(s: State, session: nat, form: Form, j: nat)
    requires session < |s.sessions| && Chain(s.tasks, session)
    requires j <= |Ids(s.tasks, session)| && IsSpec(form, j)
    ensures var a := CreateTask(s, session, form, DepsAt(Ids(s.tasks, session), j));
            && a.Done?
            && Chain(a.state.tasks, session)
            && j < |Ids(a.state.tasks, session)| && a.value == Ids(a.state.tasks, session)[j]
            && Ids(s.tasks, session) <= Ids(a.state.tasks, session)
            && (j < |Ids(s.tasks, session)| ==> a.state == s)
  {
    var ids := Ids(s.tasks, session);
    var deps := DepsAt(ids, j);
    SpecIsAcceptable(form, j);
    ChainKeys(s.tasks, session, j);
    if j < |ids| {
      CreateFinds(s, session, form, deps, ids[j]);
    } else {
      DistinctDeps(ids, j);
      CreateAppends(s, session, form, deps);
      AppendExtendsChain(s.tasks, session, Task(session, form, deps, Pending, form.maxAttempts, 0, None));
    }
  }

  lemma OtherCreationKeepsChain(s: State, session: nat, other: nat, form: Form, deps: seq<nat>)
    requires Valid(s) && Chain(s.tasks, session) && other != session
    ensures var u := CreateTask(s, other, form, deps).After(s);
            Chain(u.tasks, session) && Ids(u.tasks, session) == Ids(s.tasks, session)
  {
    var u := CreateTask(s, other, form, deps).After(s);
    if u != s {
      var ids := Ids(s.tasks, session);
      IdsOfPrefix(s.tasks, u.tasks, session, |s.tasks|);
      forall j | 0 <= j < |ids| ensures ChainTask(u.tasks, ids, j) {
        assert ChainTask(s.tasks, ids, j);
      }
    }
  }

  /** No transaction breaks a chain, except a creation that is not a planner's. */
  lemma StepKeepsChain(s: State, session: nat, op: Op)
    requires Valid(s) && session < |s.sessions| && Chain(s.tasks, session) && Planning(s, session, op)
    ensures session < |Step(s, op).sessions| && Chain(Step(s, op).tasks, session)
    ensures Ids(s.tasks, session) <= Ids(Step(s, op).tasks, session)
  {
    StepAdvances(s, op);
    if op.OpCreateTask? && op.session == session {
      var j :| 0 <= j <= |Ids(s.tasks, session)| && IsSpec(op.form, j) && op.deps == DepsAt(Ids(s.tasks, session), j);
      CreationExtendsChain(s, session, op.form, j);
    } else if op.OpCreateTask? {
      OtherCreationKeepsChain(s, session, op.session, op.form, op.deps);
    } else {
      OnlyCreationAdds(s, op);
      SameTasksKeepChain(s.tasks, Step(s, op).tasks, session);
      IdsGrow(s.tasks, Step(s, op).tasks, session);
    }
  }
}
