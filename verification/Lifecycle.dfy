/**
 The nine tasks of the lifecycle, written out, and what a complete session has to show for them.

 Nothing here is said by way of the planner's functions or the gate's: kinds, attempts, files and verdicts
 are named one by one.
*/
module Lifecycle {
  import opened Basics
  import opened Text
  import opened Paths
  import opened GateLaws
  import opened Tasks
  import opened TaskInvariants
  import opened TaskLaws
  import opened Plan
  import opened Honesty
  import opened Orchestrator
  import opened OrchestratorLaws
  import opened Teamwork
  import E = Evidence

  // ---- the plan --------------------------------------------------------------------------------

  predicate Documented(form: Form, path: string) {
    form.contract == Some(E.Contract([path], [path]))
  }

  /** Task number `j` of the plan: its phase, kind, route, contract, key and attempts. */
  predicate Described(form: Form, j: nat, mobile: bool) {
    match j
    case 0 =>
      && form.phase == E.Discovery && form.kind == E.Checkpoint && form.route == ToLocal && form.contract == None
      && form.key == "lifecycle:discovery" && form.maxAttempts == 1
    case 1 =>
      && form.phase == E.Requirements && form.kind == E.Agent && form.route == ToLocal
      && Documented(form, ".zade/build/requirements.md")
      && form.key == "lifecycle:requirements" && form.maxAttempts == 2
    case 2 =>
      && form.phase == E.Architecture && form.kind == E.Agent && form.route == Adaptive(true)
      && Documented(form, ".zade/build/architecture.md")
      && form.key == "lifecycle:architecture" && form.maxAttempts == 2
    case 3 =>
      && form.phase == E.Planning && form.kind == E.Agent && form.route == ToLocal
      && Documented(form, ".zade/build/plan.md")
      && form.key == "lifecycle:planning" && form.maxAttempts == 2
    case 4 =>
      && form.phase == E.Implementation && form.kind == E.Agent && form.route == Adaptive(true)
      && form.contract == None && form.key == "lifecycle:implementation" && form.maxAttempts == 2
    case 5 =>
      && form.phase == E.Verifying && form.kind == E.Verification && form.route == ToLocal && form.contract == None
      && form.key == "lifecycle:verification" && form.maxAttempts == 2
    case 6 =>
      && form.phase == E.Reviewing && form.kind == E.Review && form.route == ToLocal && form.contract == None
      && form.key == "lifecycle:review" && form.maxAttempts == 1
    case 7 =>
      && form.phase == E.Release && form.kind == (if mobile then E.Github else E.Checkpoint) && form.route == ToLocal
      && form.contract == None && form.key == "lifecycle:release" && form.maxAttempts == 1
    case 8 =>
      && form.phase == E.Complete && form.kind == E.Checkpoint && form.route == ToLocal && form.contract == None
      && form.key == "lifecycle:complete" && form.maxAttempts == 1
    case _ => false
  }

  lemma SpecIsDescribed(j: nat, mobile: bool)
    requires j < LENGTH
    ensures Described(Spec(j, mobile), j, mobile)
  {
  }

  /** The session's tasks are the nine, each depending on the one before it and on nothing else. */
  ghost predicate LifecyclePlan(tasks: seq<Task>, session: nat) {
    var ids := Ids(tasks, session);
    && |ids| == 9
    && forall j | 0 <= j < 9 :: LifecycleTask(tasks, ids, j)
  }

  predicate LifecycleTask(tasks: seq<Task>, ids: seq<nat>, j: nat)
    requires j < |ids|
  {
    && ids[j] < |tasks|
    && (Described(tasks[ids[j]].form, j, true) || Described(tasks[ids[j]].form, j, false))
    && tasks[ids[j]].deps == if j == 0 then [] else [ids[j - 1]]
  }

  lemma MaterializedIsLifecycle(s: State, session: nat)
    requires Materialized(s, session)
    ensures LifecyclePlan(s.tasks, session)
  {
    var ids := Ids(s.tasks, session);
    forall j | 0 <= j < 9 ensures LifecycleTask(s.tasks, ids, j) {
      assert ChainTask(s.tasks, ids, j);
      SpecIsDescribed(j, true);
      SpecIsDescribed(j, false);
    }
  }

  /** A planner asks for tasks of the plan and for nothing else. */
  ghost predicate AsksForPlan(session: nat, mobile: bool, acts: seq<Act>) {
    forall i | 0 <= i < |acts| && acts[i].mine ::
      acts[i].op.OpCreateTask? && acts[i].op.session == session
      && exists j: nat :: j < 9 && Described(acts[i].op.form, j, mobile)
  }

  lemma PlanNextAsksForPlan(s: State, session: nat, mobile: bool, meanwhile: nat -> seq<Op>, j: nat, p: Planned)
    requires j < LENGTH && AsksForPlan(session, mobile, p.acts)
    ensures AsksForPlan(session, mobile, PlanNext(s, session, mobile, meanwhile, j, p).acts)
  {
    SpecIsDescribed(j, mobile);
  }

  lemma PlannerAsksForPlan(s: State, session: nat, mobile: bool, meanwhile: nat -> seq<Op>)
    ensures AsksForPlan(session, mobile, MakePlan(s, session, mobile, meanwhile).acts)
  {
    var inv := (p: Planned, j: nat) => AsksForPlan(session, mobile, p.acts);
    var next := Planner(s, session, mobile, meanwhile);
    forall p: Planned, j: nat | j < LENGTH && inv(p, j) ensures inv(next(p, j), j + 1) {
      PlanNextAsksForPlan(s, session, mobile, meanwhile, j, p);
    }
    IterateKeeps(next, inv, Planned([], [], [], false), LENGTH);
  }

  /** What a planner makes: whatever others do, if all their transactions are good, the session ends with the nine
      tasks of the lifecycle, which are returned. */
  lemma PlanIsLifecycle(s: State, session: nat, mobile: bool, meanwhile: nat -> seq<Op>)
    requires PlanBegun(s, session)
    ensures var p := MakePlan(s, session, mobile, meanwhile); var u := Play(s, p.acts);
            && AsksForPlan(session, mobile, p.acts)
            && (AllGood(s, session, p.acts) ==>
                  && LifecyclePlan(u.tasks, session) && !p.refused && |p.tasks| == 9
                  && forall j | 0 <= j < 9 :: p.tasks[j].id == Ids(u.tasks, session)[j])
  {
    PlannerAsksForPlan(s, session, mobile, meanwhile);
    PlannersMakeOneChain(s, session, mobile, meanwhile);
    var u := Play(s, MakePlan(s, session, mobile, meanwhile).acts);
    if Materialized(u, session) {
      MaterializedIsLifecycle(u, session);
    }
  }

  // ---- what a complete session shows -----------------------------------------------------------

  /** The run left the document behind and wrote nothing else. */
  ghost predicate LeavesOnly(run: Run, path: string) {
    && path in run.files && run.result.Some?
    && forall p | Wrote(run.result.value, p) :: Normalize(p) == Some(path)
  }

  /** Run `r` is of a task of the session with this phase. */
  predicate OfPhase(u: State, session: nat, phase: E.Phase, r: nat) {
    && r < |u.runs| && u.runs[r].task < |u.tasks|
    && u.tasks[u.runs[r].task].session == session && u.tasks[u.runs[r].task].form.phase == phase
  }

  predicate SucceededIn(u: State, session: nat, phase: E.Phase, r: nat) {
    && OfPhase(u, session, phase, r) && u.runs[r].status == Succeeded
    && u.runs[r].result.Some? && u.runs[r].result.value.ok
  }

  ghost predicate HasSucceeded(u: State, session: nat, phase: E.Phase) {
    exists r: nat :: SucceededIn(u, session, phase, r)
  }

  /** Before any run of the one phase, a run of the other had succeeded. */
  ghost predicate Follows(u: State, session: nat, later: E.Phase, earlier: E.Phase) {
    forall q: nat | OfPhase(u, session, later, q) :: SucceededBeforeRun(u, session, earlier, q)
  }

  ghost predicate SucceededBeforeRun(u: State, session: nat, phase: E.Phase, q: nat) {
    exists p: nat :: p < q && SucceededIn(u, session, phase, p)
  }

  /** What has to be seen of a run that succeeded in this phase. */
  ghost predicate Shows(run: Run, phase: E.Phase) {
    && run.result.Some? && run.result.value.ok
    && match phase
       case Requirements => LeavesOnly(run, ".zade/build/requirements.md") && !Rejected(run.result.value)
       case Architecture => LeavesOnly(run, ".zade/build/architecture.md") && !Rejected(run.result.value)
       case Planning => LeavesOnly(run, ".zade/build/plan.md") && !Rejected(run.result.value)
       case Implementation =>
         run.result.value.mechanical == E.Checked(Some(true)) && !Rejected(run.result.value)
       case Reviewing =>
         run.result.value.mechanical != E.Checked(Some(false)) && !Rejected(run.result.value)
       case _ => true
  }

  function Phases(): seq<E.Phase> {
    [E.Discovery, E.Requirements, E.Architecture, E.Planning, E.Implementation, E.Verifying, E.Reviewing,
     E.Release, E.Complete]
  }

  /** Each of the nine phases has a run that succeeded, every run that did shows what it has to, and each phase
      began after the one before it had succeeded. */
  ghost predicate AllShown(u: State, session: nat) {
    && (forall j | 0 <= j < 9 :: HasSucceeded(u, session, Phases()[j]))
    && (forall j, r: nat | 0 <= j < 9 && OfPhase(u, session, Phases()[j], r) && u.runs[r].status == Succeeded ::
          Shows(u.runs[r], Phases()[j]))
    && (forall j | 1 <= j < 9 :: Follows(u, session, Phases()[j], Phases()[j - 1]))
  }

  lemma PlainPathIsClean(path: string)
    requires |path| > 1 && '\\' !in path && !IsSpace(path[0]) && !IsSpace(path[|path| - 1]) && path[1] != '/'
    ensures Cleaned(path) == path
  {
    assert !("./" <= path);
  }

  lemma JoinThree(a: string, b: string, c: string)
    ensures Join([a, b, c]) == a + "/" + (b + "/" + c)
  {
    assert [a, b, c][1..] == [b, c];
    assert [b, c][1..] == [c];
    assert Join([b, c]) == b + "/" + c;
  }

  predicate PlainName(name: string) {
    Plain(name) && name != ".." && '\\' !in name && |name| > 1 && !IsSpace(name[0]) && !IsSpace(name[|name| - 1])
  }

  lemma PathIsClean(path: string, a: string, b: string, c: string)
    requires PlainName(a) && PlainName(b) && PlainName(c) && path == a + "/" + (b + "/" + c)
    ensures Cleaned(path) == path && path != "" && path[0] != '/'
  {
    assert path[0] == a[0] && path[1] == a[1] && path[|path| - 1] == c[|c| - 1];
    assert '\\' !in "/";
    PlainPathIsClean(path);
  }

  lemma PathIsJoined(path: string, a: string, b: string, c: string)
    requires PlainName(a) && PlainName(b) && PlainName(c) && path == a + "/" + (b + "/" + c)
    ensures Components(path) == [a, b, c] && Join([a, b, c]) == path
  {
    JoinThree(a, b, c);
    ComponentsOfJoin([a, b, c]);
  }

  /** A path of three plain components is its own normal form. */
  lemma PlainPathIsNormal(path: string, a: string, b: string, c: string)
    requires PlainName(a) && PlainName(b) && PlainName(c) && path == a + "/" + (b + "/" + c)
    ensures Normalize(path) == Some(path)
  {
    PathIsClean(path, a, b, c);
    PathIsJoined(path, a, b, c);
    assert ".." !in [a, b, c];
  }

  predicate IsDocument(path: string) {
    || path == ".zade/build/requirements.md" || path == ".zade/build/architecture.md"
    || path == ".zade/build/plan.md"
  }

  lemma DocumentNames(name: string)
    requires name == "requirements.md" || name == "architecture.md" || name == "plan.md"
    ensures PlainName(name)
  {
  }

  lemma FolderNames()
    ensures PlainName(".zade") && PlainName("build")
  {
  }

  lemma InFolders(name: string)
    ensures ".zade/build/" + name == ".zade" + "/" + ("build" + "/" + name)
  {
    assert ".zade" + "/" + "build" + "/" == ".zade/build/";
    assert ".zade" + "/" + "build" + "/" + name == ".zade" + "/" + ("build" + "/" + name);
  }

  lemma DocumentName(path: string) returns (name: string)
    requires IsDocument(path)
    ensures name == "requirements.md" || name == "architecture.md" || name == "plan.md"
    ensures path == ".zade/build/" + name
  {
    name := if path == ".zade/build/requirements.md" then "requirements.md"
            else if path == ".zade/build/architecture.md" then "architecture.md" else "plan.md";
  }

  lemma DocumentPath(path: string)
    requires IsDocument(path)
    ensures Normalize(path) == Some(path)
  {
    var name := DocumentName(path);
    InFolders(name);
    DocumentNames(name);
    FolderNames();
    PlainPathIsNormal(path, ".zade", "build", name);
  }

  /** A document's contract asks for that file and for nothing else. */
  lemma DocumentIsLeft(form: Form, r: E.Result, run: Run, path: string)
    requires IsDocument(path) && Documented(form, path) && form.kind == E.Agent
    requires E.Earned(form.kind, form.phase, form.contract, r, run.files) && run.result == Some(r)
    ensures LeavesOnly(run, path)
  {
    DocumentPath(path);
    assert path in form.contract.value.required;
    forall p | Wrote(r, p) ensures Normalize(p) == Some(path) {
      ChangesAreWritten(r, p);
      var a :| a in form.contract.value.allowed && E.SamePlace(p, a);
      assert a == path;
      SameNormalForm(p, path);
    }
  }

  lemma EarnedShows(form: Form, j: nat, run: Run)
    requires j < 9 && (Described(form, j, true) || Described(form, j, false))
    requires run.result.Some? && E.Earned(form.kind, form.phase, form.contract, run.result.value, run.files)
    ensures form.phase == Phases()[j] && Shows(run, Phases()[j])
  {
    var r := run.result.value;
    if r.verifier.Reviewed? {
      SaysFailMeansFail(r.verifier.verdict);
    }
    if j == 1 {
      DocumentIsLeft(form, r, run, ".zade/build/requirements.md");
    } else if j == 2 {
      DocumentIsLeft(form, r, run, ".zade/build/architecture.md");
    } else if j == 3 {
      DocumentIsLeft(form, r, run, ".zade/build/plan.md");
    }
  }

  /** The number of a task in the plan is that of its phase. */
  lemma PhaseIsNumber(u: State, session: nat, j: nat, t: nat) returns (k: nat)
    requires Materialized(u, session) && j < 9 && t < |u.tasks|
    requires u.tasks[t].session == session && u.tasks[t].form.phase == Phases()[j]
    ensures k == j && Ids(u.tasks, session)[j] == t
  {
    MaterializedIsLifecycle(u, session);
    k := Rank(u.tasks, session, t);
    assert LifecycleTask(u.tasks, Ids(u.tasks, session), k);
    PhaseOfNumber(u.tasks[t].form, k);
    assert u.tasks[t].form.phase == Phases()[k];
    PhasesDiffer(j, k);
  }

  lemma PhasesDiffer(i: nat, j: nat)
    requires i < 9 && j < 9 && Phases()[i] == Phases()[j]
    ensures i == j
  {
  }

  lemma SucceededRunShows(u: State, session: nat, j: nat, r: nat)
    requires Honest(u, session) && Materialized(u, session) && j < 9
    requires OfPhase(u, session, Phases()[j], r) && u.runs[r].status == Succeeded
    ensures Shows(u.runs[r], Phases()[j]) && SucceededIn(u, session, Phases()[j], r)
  {
    var t := u.runs[r].task;
    var k := PhaseIsNumber(u, session, j, t);
    MaterializedIsLifecycle(u, session);
    assert LifecycleTask(u.tasks, Ids(u.tasks, session), j);
    assert RunEarned(u, r);
    EarnedShows(u.tasks[t].form, j, u.runs[r]);
  }

  lemma PhaseFollows(u: State, session: nat, j: nat, q: nat) returns (p: nat)
    requires Honest(u, session) && Materialized(u, session) && 1 <= j < 9 && OfPhase(u, session, Phases()[j], q)
    ensures p < q && SucceededIn(u, session, Phases()[j - 1], p)
  {
    var ids := Ids(u.tasks, session);
    var k := PhaseIsNumber(u, session, j, u.runs[q].task);
    MaterializedIsLifecycle(u, session);
    assert LifecycleTask(u.tasks, ids, j);
    assert RunInOrder(u, q) && ids[j - 1] in u.tasks[ids[j]].deps;
    p :| p < q && SucceededRun(u, p, ids[j - 1]);
    assert u.tasks[ids[j - 1]].session == session;
    assert LifecycleTask(u.tasks, ids, j - 1) && LifecycleTask(u.tasks, ids, j);
    PhaseOfNumber(u.tasks[ids[j - 1]].form, j - 1);
    SucceededRunShows(u, session, j - 1, p);
  }

  lemma PhaseOfNumber(form: Form, j: nat)
    requires j < 9 && (Described(form, j, true) || Described(form, j, false))
    ensures form.phase == Phases()[j]
  {
  }

  lemma PhaseHasRun(u: State, session: nat, j: nat) returns (r: nat)
    requires Honest(u, session) && Materialized(u, session) && AllSucceeded(u.tasks, session) && j < 9
    ensures SucceededIn(u, session, Phases()[j], r)
  {
    var t := Ids(u.tasks, session)[j];
    MaterializedIsLifecycle(u, session);
    assert LifecycleTask(u.tasks, Ids(u.tasks, session), j);
    PhaseOfNumber(u.tasks[t].form, j);
    assert u.tasks[t].session == session;
    r :| SucceededRun(u, r, t);
    SucceededRunShows(u, session, j, r);
  }

  /** A complete session shows all that its nine phases have to: requirements, architecture and plan are there and
      nothing else was written with them, the implementation was mechanically verified, the review did not
      say "fail", the verification returned ok, and each came after the one before. */
  lemma CompleteIsShown(u: State, session: nat)
    requires Honest(u, session) && u.sessions[session].status == SessionStatus.Complete
    ensures LifecyclePlan(u.tasks, session) && AllShown(u, session)
  {
    MaterializedIsLifecycle(u, session);
    forall j | 0 <= j < 9 ensures HasSucceeded(u, session, Phases()[j]) {
      var r := PhaseHasRun(u, session, j);
    }
    forall j, r: nat | 0 <= j < 9 && OfPhase(u, session, Phases()[j], r) && u.runs[r].status == Succeeded
      ensures Shows(u.runs[r], Phases()[j])
    {
      SucceededRunShows(u, session, j, r);
    }
    forall j | 1 <= j < 9 ensures Follows(u, session, Phases()[j], Phases()[j - 1]) {
      forall q: nat | OfPhase(u, session, Phases()[j], q)
        ensures SucceededBeforeRun(u, session, Phases()[j - 1], q)
      {
        var p := PhaseFollows(u, session, j, q);
      }
    }
  }

  /** So it is with whatever a team of workers and planners completes. */
  lemma TeamCompletesShown(s: State, session: nat, run: seq<Deed>, team: map<nat, seq<Shift>>, o: nat)
    requires Honest(s, session)
    requires forall w | w in team :: Works(s, session, run, w, team[w])
    requires forall i | 0 <= i < |run| && run[i].owner !in team :: GoodAt(s, session, View(run, run[i].owner), i)
    requires var u := Play(s, View(run, o));
             session < |u.sessions| && u.sessions[session].status == SessionStatus.Complete
    ensures var u := Play(s, View(run, o)); LifecyclePlan(u.tasks, session) && AllShown(u, session)
  {
    TeamCompletesEarned(s, session, run, team, o);
    CompleteIsShown(Play(s, View(run, o)), session);
  }
}
