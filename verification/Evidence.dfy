/** What a task run reports, and the gate that decides whether a reported success counts. */
module Evidence {
  import opened Basics
  import opened Paths

  datatype Phase =
    | Assessment | Approval | Discovery | Requirements | Architecture | Planning
    | Implementation | Verifying | Reviewing | Release | Complete

  datatype Kind = Checkpoint | Agent | Command | Verification | Github | Review

  /** The paths a task may write and the files it must leave behind. */
  datatype Contract = Contract(allowed: seq<string>, required: seq<string>)

  datatype Changes = Changes(added: seq<string>, modified: seq<string>, deleted: seq<string>)

  /** The kernel's own check of the workspace. Its verdict can be missing or not a boolean. */
  datatype Mechanical = NotChecked | Checked(ok: Option<bool>)

  datatype Verifier = NotReviewed | Reviewed(verdict: string)

  datatype Failure =
    | ExecutorError | Reported
    | ContractFailed(unexpected: set<string>, missing: set<string>)
    | VerificationFailed | VerificationRequired | VerifierRejected

  datatype Result = Result(
    ok: bool, failure: Option<Failure>, changed: seq<string>, workspace: Option<Changes>,
    mechanical: Mechanical, verifier: Verifier)

  function Fail(r: Result, failure: Failure): Result {
    r.(ok := false, failure := Some(failure))
  }

  /** All paths a result says were written, from both of its reports. */
  function ChangePaths(r: Result): seq<string> {
    r.changed + match r.workspace
                case None => []
                case Some(w) => w.added + w.modified + w.deleted
  }

  function NormalSet(paths: seq<string>): Option<set<string>> {
    if forall p | p in paths :: Normalize(p).Some? then
      Some(set p | p in paths :: Normalize(p).value)
    else None
  }

  /** Whether the verdict lower-cases to "fail". */
  predicate SaysFail(verdict: string) {
    && |verdict| == 4
    && verdict[0] in "fF" && verdict[1] in "aA" && verdict[2] in "iI" && verdict[3] in "lL"
  }

  predicate Gated(kind: Kind) {
    kind.Agent? || kind.Review?
  }

  function CheckEvidence(phase: Phase, r: Result): Result {
    if r.mechanical == Checked(Some(false)) then Fail(r, VerificationFailed)
    else if phase == Implementation && r.mechanical != Checked(Some(true)) then Fail(r, VerificationRequired)
    else if r.verifier.Reviewed? && SaysFail(r.verifier.verdict) then Fail(r, VerifierRejected)
    else r
  }

  /** `files` are the normal forms of the files in the workspace. No result means that an invalid path
      made the gate raise. */
  function ApplyGate(kind: Kind, phase: Phase, contract: Option<Contract>, r: Result, files: set<string>)
    : Option<Result>
  {
    if !r.ok || !Gated(kind) then Some(r)
    else
      match contract
      case None => Some(CheckEvidence(phase, r))
      case Some(c) =>
        match (NormalSet(c.allowed), NormalSet(c.required), NormalSet(ChangePaths(r)))
        case (Some(allowed), Some(required), Some(actual)) =>
          if actual - allowed != {} || required - files != {} then
            Some(Fail(r, ContractFailed(actual - allowed, required - files)))
          else Some(CheckEvidence(phase, r))
        case (_, _, _) => None
  }

  // ---- what passing means ----------------------------------------------------------------------

  /** Two paths that name the same place under the workspace. */
  predicate SamePlace(p: string, q: string) {
    && Normalize(p).Some? && Normalize(q).Some?
    && Components(Cleaned(p)) == Components(Cleaned(q))
  }

  predicate WritesWithin(c: Contract, r: Result) {
    forall p | p in ChangePaths(r) :: exists a :: a in c.allowed && SamePlace(p, a)
  }

  predicate ArtifactsPresent(c: Contract, files: set<string>) {
    forall a | a in c.required :: Normalize(a).Some? && Normalize(a).value in files
  }

  /** The success of a task is earned: an agent or review kept its contract, no check failed it, and an
      implementation was positively verified. */
  predicate Earned(kind: Kind, phase: Phase, contract: Option<Contract>, r: Result, files: set<string>) {
    && r.ok
    && (Gated(kind) ==>
          && (contract.Some? ==> WritesWithin(contract.value, r) && ArtifactsPresent(contract.value, files))
          && Sound(phase, r))
  }

  predicate Sound(phase: Phase, r: Result) {
    && r.mechanical != Checked(Some(false))
    && (phase == Implementation ==> r.mechanical == Checked(Some(true)))
    && !(r.verifier.Reviewed? && SaysFail(r.verifier.verdict))
  }

  predicate PathsValid(c: Contract, r: Result) {
    forall p | p in c.allowed + c.required + ChangePaths(r) :: Normalize(p).Some?
  }

  lemma WithinAsSets(c: Contract, r: Result)
    requires PathsValid(c, r)
    ensures NormalSet(c.allowed).Some? && NormalSet(c.required).Some? && NormalSet(ChangePaths(r)).Some?
    ensures NormalSet(ChangePaths(r)).value <= NormalSet(c.allowed).value <==> WritesWithin(c, r)
  {
    var allowed, actual := NormalSet(c.allowed).value, NormalSet(ChangePaths(r)).value;
    if actual <= allowed {
      forall p | p in ChangePaths(r) ensures exists a :: a in c.allowed && SamePlace(p, a) {
        assert Normalize(p).value in actual;
        var a :| a in c.allowed && Normalize(a).value == Normalize(p).value;
        SameNormalForm(p, a);
      }
    }
    if WritesWithin(c, r) {
      forall q | q in actual ensures q in allowed {
        var p :| p in ChangePaths(r) && Normalize(p).value == q;
        var a :| a in c.allowed && SamePlace(p, a);
        SameNormalForm(p, a);
      }
    }
  }

  lemma NothingLeft(a: set<string>, b: set<string>)
    ensures a - b == {} <==> a <= b
  {
    if a - b == {} {
      forall x | x in a ensures x in b {
        assert x !in a - b;
      }
    }
  }

  lemma KeptAsSets(c: Contract, r: Result, files: set<string>)
    requires PathsValid(c, r)
    ensures NormalSet(c.allowed).Some? && NormalSet(c.required).Some? && NormalSet(ChangePaths(r)).Some?
    ensures NormalSet(ChangePaths(r)).value - NormalSet(c.allowed).value == {}
            && NormalSet(c.required).value - files == {}
            <==> WritesWithin(c, r) && ArtifactsPresent(c, files)
  {
    var required, allowed := NormalSet(c.required).value, NormalSet(c.allowed).value;
    var actual := NormalSet(ChangePaths(r)).value;
    WithinAsSets(c, r);
    NothingLeft(required, files);
    NothingLeft(actual, allowed);
    if required <= files {
      forall a | a in c.required ensures Normalize(a).value in files {
        assert Normalize(a).value in required;
      }
    }
  }

  lemma CheckPassesExactly(phase: Phase, r: Result)
    requires r.ok
    ensures CheckEvidence(phase, r).ok <==> Sound(phase, r)
    ensures CheckEvidence(phase, r).ok ==> CheckEvidence(phase, r) == r
    ensures CheckEvidence(phase, r).(ok := r.ok, failure := r.failure) == r
  {
  }

  /** The gate raises exactly on a reported success of an agent or review task with an invalid path in its
      contract or its changes. */
  lemma GateRaisesExactly(kind: Kind, phase: Phase, contract: Option<Contract>, r: Result, files: set<string>)
    ensures ApplyGate(kind, phase, contract, r, files).None? <==>
            r.ok && Gated(kind) && contract.Some? && !PathsValid(contract.value, r)
  {
    if contract.Some? {
      var c := contract.value;
      if !PathsValid(c, r) {
        var p :| p in c.allowed + c.required + ChangePaths(r) && Normalize(p).None?;
        assert p in c.allowed || p in c.required || p in ChangePaths(r);
      }
    }
  }

  /** A gated success is exactly an earned one, and the gate never improves a result. */
  lemma GatePassesExactly(kind: Kind, phase: Phase, contract: Option<Contract>, r: Result, files: set<string>)
    requires ApplyGate(kind, phase, contract, r, files).Some?
    ensures var g := ApplyGate(kind, phase, contract, r, files).value;
            && (g.ok <==> Earned(kind, phase, contract, r, files))
            && (g.ok ==> g == r)
            && g.(ok := r.ok, failure := r.failure) == r
  {
    GateRaisesExactly(kind, phase, contract, r, files);
    if r.ok && Gated(kind) {
      CheckPassesExactly(phase, r);
      if contract.Some? {
        KeptAsSets(contract.value, r, files);
      }
    }
  }
}
