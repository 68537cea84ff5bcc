/**
 What the evidence gate answers, case by case.

 Which paths were written, what a verdict says and which tasks are gated are written out, apart from the
 functions that compute them.
*/
module GateLaws {
  import opened Basics
  import opened Paths
  import opened Evidence

  /** The result says that the path was written. */
  predicate Wrote(r: Result, p: string) {
    p in r.changed || (r.workspace.Some? && (p in r.workspace.value.added || p in r.workspace.value.modified
                                             || p in r.workspace.value.deleted))
  }

  /** The verdict is the word "fail", in letters of either case. */
  predicate MeansFail(verdict: string) {
    |verdict| == 4 && forall i | 0 <= i < 4 :: verdict[i] == "fail"[i] || verdict[i] == "FAIL"[i]
  }

  predicate Rejected(r: Result) {
    r.verifier.Reviewed? && MeansFail(r.verifier.verdict)
  }

  lemma SaysFailMeansFail(verdict: string)
    ensures SaysFail(verdict) <==> MeansFail(verdict)
  {
    if |verdict| == 4 {
      assert MeansFail(verdict) <==>
             forall i | 0 <= i < 4 :: verdict[i] == "fail"[i] || verdict[i] == "FAIL"[i];
    }
  }

  lemma ChangesAreWritten(r: Result, p: string)
    ensures p in ChangePaths(r) <==> Wrote(r, p)
  {
  }

  /** The place under the workspace was written, or the contract names it. */
  ghost predicate WrotePlace(r: Result, q: string) {
    exists p :: Wrote(r, p) && Normalize(p) == Some(q)
  }

  predicate Names(paths: seq<string>, q: string) {
    exists p :: p in paths && Normalize(p) == Some(q)
  }

  /** Some path of the contract or of the changes is invalid. */
  ghost predicate BadPath(c: Contract, r: Result) {
    || (exists p :: p in c.allowed && Normalize(p) == None)
    || (exists p :: p in c.required && Normalize(p) == None)
    || (exists p :: Wrote(r, p) && Normalize(p) == None)
  }

  /** What was written outside the contract, and which of its artifacts are missing. */
  ghost predicate Unexpected(c: Contract, r: Result, q: string) {
    WrotePlace(r, q) && !Names(c.allowed, q)
  }

  ghost predicate Missing(c: Contract, files: set<string>, q: string) {
    Names(c.required, q) && q !in files
  }

  ghost predicate Breaks(c: Contract, r: Result, files: set<string>) {
    exists q :: Unexpected(c, r, q) || Missing(c, files, q)
  }

  lemma NormalSetNames(paths: seq<string>, q: string)
    requires NormalSet(paths).Some?
    ensures q in NormalSet(paths).value <==> Names(paths, q)
  {
  }

  lemma WrittenSet(r: Result, q: string)
    requires NormalSet(ChangePaths(r)).Some?
    ensures q in NormalSet(ChangePaths(r)).value <==> WrotePlace(r, q)
  {
    var paths := ChangePaths(r);
    if WrotePlace(r, q) {
      var p :| Wrote(r, p) && Normalize(p) == Some(q);
      ChangesAreWritten(r, p);
      assert p in paths;
    }
    if q in NormalSet(paths).value {
      var p :| p in paths && Normalize(p).value == q;
      ChangesAreWritten(r, p);
    }
  }

  lemma BadPathExactly(c: Contract, r: Result)
    ensures BadPath(c, r) <==> !PathsValid(c, r)
  {
    forall p ensures p in ChangePaths(r) <==> Wrote(r, p) {
      ChangesAreWritten(r, p);
    }
    if !PathsValid(c, r) {
      var p :| p in c.allowed + c.required + ChangePaths(r) && Normalize(p).None?;
      assert p in c.allowed || p in c.required || p in ChangePaths(r);
    }
    if p :| p in c.allowed && Normalize(p) == None {
      assert p in c.allowed + c.required + ChangePaths(r);
    } else if p :| p in c.required && Normalize(p) == None {
      assert p in c.allowed + c.required + ChangePaths(r);
    } else if p :| Wrote(r, p) && Normalize(p) == None {
      assert p in c.allowed + c.required + ChangePaths(r);
    }
  }

  /** What a gated success is turned into once its contract is kept. */
  function Checks(phase: Phase, r: Result): Option<Failure> {
    if r.mechanical == Checked(Some(false)) then Some(VerificationFailed)
    else if phase == Implementation && r.mechanical != Checked(Some(true)) then Some(VerificationRequired)
    else if Rejected(r) then Some(VerifierRejected)
    else None
  }

  function FailedFor(r: Result, failure: Failure): Result {
    r.(ok := false, failure := Some(failure))
  }

  function Judged(phase: Phase, r: Result): Result {
    match Checks(phase, r)
    case None => r
    case Some(failure) => FailedFor(r, failure)
  }

  /** The answer names what was unexpected and what is missing. */
  ghost predicate NamesBreach(c: Contract, r: Result, files: set<string>, g: Option<Result>) {
    && g.Some? && g.value.failure.Some? && g.value.failure.value.ContractFailed?
    && g.value == FailedFor(r, g.value.failure.value)
    && (forall q :: q in g.value.failure.value.unexpected <==> Unexpected(c, r, q))
    && (forall q :: q in g.value.failure.value.missing <==> Missing(c, files, q))
  }

  lemma ChecksExactly(phase: Phase, r: Result)
    ensures CheckEvidence(phase, r) == Judged(phase, r)
  {
    if r.verifier.Reviewed? {
      SaysFailMeansFail(r.verifier.verdict);
    }
  }

  lemma ContractGate(kind: Kind, phase: Phase, c: Contract, r: Result, files: set<string>)
    requires r.ok && kind in {Kind.Agent, Kind.Review}
    ensures var g := ApplyGate(kind, phase, Some(c), r, files);
            if BadPath(c, r) then g == None
            else if Breaks(c, r, files) then NamesBreach(c, r, files, g)
            else g == Some(CheckEvidence(phase, r))
  {
    BadPathExactly(c, r);
    GateRaisesExactly(kind, phase, Some(c), r, files);
    if PathsValid(c, r) {
      WithinAsSets(c, r);
      ContractSets(c, r, files);
    }
  }

  /** The gate lets through what is no success and what is no agent or review task. Of the others, it raises on
      an invalid path, fails a result that breaks its contract, naming what was unexpected and what is missing,
      and then one that was not verified or was rejected. */
  lemma GateExactly(kind: Kind, phase: Phase, contract: Option<Contract>, r: Result, files: set<string>)
    ensures var g := ApplyGate(kind, phase, contract, r, files);
            if !r.ok || kind !in {Kind.Agent, Kind.Review} then g == Some(r)
            else if contract.Some? && BadPath(contract.value, r) then g == None
            else if contract.Some? && Breaks(contract.value, r, files) then NamesBreach(contract.value, r, files, g)
            else g == Some(Judged(phase, r))
  {
    ChecksExactly(phase, r);
    if r.ok && kind in {Kind.Agent, Kind.Review} && contract.Some? {
      ContractGate(kind, phase, contract.value, r, files);
    }
  }

  lemma ContractSets(c: Contract, r: Result, files: set<string>)
    requires NormalSet(c.allowed).Some? && NormalSet(c.required).Some? && NormalSet(ChangePaths(r)).Some?
    ensures var unexpected := NormalSet(ChangePaths(r)).value - NormalSet(c.allowed).value;
            var missing := NormalSet(c.required).value - files;
            && (forall q :: q in unexpected <==> Unexpected(c, r, q))
            && (forall q :: q in missing <==> Missing(c, files, q))
            && (unexpected != {} || missing != {} <==> Breaks(c, r, files))
  {
    var unexpected := NormalSet(ChangePaths(r)).value - NormalSet(c.allowed).value;
    var missing := NormalSet(c.required).value - files;
    forall q ensures q in unexpected <==> Unexpected(c, r, q) {
      NormalSetNames(c.allowed, q);
      WrittenSet(r, q);
    }
    forall q ensures q in missing <==> Missing(c, files, q) {
      NormalSetNames(c.required, q);
    }
    if unexpected != {} {
      var q :| q in unexpected;
      assert Unexpected(c, r, q);
    }
    if missing != {} {
      var q :| q in missing;
      assert Missing(c, files, q);
    }
  }
}
