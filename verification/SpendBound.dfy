/**
 The spend bound over whole runs.

 Leases are upgraded while turns reserved under the old lease are still open. Their events keep the
 old lease's id, while the new lease starts from a copy of the old balances, so no single row shows
 what a chain of upgrades has spent. The bound relates all events of the chain to all approvals.
*/
module SpendBound {
  import opened Basics
  import opened Pricing
  import opened Ledger
  import opened LedgerInvariants

  /** One number for each of the four ceilings. */
  datatype Amount = Amount(input: nat, output: nat, dollars: nat, turns: nat) {
    function Plus(a: Amount): Amount {
      Amount(input + a.input, output + a.output, dollars + a.dollars, turns + a.turns)
    }

    predicate AtMost(a: Amount) {
      input <= a.input && output <= a.output && dollars <= a.dollars && turns <= a.turns
    }
  }

  function Zero(): Amount {
    Amount(0, 0, 0, 0)
  }

  /** Spent or still held. */
  function Committed(b: Balance): Amount {
    Amount(b.actualInput + b.heldInput, b.actualOutput + b.heldOutput, b.actualDollars + b.heldDollars, b.turns)
  }

  function Ceiling(l: Limits): Amount {
    Amount(l.input, l.output, l.dollars, l.turns)
  }

  lemma CommittedAdds(a: Balance, b: Balance)
    ensures Committed(a.Plus(b)) == Committed(a).Plus(Committed(b))
  {
  }

  lemma PlusInterchange(a: Amount, b: Amount, c: Amount, d: Amount)
    ensures a.Plus(b).Plus(c.Plus(d)) == a.Plus(c).Plus(b.Plus(d))
  {
  }

  lemma PlusAssociates(a: Amount, b: Amount, c: Amount)
    ensures a.Plus(b).Plus(c) == a.Plus(b.Plus(c))
  {
  }

  lemma PlusZero(a: Amount)
    ensures a.Plus(Zero()) == a
  {
  }

  lemma AtMostTransitive(a: Amount, b: Amount, c: Amount)
    requires a.AtMost(b) && b.AtMost(c)
    ensures a.AtMost(c)
  {
  }

  // ---- sums over the events of a chain ---------------------------------------------------------

  /** An event's commitment is split at its own reservation. */
  datatype Share = Reserved_ | Excess

  function Min(a: nat, b: nat): nat {
    if a <= b then a else b
  }

  function Part(share: Share, e: Option<Event>, lease: nat): Amount {
    match e
    case None => Zero()
    case Some(v) =>
      var r := v.request;
      if v.lease != lease then Zero()
      else if v.status.Held() then
        if share == Excess then Zero() else Amount(r.inputUpper, r.maxOutput, r.cost, 1)
      else if share == Excess then
        Amount(Less(v.usage.TotalInput(), r.inputUpper), Less(v.usage.output, r.maxOutput), Less(v.cost, r.cost), 0)
      else
        Amount(Min(v.usage.TotalInput(), r.inputUpper), Min(v.usage.output, r.maxOutput), Min(v.cost, r.cost), 1)
  }

  function PartsUpTo(share: Share, events: seq<Option<Event>>, n: nat, lease: nat): Amount
    requires n <= |events|
  {
    if n == 0 then Zero()
    else PartsUpTo(share, events, n - 1, lease).Plus(Part(share, events[n - 1], lease))
  }

  function Parts(share: Share, s: State, lease: nat): Amount {
    PartsUpTo(share, s.events, |s.events|, lease)
  }

  /** Lease `n` is the upgrade of lease `n - 1`. */
  predicate Extends(s: State, n: nat)
    requires n < |s.leases|
  {
    n > 0 && s.leases[n].upgrade
  }

  /** The share of all events of the chain of upgrades that ends in lease `n`. */
  function ChainParts(share: Share, s: State, n: nat): Amount
    requires n < |s.leases|
  {
    if Extends(s, n) then ChainParts(share, s, n - 1).Plus(Parts(share, s, n)) else Parts(share, s, n)
  }

  /** All that the events of the chain have cost, or may still cost while they are held. */
  function ChainCommitted(s: State, n: nat): Amount
    requires n < |s.leases|
  {
    if Extends(s, n) then ChainCommitted(s, n - 1).Plus(Committed(Charges(s.events, n)))
    else Committed(Charges(s.events, n))
  }

  /** The sum of the ceilings approved along the chain. */
  function ChainApproved(s: State, n: nat): Amount
    requires n < |s.leases|
  {
    if Extends(s, n) then ChainApproved(s, n - 1).Plus(Ceiling(s.leases[n].granted))
    else Ceiling(s.leases[n].granted)
  }

  /** Where the chain begins that ends in lease `n`. It is made of all leases from there to `n`. */
  function Root(s: State, n: nat): (r: nat)
    requires n < |s.leases|
    ensures r <= n
  {
    if Extends(s, n) then Root(s, n - 1) else n
  }

  predicate InChain(s: State, lease: nat, n: nat)
    requires n < |s.leases|
  {
    Root(s, n) <= lease <= n
  }

  /** A lease that upgrades no other begins no chain earlier. */
  lemma {:induction false} ChainsBeginAfter(s: State, from: nat, n: nat)
    requires from <= n < |s.leases| && !s.leases[from].upgrade
    ensures from <= Root(s, n)
  {
    if Extends(s, n) {
      ChainsBeginAfter(s, from, n - 1);
    }
  }

  lemma ChargeSplits(e: Option<Event>, lease: nat)
    ensures Committed(Charge(e, lease)) == Part(Reserved_, e, lease).Plus(Part(Excess, e, lease))
  {
  }

  lemma {:induction false} ChargesSplit(events: seq<Option<Event>>, n: nat, lease: nat)
    requires n <= |events|
    ensures Committed(ChargesUpTo(events, n, lease))
         == PartsUpTo(Reserved_, events, n, lease).Plus(PartsUpTo(Excess, events, n, lease))
  {
    if n > 0 {
      ChargesSplit(events, n - 1, lease);
      ChargeSplits(events[n - 1], lease);
      CommittedAdds(ChargesUpTo(events, n - 1, lease), Charge(events[n - 1], lease));
      PlusInterchange(PartsUpTo(Reserved_, events, n - 1, lease), PartsUpTo(Excess, events, n - 1, lease),
                      Part(Reserved_, events[n - 1], lease), Part(Excess, events[n - 1], lease));
    }
  }

  lemma {:induction false} ChainSplit(s: State, n: nat)
    requires n < |s.leases|
    ensures ChainCommitted(s, n) == ChainParts(Reserved_, s, n).Plus(ChainParts(Excess, s, n))
  {
    ChargesSplit(s.events, |s.events|, n);
    if Extends(s, n) {
      ChainSplit(s, n - 1);
    }
  }

  lemma {:induction false} ApprovedIsCeiling(s: State, n: nat)
    requires LeasesIndexed(s.leases) && n < |s.leases|
    ensures Ceiling(s.leases[n].limits) == ChainApproved(s, n)
  {
    assert Ancestry(s.leases, n);
    if Extends(s, n) {
      ApprovedIsCeiling(s, n - 1);
    }
  }

  // ---- the invariant ---------------------------------------------------------------------------

  /** (a) what the chain's turns may cost within their reservations fits the approved ceilings;
      (b) what earlier leases of the chain may cost was part of the balance this lease started with;
      (c) this lease's own balance fits its ceilings, but for excess reported by the provider. */
  ghost predicate Bounded(s: State, n: nat)
    requires n < |s.leases|
  {
    var opening := Committed(s.leases[n].opening);
    var ceiling := Ceiling(s.leases[n].limits);
    && ChainParts(Reserved_, s, n).AtMost(ceiling)
    && if Extends(s, n) then
         && ChainParts(Reserved_, s, n - 1).AtMost(opening)
         && opening.Plus(Parts(Reserved_, s, n)).AtMost(ceiling.Plus(ChainParts(Excess, s, n - 1)))
       else
         Parts(Reserved_, s, n).AtMost(ceiling)
  }

  /** All chains that end in leases `from` to `to`, if a chain begins with the first of them. */
  ghost predicate BoundedFrom(s: State, from: nat, to: nat) {
    from < |s.leases| && !s.leases[from].upgrade ==>
      forall n | from <= n <= to && n < |s.leases| :: Bounded(s, n)
  }

  // ---- steps that insert nothing ---------------------------------------------------------------

  ghost predicate PartsShrink(e: Option<Event>, f: Option<Event>) {
    forall lease: nat ::
      && Part(Reserved_, f, lease).AtMost(Part(Reserved_, e, lease))
      && Part(Excess, e, lease).AtMost(Part(Excess, f, lease))
  }

  /** History columns stay, and events only lower their reserved share. */
  ghost predicate Winds(s: State, t: State) {
    && |t.leases| == |s.leases| && |t.events| == |s.events|
    && (forall i | 0 <= i < |s.leases| ::
          && t.leases[i].upgrade == s.leases[i].upgrade
          && t.leases[i].granted == s.leases[i].granted
          && t.leases[i].limits == s.leases[i].limits
          && t.leases[i].opening == s.leases[i].opening)
    && (forall k | 0 <= k < |s.events| :: PartsShrink(s.events[k], t.events[k]))
  }

  lemma {:induction false} PartsWind(s: State, t: State, n: nat, lease: nat)
    requires Winds(s, t) && n <= |s.events|
    ensures PartsUpTo(Reserved_, t.events, n, lease).AtMost(PartsUpTo(Reserved_, s.events, n, lease))
    ensures PartsUpTo(Excess, s.events, n, lease).AtMost(PartsUpTo(Excess, t.events, n, lease))
  {
    if n > 0 {
      PartsWind(s, t, n - 1, lease);
      assert PartsShrink(s.events[n - 1], t.events[n - 1]);
    }
  }

  lemma {:induction false} ChainWinds(s: State, t: State, n: nat)
    requires Winds(s, t) && n < |s.leases|
    ensures ChainParts(Reserved_, t, n).AtMost(ChainParts(Reserved_, s, n))
    ensures ChainParts(Excess, s, n).AtMost(ChainParts(Excess, t, n))
    ensures ChainApproved(t, n) == ChainApproved(s, n)
  {
    PartsWind(s, t, |s.events|, n);
    if Extends(s, n) {
      ChainWinds(s, t, n - 1);
    }
  }

  lemma WindsKeepsBounded(s: State, t: State, n: nat)
    requires Winds(s, t) && n < |s.leases| && Bounded(s, n)
    ensures Bounded(t, n)
  {
    ChainWinds(s, t, n);
    PartsWind(s, t, |s.events|, n);
    if Extends(s, n) {
      ChainWinds(s, t, n - 1);
    }
  }

  predicate Inserts(op: Op) {
    op.OpCreateLease? || op.OpUpgrade? || op.OpReserve?
  }

  lemma PartsShrinkRefl(e: Option<Event>)
    ensures PartsShrink(e, e)
  {
  }

  lemma SettlementShrinksParts(e: Event, report: Option<Report>)
    requires e.status.Held() && Verdict(e, report).Some?
    ensures var (u, cost, status) := Verdict(e, report).value;
            PartsShrink(Some(e), Some(e.(status := status, usage := u, cost := cost)))
  {
  }

  /** One lease row rewritten but for its history, and one event's reserved share lowered. */
  lemma RowsWind(s: State, l: nat, lease: Lease, id: nat, e: Option<Event>)
    requires l < |s.leases| && id < |s.events| && PartsShrink(s.events[id], e)
    requires lease.(state := s.leases[l].state, balance := s.leases[l].balance) == s.leases[l]
    ensures Winds(s, State(s.leases[l := lease], s.events[id := e]))
  {
    forall k | 0 <= k < |s.events| ensures PartsShrink(s.events[k], s.events[id := e][k]) {
      PartsShrinkRefl(s.events[k]);
    }
  }

  lemma LeasesWind(s: State, t: State)
    requires t.events == s.events && |t.leases| == |s.leases|
    requires forall i | 0 <= i < |s.leases| ::
               t.leases[i] == s.leases[i] || t.leases[i] == SetState(s.leases[i], t.leases[i].state)
    ensures Winds(s, t)
  {
    forall k | 0 <= k < |s.events| ensures PartsShrink(s.events[k], t.events[k]) {
      PartsShrinkRefl(s.events[k]);
    }
  }

  lemma SettleWinds(s: State, id: nat, report: Option<Report>, percent: nat)
    requires EventsIndexed(s)
    ensures Winds(s, Settle(s, id, report, percent).After(s))
  {
    var a := Settle(s, id, report, percent);
    if a.Done? && s.events[id].value.status.Held() {
      var l, t := s.events[id].value.lease, a.state;
      SettlementShrinksParts(s.events[id].value, report);
      assert t == State(s.leases[l := t.leases[l]], s.events[id := t.events[id]]);
      RowsWind(s, l, t.leases[l], id, t.events[id]);
    } else {
      LeasesWind(s, s);
    }
  }

  lemma ReleaseWinds(s: State, id: nat)
    requires EventsIndexed(s)
    ensures Winds(s, ReleaseReservation(s, id).After(s))
  {
    var a := ReleaseReservation(s, id);
    if a.Done? && HasEvent(s, id) {
      var l, t := s.events[id].value.lease, a.state;
      assert t == State(s.leases[l := t.leases[l]], s.events[id := None]);
      RowsWind(s, l, t.leases[l], id, None);
    } else {
      LeasesWind(s, s);
    }
  }

  lemma MarkWinds(s: State, id: nat)
    requires EventsIndexed(s)
    ensures Winds(s, MarkUncertain(s, id).After(s))
  {
    var a := MarkUncertain(s, id);
    if a.Done? && s.events[id].value.status == Reserved {
      var l, t := s.events[id].value.lease, a.state;
      assert t == State(s.leases[l := t.leases[l]], s.events[id := t.events[id]]);
      RowsWind(s, l, t.leases[l], id, t.events[id]);
    } else {
      LeasesWind(s, s);
    }
  }

  lemma StepWinds(s: State, op: Op)
    requires Valid(s) && !Inserts(op)
    ensures Winds(s, Step(s, op))
  {
    match op
    case OpSettle(id, report, percent) => SettleWinds(s, id, report, percent);
    case OpRelease(id) => ReleaseWinds(s, id);
    case OpMarkUncertain(id) => MarkWinds(s, id);
    case _ => LeasesWind(s, Step(s, op));
  }

  // ---- steps that insert -----------------------------------------------------------------------

  lemma {:induction false} PartsPrefix(share: Share, events: seq<Option<Event>>, e: Option<Event>, n: nat, lease: nat)
    requires n <= |events|
    ensures PartsUpTo(share, events + [e], n, lease) == PartsUpTo(share, events, n, lease)
  {
    if n > 0 {
      PartsPrefix(share, events, e, n - 1, lease);
    }
  }

  lemma PartsAppend(share: Share, events: seq<Option<Event>>, e: Option<Event>, lease: nat)
    ensures PartsUpTo(share, events + [e], |events| + 1, lease)
         == PartsUpTo(share, events, |events|, lease).Plus(Part(share, e, lease))
  {
    PartsPrefix(share, events, e, |events|, lease);
  }

  /** An appended event adds its part to the chains that its lease belongs to. */
  lemma {:induction false} ChainAppend(share: Share, s: State, t: State, e: Event, n: nat)
    requires n < |s.leases| == |t.leases| && t.events == s.events + [Some(e)]
    requires forall i | 0 <= i < |s.leases| :: t.leases[i].upgrade == s.leases[i].upgrade
    ensures ChainParts(share, t, n)
         == if InChain(s, e.lease, n) then ChainParts(share, s, n).Plus(Part(share, Some(e), e.lease))
            else ChainParts(share, s, n)
  {
    var own, more := Parts(share, s, n), Part(share, Some(e), e.lease);
    PartsAppend(share, s.events, Some(e), n);
    assert Parts(share, t, n) == if e.lease == n then own.Plus(more) else own.Plus(Zero());
    PlusZero(own);
    if Extends(s, n) {
      ChainAppend(share, s, t, e, n - 1);
      assert InChain(s, e.lease, n) <==> e.lease == n || InChain(s, e.lease, n - 1);
      AddInside(ChainParts(share, s, n - 1), own, more);
    }
  }

  lemma AddInside(chain: Amount, own: Amount, more: Amount)
    ensures chain.Plus(more).Plus(own) == chain.Plus(own).Plus(more) == chain.Plus(own.Plus(more))
  {
  }

  lemma BalanceParts(s: State, n: nat)
    requires Valid(s) && n < |s.leases|
    ensures Committed(s.leases[n].balance)
         == Committed(s.leases[n].opening).Plus(Parts(Reserved_, s, n)).Plus(Parts(Excess, s, n))
    ensures !Extends(s, n) ==> Committed(s.leases[n].opening) == Zero()
  {
    assert Ancestry(s.leases, n);
    BalanceSplits(s.events, s.leases[n], n);
  }

  lemma BalanceSplits(events: seq<Option<Event>>, lease: Lease, n: nat)
    requires lease.balance == lease.opening.Plus(Charges(events, n))
    ensures Committed(lease.balance)
         == Committed(lease.opening).Plus(PartsUpTo(Reserved_, events, |events|, n))
                                    .Plus(PartsUpTo(Excess, events, |events|, n))
  {
    ChargesSplit(events, |events|, n);
    CommittedAdds(lease.opening, Charges(events, n));
    PlusAssociates(Committed(lease.opening), PartsUpTo(Reserved_, events, |events|, n),
                   PartsUpTo(Excess, events, |events|, n));
  }

  lemma ShareAlgebra(earlier: Amount, opening: Amount, own: Amount, excess: Amount, top: Amount, before: Amount)
    requires earlier.AtMost(opening) && opening.Plus(own).AtMost(top.Plus(before))
    ensures earlier.Plus(own).AtMost(opening.Plus(own).Plus(excess))
    ensures opening.Plus(own).Plus(excess).AtMost(top.Plus(before.Plus(excess)))
  {
  }

  lemma ShareAlgebraAlone(opening: Amount, own: Amount, excess: Amount, top: Amount)
    requires opening == Zero() && own.AtMost(top)
    ensures own.AtMost(opening.Plus(own).Plus(excess))
    ensures opening.Plus(own).Plus(excess).AtMost(top.Plus(excess))
  {
  }

  /** The reserved shares are part of the newest lease's balance, and that fits but for excess. */
  lemma BalanceOfBounded(s: State, n: nat)
    requires Valid(s) && n < |s.leases| && Bounded(s, n)
    ensures ChainParts(Reserved_, s, n).AtMost(Committed(s.leases[n].balance))
    ensures Committed(s.leases[n].balance).AtMost(Ceiling(s.leases[n].limits).Plus(ChainParts(Excess, s, n)))
  {
    BalanceParts(s, n);
    var opening, ceiling := Committed(s.leases[n].opening), Ceiling(s.leases[n].limits);
    if Extends(s, n) {
      ShareAlgebra(ChainParts(Reserved_, s, n - 1), opening, Parts(Reserved_, s, n), Parts(Excess, s, n),
                   ceiling, ChainParts(Excess, s, n - 1));
    } else {
      ShareAlgebraAlone(opening, Parts(Reserved_, s, n), Parts(Excess, s, n), ceiling);
    }
  }

  lemma AddToBoth(a: Amount, b: Amount, more: Amount, top: Amount)
    requires a.AtMost(b) && b.Plus(more).AtMost(top)
    ensures a.Plus(more).AtMost(top)
  {
  }

  lemma AddToOwn(opening: Amount, own: Amount, excess: Amount, more: Amount, top: Amount, before: Amount)
    requires opening.Plus(own).Plus(excess).Plus(more).AtMost(top)
    ensures opening.Plus(own.Plus(more)).AtMost(top.Plus(before))
    ensures own.Plus(more).AtMost(top)
  {
  }

  /** Room was checked against the newest lease's own balance. */
  lemma BoundedAfterReserve(s: State, t: State, n: nat, more: Amount)
    requires Valid(s) && n < |s.leases| == |t.leases| && Bounded(s, n)
    requires t.leases[n].(balance := s.leases[n].balance, state := s.leases[n].state) == s.leases[n]
    requires Committed(s.leases[n].balance).Plus(more).AtMost(Ceiling(s.leases[n].limits))
    requires Parts(Reserved_, t, n) == Parts(Reserved_, s, n).Plus(more)
    requires Extends(s, n) ==> && ChainParts(Reserved_, t, n - 1) == ChainParts(Reserved_, s, n - 1)
                               && ChainParts(Excess, t, n - 1) == ChainParts(Excess, s, n - 1)
    ensures Bounded(t, n)
  {
    BalanceOfBounded(s, n);
    BalanceParts(s, n);
    var opening, ceiling := Committed(s.leases[n].opening), Ceiling(s.leases[n].limits);
    AddToBoth(ChainParts(Reserved_, s, n), Committed(s.leases[n].balance), more, ceiling);
    if Extends(s, n) {
      PlusAssociates(ChainParts(Reserved_, s, n - 1), Parts(Reserved_, s, n), more);
      AddToOwn(opening, Parts(Reserved_, s, n), Parts(Excess, s, n), more, ceiling, ChainParts(Excess, s, n - 1));
    } else {
      AddToOwn(opening, Parts(Reserved_, s, n), Parts(Excess, s, n), more, ceiling, Zero());
    }
  }

  lemma RoomMeans(b: Balance, r: Request, l: Limits)
    requires OverCeiling(b, r, l).None?
    ensures Committed(b).Plus(Amount(r.inputUpper, r.maxOutput, r.cost, 1)).AtMost(Ceiling(l))
  {
  }

  predicate SameHistory(a: Lease, b: Lease) {
    a.upgrade == b.upgrade && a.granted == b.granted && a.limits == b.limits && a.opening == b.opening
  }

  /** A turn reserved outside a chain does not concern it. */
  lemma ElsewhereKeepsBounded(s: State, t: State, e: Event, n: nat)
    requires n < |s.leases| == |t.leases| && t.events == s.events + [Some(e)]
    requires forall i | 0 <= i < |s.leases| :: SameHistory(t.leases[i], s.leases[i])
    requires Bounded(s, n) && !InChain(s, e.lease, n)
    ensures Bounded(t, n)
  {
    ChainAppend(Reserved_, s, t, e, n);
    PartsAppend(Reserved_, s.events, Some(e), n);
    assert SameHistory(t.leases[n], s.leases[n]);
    if Extends(s, n) {
      ChainAppend(Reserved_, s, t, e, n - 1);
      ChainAppend(Excess, s, t, e, n - 1);
    }
  }

  /** The transaction inserts a turn. */
  predicate InsertsTurn(s: State, op: Op) {
    op.OpReserve? && FindRequest(s.events, op.request.id).None?
    && CreateReservation(s, op.request, op.percent, op.now).Done?
  }

  function Asked(r: Request): Amount {
    Amount(r.inputUpper, r.maxOutput, r.cost, 1)
  }

  /** What is inserted, and under which lease. */
  lemma Inserted(s: State, op: Op) returns (c: nat, e: Event)
    requires InsertsTurn(s, op)
    ensures Current(s.leases) == Some(c) && c < |s.leases| && e.lease == c
    ensures var t := Step(s, op);
            && t.events == s.events + [Some(e)] && |t.leases| == |s.leases|
            && (forall i | 0 <= i < |s.leases| :: SameHistory(t.leases[i], s.leases[i]))
            && t.leases[c].(balance := s.leases[c].balance, state := s.leases[c].state) == s.leases[c]
    ensures Part(Reserved_, Some(e), c) == Asked(op.request) && Part(Excess, Some(e), c) == Zero()
    ensures OverCeiling(s.leases[c].balance, op.request, s.leases[c].limits).None?
  {
    c := Current(s.leases).value;
    e := Step(s, op).events[|s.events|].value;
  }

  /** The transaction inserts a turn under one of the leases `from` to `to`, which is not the newest. */
  predicate ReservesOlder(s: State, from: nat, to: nat, op: Op) {
    && InsertsTurn(s, op)
    && var c := Current(s.leases); c.Some? && from <= c.value <= to && c.value < |s.leases| - 1
  }

  lemma NewestKeepsBounded(s: State, op: Op)
    requires Valid(s) && InsertsTurn(s, op) && Current(s.leases) == Some(|s.leases| - 1)
    requires Bounded(s, |s.leases| - 1)
    ensures Bounded(Step(s, op), |s.leases| - 1)
  {
    var t := Step(s, op);
    var n, e := Inserted(s, op);
    RoomMeans(s.leases[n].balance, op.request, s.leases[n].limits);
    PartsAppend(Reserved_, s.events, Some(e), n);
    assert Parts(Reserved_, t, n) == Parts(Reserved_, s, n).Plus(Asked(op.request));
    if Extends(s, n) {
      assert !InChain(s, n, n - 1);
      ChainAppend(Reserved_, s, t, e, n - 1);
      ChainAppend(Excess, s, t, e, n - 1);
    }
    BoundedAfterReserve(s, t, n, Asked(op.request));
  }

  lemma ReserveKeepsBounded(s: State, from: nat, to: nat, op: Op)
    requires Valid(s) && BoundedFrom(s, from, to) && op.OpReserve? && !ReservesOlder(s, from, to, op)
    ensures BoundedFrom(Step(s, op), from, to)
  {
    var t := Step(s, op);
    if InsertsTurn(s, op) {
      var c, e := Inserted(s, op);
      if from < |s.leases| && !t.leases[from].upgrade {
        assert SameHistory(t.leases[from], s.leases[from]);
        forall n | from <= n <= to && n < |t.leases| ensures Bounded(t, n) {
          ChainsBeginAfter(s, from, n);
          if n == c {
            NewestKeepsBounded(s, op);
          } else {
            ElsewhereKeepsBounded(s, t, e, n);
          }
        }
      }
    }
  }

  /** Appending leases does not change the chains that were there. */
  lemma {:induction false} PrefixChain(s: State, t: State, n: nat)
    requires n < |s.leases| && s.leases <= t.leases && s.events == t.events
    ensures ChainApproved(t, n) == ChainApproved(s, n)
    ensures ChainParts(Reserved_, t, n) == ChainParts(Reserved_, s, n)
    ensures ChainParts(Excess, t, n) == ChainParts(Excess, s, n)
    ensures Bounded(s, n) ==> Bounded(t, n)
  {
    assert t.leases[n] == s.leases[n];
    if Extends(s, n) {
      PrefixChain(s, t, n - 1);
    }
  }

  lemma PartsOfUnusedLease(share: Share, s: State, m: nat, lease: nat)
    requires m <= |s.events|
    requires forall k | 0 <= k < |s.events| && s.events[k].Some? :: s.events[k].value.lease != lease
    ensures PartsUpTo(share, s.events, m, lease) == Zero()
  {
    if m > 0 {
      PartsOfUnusedLease(share, s, m - 1, lease);
    }
  }

  lemma UpgradeAlgebra(chain: Amount, balance: Amount, top: Amount, more: Amount, excess: Amount, later: Amount)
    requires chain.AtMost(top) && balance.AtMost(top.Plus(excess)) && excess.AtMost(later)
    ensures chain.Plus(Zero()).AtMost(top.Plus(more))
    ensures balance.Plus(Zero()).AtMost(top.Plus(more).Plus(later))
  {
  }

  /** The successor starts from its predecessor's balance and adds to its ceilings. */
  lemma BoundedAfterUpgrade(s: State, t: State, n: nat)
    requires Valid(s) && |s.leases| == n > 0 && |t.leases| == n + 1 && Bounded(s, n - 1)
    requires t.leases[n].upgrade && t.leases[n].opening == s.leases[n - 1].balance
    requires t.leases[n].limits == s.leases[n - 1].limits.Plus(t.leases[n].granted)
    requires Parts(Reserved_, t, n) == Zero()
    requires ChainParts(Reserved_, t, n - 1).AtMost(ChainParts(Reserved_, s, n - 1))
    requires ChainParts(Excess, s, n - 1).AtMost(ChainParts(Excess, t, n - 1))
    ensures Bounded(t, n)
  {
    BalanceOfBounded(s, n - 1);
    var ceiling := Ceiling(s.leases[n - 1].limits);
    assert Ceiling(t.leases[n].limits) == ceiling.Plus(Ceiling(t.leases[n].granted));
    AtMostTransitive(ChainParts(Reserved_, t, n - 1), ChainParts(Reserved_, s, n - 1), ceiling);
    AtMostTransitive(ChainParts(Reserved_, t, n - 1), ChainParts(Reserved_, s, n - 1),
                     Committed(s.leases[n - 1].balance));
    UpgradeAlgebra(ChainParts(Reserved_, t, n - 1), Committed(s.leases[n - 1].balance), ceiling,
                   Ceiling(t.leases[n].granted), ChainParts(Excess, s, n - 1), ChainParts(Excess, t, n - 1));
  }

  lemma UpgradeKeepsBounded(s: State, from: nat, to: nat, more: Limits, now: nat)
    requires Valid(s) && BoundedFrom(s, from, to)
    ensures BoundedFrom(UpgradeLease(s, more, now).After(s), from, to)
  {
    var a := UpgradeLease(s, more, now);
    if a.Done? {
      UpgradeTakesNewest(s, more, now);
      var n := |s.leases|;
      var mid := s.(leases := s.leases[n - 1 := SetState(s.leases[n - 1], Superseded)]);
      var t := a.state;
      LeasesWind(s, mid);
      if from < n + 1 && !t.leases[from].upgrade {
        forall m | from <= m <= to && m < n + 1 ensures Bounded(t, m) {
          if m < n {
            WindsKeepsBounded(s, mid, m);
            PrefixChain(mid, t, m);
          } else {
            PrefixChain(mid, t, n - 1);
            ChainWinds(s, mid, n - 1);
            PartsOfUnusedLease(Reserved_, t, |t.events|, n);
            BoundedAfterUpgrade(s, t, n);
          }
        }
      }
    }
  }

  lemma CreateKeepsBounded(s: State, from: nat, to: nat, limits: Limits, now: nat)
    requires Valid(s) && BoundedFrom(s, from, to)
    ensures BoundedFrom(CreateLease(s, limits, now).After(s), from, to)
  {
    var a := CreateLease(s, limits, now);
    if a.Done? {
      PartsOfUnusedLease(Reserved_, s, |s.events|, |s.leases|);
      forall n | from <= n <= to && n < |s.leases| && !s.leases[from].upgrade ensures Bounded(a.state, n) {
        PrefixChain(s, a.state, n);
      }
    }
  }

  lemma StepKeepsBounded(s: State, from: nat, to: nat, op: Op)
    requires Valid(s) && BoundedFrom(s, from, to) && !ReservesOlder(s, from, to, op)
    ensures BoundedFrom(Step(s, op), from, to)
  {
    match op
    case OpReserve(_, _, _) => ReserveKeepsBounded(s, from, to, op);
    case OpUpgrade(limits, now) => UpgradeKeepsBounded(s, from, to, limits, now);
    case OpCreateLease(limits, now) => CreateKeepsBounded(s, from, to, limits, now);
    case _ =>
      StepWinds(s, op);
      forall n | from <= n <= to && n < |s.leases| && !s.leases[from].upgrade ensures Bounded(Step(s, op), n) {
        WindsKeepsBounded(s, Step(s, op), n);
      }
  }

  /** None of the leases `from` to `to` was ever given a turn when it was not the newest. */
  ghost predicate NeverReservesOlder(ops: seq<Op>, from: nat, to: nat) {
    forall i | 0 <= i < |ops| :: !ReservesOlder(Run(Empty(), ops[..i]), from, to, ops[i])
  }

  lemma {:induction false} RunKeepsBounded(ops: seq<Op>, from: nat, to: nat)
    requires NeverReservesOlder(ops, from, to)
    ensures BoundedFrom(Run(Empty(), ops), from, to)
  {
    if |ops| > 0 {
      var before := ops[..|ops| - 1];
      forall i | 0 <= i < |before| ensures !ReservesOlder(Run(Empty(), before[..i]), from, to, before[i]) {
        assert before[..i] == ops[..i];
      }
      RunKeepsBounded(before, from, to);
      RunKeepsValid(Empty(), before);
      StepKeepsBounded(Run(Empty(), before), from, to, ops[|ops| - 1]);
    }
  }

  // ---- the bound -------------------------------------------------------------------------------

  /** All that the chain's turns have cost or may still cost is at most the sum of the approvals plus what
      the provider reported above single reservations. */
  predicate WithinApprovals(s: State, n: nat)
    requires n < |s.leases|
  {
    ChainCommitted(s, n).AtMost(ChainApproved(s, n).Plus(ChainParts(Excess, s, n)))
  }

  lemma CancelExcess(within: Amount, excess: Amount, top: Amount)
    ensures within.Plus(excess).AtMost(top.Plus(excess)) <==> within.AtMost(top)
  {
  }

  /** Excess stands on both sides: what counts is the cost within the reservations. */
  lemma WithinBySharesExactly(s: State, n: nat)
    requires n < |s.leases|
    ensures WithinApprovals(s, n) <==> ChainParts(Reserved_, s, n).AtMost(ChainApproved(s, n))
  {
    ChainSplit(s, n);
    CancelExcess(ChainParts(Reserved_, s, n), ChainParts(Excess, s, n), ChainApproved(s, n));
  }

  lemma {:induction false} RootIsNoUpgrade(s: State, n: nat)
    requires LeasesIndexed(s.leases) && n < |s.leases|
    ensures !s.leases[Root(s, n)].upgrade
  {
    assert Ancestry(s.leases, n);
    if Extends(s, n) {
      RootIsNoUpgrade(s, n - 1);
    }
  }

  /** In every reachable state and for every lease, open or closed, in input tokens, output tokens,
      microdollars and turns: the chain of upgrades that ends in the lease has committed at most its
      approvals plus what was reported above single reservations, if none of its leases was given a turn
      when it was not the newest. */
  lemma SpendBound(ops: seq<Op>, n: nat)
    requires n < |Run(Empty(), ops).leases|
    requires NeverReservesOlder(ops, Root(Run(Empty(), ops), n), n)
    ensures WithinApprovals(Run(Empty(), ops), n)
  {
    var s := Run(Empty(), ops);
    RunKeepsValid(Empty(), ops);
    RunKeepsBounded(ops, Root(s, n), n);
    RootIsNoUpgrade(s, n);
    assert Bounded(s, n);
    ApprovedIsCeiling(s, n);
    WithinBySharesExactly(s, n);
  }

  // ---- when the bound is lost ------------------------------------------------------------------

  lemma InsertionBreaksExactly(s: State, op: Op, n: nat)
    requires n < |s.leases| && WithinApprovals(s, n) && InsertsTurn(s, op)
    ensures n < |Step(s, op).leases|
    ensures var c := Current(s.leases);
            !WithinApprovals(Step(s, op), n) <==>
              && c.Some? && InChain(s, c.value, n)
              && !ChainCommitted(s, n).Plus(Asked(op.request))
                    .AtMost(ChainApproved(s, n).Plus(ChainParts(Excess, s, n)))
  {
    var t := Step(s, op);
    var c, e := Inserted(s, op);
    ChainAppend(Reserved_, s, t, e, n);
    ChainAppend(Excess, s, t, e, n);
    SameApprovals(s, t, n);
    WithinBySharesExactly(s, n);
    WithinBySharesExactly(t, n);
    ChainSplit(s, n);
    MoveExcess(ChainParts(Reserved_, s, n), ChainParts(Excess, s, n), Asked(op.request), ChainApproved(s, n));
  }

  lemma MoveExcess(within: Amount, excess: Amount, more: Amount, top: Amount)
    ensures within.Plus(excess).Plus(more).AtMost(top.Plus(excess)) <==> within.Plus(more).AtMost(top)
  {
  }

  lemma {:induction false} SameApprovals(s: State, t: State, n: nat)
    requires n < |s.leases| == |t.leases|
    requires forall i | 0 <= i < |s.leases| :: SameHistory(t.leases[i], s.leases[i])
    ensures ChainApproved(t, n) == ChainApproved(s, n)
  {
    assert SameHistory(t.leases[n], s.leases[n]);
    if Extends(s, n) {
      SameApprovals(s, t, n - 1);
    }
  }

  lemma OthersKeepWithin(s: State, op: Op, n: nat)
    requires Valid(s) && n < |s.leases| && WithinApprovals(s, n) && !InsertsTurn(s, op)
    ensures n < |Step(s, op).leases| && WithinApprovals(Step(s, op), n)
  {
    var t := Step(s, op);
    WithinBySharesExactly(s, n);
    if op.OpUpgrade? && UpgradeLease(s, op.limits, op.now).Done? {
      UpgradeTakesNewest(s, op.limits, op.now);
      var last := |s.leases| - 1;
      var mid := s.(leases := s.leases[last := SetState(s.leases[last], Superseded)]);
      LeasesWind(s, mid);
      ChainWinds(s, mid, n);
      PrefixChain(mid, t, n);
    } else if op.OpCreateLease? && CreateLease(s, op.limits, op.now).Done? {
      PrefixChain(s, t, n);
    } else if !Inserts(op) {
      StepWinds(s, op);
      ChainWinds(s, t, n);
    }
    WithinBySharesExactly(t, n);
  }

  /** Which single transaction loses the bound of a chain: one that inserts a turn under a lease of the
      chain although it asks for more than is left of the approvals. */
  lemma BoundBreaksExactly(s: State, op: Op, n: nat)
    requires Valid(s) && n < |s.leases| && WithinApprovals(s, n)
    ensures n < |Step(s, op).leases|
    ensures var c := Current(s.leases);
            !WithinApprovals(Step(s, op), n) <==>
              && InsertsTurn(s, op) && c.Some? && InChain(s, c.value, n)
              && !ChainCommitted(s, n).Plus(Asked(op.request))
                    .AtMost(ChainApproved(s, n).Plus(ChainParts(Excess, s, n)))
  {
    if InsertsTurn(s, op) {
      InsertionBreaksExactly(s, op, n);
    } else {
      OthersKeepWithin(s, op, n);
    }
  }

  /** A lease other than the newest is open. */
  ghost predicate OlderOpen(s: State) {
    exists i :: 0 <= i < |s.leases| - 1 && s.leases[i].state.Open()
  }

  /** The guards under which a transaction opens a closed lease that is not the newest: no lease is open,
      and an older one is exhausted, or has a turn marked as uncertain, or has a turn settled above its
      reservation or up to the warning threshold. */
  predicate OpensOlder(s: State, op: Op) {
    && Current(s.leases).None?
    && match op
       case OpExhaust(id) => id < |s.leases| - 1
       case OpMarkUncertain(id) =>
         HasEvent(s, id) && s.events[id].value.status == Reserved && s.events[id].value.lease < |s.leases| - 1
       case OpSettle(id, report, percent) =>
         && HasEvent(s, id) && s.events[id].value.status.Held() && s.events[id].value.lease < |s.leases| - 1
         && var v := Verdict(s.events[id].value, report);
            v.Some? && (v.value.2 == ProviderOverage
                        || Warns(s.leases[s.events[id].value.lease], v.value.0, v.value.1, percent))
       case _ => false
  }

  /** What was spent and is settled now reaches the warning threshold. */
  predicate Warns(lease: Lease, u: Usage, cost: nat, percent: nat) {
    var b := lease.balance;
    AtWarning(b.actualInput + u.TotalInput(), b.actualOutput + u.output, b.actualDollars + cost, b.turns,
              lease.limits, percent)
  }

  /** Writing one lease row opens an older lease exactly if the row is older, it is closed, its new state is
      open, and no lease is open. */
  lemma RowOpensOlderExactly(s: State, l: nat, lease: Lease, events: seq<Option<Event>>)
    requires !OlderOpen(s) && l < |s.leases| && OneOpen(s.leases[l := lease])
    ensures OlderOpen(State(s.leases[l := lease], events)) <==>
            l < |s.leases| - 1 && lease.state.Open()
    ensures l < |s.leases| - 1 && lease.state.Open() ==> Current(s.leases).None?
  {
    var rows := s.leases[l := lease];
    if l < |s.leases| - 1 && lease.state.Open() {
      assert rows[l].state.Open();
      forall i | 0 <= i < |s.leases| ensures !s.leases[i].state.Open() {
        if i != l {
          assert rows[i] == s.leases[i];
        }
      }
    }
  }

  lemma SettleOpensOlderExactly(s: State, id: nat, report: Option<Report>, percent: nat)
    requires Valid(s) && !OlderOpen(s)
    ensures OlderOpen(Settle(s, id, report, percent).After(s)) <==> OpensOlder(s, OpSettle(id, report, percent))
  {
    if HasEvent(s, id) && s.events[id].value.status.Held() && Verdict(s.events[id].value, report).Some? {
      var e := s.events[id].value;
      var (u, cost, status) := Verdict(e, report).value;
      var lease := s.leases[e.lease];
      var state := StateAfterSettlement(lease, u, cost, percent, status == ProviderOverage);
      var row := SetState(lease.(balance := Spend(Unhold(lease.balance, e.request), u, cost)), state);
      if OneOpen(s.leases[e.lease := row]) {
        RowOpensOlderExactly(s, e.lease, row, s.events[id := Some(e.(status := status, usage := u, cost := cost))]);
      }
      NoOtherOpen(s, e.lease, row);
    }
  }

  lemma MarkOpensOlderExactly(s: State, id: nat)
    requires Valid(s) && !OlderOpen(s)
    ensures OlderOpen(MarkUncertain(s, id).After(s)) <==> OpensOlder(s, OpMarkUncertain(id))
  {
    if HasEvent(s, id) && s.events[id].value.status == Reserved {
      var l, t := s.events[id].value.lease, MarkUncertain(s, id).After(s);
      var row := SetState(s.leases[l], Paused);
      if OneOpen(s.leases[l := row]) {
        RowOpensOlderExactly(s, l, row, t.events);
      }
      NoOtherOpen(s, l, row);
    }
  }

  lemma ExhaustOpensOlderExactly(s: State, id: nat)
    requires Valid(s) && !OlderOpen(s)
    ensures OlderOpen(ExhaustLease(s, id).After(s)) <==> OpensOlder(s, OpExhaust(id))
  {
    if id < |s.leases| {
      var row := SetState(s.leases[id], Exhausted);
      if OneOpen(s.leases[id := row]) {
        RowOpensOlderExactly(s, id, row, s.events);
      }
      NoOtherOpen(s, id, row);
    }
  }

  lemma NoRowOpens(s: State, t: State)
    requires !OlderOpen(s) && |t.leases| == |s.leases|
    requires forall i | 0 <= i < |s.leases| && t.leases[i].state.Open() :: s.leases[i].state.Open()
    ensures !OlderOpen(t)
  {
  }

  /** A lease is inserted as the only open one. */
  lemma InsertionOpensNoOlder(s: State, t: State)
    requires !OlderOpen(s) && OneOpen(t.leases)
    requires t == s || (|t.leases| > 0 && t.leases[|t.leases| - 1].state.Open())
    ensures !OlderOpen(t)
  {
  }

  /** With no lease open, any row can be opened. */
  lemma NoOtherOpen(s: State, l: nat, lease: Lease)
    requires l < |s.leases|
    ensures Current(s.leases).None? ==> OneOpen(s.leases[l := lease])
  {
  }

  /** Which single transaction first opens a lease other than the newest. In particular none does while a
      lease is open. */
  lemma OpensOlderExactly(s: State, op: Op)
    requires Valid(s) && !OlderOpen(s)
    ensures OlderOpen(Step(s, op)) <==> OpensOlder(s, op)
  {
    match op
    case OpSettle(id, report, percent) => SettleOpensOlderExactly(s, id, report, percent);
    case OpMarkUncertain(id) => MarkOpensOlderExactly(s, id);
    case OpExhaust(id) => ExhaustOpensOlderExactly(s, id);
    case OpUpgrade(limits, now) => InsertionOpensNoOlder(s, Step(s, op));
    case OpCreateLease(limits, now) => InsertionOpensNoOlder(s, Step(s, op));
    case OpReserve(_, _, _) => NoRowOpens(s, Step(s, op));
    case _ => NoRowOpens(s, Step(s, op));
  }

  /** So the bound holds for every lease of every run in which no transaction does that. */
  lemma SpendBoundUnlessReopened(ops: seq<Op>, n: nat)
    requires n < |Run(Empty(), ops).leases|
    requires forall i | 0 <= i < |ops| :: !OpensOlder(Run(Empty(), ops[..i]), ops[i])
    ensures WithinApprovals(Run(Empty(), ops), n)
  {
    var first := Root(Run(Empty(), ops), n);
    forall i | 0 <= i < |ops| ensures !ReservesOlder(Run(Empty(), ops[..i]), first, n, ops[i]) {
      NeverOlderOpen(ops, i);
    }
    SpendBound(ops, n);
  }

  lemma {:induction false} NeverOlderOpen(ops: seq<Op>, n: nat)
    requires n <= |ops| && forall i | 0 <= i < |ops| :: !OpensOlder(Run(Empty(), ops[..i]), ops[i])
    ensures !OlderOpen(Run(Empty(), ops[..n]))
  {
    if n > 0 {
      NeverOlderOpen(ops, n - 1);
      RunKeepsValid(Empty(), ops[..n - 1]);
      assert ops[..n][..n - 1] == ops[..n - 1];
      OpensOlderExactly(Run(Empty(), ops[..n - 1]), ops[n - 1]);
    }
  }

  // ---- without overages ------------------------------------------------------------------------

  /** No event of the chain was settled above its reservation. */
  ghost predicate NoOverage(s: State, n: nat)
    requires n < |s.leases|
  {
    && (forall k | 0 <= k < |s.events| && s.events[k].Some? && s.events[k].value.lease == n ::
          s.events[k].value.status != ProviderOverage)
    && (Extends(s, n) ==> NoOverage(s, n - 1))
  }

  /** A settlement that is not marked as an overage stayed within its reservation. */
  predicate MarkedTruly(e: Option<Event>) {
    e.Some? && (e.value.status == Settled || e.value.status == ConservativeSettlement) ==>
      && e.value.usage.TotalInput() <= e.value.request.inputUpper
      && e.value.usage.output <= e.value.request.maxOutput
      && e.value.cost <= e.value.request.cost
  }

  ghost predicate AllMarkedTruly(s: State) {
    forall k | 0 <= k < |s.events| :: MarkedTruly(s.events[k])
  }

  lemma StepMarksTruly(s: State, op: Op)
    requires AllMarkedTruly(s)
    ensures AllMarkedTruly(Step(s, op))
  {
    if op.OpSettle? {
      var a := Settle(s, op.id, op.report, op.percent);
      if a.Done? && a.state != s {
        assert MarkedTruly(a.state.events[op.id]);
      }
    }
  }

  lemma {:induction false} RunMarksTruly(ops: seq<Op>)
    ensures AllMarkedTruly(Run(Empty(), ops))
  {
    if |ops| > 0 {
      RunMarksTruly(ops[..|ops| - 1]);
      StepMarksTruly(Run(Empty(), ops[..|ops| - 1]), ops[|ops| - 1]);
    }
  }

  lemma {:induction false} NoExcessOfLease(s: State, m: nat, n: nat)
    requires AllMarkedTruly(s) && m <= |s.events|
    requires forall k | 0 <= k < |s.events| && s.events[k].Some? && s.events[k].value.lease == n ::
               s.events[k].value.status != ProviderOverage
    ensures PartsUpTo(Excess, s.events, m, n) == Zero()
  {
    if m > 0 {
      NoExcessOfLease(s, m - 1, n);
      assert MarkedTruly(s.events[m - 1]);
    }
  }

  lemma {:induction false} NoExcess(s: State, n: nat)
    requires AllMarkedTruly(s) && n < |s.leases| && NoOverage(s, n)
    ensures ChainParts(Excess, s, n) == Zero()
  {
    NoExcessOfLease(s, |s.events|, n);
    if Extends(s, n) {
      NoExcess(s, n - 1);
    }
  }

  lemma HardBound(s: State, n: nat)
    requires Valid(s) && AllMarkedTruly(s) && n < |s.leases| && Bounded(s, n) && NoOverage(s, n)
    ensures ChainCommitted(s, n).AtMost(Committed(s.leases[n].balance))
    ensures Committed(s.leases[n].balance).AtMost(ChainApproved(s, n))
  {
    NoExcess(s, n);
    ChainSplit(s, n);
    ApprovedIsCeiling(s, n);
    BalanceOfBounded(s, n);
    PlusZero(ChainParts(Reserved_, s, n));
    PlusZero(ChainApproved(s, n));
  }

  /** Without an overage the bound is hard: events of the chain, then the balance of its last lease, then
      the sum of the approvals. */
  lemma HardSpendBound(ops: seq<Op>, n: nat)
    requires n < |Run(Empty(), ops).leases|
    requires NeverReservesOlder(ops, Root(Run(Empty(), ops), n), n) && NoOverage(Run(Empty(), ops), n)
    ensures var s := Run(Empty(), ops);
            && ChainCommitted(s, n).AtMost(Committed(s.leases[n].balance))
            && Committed(s.leases[n].balance).AtMost(ChainApproved(s, n))
  {
    var s := Run(Empty(), ops);
    RunKeepsValid(Empty(), ops);
    RunKeepsBounded(ops, Root(s, n), n);
    RunMarksTruly(ops);
    RootIsNoUpgrade(s, n);
    assert Bounded(s, n);
    HardBound(s, n);
  }
}
