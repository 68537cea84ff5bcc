/** What every transaction of the ledger keeps: indexes, ancestry of leases, and exact conservation. */
module LedgerInvariants {
  import opened Basics
  import opened Pricing
  import opened Ledger

  // ---- charges ---------------------------------------------------------------------------------

  /** What an event row contributes to the balances of a lease. */
  function Charge(e: Option<Event>, lease: nat): Balance {
    match e
    case None => Nothing()
    case Some(v) =>
      if v.lease != lease then Nothing()
      else if v.status.Held() then
        Balance(0, 0, 0, v.request.inputUpper, v.request.maxOutput, v.request.cost, 1)
      else
        Balance(v.usage.TotalInput(), v.usage.output, v.cost, 0, 0, 0, 1)
  }

  function ChargesUpTo(events: seq<Option<Event>>, n: nat, lease: nat): Balance
    requires n <= |events|
  {
    if n == 0 then Nothing() else ChargesUpTo(events, n - 1, lease).Plus(Charge(events[n - 1], lease))
  }

  /** The sum of the contributions of all event rows. */
  function Charges(events: seq<Option<Event>>, lease: nat): Balance {
    ChargesUpTo(events, |events|, lease)
  }

  lemma {:induction false} ChargesUpToPrefix(events: seq<Option<Event>>, e: Option<Event>, n: nat, lease: nat)
    requires n <= |events|
    ensures ChargesUpTo(events + [e], n, lease) == ChargesUpTo(events, n, lease)
  {
    if n > 0 {
      ChargesUpToPrefix(events, e, n - 1, lease);
    }
  }

  lemma ChargesAppend(events: seq<Option<Event>>, e: Option<Event>, lease: nat)
    ensures Charges(events + [e], lease) == Charges(events, lease).Plus(Charge(e, lease))
  {
    ChargesUpToPrefix(events, e, |events|, lease);
  }

  lemma PlusSwap(a: Balance, b: Balance, c: Balance, x: Balance, y: Balance)
    requires a.Plus(x) == b.Plus(y)
    ensures a.Plus(c).Plus(x) == b.Plus(c).Plus(y)
  {
  }

  lemma PlusCommutes(a: Balance, x: Balance, y: Balance)
    ensures a.Plus(x).Plus(y) == a.Plus(y).Plus(x)
  {
  }

  lemma {:induction false} ChargesUpToUpdate(events: seq<Option<Event>>, n: nat, i: nat, e: Option<Event>, lease: nat)
    requires n <= |events| && i < |events|
    ensures var before, after := ChargesUpTo(events, n, lease), ChargesUpTo(events[i := e], n, lease);
            if n <= i then after == before
            else after.Plus(Charge(events[i], lease)) == before.Plus(Charge(e, lease))
  {
    if n > 0 {
      ChargesUpToUpdate(events, n - 1, i, e, lease);
      var before, after := ChargesUpTo(events, n - 1, lease), ChargesUpTo(events[i := e], n - 1, lease);
      if n - 1 == i {
        PlusCommutes(before, Charge(e, lease), Charge(events[i], lease));
      } else if i < n - 1 {
        PlusSwap(after, before, Charge(events[n - 1], lease), Charge(events[i], lease), Charge(e, lease));
      }
    }
  }

  lemma ChargesUpdate(events: seq<Option<Event>>, i: nat, e: Option<Event>, lease: nat)
    requires i < |events|
    ensures Charges(events[i := e], lease).Plus(Charge(events[i], lease))
         == Charges(events, lease).Plus(Charge(e, lease))
  {
    ChargesUpToUpdate(events, |events|, i, e, lease);
  }

  lemma {:induction false} ChargesOfUnusedLease(events: seq<Option<Event>>, n: nat, lease: nat)
    requires n <= |events|
    requires forall i | 0 <= i < |events| && events[i].Some? :: events[i].value.lease != lease
    ensures ChargesUpTo(events, n, lease) == Nothing()
  {
    if n > 0 {
      ChargesOfUnusedLease(events, n - 1, lease);
    }
  }

  // ---- the invariant ---------------------------------------------------------------------------

  /** Every event belongs to a lease; request ids and (lease, turn) pairs identify one event. */
  ghost predicate EventsIndexed(s: State) {
    && (forall i | 0 <= i < |s.events| && s.events[i].Some? :: s.events[i].value.lease < |s.leases|)
    && (forall i, j | 0 <= i < j < |s.events| && s.events[i].Some? && s.events[j].Some? ::
          s.events[i].value.request.id != s.events[j].value.request.id)
    && (forall i, j | 0 <= i < j < |s.events| && s.events[i].Some? && s.events[j].Some? ::
          s.events[i].value.lease != s.events[j].value.lease || s.events[i].value.turn != s.events[j].value.turn)
  }

  /** How lease `i` came to be: on its own, or as the upgrade of the lease before it. */
  ghost predicate Ancestry(leases: seq<Lease>, i: nat)
    requires i < |leases|
  {
    var l := leases[i];
    && l.version == i + 1
    && if l.upgrade then
         i > 0 && l.limits == leases[i - 1].limits.Plus(l.granted)
       else
         l.limits == l.granted && l.opening == Nothing()
  }

  /** Versions are positions, and at most one lease is open. */
  ghost predicate LeasesIndexed(leases: seq<Lease>) {
    && OneOpen(leases)
    && (forall i | 0 <= i < |leases| :: Ancestry(leases, i))
  }

  /** Balances are what the lease started with plus the charges of its own events. */
  ghost predicate Conserved(s: State) {
    forall i | 0 <= i < |s.leases| ::
      s.leases[i].balance == s.leases[i].opening.Plus(Charges(s.events, i))
  }

  ghost predicate Valid(s: State) {
    EventsIndexed(s) && LeasesIndexed(s.leases) && Conserved(s)
  }

  // ---- consequences used by the transactions ---------------------------------------------------

  lemma {:induction false} VersionsBound(leases: seq<Lease>, n: nat)
    requires n <= |leases|
    requires forall i | 0 <= i < |leases| :: leases[i].version == i + 1
    ensures MaxVersion(leases, n) == n
  {
    if n > 0 {
      VersionsBound(leases, n - 1);
    }
  }

  /** An upgrade is refused unless the open lease is the newest one. */
  lemma UpgradeTakesNewest(s: State, more: Limits, now: nat)
    requires LeasesIndexed(s.leases)
    ensures UpgradeLease(s, more, now).Done? <==> |s.leases| > 0 && s.leases[|s.leases| - 1].state.Open()
    ensures UpgradeLease(s, more, now).Done? ==> Current(s.leases) == Some(|s.leases| - 1)
  {
    var r := Current(s.leases);
    if r.Some? {
      var c := r.value;
      assert Ancestry(s.leases, c);
      var lease := UpgradedLease(s.leases[c], more, now);
      var leases := s.leases[c := SetState(s.leases[c], Superseded)] + [lease];
      assert leases[|s.leases|] == lease;
      forall i | 0 <= i < |s.leases| ensures leases[i].version == i + 1 {
        assert Ancestry(s.leases, i);
      }
      if c < |s.leases| - 1 {
        assert leases[c + 1].version == leases[|s.leases|].version;
      }
    }
  }

  /** The clamped subtractions never clamp: a held event is part of its lease's balance. */
  lemma HeldIsCovered(s: State, id: nat)
    requires Conserved(s) && EventsIndexed(s) && HasEvent(s, id)
    ensures var e := s.events[id].value; var b := s.leases[e.lease].balance;
            && b.turns >= 1
            && (e.status.Held() ==> && b.heldInput >= e.request.inputUpper
                                    && b.heldOutput >= e.request.maxOutput
                                    && b.heldDollars >= e.request.cost)
  {
    var lease := s.events[id].value.lease;
    ChargesUpdate(s.events, id, None, lease);
  }

  lemma CancelCharge(after: Balance, before: Balance, afterSum: Balance, beforeSum: Balance, opening: Balance,
                     out: Balance, in_: Balance)
    requires after.Plus(out) == before.Plus(in_)
    requires afterSum.Plus(out) == beforeSum.Plus(in_)
    requires before == opening.Plus(beforeSum)
    ensures after == opening.Plus(afterSum)
  {
  }

  /** Replacing an event and the balance of its lease by matching amounts conserves. */
  lemma ReplacementConserves(s: State, id: nat, e: Option<Event>, lease: Lease)
    requires Valid(s) && HasEvent(s, id)
    requires e.Some? ==> e.value.lease == s.events[id].value.lease
    requires var l := s.events[id].value.lease;
             && lease.opening == s.leases[l].opening
             && lease.balance.Plus(Charge(s.events[id], l)) == s.leases[l].balance.Plus(Charge(e, l))
    ensures Conserved(State(s.leases[s.events[id].value.lease := lease], s.events[id := e]))
  {
    var l := s.events[id].value.lease;
    var t := State(s.leases[l := lease], s.events[id := e]);
    forall i | 0 <= i < |t.leases|
      ensures t.leases[i].balance == t.leases[i].opening.Plus(Charges(t.events, i))
    {
      ChargesUpdate(s.events, id, e, i);
      var before, after := Charges(s.events, i), Charges(t.events, i);
      if i == l {
        CancelCharge(lease.balance, s.leases[l].balance, after, before, lease.opening,
                     Charge(s.events[id], l), Charge(e, l));
      }
    }
  }

  lemma ReplacementKeepsEventsIndexed(s: State, id: nat, e: Option<Event>)
    requires EventsIndexed(s) && HasEvent(s, id)
    requires e.Some? ==> && e.value.lease == s.events[id].value.lease
                         && e.value.turn == s.events[id].value.turn
                         && e.value.request == s.events[id].value.request
    ensures EventsIndexed(s.(events := s.events[id := e]))
  {
  }

  /** Writing a lease row that keeps its history columns keeps the ancestry of all of them. */
  lemma RowUpdateKeepsLeasesIndexed(leases: seq<Lease>, i: nat, lease: Lease)
    requires LeasesIndexed(leases) && i < |leases| && OneOpen(leases[i := lease])
    requires lease.(state := leases[i].state, balance := leases[i].balance) == leases[i]
    ensures LeasesIndexed(leases[i := lease])
  {
    var rows := leases[i := lease];
    forall k | 0 <= k < |rows| ensures Ancestry(rows, k) {
      assert Ancestry(leases, k);
      if k > 0 {
        assert Ancestry(leases, k - 1);
      }
    }
  }

  // ---- every transaction keeps the invariant ---------------------------------------------------

  /** A fresh lease row has no events, so it starts conserved. */
  lemma FreshRowConserves(s: State, rows: seq<Lease>, lease: Lease)
    requires EventsIndexed(s) && Conserved(s)
    requires |rows| == |s.leases| && lease.balance == lease.opening
    requires forall i | 0 <= i < |rows| ::
               rows[i].balance == s.leases[i].balance && rows[i].opening == s.leases[i].opening
    ensures EventsIndexed(State(rows + [lease], s.events)) && Conserved(State(rows + [lease], s.events))
  {
    var t := State(rows + [lease], s.events);
    forall i | 0 <= i < |t.leases|
      ensures t.leases[i].balance == t.leases[i].opening.Plus(Charges(t.events, i))
    {
      if i == |rows| {
        ChargesOfUnusedLease(s.events, |s.events|, i);
        assert t.leases[i] == lease;
      } else {
        assert t.leases[i] == rows[i];
        assert s.leases[i].balance == s.leases[i].opening.Plus(Charges(s.events, i));
      }
    }
  }

  lemma CreateKeepsValid(s: State, limits: Limits, now: nat)
    requires Valid(s)
    ensures Valid(CreateLease(s, limits, now).After(s))
  {
    var r := CreateLease(s, limits, now);
    if r.Done? {
      var n := |s.leases|;
      forall i | 0 <= i < n ensures s.leases[i].version == i + 1 {
        assert Ancestry(s.leases, i);
      }
      VersionsBound(s.leases, n);
      var rows := r.state.leases;
      forall i | 0 <= i < n + 1 ensures Ancestry(rows, i) {
        if i < n {
          assert Ancestry(s.leases, i);
        }
      }
      FreshRowConserves(s, s.leases, rows[n]);
    }
  }

  lemma UpgradeKeepsValid(s: State, more: Limits, now: nat)
    requires Valid(s)
    ensures Valid(UpgradeLease(s, more, now).After(s))
  {
    var r := UpgradeLease(s, more, now);
    UpgradeTakesNewest(s, more, now);
    if r.Done? {
      var n := |s.leases|;
      assert r.state.leases == s.leases[n - 1 := SetState(s.leases[n - 1], Superseded)]
                               + [UpgradedLease(s.leases[n - 1], more, now)];
      assert Ancestry(s.leases, n - 1);
      var rows := r.state.leases;
      forall i | 0 <= i < n + 1 ensures Ancestry(rows, i) {
        if i < n {
          assert Ancestry(s.leases, i);
        }
      }
      FreshRowConserves(s, rows[..n], rows[n]);
      assert rows == rows[..n] + [rows[n]];
    }
  }

  lemma LeaseStateKeepsValid(s: State, id: nat, state: LeaseState)
    requires Valid(s) && id < |s.leases|
    requires OneOpen(s.leases[id := SetState(s.leases[id], state)])
    ensures Valid(s.(leases := s.leases[id := SetState(s.leases[id], state)]))
  {
    assert Ancestry(s.leases, id);
    RowUpdateKeepsLeasesIndexed(s.leases, id, SetState(s.leases[id], state));
  }

  lemma PauseKeepsValid(s: State)
    requires Valid(s)
    ensures Valid(PauseUsable(s).state)
  {
    var t := PauseUsable(s).state;
    forall i | 0 <= i < |s.leases| ensures Ancestry(t.leases, i) {
      assert Ancestry(s.leases, i);
      assert i > 0 ==> Ancestry(s.leases, i - 1);
    }
  }

  /** A new event row and the matching hold on its lease conserve. */
  lemma InsertionConserves(s: State, c: nat, lease: Lease, e: Event)
    requires Conserved(s) && c < |s.leases| && e.lease == c
    requires lease.opening == s.leases[c].opening
    requires lease.balance == s.leases[c].balance.Plus(Charge(Some(e), c))
    ensures Conserved(State(s.leases[c := lease], s.events + [Some(e)]))
  {
    var t := State(s.leases[c := lease], s.events + [Some(e)]);
    forall i | 0 <= i < |t.leases|
      ensures t.leases[i].balance == t.leases[i].opening.Plus(Charges(t.events, i))
    {
      ChargesAppend(s.events, Some(e), i);
    }
  }

  lemma InsertionKeepsEventsIndexed(s: State, e: Event)
    requires EventsIndexed(s) && e.lease < |s.leases|
    requires FindRequest(s.events, e.request.id).None? && !TurnTaken(s, e.lease, e.turn)
    ensures EventsIndexed(s.(events := s.events + [Some(e)]))
  {
  }

  lemma ReserveKeepsValid(s: State, r: Request, percent: nat, now: nat)
    requires Valid(s)
    ensures Valid(CreateReservation(s, r, percent, now).After(s))
  {
    var a := CreateReservation(s, r, percent, now);
    if a.Done? && FindRequest(s.events, r.id).None? {
      var c := Current(s.leases).value;
      var lease, e := a.state.leases[c], a.state.events[|s.events|].value;
      assert Ancestry(s.leases, c);
      assert a.state == State(s.leases[c := lease], s.events + [Some(e)]);
      RowUpdateKeepsLeasesIndexed(s.leases, c, lease);
      InsertionConserves(s, c, lease, e);
      InsertionKeepsEventsIndexed(s, e);
    }
  }

  lemma SettleKeepsValid(s: State, id: nat, report: Option<Report>, percent: nat)
    requires Valid(s)
    ensures Valid(Settle(s, id, report, percent).After(s))
  {
    var a := Settle(s, id, report, percent);
    if a.Done? && a.state != s {
      var l := s.events[id].value.lease;
      var t := a.state;
      HeldIsCovered(s, id);
      assert Ancestry(s.leases, l);
      assert t == State(s.leases[l := t.leases[l]], s.events[id := t.events[id]]);
      RowUpdateKeepsLeasesIndexed(s.leases, l, t.leases[l]);
      ReplacementConserves(s, id, t.events[id], t.leases[l]);
      ReplacementKeepsEventsIndexed(s, id, t.events[id]);
    }
  }

  lemma ReleaseKeepsValid(s: State, id: nat)
    requires Valid(s)
    ensures Valid(ReleaseReservation(s, id).After(s))
  {
    var a := ReleaseReservation(s, id);
    if a.Done? && HasEvent(s, id) {
      var l := s.events[id].value.lease;
      var t := a.state;
      HeldIsCovered(s, id);
      assert Ancestry(s.leases, l);
      assert t == State(s.leases[l := t.leases[l]], s.events[id := None]);
      RowUpdateKeepsLeasesIndexed(s.leases, l, t.leases[l]);
      ReplacementConserves(s, id, None, t.leases[l]);
      ReplacementKeepsEventsIndexed(s, id, None);
    }
  }

  lemma MarkKeepsValid(s: State, id: nat)
    requires Valid(s)
    ensures Valid(MarkUncertain(s, id).After(s))
  {
    var a := MarkUncertain(s, id);
    if a.Done? && a.state != s {
      var l := s.events[id].value.lease;
      var t := a.state;
      assert Ancestry(s.leases, l);
      assert t == State(s.leases[l := t.leases[l]], s.events[id := t.events[id]]);
      RowUpdateKeepsLeasesIndexed(s.leases, l, t.leases[l]);
      ReplacementConserves(s, id, t.events[id], t.leases[l]);
      ReplacementKeepsEventsIndexed(s, id, t.events[id]);
    }
  }

  lemma StepKeepsValid(s: State, op: Op)
    requires Valid(s)
    ensures Valid(Step(s, op))
  {
    match op
    case OpCreateLease(limits, now) => CreateKeepsValid(s, limits, now);
    case OpUpgrade(limits, now) => UpgradeKeepsValid(s, limits, now);
    case OpExpire(id) =>
      if id < |s.leases| && s.leases[id].state.Open() {
        LeaseStateKeepsValid(s, id, Expired);
      }
    case OpExhaust(id) =>
      if id < |s.leases| && OneOpen(s.leases[id := SetState(s.leases[id], Exhausted)]) {
        LeaseStateKeepsValid(s, id, Exhausted);
      }
    case OpPauseUsable => PauseKeepsValid(s);
    case OpReserve(r, percent, now) => ReserveKeepsValid(s, r, percent, now);
    case OpSettle(id, report, percent) => SettleKeepsValid(s, id, report, percent);
    case OpRelease(id) => ReleaseKeepsValid(s, id);
    case OpMarkUncertain(id) => MarkKeepsValid(s, id);
  }

  lemma {:induction false} RunKeepsValid(s: State, ops: seq<Op>)
    requires Valid(s)
    ensures Valid(Run(s, ops))
  {
    if |ops| > 0 {
      RunKeepsValid(s, ops[..|ops| - 1]);
      StepKeepsValid(Run(s, ops[..|ops| - 1]), ops[|ops| - 1]);
    }
  }

  /** Exact conservation in every reachable state, under any interleaving of transactions. */
  lemma ReachableConserves(ops: seq<Op>)
    ensures var s := Run(Empty(), ops);
            && OneOpen(s.leases)
            && (forall i | 0 <= i < |s.leases| ::
                  && s.leases[i].version == i + 1
                  && s.leases[i].balance == s.leases[i].opening.Plus(Charges(s.events, i)))
  {
    RunKeepsValid(Empty(), ops);
    var s := Run(Empty(), ops);
    forall i | 0 <= i < |s.leases| ensures s.leases[i].version == i + 1 {
      assert Ancestry(s.leases, i);
    }
  }

  /** In every reachable state, subtracting a held reservation from its lease never goes below zero,
      so the clamps of the update statements have no effect. */
  lemma ClampsAreUnreachable(ops: seq<Op>, id: nat)
    ensures var s := Run(Empty(), ops);
            HasEvent(s, id) && s.events[id].value.status.Held() ==>
              var e := s.events[id].value;
              && e.lease < |s.leases|
              && var b := s.leases[e.lease].balance;
                 && Unhold(b, e.request).heldInput + e.request.inputUpper == b.heldInput
                 && Unhold(b, e.request).heldOutput + e.request.maxOutput == b.heldOutput
                 && Unhold(b, e.request).heldDollars + e.request.cost == b.heldDollars
                 && Less(b.turns, 1) + 1 == b.turns
  {
    RunKeepsValid(Empty(), ops);
    var s := Run(Empty(), ops);
    if HasEvent(s, id) && s.events[id].value.status.Held() {
      HeldIsCovered(s, id);
    }
  }
}
