/**
 What each transaction of the ledger does, column by column, and exactly when it commits.

 The conditions and the new rows are written out in numbers, apart from the functions that compute them.
*/
module LedgerLaws {
  import opened Basics
  import opened Pricing
  import opened Ledger
  import opened LedgerInvariants

  /** No lease but perhaps this one is open. */
  predicate OnlyOpen(leases: seq<Lease>, c: nat) {
    forall i | 0 <= i < |leases| && i != c :: !leases[i].state.Open()
  }

  /** All rows but this one are as they were. */
  predicate OthersSame<T(==)>(a: seq<T>, b: seq<T>, k: nat) {
    |a| == |b| && forall i | 0 <= i < |a| && i != k :: a[i] == b[i]
  }

  // ---- leases ----------------------------------------------------------------------------------

  lemma {:induction false} MaxIsMost(leases: seq<Lease>, n: nat)
    requires n <= |leases|
    ensures forall i | 0 <= i < n :: leases[i].version <= MaxVersion(leases, n)
  {
    if n > 0 {
      MaxIsMost(leases, n - 1);
    }
  }

  /** A lease is created exactly if none is open. It has the next version, is active, has spent and holds
      nothing, and lasts for its duration from now. */
  lemma CreateLeaseExactly(s: State, limits: Limits, now: nat)
    requires LeasesIndexed(s.leases)
    ensures var a := CreateLease(s, limits, now);
            && (a.Done? <==> forall i | 0 <= i < |s.leases| :: !s.leases[i].state.Open())
            && (a.Refused? ==> a.error == IndexViolated)
            && (a.Done? ==>
                  && a.value == |s.leases| && a.state.events == s.events
                  && a.state.leases == s.leases + [Lease(
                       |s.leases| + 1, limits, Active, Balance(0, 0, 0, 0, 0, 0, 0), now + limits.duration,
                       limits, Balance(0, 0, 0, 0, 0, 0, 0), false)])
  {
    var n := |s.leases|;
    forall i | 0 <= i < n ensures s.leases[i].version == i + 1 {
      assert Ancestry(s.leases, i);
    }
    VersionsBound(s.leases, n);
    var rows := s.leases + [Lease(n + 1, limits, Active, Nothing(), now + limits.duration,
                                  limits, Nothing(), false)];
    forall i | 0 <= i < n && s.leases[i].state.Open() ensures !OneOpen(rows) {
      assert rows[i].state.Open() && rows[n].state.Open();
    }
  }

  /** The row that supersedes lease `prior`: each ceiling is the sum of both, the balance is inherited, and the
      duration, counted from now, is that of the addition alone. */
  predicate Supersedes(row: Lease, prior: Lease, more: Limits, now: nat) {
    && row.version == prior.version + 1 && row.state == Active && row.upgrade
    && row.limits.input == prior.limits.input + more.input
    && row.limits.output == prior.limits.output + more.output
    && row.limits.dollars == prior.limits.dollars + more.dollars
    && row.limits.turns == prior.limits.turns + more.turns
    && row.limits.duration == more.duration && row.expiresAt == now + more.duration
    && row.balance == prior.balance && row.opening == prior.balance && row.granted == more
  }

  /** An upgrade commits exactly if the newest lease is open, and closes that one. */
  lemma UpgradeLeaseExactly(s: State, more: Limits, now: nat)
    requires LeasesIndexed(s.leases)
    ensures var a := UpgradeLease(s, more, now); var n := |s.leases|;
            && (a.Done? <==> n > 0 && s.leases[n - 1].state.Open())
            && (a.Done? ==>
                  && a.value == n && |a.state.leases| == n + 1 && a.state.events == s.events
                  && a.state.leases[..n - 1] == s.leases[..n - 1]
                  && a.state.leases[n - 1] == s.leases[n - 1].(state := Superseded)
                  && Supersedes(a.state.leases[n], s.leases[n - 1], more, now))
  {
    UpgradeTakesNewest(s, more, now);
  }

  /** Expiring closes an open lease and leaves a closed one alone. */
  lemma ExpireLeaseExactly(s: State, id: nat)
    ensures var a := ExpireLease(s, id);
            && (a.Done? <==> id < |s.leases|)
            && (a.Done? ==>
                  && a.state.events == s.events && OthersSame(s.leases, a.state.leases, id)
                  && a.state.leases[id] ==
                     (if s.leases[id].state in {Active, Warning, Paused, Exhausted}
                      then s.leases[id].(state := Expired) else s.leases[id]))
  {
  }

  /** Exhausting opens whatever lease it is given, so it commits exactly if no other one is open. */
  lemma ExhaustLeaseExactly(s: State, id: nat)
    requires OneOpen(s.leases)
    ensures var a := ExhaustLease(s, id);
            && (a.Done? <==> id < |s.leases| && OnlyOpen(s.leases, id))
            && (a.Done? ==>
                  && a.state.events == s.events && OthersSame(s.leases, a.state.leases, id)
                  && a.state.leases[id] == s.leases[id].(state := Exhausted))
  {
    if id < |s.leases| {
      var rows := s.leases[id := s.leases[id].(state := Exhausted)];
      forall i | 0 <= i < |rows| && i != id && s.leases[i].state.Open() ensures !OneOpen(rows) {
        assert rows[i].state.Open() && rows[id].state.Open();
      }
    }
  }

  /** Pausing, as quarantining a session does it, pauses each lease that is active or at its warning. */
  lemma PauseUsableExactly(s: State)
    ensures var t := PauseUsable(s).state;
            && t.events == s.events && |t.leases| == |s.leases|
            && forall i | 0 <= i < |s.leases| ::
                 t.leases[i] == if s.leases[i].state in {Active, Warning} then s.leases[i].(state := Paused)
                                else s.leases[i]
  {
  }

  // ---- reserving -------------------------------------------------------------------------------

  predicate NewId(s: State, id: string) {
    forall i | 0 <= i < |s.events| && s.events[i].Some? :: s.events[i].value.request.id != id
  }

  /** Lease `c` is the open one, and turns may be reserved under it. */
  predicate Usable(s: State, c: nat) {
    c < |s.leases| && s.leases[c].state in {Active, Warning}
  }

  predicate Timely(s: State, c: nat, now: nat)
    requires c < |s.leases|
  {
    now < s.leases[c].expiresAt
  }

  predicate FitsInput(l: Lease, r: Request) {
    l.balance.actualInput + l.balance.heldInput + r.inputUpper <= l.limits.input
  }

  predicate FitsOutput(l: Lease, r: Request) {
    l.balance.actualOutput + l.balance.heldOutput + r.maxOutput <= l.limits.output
  }

  predicate FitsDollars(l: Lease, r: Request) {
    l.balance.actualDollars + l.balance.heldDollars + r.cost <= l.limits.dollars
  }

  predicate FitsTurns(l: Lease) {
    l.balance.turns < l.limits.turns
  }

  /** No standing row of the lease has the next turn number. */
  predicate TurnFree(s: State, c: nat)
    requires c < |s.leases|
  {
    forall i | 0 <= i < |s.events| && s.events[i].Some? && s.events[i].value.lease == c ::
      s.events[i].value.turn != s.leases[c].balance.turns + 1
  }

  predicate Admits(s: State, c: nat, r: Request, now: nat) {
    && Usable(s, c) && Timely(s, c, now)
    && FitsInput(s.leases[c], r) && FitsOutput(s.leases[c], r) && FitsDollars(s.leases[c], r)
    && FitsTurns(s.leases[c]) && TurnFree(s, c)
  }

  /** With these totals of what is spent and held, some ceiling is reached to `percent`. */
  predicate Reaches(l: Limits, percent: nat, input: nat, output: nat, dollars: nat, turns: nat) {
    || input * 100 >= l.input * percent || output * 100 >= l.output * percent
    || dollars * 100 >= l.dollars * percent || turns * 100 >= l.turns * percent
  }

  /** Lease `l` with the request held. */
  predicate HoldsMore(l: Lease, m: Lease, r: Request, percent: nat) {
    && m.balance.heldInput == l.balance.heldInput + r.inputUpper
    && m.balance.heldOutput == l.balance.heldOutput + r.maxOutput
    && m.balance.heldDollars == l.balance.heldDollars + r.cost
    && m.balance.turns == l.balance.turns + 1
    && m.balance.actualInput == l.balance.actualInput && m.balance.actualOutput == l.balance.actualOutput
    && m.balance.actualDollars == l.balance.actualDollars
    && m.(balance := l.balance, state := l.state) == l
    && m.state == if Reaches(l.limits, percent,
                             l.balance.actualInput + l.balance.heldInput + r.inputUpper,
                             l.balance.actualOutput + l.balance.heldOutput + r.maxOutput,
                             l.balance.actualDollars + l.balance.heldDollars + r.cost, l.balance.turns + 1)
                  then Warning else l.state
  }

  lemma OpenIsCurrent(s: State, c: nat)
    requires OneOpen(s.leases) && c < |s.leases| && s.leases[c].state.Open()
    ensures Current(s.leases) == Some(c)
  {
  }

  lemma NewIdIsNotFound(s: State, id: string)
    ensures NewId(s, id) <==> FindRequest(s.events, id).None?
  {
    var r := FindRequest(s.events, id);
    if r.Some? {
      assert s.events[r.value].Some? && s.events[r.value].value.request.id == id;
    }
  }

  lemma FreeIsNotTaken(s: State, c: nat)
    requires c < |s.leases|
    ensures TurnFree(s, c) <==> !TurnTaken(s, c, s.leases[c].balance.turns + 1)
  {
  }

  /** A request with a new id is granted exactly if some lease admits it: one that is open and usable, has not
      expired, has room under each ceiling, and whose next turn number is free. */
  lemma ReserveGrantsExactly(s: State, r: Request, percent: nat, now: nat)
    requires OneOpen(s.leases) && NewId(s, r.id)
    ensures CreateReservation(s, r, percent, now).Done? <==> exists c :: Admits(s, c, r, now)
  {
    NewIdIsNotFound(s, r.id);
    var a := CreateReservation(s, r, percent, now);
    if a.Done? {
      FreeIsNotTaken(s, Current(s.leases).value);
      assert Admits(s, Current(s.leases).value, r, now);
    }
    if c :| Admits(s, c, r, now) {
      OpenIsCurrent(s, c);
      FreeIsNotTaken(s, c);
    }
  }

  /** Then its row is inserted as a reserved one, and its bounds are held under that lease. */
  lemma ReserveHolds(s: State, r: Request, percent: nat, now: nat, c: nat)
    requires OneOpen(s.leases) && NewId(s, r.id) && Admits(s, c, r, now)
    ensures var a := CreateReservation(s, r, percent, now);
            && a.Done? && a.value == |s.events| && |a.state.events| == |s.events| + 1
            && a.state.events[..|s.events|] == s.events && a.state.events[|s.events|].Some?
            && var e := a.state.events[|s.events|].value;
               e.lease == c && e.request == r && e.turn == s.leases[c].balance.turns + 1 && e.status == Reserved
    ensures var t := CreateReservation(s, r, percent, now).After(s);
            OthersSame(s.leases, t.leases, c) && HoldsMore(s.leases[c], t.leases[c], r, percent)
  {
    NewIdIsNotFound(s, r.id);
    OpenIsCurrent(s, c);
    FreeIsNotTaken(s, c);
  }

  /** A used id is answered with its row if that is still reserved, and refused otherwise. */
  lemma ReserveRepeatsExactly(s: State, r: Request, percent: nat, now: nat, i: nat)
    requires EventsIndexed(s) && HasEvent(s, i) && s.events[i].value.request.id == r.id
    ensures CreateReservation(s, r, percent, now)
         == if s.events[i].value.status == Reserved then Done(s, i) else Refused(RequestIdUsed)
  {
    assert FindRequest(s.events, r.id) == Some(i);
  }

  /** Why a request with a new id is refused under the open lease `c`, in the order in which it is looked at. */
  predicate RefusedAt(s: State, c: nat, r: Request, now: nat, error: Refusal)
    requires c < |s.leases|
  {
    var l := s.leases[c];
    match error
    case LeaseNotUsable => l.state in {Paused, Exhausted}
    case LeaseExpired => Usable(s, c) && !Timely(s, c, now)
    case OverInput => Usable(s, c) && Timely(s, c, now) && !FitsInput(l, r)
    case OverOutput => Usable(s, c) && Timely(s, c, now) && FitsInput(l, r) && !FitsOutput(l, r)
    case OverDollars =>
      Usable(s, c) && Timely(s, c, now) && FitsInput(l, r) && FitsOutput(l, r) && !FitsDollars(l, r)
    case OverTurns =>
      && Usable(s, c) && Timely(s, c, now) && FitsInput(l, r) && FitsOutput(l, r) && FitsDollars(l, r)
      && !FitsTurns(l)
    case IndexViolated =>
      && Usable(s, c) && Timely(s, c, now) && FitsInput(l, r) && FitsOutput(l, r) && FitsDollars(l, r)
      && FitsTurns(l) && !TurnFree(s, c)
    case NoLease | RequestIdUsed | RowMissing | NotReserved | NegativeUsage => false
  }

  predicate RefusedFor(s: State, r: Request, now: nat, error: Refusal) {
    if error == NoLease then forall c | 0 <= c < |s.leases| :: !s.leases[c].state.Open()
    else exists c :: 0 <= c < |s.leases| && RefusedAt(s, c, r, now, error)
  }

  /** Each refusal has its own condition. */
  lemma ReserveRefusesExactly(s: State, r: Request, percent: nat, now: nat, error: Refusal)
    requires OneOpen(s.leases) && NewId(s, r.id)
    ensures CreateReservation(s, r, percent, now) == Refused(error) <==> RefusedFor(s, r, now, error)
  {
    NewIdIsNotFound(s, r.id);
    match Current(s.leases)
    case None =>
    case Some(c) =>
      FreeIsNotTaken(s, c);
      assert forall d | 0 <= d < |s.leases| && s.leases[d].state.Open() :: d == c;
      assert s.leases[c].state.Open();
      assert CreateReservation(s, r, percent, now) == Refused(error) <==> RefusedAt(s, c, r, now, error);
  }

  // ---- expiry over whole runs ------------------------------------------------------------------

  /** Rows keep their expiry, and a row is only added by an approval, for its duration from then. */
  lemma StepKeepsExpiry(s: State, op: Op)
    requires LeasesIndexed(s.leases)
    ensures var t := Step(s, op);
            && |s.leases| <= |t.leases| <= |s.leases| + 1
            && (forall c | 0 <= c < |s.leases| :: t.leases[c].expiresAt == s.leases[c].expiresAt)
            && (|t.leases| > |s.leases| ==>
                  && (op.OpCreateLease? || op.OpUpgrade?)
                  && t.leases[|s.leases|].expiresAt == op.now + op.limits.duration)
  {
    match op
    case OpCreateLease(limits, now) => CreateLeaseExactly(s, limits, now);
    case OpUpgrade(limits, now) => UpgradeLeaseExactly(s, limits, now);
    case _ =>
  }

  /** Transaction number `i` of the run is the approval of lease `c`. */
  ghost predicate ApprovedBy(ops: seq<Op>, i: nat, c: nat) {
    && i < |ops| && (ops[i].OpCreateLease? || ops[i].OpUpgrade?)
    && |Run(Empty(), ops[..i]).leases| == c && |Run(Empty(), ops[..i + 1]).leases| == c + 1
  }

  /** In every reachable state, a lease expires its duration after it was approved. */
  lemma {:induction false} ExpiryIsApprovalPlusDuration(ops: seq<Op>, c: nat) returns (i: nat)
    requires c < |Run(Empty(), ops).leases|
    ensures ApprovedBy(ops, i, c)
    ensures Run(Empty(), ops).leases[c].expiresAt == ops[i].now + ops[i].limits.duration
  {
    var n := |ops| - 1;
    var s := Run(Empty(), ops[..n]);
    RunKeepsValid(Empty(), ops[..n]);
    StepKeepsExpiry(s, ops[n]);
    if c < |s.leases| {
      i := ExpiryIsApprovalPlusDuration(ops[..n], c);
      assert ops[..n][..i] == ops[..i] && ops[..n][..i + 1] == ops[..i + 1];
    } else {
      i := n;
      assert ops[..n + 1] == ops;
    }
  }

  /** The transaction inserts an event row under lease `c`. */
  ghost predicate InsertsUnder(s: State, op: Op, c: nat) {
    var t := Step(s, op);
    |t.events| > |s.events| && t.events[|s.events|].Some? && t.events[|s.events|].value.lease == c
  }

  lemma InsertionIsTimely(s: State, op: Op, c: nat)
    requires OneOpen(s.leases) && InsertsUnder(s, op, c)
    ensures op.OpReserve? && Usable(s, c) && Timely(s, c, op.now)
  {
  }

  /** No step of any run inserts an event under a lease at or after its expiry, that is when the duration of
      its approval has passed. */
  lemma LateLeaseAdmitsNoTurn(ops: seq<Op>, k: nat, c: nat)
    requires k < |ops| && InsertsUnder(Run(Empty(), ops[..k]), ops[k], c)
    ensures ops[k].OpReserve?
    ensures exists i: nat :: i < k && ApprovedBy(ops, i, c) && ops[k].now < ops[i].now + ops[i].limits.duration
  {
    var s := Run(Empty(), ops[..k]);
    RunKeepsValid(Empty(), ops[..k]);
    InsertionIsTimely(s, ops[k], c);
    var i := ExpiryIsApprovalPlusDuration(ops[..k], c);
    assert ops[..k][..i] == ops[..i] && ops[..k][..i + 1] == ops[..i + 1];
    assert ApprovedBy(ops, i, c);
  }

  // ---- settling --------------------------------------------------------------------------------

  /** A report with a negative count settles nothing. Without a report a turn costs what was reserved. Any
      other is an overage exactly if it exceeds the reserved input, the reserved output or the reserved cost. */
  lemma VerdictExactly(e: Event, report: Option<Report>)
    ensures var v := Verdict(e, report); var q := e.request;
            match report
            case None => v == Some((Usage(q.inputUpper, 0, 0, 0, q.maxOutput), q.cost, ConservativeSettlement))
            case Some(r) =>
              && (v.None? <==> r.input < 0 || r.write5m < 0 || r.write1h < 0 || r.read < 0 || r.output < 0)
              && (v.Some? ==>
                    var (u, cost, status) := v.value;
                    && u.input == r.input && u.write5m == r.write5m && u.write1h == r.write1h
                    && u.read == r.read && u.output == r.output && cost == UsageCost(q.pricing, u)
                    && status == if || r.input + r.write5m + r.write1h + r.read > q.inputUpper
                                    || r.output > q.maxOutput || cost > q.cost
                                 then ProviderOverage else Settled)
  {
  }

  /** The state of a lease after a settlement: paused by an overage, and otherwise a warning if what is spent
      reaches a ceiling to the percentage, unless it was paused. */
  function SettledState(l: Lease, u: Usage, cost: nat, status: EventStatus, percent: nat): LeaseState {
    if status == ProviderOverage then Paused
    else if l.state != Paused
            && Reaches(l.limits, percent,
                       l.balance.actualInput + u.input + u.write5m + u.write1h + u.read,
                       l.balance.actualOutput + u.output, l.balance.actualDollars + cost, l.balance.turns)
    then Warning
    else l.state
  }

  /** From lease `l` to `m`, the bounds of the request are no longer held. */
  predicate HoldsLess(l: Lease, m: Lease, r: Request) {
    && m.balance.heldInput + r.inputUpper == l.balance.heldInput
    && m.balance.heldOutput + r.maxOutput == l.balance.heldOutput
    && m.balance.heldDollars + r.cost == l.balance.heldDollars
    && m.(balance := l.balance, state := l.state) == l
  }

  predicate SpendsMore(l: Lease, m: Lease, u: Usage, cost: nat) {
    && m.balance.actualInput == l.balance.actualInput + u.input + u.write5m + u.write1h + u.read
    && m.balance.actualOutput == l.balance.actualOutput + u.output
    && m.balance.actualDollars == l.balance.actualDollars + cost
    && m.balance.turns == l.balance.turns
  }

  lemma OpeningExactly(leases: seq<Lease>, l: nat, row: Lease)
    requires OneOpen(leases) && l < |leases|
    ensures OneOpen(leases[l := row]) <==> !row.state.Open() || OnlyOpen(leases, l)
  {
    var rows := leases[l := row];
    if row.state.Open() {
      forall i | 0 <= i < |rows| && i != l && leases[i].state.Open() ensures !OneOpen(rows) {
        assert rows[i].state.Open() && rows[l].state.Open();
      }
    }
  }

  /** A turn that is held is settled with its verdict, unless that would open its lease beside another one.
      Its bounds move from what is held to what is spent, once. */
  lemma SettleExactly(s: State, id: nat, report: Option<Report>, percent: nat)
    requires Valid(s) && HasEvent(s, id) && Verdict(s.events[id].value, report).Some?
    ensures var e := s.events[id].value; var a := Settle(s, id, report, percent);
            var (u, cost, status) := Verdict(e, report).value;
            if e.status in {Settled, ConservativeSettlement, ProviderOverage} then a == Done(s, e)
            else
              var l := s.leases[e.lease]; var state := SettledState(l, u, cost, status, percent);
              && (a.Done? <==> !state.Open() || OnlyOpen(s.leases, e.lease))
              && (a.Done? ==>
                    && OthersSame(s.events, a.state.events, id) && OthersSame(s.leases, a.state.leases, e.lease)
                    && a.state.events[id] == Some(e.(status := status, usage := u, cost := cost))
                    && HoldsLess(l, a.state.leases[e.lease], e.request)
                    && SpendsMore(l, a.state.leases[e.lease], u, cost)
                    && a.state.leases[e.lease].state == state)
  {
    var e := s.events[id].value;
    if e.status.Held() {
      var (u, cost, status) := Verdict(e, report).value;
      var l := s.leases[e.lease];
      HeldIsCovered(s, id);
      SettledRow(l, e.request, u, cost, status, percent);
      OpeningExactly(s.leases, e.lease, SettledLease(l, e.request, u, cost, status, percent));
    }
  }

  function SettledLease(l: Lease, r: Request, u: Usage, cost: nat, status: EventStatus, percent: nat): Lease {
    SetState(l.(balance := Spend(Unhold(l.balance, r), u, cost)),
             StateAfterSettlement(l, u, cost, percent, status == ProviderOverage))
  }

  lemma SettledRow(l: Lease, r: Request, u: Usage, cost: nat, status: EventStatus, percent: nat)
    requires l.balance.heldInput >= r.inputUpper && l.balance.heldOutput >= r.maxOutput
    requires l.balance.heldDollars >= r.cost
    ensures var m := SettledLease(l, r, u, cost, status, percent);
            HoldsLess(l, m, r) && SpendsMore(l, m, u, cost) && m.state == SettledState(l, u, cost, status, percent)
  {
  }

  /** A reserved turn is released with its hold and its turn number, and a warning is taken back. A turn that
      is not there is released already, any other turn is not. */
  lemma ReleaseExactly(s: State, id: nat)
    requires Valid(s)
    ensures var a := ReleaseReservation(s, id);
            if !HasEvent(s, id) then a == Done(s, ())
            else
              var e := s.events[id].value; var l := s.leases[e.lease];
              && (a.Done? <==> e.status == Reserved)
              && (a.Done? ==>
                    && OthersSame(s.events, a.state.events, id) && OthersSame(s.leases, a.state.leases, e.lease)
                    && a.state.events[id] == None
                    && var m := a.state.leases[e.lease];
                       && HoldsLess(l, m, e.request) && m.balance.turns + 1 == l.balance.turns
                       && m.balance.actualInput == l.balance.actualInput
                       && m.balance.actualOutput == l.balance.actualOutput
                       && m.balance.actualDollars == l.balance.actualDollars
                       && m.state == if l.state == Warning then Active else l.state)
  {
    if HasEvent(s, id) {
      HeldIsCovered(s, id);
    }
  }

  /** A reserved turn is marked uncertain, its hold is kept and its lease is paused, unless that would open the
      lease beside another one. Any other turn is left as it is. */
  lemma MarkExactly(s: State, id: nat)
    requires Valid(s) && HasEvent(s, id)
    ensures var e := s.events[id].value; var l := s.leases[e.lease]; var a := MarkUncertain(s, id);
            if e.status != Reserved then a == Done(s, e)
            else
              && (a.Done? <==> OnlyOpen(s.leases, e.lease))
              && (a.Done? ==>
                    && a.state.events == s.events[id := Some(e.(status := UncertainSpend))]
                    && a.state.leases == s.leases[e.lease := l.(state := Paused)])
  {
    var e := s.events[id].value;
    OpeningExactly(s.leases, e.lease, SetState(s.leases[e.lease], Paused));
  }
}
