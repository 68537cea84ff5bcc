/**
 The ledger as objects that change in place: the store with its rows, the budget service that
 guards it, and the chat client that drives one paid turn.

 Every method commits or leaves all rows alone, and its contract ties the rows to the ledger
 function of the same name, about which the laws of the other modules are proved.
*/
module LedgerStore {
  import opened Basics
  import opened Pricing
  import L = Ledger
  import opened LedgerInvariants
  import B = Budget
  import T = Text

  class BuildStore {
    var leases: seq<L.Lease>
    var events: seq<Option<L.Event>>

    ghost function Ledger(): L.State
      reads this
    {
      L.State(leases, events)
    }

    constructor ()
      ensures Ledger() == L.Empty() && Valid(Ledger())
    {
      leases, events := [], [];
    }

    method CreateLease(limits: L.Limits, now: nat) returns (r: Outcome<nat, L.Refusal>)
      requires Valid(Ledger())
      modifies this
      ensures Valid(Ledger())
      ensures var a := L.CreateLease(old(Ledger()), limits, now);
              Ledger() == a.After(old(Ledger())) && r == a.Outcome()
    {
      ghost var next := L.CreateLease(Ledger(), limits, now).After(Ledger());
      CreateKeepsValid(Ledger(), limits, now);
      var version := L.MaxVersion(leases, |leases|) + 1;
      var row := L.Lease(version, limits, L.Active, L.Nothing(), now + limits.duration,
                         limits, L.Nothing(), false);
      var inserted := leases + [row];
      if !L.OneOpen(inserted) || !L.DistinctVersions(inserted) {
        return Err(L.IndexViolated);
      }
      leases := inserted;
      assert Ledger() == next;
      r := Ok(|leases| - 1);
    }

    method UpgradeLease(additional: L.Limits, now: nat) returns (r: Outcome<nat, L.Refusal>)
      requires Valid(Ledger())
      modifies this
      ensures Valid(Ledger())
      ensures var a := L.UpgradeLease(old(Ledger()), additional, now);
              Ledger() == a.After(old(Ledger())) && r == a.Outcome()
    {
      ghost var next := L.UpgradeLease(Ledger(), additional, now).After(Ledger());
      UpgradeKeepsValid(Ledger(), additional, now);
      var current := L.Current(leases);
      if current.None? {
        return Err(L.NoLease);
      }
      var c := current.value;
      var prior := leases[c];
      var superseded := leases[c := L.SetState(prior, L.Superseded)];
      var inserted := superseded + [L.UpgradedLease(prior, additional, now)];
      if !L.OneOpen(inserted) || !L.DistinctVersions(inserted) {
        return Err(L.IndexViolated);
      }
      leases := inserted;
      assert Ledger() == next;
      r := Ok(|leases| - 1);
    }

    method ExpireLease(id: nat) returns (r: Outcome<(), L.Refusal>)
      requires Valid(Ledger())
      modifies this
      ensures Valid(Ledger())
      ensures var a := L.ExpireLease(old(Ledger()), id);
              Ledger() == a.After(old(Ledger())) && r == a.Outcome()
    {
      StepKeepsValid(Ledger(), L.OpExpire(id));
      if id >= |leases| {
        return Err(L.RowMissing);
      }
      if leases[id].state.Open() {
        leases := leases[id := L.SetState(leases[id], L.Expired)];
      }
      r := Ok(());
    }

    method ExhaustLease(id: nat) returns (r: Outcome<(), L.Refusal>)
      requires Valid(Ledger())
      modifies this
      ensures Valid(Ledger())
      ensures var a := L.ExhaustLease(old(Ledger()), id);
              Ledger() == a.After(old(Ledger())) && r == a.Outcome()
    {
      StepKeepsValid(Ledger(), L.OpExhaust(id));
      if id >= |leases| {
        return Err(L.RowMissing);
      }
      var updated := leases[id := L.SetState(leases[id], L.Exhausted)];
      if !L.OneOpen(updated) {
        return Err(L.IndexViolated);
      }
      leases := updated;
      r := Ok(());
    }

    /** Pausing the leases of a quarantined session, row by row. */
    method PauseUsable()
      requires Valid(Ledger())
      modifies this
      ensures Valid(Ledger())
      ensures Ledger() == L.PauseUsable(old(Ledger())).state
    {
      PauseKeepsValid(Ledger());
      var before := leases;
      var i := 0;
      while i < |before|
        invariant 0 <= i <= |before| == |leases| && events == old(events)
        invariant forall k | 0 <= k < i ::
                    leases[k] == if before[k].state.Usable() then L.SetState(before[k], L.Paused) else before[k]
        invariant forall k | i <= k < |before| :: leases[k] == before[k]
      {
        if leases[i].state.Usable() {
          leases := leases[i := L.SetState(leases[i], L.Paused)];
        }
        i := i + 1;
      }
      assert leases == L.PauseUsable(old(Ledger())).state.leases;
    }

    method CreateReservation(q: L.Request, percent: nat, now: nat) returns (r: Outcome<nat, L.Refusal>)
      requires Valid(Ledger())
      modifies this
      ensures Valid(Ledger())
      ensures var a := L.CreateReservation(old(Ledger()), q, percent, now);
              Ledger() == a.After(old(Ledger())) && r == a.Outcome()
    {
      ReserveKeepsValid(Ledger(), q, percent, now);
      var existing := L.FindRequest(events, q.id);
      if existing.Some? {
        if events[existing.value].value.status == L.Reserved {
          return Ok(existing.value);
        }
        return Err(L.RequestIdUsed);
      }
      var current := L.Current(leases);
      if current.None? {
        return Err(L.NoLease);
      }
      var c := current.value;
      var lease := leases[c];
      if !lease.state.Usable() {
        return Err(L.LeaseNotUsable);
      }
      if now >= lease.expiresAt {
        return Err(L.LeaseExpired);
      }
      var over := L.OverCeiling(lease.balance, q, lease.limits);
      if over.Some? {
        return Err(over.value);
      }
      var turn := lease.balance.turns + 1;
      if L.TurnTaken(L.State(leases, events), c, turn) {
        return Err(L.IndexViolated);
      }
      events := events + [Some(L.Event(c, q, turn, L.Reserved, Usage(0, 0, 0, 0, 0), 0))];
      var b := L.Hold(lease.balance, q).(turns := turn);
      var warn := L.AtWarning(b.actualInput + b.heldInput, b.actualOutput + b.heldOutput,
                              b.actualDollars + b.heldDollars, turn, lease.limits, percent);
      leases := leases[c := L.SetState(lease.(balance := b), if warn then L.Warning else lease.state)];
      r := Ok(|events| - 1);
    }

    method SettleReservation(id: nat, report: Option<Report>, percent: nat) returns (r: Outcome<L.Event, L.Refusal>)
      requires Valid(Ledger())
      modifies this
      ensures Valid(Ledger())
      ensures var a := L.Settle(old(Ledger()), id, report, percent);
              Ledger() == a.After(old(Ledger())) && r == a.Outcome()
    {
      SettleKeepsValid(Ledger(), id, report, percent);
      if id >= |events| || events[id].None? {
        return Err(L.RowMissing);
      }
      var e := events[id].value;
      var verdict := L.Verdict(e, report);
      if verdict.None? {
        return Err(L.NegativeUsage);
      }
      if !e.status.Held() {
        return Ok(e);
      }
      var (u, cost, status) := verdict.value;
      var lease := leases[e.lease];
      var state := L.StateAfterSettlement(lease, u, cost, percent, status == L.ProviderOverage);
      var b := L.Spend(L.Unhold(lease.balance, e.request), u, cost);
      var updated := leases[e.lease := L.SetState(lease.(balance := b), state)];
      if !L.OneOpen(updated) {
        return Err(L.IndexViolated);
      }
      leases := updated;
      events := events[id := Some(e.(status := status, usage := u, cost := cost))];
      r := Ok(events[id].value);
    }

    method ReleaseReservation(id: nat) returns (r: Outcome<(), L.Refusal>)
      requires Valid(Ledger())
      modifies this
      ensures Valid(Ledger())
      ensures var a := L.ReleaseReservation(old(Ledger()), id);
              Ledger() == a.After(old(Ledger())) && r == a.Outcome()
    {
      ReleaseKeepsValid(Ledger(), id);
      if id >= |events| || events[id].None? {
        return Ok(());
      }
      var e := events[id].value;
      if e.status != L.Reserved {
        return Err(L.NotReserved);
      }
      var lease := leases[e.lease];
      var b := L.Unhold(lease.balance, e.request).(turns := L.Less(lease.balance.turns, 1));
      var state := if lease.state == L.Warning then L.Active else lease.state;
      leases := leases[e.lease := L.SetState(lease.(balance := b), state)];
      events := events[id := None];
      r := Ok(());
    }

    method MarkReservationUncertain(id: nat) returns (r: Outcome<L.Event, L.Refusal>)
      requires Valid(Ledger())
      modifies this
      ensures Valid(Ledger())
      ensures var a := L.MarkUncertain(old(Ledger()), id);
              Ledger() == a.After(old(Ledger())) && r == a.Outcome()
    {
      MarkKeepsValid(Ledger(), id);
      if id >= |events| || events[id].None? {
        return Err(L.RowMissing);
      }
      var e := events[id].value;
      if e.status == L.Reserved {
        var updated := leases[e.lease := L.SetState(leases[e.lease], L.Paused)];
        if !L.OneOpen(updated) {
          return Err(L.IndexViolated);
        }
        e := e.(status := L.UncertainSpend);
        events := events[id := Some(e)];
        leases := updated;
      }
      r := Ok(e);
    }

    /** Whichever transaction another caller asks for. */
    method Perform(op: L.Op)
      requires Valid(Ledger())
      modifies this
      ensures Valid(Ledger()) && Ledger() == L.Step(old(Ledger()), op)
    {
      match op
      case OpCreateLease(limits, now) => var _ := CreateLease(limits, now);
      case OpUpgrade(limits, now) => var _ := UpgradeLease(limits, now);
      case OpExpire(id) => var _ := ExpireLease(id);
      case OpExhaust(id) => var _ := ExhaustLease(id);
      case OpPauseUsable => PauseUsable();
      case OpReserve(q, percent, now) => var _ := CreateReservation(q, percent, now);
      case OpSettle(id, report, percent) => var _ := SettleReservation(id, report, percent);
      case OpRelease(id) => var _ := ReleaseReservation(id);
      case OpMarkUncertain(id) => var _ := MarkReservationUncertain(id);
    }

    /** Any run of transactions by other callers. */
    method PerformAll(ops: seq<L.Op>)
      requires Valid(Ledger())
      modifies this
      ensures Valid(Ledger()) && Ledger() == L.Run(old(Ledger()), ops)
    {
      for i := 0 to |ops|
        invariant Valid(Ledger()) && Ledger() == L.Run(old(Ledger()), ops[..i])
      {
        Perform(ops[i]);
        assert ops[..i + 1][..i] == ops[..i];
      }
      assert ops[..|ops|] == ops;
    }
  }

  class BuildBudgetService {
    const store: BuildStore

    constructor (store: BuildStore)
      ensures this.store == store
    {
      this.store := store;
    }

    method Reserve(ask: B.Ask, desk: B.Desk) returns (r: B.Reply<nat>)
      requires Valid(store.Ledger())
      modifies store
      ensures Valid(store.Ledger())
      ensures (store.Ledger(), r) == B.ReserveTurn(old(store.Ledger()), ask, desk)
    {
      var denial := B.Check(ask, desk);
      if denial.Some? {
        return B.Declined(denial.value);
      }
      var outcome := store.CreateReservation(B.Priced(ask, desk.prices), desk.percent, desk.now);
      match outcome
      case Ok(id) => r := B.Granted(id);
      case Err(error) =>
        r := B.Declined(B.ByLedger(error));
        var current := L.Current(store.leases);
        if current.Some? && store.leases[current.value].state.Usable() {
          if error == L.LeaseExpired {
            var _ := store.ExpireLease(current.value);
          } else if error in {L.OverInput, L.OverOutput, L.OverDollars, L.OverTurns} {
            var _ := store.ExhaustLease(current.value);
          }
        }
    }

    method Preflight(desk: B.Desk) returns (r: B.Reply<nat>)
      requires Valid(store.Ledger())
      modifies store
      ensures Valid(store.Ledger())
      ensures (store.Ledger(), r) == B.Preflight(old(store.Ledger()), desk)
    {
      if !desk.upToDate {
        return B.Declined(B.PricesStale);
      }
      var current := L.Current(store.leases);
      if current.None? {
        return B.Declined(B.ByLedger(L.NoLease));
      }
      var lease := store.leases[current.value];
      if !lease.state.Usable() {
        return B.Declined(B.ByLedger(L.LeaseNotUsable));
      }
      if desk.now >= lease.expiresAt {
        var _ := store.ExpireLease(current.value);
        return B.Declined(B.ByLedger(L.LeaseExpired));
      }
      r := B.Granted(current.value);
    }

    method MarkUncertain(id: nat, reason: string) returns (r: B.Reply<L.Event>)
      requires Valid(store.Ledger())
      modifies store
      ensures Valid(store.Ledger())
      ensures (store.Ledger(), r) == B.MarkTurnUncertain(old(store.Ledger()), id, reason)
    {
      if T.Blank(reason) {
        return B.Declined(B.ReasonBlank);
      }
      var outcome := store.MarkReservationUncertain(id);
      match outcome
      case Ok(e) => r := B.Granted(e);
      case Err(error) => r := B.Declined(B.ByLedger(error));
    }
  }

  class AnthropicBuildModelClient {
    const budget: BuildBudgetService

    constructor (budget: BuildBudgetService)
      ensures this.budget == budget
    {
      this.budget := budget;
    }

    /** One paid turn: reserve, send, and settle, release or hold. `early` and `desk` are what the
        preflight and the reserve find, `egress` is the authorization's answer,
        `others` what other callers do to the ledger between the call's own transactions. */
    method Chat(early: B.Desk, ask: B.Ask, desk: B.Desk, egress: bool, others: B.Meanwhile, provider: B.Provider)
      requires Valid(budget.store.Ledger())
      modifies budget.store
      ensures Valid(budget.store.Ledger())
      ensures budget.store.Ledger() == B.Chat(old(budget.store.Ledger()), early, ask, desk, egress, others, provider)
    {
      var store := budget.store;
      var pre := budget.Preflight(early);
      if pre.Declined? || !egress {
        return;
      }
      store.PerformAll(others.beforeReserve);
      var reply := budget.Reserve(ask, desk);
      if reply.Declined? {
        return;
      }
      store.PerformAll(others.beforeClose);
      CloseTurn(reply.value, provider, desk.percent, others.beforeMark);
    }

    /** Closing the reservation, whatever the provider did. */
    method CloseTurn(id: nat, provider: B.Provider, percent: nat, beforeMark: seq<L.Op>)
      requires Valid(budget.store.Ledger())
      modifies budget.store
      ensures Valid(budget.store.Ledger())
      ensures budget.store.Ledger() == B.CloseTurn(old(budget.store.Ledger()), id, provider, percent, beforeMark)
    {
      var store := budget.store;
      match provider
      case NotStarted => var _ := store.ReleaseReservation(id);
      case StreamFailed(text) => var _ := budget.MarkUncertain(id, text);
      case Unreadable | Aborted =>
      case Answered(report) =>
        var settled := store.SettleReservation(id, report, percent);
        if settled.Err? {
          store.PerformAll(beforeMark);
          var _ := store.MarkReservationUncertain(id);
        }
    }
  }
}
