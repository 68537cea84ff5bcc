/**
 The paid-lease ledger of one build session, as a state and one function for each transaction.

 A lease row holds four ceilings and seven balances; a usage event row is one paid turn, reserved
 before it is sent and later settled, released or held as uncertain. Row ids are positions: leases
 are never deleted, and a deleted event leaves a gap because ids are never reused.

 The database enforces three unique indexes that a transaction can run into: at most one
 open lease, one lease per version, and one event per (lease, turn number).
*/
module Ledger {
  import opened Basics
  import opened Pricing

  datatype Limits = Limits(input: nat, output: nat, dollars: nat, turns: nat, duration: nat) {
    function Plus(more: Limits): Limits {
      Limits(input + more.input, output + more.output, dollars + more.dollars,
             turns + more.turns, more.duration)
    }
  }

  datatype LeaseState = Active | Warning | Paused | Exhausted | Expired | Denied | Superseded {
    /** The states under which a lease is its session's current one. */
    predicate Open() {
      Active? || Warning? || Paused? || Exhausted?
    }

    /** The states under which turns may be reserved. */
    predicate Usable() {
      Active? || Warning?
    }
  }

  datatype Balance = Balance(
    actualInput: nat, actualOutput: nat, actualDollars: nat,
    heldInput: nat, heldOutput: nat, heldDollars: nat,
    turns: nat)
  {
    function Plus(b: Balance): Balance {
      Balance(actualInput + b.actualInput, actualOutput + b.actualOutput, actualDollars + b.actualDollars,
              heldInput + b.heldInput, heldOutput + b.heldOutput, heldDollars + b.heldDollars,
              turns + b.turns)
    }
  }

  function Nothing(): Balance {
    Balance(0, 0, 0, 0, 0, 0, 0)
  }

  /** `version`, `limits`, `state`, `balance` and `expiresAt` are the stored columns.
      `granted`, `opening` and `upgrade` are history for the proofs: what was approved for this row, and
      the balances and manner of its insertion. No transaction reads them. */
  datatype Lease = Lease(
    version: nat, limits: Limits, state: LeaseState, balance: Balance, expiresAt: nat,
    granted: Limits, opening: Balance, upgrade: bool)

  datatype EventStatus = Reserved | UncertainSpend | Settled | ConservativeSettlement | ProviderOverage {
    predicate Held() {
      Reserved? || UncertainSpend?
    }
  }

  /** What is asked for when a turn is reserved. */
  datatype Request = Request(
    id: string, inputUpper: nat, maxOutput: nat, cost: nat, mode: CacheMode, pricing: Snapshot)

  datatype Event = Event(lease: nat, request: Request, turn: nat, status: EventStatus, usage: Usage, cost: nat)

  datatype State = State(leases: seq<Lease>, events: seq<Option<Event>>)

  function Empty(): State {
    State([], [])
  }

  datatype Refusal =
    | NoLease | LeaseNotUsable | LeaseExpired
    | OverInput | OverOutput | OverDollars | OverTurns
    | RequestIdUsed | RowMissing | NotReserved | NegativeUsage
    | IndexViolated

  type Attempt<T> = Basics.Attempt<State, T, Refusal>

  // ---- indexes and lookups ---------------------------------------------------------------------

  predicate OneOpen(leases: seq<Lease>) {
    forall i, j | 0 <= i < j < |leases| :: !(leases[i].state.Open() && leases[j].state.Open())
  }

  predicate DistinctVersions(leases: seq<Lease>) {
    forall i, j | 0 <= i < j < |leases| :: leases[i].version != leases[j].version
  }

  predicate HasEvent(s: State, id: nat) {
    id < |s.events| && s.events[id].Some?
  }

  predicate TurnTaken(s: State, lease: nat, turn: nat) {
    exists i :: 0 <= i < |s.events| && s.events[i].Some?
                && s.events[i].value.lease == lease && s.events[i].value.turn == turn
  }

  /** Among the first `n` leases, the open one with the highest version. */
  function CurrentUpTo(leases: seq<Lease>, n: nat): (r: Option<nat>)
    requires n <= |leases|
    ensures r.Some? ==> r.value < n && leases[r.value].state.Open()
    ensures r.None? <==> forall i | 0 <= i < n :: !leases[i].state.Open()
    ensures r.Some? ==> forall i | 0 <= i < n && leases[i].state.Open() :: leases[i].version <= leases[r.value].version
  {
    if n == 0 then None
    else
      var r := CurrentUpTo(leases, n - 1);
      if leases[n - 1].state.Open() && (r.None? || leases[r.value].version < leases[n - 1].version) then Some(n - 1)
      else r
  }

  function Current(leases: seq<Lease>): (r: Option<nat>)
    ensures r.Some? ==> r.value < |leases| && leases[r.value].state.Open()
    ensures r.None? <==> forall i | 0 <= i < |leases| :: !leases[i].state.Open()
  {
    CurrentUpTo(leases, |leases|)
  }

  function MaxVersion(leases: seq<Lease>, n: nat): nat
    requires n <= |leases|
  {
    if n == 0 then 0
    else
      var m := MaxVersion(leases, n - 1);
      if leases[n - 1].version > m then leases[n - 1].version else m
  }

  /** Among the first `n` rows, the event with this request id. */
  function FindRequestUpTo(events: seq<Option<Event>>, id: string, n: nat): (r: Option<nat>)
    requires n <= |events|
    ensures r.Some? ==> r.value < n && events[r.value].Some? && events[r.value].value.request.id == id
    ensures r.None? <==> forall i | 0 <= i < n && events[i].Some? :: events[i].value.request.id != id
  {
    if n == 0 then None
    else if events[n - 1].Some? && events[n - 1].value.request.id == id then Some(n - 1)
    else FindRequestUpTo(events, id, n - 1)
  }

  function FindRequest(events: seq<Option<Event>>, id: string): (r: Option<nat>)
    ensures r.Some? ==> r.value < |events| && events[r.value].Some? && events[r.value].value.request.id == id
    ensures r.None? <==> forall i | 0 <= i < |events| && events[i].Some? :: events[i].value.request.id != id
  {
    FindRequestUpTo(events, id, |events|)
  }

  // ---- balances --------------------------------------------------------------------------------

  /** The clamped subtraction of the update statements. */
  function Less(a: nat, b: nat): nat {
    if b <= a then a - b else 0
  }

  function Hold(b: Balance, r: Request): Balance {
    b.(heldInput := b.heldInput + r.inputUpper,
       heldOutput := b.heldOutput + r.maxOutput,
       heldDollars := b.heldDollars + r.cost)
  }

  function Unhold(b: Balance, r: Request): Balance {
    b.(heldInput := Less(b.heldInput, r.inputUpper),
       heldOutput := Less(b.heldOutput, r.maxOutput),
       heldDollars := Less(b.heldDollars, r.cost))
  }

  function Spend(b: Balance, u: Usage, cost: nat): Balance {
    b.(actualInput := b.actualInput + u.TotalInput(),
       actualOutput := b.actualOutput + u.output,
       actualDollars := b.actualDollars + cost)
  }

  /** Whether totals have reached the warning percentage of any ceiling. */
  predicate AtWarning(input: nat, output: nat, dollars: nat, turns: nat, l: Limits, percent: nat) {
    || input * 100 >= l.input * percent
    || output * 100 >= l.output * percent
    || dollars * 100 >= l.dollars * percent
    || turns * 100 >= l.turns * percent
  }

  function SetState(lease: Lease, state: LeaseState): Lease {
    lease.(state := state)
  }

  // ---- lease transactions ----------------------------------------------------------------------

  function CreateLease(s: State, limits: Limits, now: nat): Attempt<nat> {
    var lease := Lease(MaxVersion(s.leases, |s.leases|) + 1, limits, Active, Nothing(), now + limits.duration,
                       limits, Nothing(), false);
    var leases := s.leases + [lease];
    if !OneOpen(leases) || !DistinctVersions(leases) then Refused(IndexViolated)
    else Done(s.(leases := leases), |s.leases|)
  }

  /** The row that an upgrade inserts: cumulative ceilings and the balances of the prior lease. */
  function UpgradedLease(prior: Lease, additional: Limits, now: nat): Lease {
    Lease(prior.version + 1, prior.limits.Plus(additional), Active, prior.balance,
          now + additional.duration, additional, prior.balance, true)
  }

  /** Supersedes the current lease by its upgrade. */
  function UpgradeLease(s: State, additional: Limits, now: nat): Attempt<nat> {
    match Current(s.leases)
    case None => Refused(NoLease)
    case Some(c) =>
      var prior := s.leases[c];
      var lease := UpgradedLease(prior, additional, now);
      var leases := s.leases[c := SetState(prior, Superseded)] + [lease];
      if !OneOpen(leases) || !DistinctVersions(leases) then Refused(IndexViolated)
      else Done(s.(leases := leases), |s.leases|)
  }

  function ExpireLease(s: State, id: nat): Attempt<()> {
    if id >= |s.leases| then Refused(RowMissing)
    else if !s.leases[id].state.Open() then Done(s, ())
    else Done(s.(leases := s.leases[id := SetState(s.leases[id], Expired)]), ())
  }

  /** Sets the state whatever it was, which can run into the open-lease index. */
  function ExhaustLease(s: State, id: nat): Attempt<()> {
    if id >= |s.leases| then Refused(RowMissing)
    else
      var leases := s.leases[id := SetState(s.leases[id], Exhausted)];
      if !OneOpen(leases) then Refused(IndexViolated) else Done(s.(leases := leases), ())
  }

  /** The lease part of quarantining a session: every usable lease is paused. */
  function PauseUsable(s: State): Attempt<()> {
    Done(s.(leases := seq(|s.leases|, i requires 0 <= i < |s.leases| =>
      if s.leases[i].state.Usable() then SetState(s.leases[i], Paused) else s.leases[i])), ())
  }

  // ---- event transactions ----------------------------------------------------------------------

  function OverCeiling(b: Balance, r: Request, l: Limits): Option<Refusal> {
    if b.actualInput + b.heldInput + r.inputUpper > l.input then Some(OverInput)
    else if b.actualOutput + b.heldOutput + r.maxOutput > l.output then Some(OverOutput)
    else if b.actualDollars + b.heldDollars + r.cost > l.dollars then Some(OverDollars)
    else if b.turns + 1 > l.turns then Some(OverTurns)
    else None
  }

  function CreateReservation(s: State, r: Request, percent: nat, now: nat): Attempt<nat> {
    var existing := FindRequest(s.events, r.id);
    if existing.Some? then
      if s.events[existing.value].value.status == Reserved then Done(s, existing.value)
      else Refused(RequestIdUsed)
    else
      match Current(s.leases)
      case None => Refused(NoLease)
      case Some(c) =>
        var lease := s.leases[c];
        if !lease.state.Usable() then Refused(LeaseNotUsable)
        else if now >= lease.expiresAt then Refused(LeaseExpired)
        else if OverCeiling(lease.balance, r, lease.limits).Some? then
          Refused(OverCeiling(lease.balance, r, lease.limits).value)
        else
          var turn := lease.balance.turns + 1;
          if TurnTaken(s, c, turn) then Refused(IndexViolated)
          else
            var b := Hold(lease.balance, r).(turns := turn);
            var state :=
              if AtWarning(b.actualInput + b.heldInput, b.actualOutput + b.heldOutput,
                           b.actualDollars + b.heldDollars, turn, lease.limits, percent) then Warning
              else lease.state;
            var event := Event(c, r, turn, Reserved, Usage(0, 0, 0, 0, 0), 0);
            Done(State(s.leases[c := SetState(lease.(balance := b), state)], s.events + [Some(event)]),
                 |s.events|)
  }

  function StateAfterSettlement(lease: Lease, u: Usage, cost: nat, percent: nat, pause: bool): LeaseState {
    var b := lease.balance;
    if pause then Paused
    else if lease.state != Paused
            && AtWarning(b.actualInput + u.TotalInput(), b.actualOutput + u.output,
                         b.actualDollars + cost, b.turns, lease.limits, percent) then Warning
    else lease.state
  }

  function SettleReservation(s: State, id: nat, u: Usage, cost: nat, status: EventStatus,
                             percent: nat, pause: bool): Attempt<Event> {
    if !HasEvent(s, id) then Refused(RowMissing)
    else
      var e := s.events[id].value;
      if !e.status.Held() then Done(s, e)
      else if e.lease >= |s.leases| then Refused(RowMissing)
      else
        var lease := s.leases[e.lease];
        var settled := e.(status := status, usage := u, cost := cost);
        var state := StateAfterSettlement(lease, u, cost, percent, pause);
        var b := Spend(Unhold(lease.balance, e.request), u, cost);
        var leases := s.leases[e.lease := SetState(lease.(balance := b), state)];
        if !OneOpen(leases) then Refused(IndexViolated)
        else Done(State(leases, s.events[id := Some(settled)]), settled)
  }

  /** The usage, cost and status that the budget service settles a reservation with. */
  function Verdict(e: Event, report: Option<Report>): Option<(Usage, nat, EventStatus)> {
    match report
    case None =>
      Some((Usage(e.request.inputUpper, 0, 0, 0, e.request.maxOutput), e.request.cost, ConservativeSettlement))
    case Some(r) =>
      match Validate(r)
      case None => None
      case Some(u) =>
        var cost := UsageCost(e.request.pricing, u);
        var over := || u.TotalInput() > e.request.inputUpper
                    || u.output > e.request.maxOutput
                    || cost > e.request.cost;
        Some((u, cost, if over then ProviderOverage else Settled))
  }

  /** Settling as the budget service does it. It reads columns of the reservation that never change,
      so the separate read and write act as one transaction. */
  function Settle(s: State, id: nat, report: Option<Report>, percent: nat): Attempt<Event> {
    if !HasEvent(s, id) then Refused(RowMissing)
    else
      match Verdict(s.events[id].value, report)
      case None => Refused(NegativeUsage)
      case Some((u, cost, status)) =>
        SettleReservation(s, id, u, cost, status, percent, status == ProviderOverage)
  }

  function ReleaseReservation(s: State, id: nat): Attempt<()> {
    if !HasEvent(s, id) then Done(s, ())
    else
      var e := s.events[id].value;
      if e.status != Reserved then Refused(NotReserved)
      else if e.lease >= |s.leases| then Done(s.(events := s.events[id := None]), ())
      else
        var lease := s.leases[e.lease];
        var b := Unhold(lease.balance, e.request).(turns := Less(lease.balance.turns, 1));
        var state := if lease.state == Warning then Active else lease.state;
        Done(State(s.leases[e.lease := SetState(lease.(balance := b), state)], s.events[id := None]), ())
  }

  function MarkUncertain(s: State, id: nat): Attempt<Event> {
    if !HasEvent(s, id) then Refused(RowMissing)
    else
      var e := s.events[id].value;
      if e.status != Reserved then Done(s, e)
      else
        var marked := e.(status := UncertainSpend);
        if e.lease >= |s.leases| then Done(s.(events := s.events[id := Some(marked)]), marked)
        else
          var leases := s.leases[e.lease := SetState(s.leases[e.lease], Paused)];
          if !OneOpen(leases) then Refused(IndexViolated)
          else Done(State(leases, s.events[id := Some(marked)]), marked)
  }

  // ---- runs ------------------------------------------------------------------------------------

  /** One transaction with its arguments. */
  datatype Op =
    | OpCreateLease(limits: Limits, now: nat)
    | OpUpgrade(limits: Limits, now: nat)
    | OpExpire(lease: nat)
    | OpExhaust(lease: nat)
    | OpPauseUsable
    | OpReserve(request: Request, percent: nat, now: nat)
    | OpSettle(id: nat, report: Option<Report>, percent: nat)
    | OpRelease(id: nat)
    | OpMarkUncertain(id: nat)

  function Step(s: State, op: Op): State {
    match op
    case OpCreateLease(limits, now) => CreateLease(s, limits, now).After(s)
    case OpUpgrade(limits, now) => UpgradeLease(s, limits, now).After(s)
    case OpExpire(id) => ExpireLease(s, id).After(s)
    case OpExhaust(id) => ExhaustLease(s, id).After(s)
    case OpPauseUsable => PauseUsable(s).After(s)
    case OpReserve(r, percent, now) => CreateReservation(s, r, percent, now).After(s)
    case OpSettle(id, report, percent) => Settle(s, id, report, percent).After(s)
    case OpRelease(id) => ReleaseReservation(s, id).After(s)
    case OpMarkUncertain(id) => MarkUncertain(s, id).After(s)
  }

  /** Any interleaving of transactions, from any callers. */
  function Run(s: State, ops: seq<Op>): State {
    if |ops| == 0 then s else Step(Run(s, ops[..|ops| - 1]), ops[|ops| - 1])
  }

  lemma {:induction false} RunConcat(s: State, a: seq<Op>, b: seq<Op>)
    ensures Run(s, a + b) == Run(Run(s, a), b)
  {
    if |b| == 0 {
      assert a + b == a;
    } else {
      RunConcat(s, a, b[..|b| - 1]);
      assert (a + b)[..|a + b| - 1] == a + b[..|b| - 1];
    }
  }
}
