/**
 The budget service and the paid chat call, as functions on the ledger.

 A service call is one or two ledger transactions. The service refuses stale prices and empty bounds
 before it touches the ledger, and closes the current lease after some refusals.
*/
module Budget {
  import opened Basics
  import opened Pricing
  import opened Ledger
  import opened LedgerInvariants
  import opened Charging
  import opened Text

  datatype Denial = PricesStale | InputBoundInvalid | OutputBoundInvalid | RequestIdBlank | ReasonBlank
                  | ByLedger(error: Refusal)

  datatype Reply<+T> = Granted(value: T) | Declined(denial: Denial)

  /** A turn as a caller asks for it. Bounds are unchecked and the request id is already trimmed. */
  datatype Ask = Ask(id: string, inputUpper: int, maxOutput: int, mode: CacheMode)

  /** What the service holds fixed during a call. */
  datatype Desk = Desk(prices: Snapshot, upToDate: bool, percent: nat, now: nat)

  function Priced(ask: Ask, prices: Snapshot): Request
    requires ask.inputUpper > 0 && ask.maxOutput > 0
  {
    Request(ask.id, ask.inputUpper, ask.maxOutput,
            ReservedCost(prices, ask.mode, ask.inputUpper, ask.maxOutput), ask.mode, prices)
  }

  function Check(ask: Ask, desk: Desk): Option<Denial> {
    if !desk.upToDate then Some(PricesStale)
    else if ask.inputUpper <= 0 then Some(InputBoundInvalid)
    else if ask.maxOutput <= 0 then Some(OutputBoundInvalid)
    else if ask.id == "" then Some(RequestIdBlank)
    else None
  }

  /** A refusal for want of room exhausts the current lease, a refusal for lateness expires it. */
  function CloseAfter(s: State, error: Refusal): State {
    match Current(s.leases)
    case None => s
    case Some(c) =>
      if !s.leases[c].state.Usable() then s
      else
        match error
        case LeaseExpired => ExpireLease(s, c).After(s)
        case OverInput | OverOutput | OverDollars | OverTurns => ExhaustLease(s, c).After(s)
        case NoLease | LeaseNotUsable | RequestIdUsed | RowMissing | NotReserved | NegativeUsage | IndexViolated => s
  }

  function ReserveTurn(s: State, ask: Ask, desk: Desk): (State, Reply<nat>) {
    if Check(ask, desk).Some? then (s, Declined(Check(ask, desk).value))
    else
      match CreateReservation(s, Priced(ask, desk.prices), desk.percent, desk.now)
      case Done(t, id) => (t, Granted(id))
      case Refused(error) => (CloseAfter(s, error), Declined(ByLedger(error)))
  }

  function Preflight(s: State, desk: Desk): (State, Reply<nat>) {
    if !desk.upToDate then (s, Declined(PricesStale))
    else
      match Current(s.leases)
      case None => (s, Declined(ByLedger(NoLease)))
      case Some(c) =>
        if !s.leases[c].state.Usable() then (s, Declined(ByLedger(LeaseNotUsable)))
        else if desk.now >= s.leases[c].expiresAt then
          (ExpireLease(s, c).After(s), Declined(ByLedger(LeaseExpired)))
        else (s, Granted(c))
  }

  function Answer<T>(a: Ledger.Attempt<T>, s: State): (State, Reply<T>) {
    match a
    case Done(t, value) => (t, Granted(value))
    case Refused(error) => (s, Declined(ByLedger(error)))
  }

  function MarkTurnUncertain(s: State, id: nat, reason: string): (State, Reply<Event>) {
    if Blank(reason) then (s, Declined(ReasonBlank)) else Answer(MarkUncertain(s, id), s)
  }

  // ---- sequences of service calls --------------------------------------------------------------

  datatype Call =
    | CallReserve(ask: Ask, desk: Desk)
    | CallSettle(id: nat, report: Option<Report>, percent: nat)
    | CallRelease(id: nat)
    | CallMarkUncertain(id: nat, reason: string)
    | CallPreflight(desk: Desk)

  function Serve(s: State, call: Call): State {
    match call
    case CallReserve(ask, desk) => ReserveTurn(s, ask, desk).0
    case CallSettle(id, report, percent) => Settle(s, id, report, percent).After(s)
    case CallRelease(id) => ReleaseReservation(s, id).After(s)
    case CallMarkUncertain(id, reason) => MarkTurnUncertain(s, id, reason).0
    case CallPreflight(desk) => Preflight(s, desk).0
  }

  function ServeAll(s: State, calls: seq<Call>): State {
    if |calls| == 0 then s else Serve(ServeAll(s, calls[..|calls| - 1]), calls[|calls| - 1])
  }

  /** The ledger transactions that a call performs. */
  function Transactions(s: State, call: Call): seq<Op> {
    match call
    case CallReserve(ask, desk) =>
      if Check(ask, desk).Some? then []
      else
        var reserve := OpReserve(Priced(ask, desk.prices), desk.percent, desk.now);
        var c := Current(s.leases);
        var a := CreateReservation(s, reserve.request, desk.percent, desk.now);
        if a.Done? || c.None? || !s.leases[c.value].state.Usable() then [reserve]
        else if a.error == LeaseExpired then [reserve, OpExpire(c.value)]
        else if a.error in {OverInput, OverOutput, OverDollars, OverTurns} then [reserve, OpExhaust(c.value)]
        else [reserve]
    case CallSettle(id, report, percent) => [OpSettle(id, report, percent)]
    case CallRelease(id) => [OpRelease(id)]
    case CallMarkUncertain(id, reason) => if Blank(reason) then [] else [OpMarkUncertain(id)]
    case CallPreflight(desk) =>
      var c := Current(s.leases);
      if desk.upToDate && c.Some? && s.leases[c.value].state.Usable() && desk.now >= s.leases[c.value].expiresAt then
        [OpExpire(c.value)]
      else []
  }

  lemma RunOne(s: State, a: Op)
    ensures Run(s, [a]) == Step(s, a)
  {
    assert [a][..0] == [];
  }

  lemma RunTwo(s: State, a: Op, b: Op)
    ensures Run(s, [a, b]) == Step(Step(s, a), b)
  {
    assert [a, b][..1] == [a];
    RunOne(s, a);
  }

  /** Every service call is a run of ledger transactions, so all whole-run laws apply to it. */
  lemma ServeIsRun(s: State, call: Call)
    ensures Serve(s, call) == Run(s, Transactions(s, call))
  {
    match call
    case CallReserve(ask, desk) => ReserveTurnIsRun(s, ask, desk);
    case CallSettle(id, report, percent) => RunOne(s, OpSettle(id, report, percent));
    case CallRelease(id) => RunOne(s, OpRelease(id));
    case CallMarkUncertain(id, _) => RunOne(s, OpMarkUncertain(id));
    case CallPreflight(_) =>
      var c := Current(s.leases);
      if c.Some? {
        RunOne(s, OpExpire(c.value));
      }
  }

  lemma ReserveTurnIsRun(s: State, ask: Ask, desk: Desk)
    ensures ReserveTurn(s, ask, desk).0 == Run(s, Transactions(s, CallReserve(ask, desk)))
  {
    if Check(ask, desk).None? {
      var reserve := OpReserve(Priced(ask, desk.prices), desk.percent, desk.now);
      var c := Current(s.leases);
      RunOne(s, reserve);
      if c.Some? {
        RunTwo(s, reserve, OpExpire(c.value));
        RunTwo(s, reserve, OpExhaust(c.value));
      }
    }
  }

  lemma {:induction false} ServeAllIsReachable(s: State, calls: seq<Call>) returns (ops: seq<Op>)
    ensures ServeAll(s, calls) == Run(s, ops)
  {
    if |calls| == 0 {
      ops := [];
    } else {
      var before := ServeAllIsReachable(s, calls[..|calls| - 1]);
      var mid, call := ServeAll(s, calls[..|calls| - 1]), calls[|calls| - 1];
      ServeIsRun(mid, call);
      ops := before + Transactions(mid, call);
      RunConcat(s, before, Transactions(mid, call));
    }
  }

  // ---- a pause holds until an upgrade ----------------------------------------------------------

  ghost predicate PausedAt(s: State, c: nat) {
    Valid(s) && c < |s.leases| && s.leases[c].state == Paused
  }

  /** A step that leaves lease `c` paused and inserts no row of either kind. */
  ghost predicate KeepsPause(s: State, t: State, c: nat) {
    PausedAt(t, c) && |t.events| == |s.events| && |t.leases| == |s.leases|
  }

  /** The transactions that end the pause of lease `c`, the only open one: expiring it, exhausting it, or
      upgrading it, which is possible if it is the newest. */
  predicate EndsPause(c: nat, newest: int, op: Op) {
    op == OpExpire(c) || op == OpExhaust(c) || (op.OpUpgrade? && c == newest)
  }

  lemma UpgradeEndsPauseExactly(s: State, c: nat, more: Limits, now: nat)
    requires PausedAt(s, c)
    ensures !KeepsPause(s, UpgradeLease(s, more, now).After(s), c) <==> c == |s.leases| - 1
  {
    assert Current(s.leases) == Some(c);
    UpgradeTakesNewest(s, more, now);
    UpgradeKeepsValid(s, more, now);
  }

  lemma NoNewLeaseWhilePaused(s: State, c: nat, limits: Limits, now: nat)
    requires PausedAt(s, c)
    ensures CreateLease(s, limits, now).Refused?
  {
    var version := MaxVersion(s.leases, |s.leases|) + 1;
    var rows := s.leases + [Lease(version, limits, Active, Nothing(), now + limits.duration, limits, Nothing(), false)];
    assert rows[c].state.Open() && rows[|s.leases|].state.Open();
  }

  lemma SettleKeepsPause(s: State, c: nat, id: nat, report: Option<Report>, percent: nat)
    requires PausedAt(s, c)
    ensures KeepsPause(s, Settle(s, id, report, percent).After(s), c)
  {
    SettleKeepsValid(s, id, report, percent);
  }

  lemma ReleaseKeepsPause(s: State, c: nat, id: nat)
    requires PausedAt(s, c)
    ensures KeepsPause(s, ReleaseReservation(s, id).After(s), c)
  {
    ReleaseKeepsValid(s, id);
  }

  lemma MarkKeepsPause(s: State, c: nat, id: nat)
    requires PausedAt(s, c)
    ensures KeepsPause(s, MarkUncertain(s, id).After(s), c)
  {
    MarkKeepsValid(s, id);
  }

  lemma ReserveKeepsPause(s: State, c: nat, r: Request, percent: nat, now: nat)
    requires PausedAt(s, c)
    ensures CreateReservation(s, r, percent, now).After(s) == s
  {
    assert Current(s.leases) == Some(c);
  }

  lemma ClosingKeepsPauseExactly(s: State, c: nat, op: Op)
    requires PausedAt(s, c) && (op.OpExpire? || op.OpExhaust?)
    ensures !KeepsPause(s, Step(s, op), c) <==> op.lease == c
  {
    StepKeepsValid(s, op);
  }

  /** Each transaction keeps the pause and inserts nothing, except exactly those. */
  lemma PauseEndsExactly(s: State, c: nat, op: Op)
    requires PausedAt(s, c)
    ensures !KeepsPause(s, Step(s, op), c) <==> EndsPause(c, |s.leases| - 1, op)
  {
    match op
    case OpCreateLease(limits, now) => NoNewLeaseWhilePaused(s, c, limits, now);
    case OpUpgrade(limits, now) => UpgradeEndsPauseExactly(s, c, limits, now);
    case OpExpire(_) => ClosingKeepsPauseExactly(s, c, op);
    case OpExhaust(_) => ClosingKeepsPauseExactly(s, c, op);
    case OpPauseUsable => PauseKeepsValid(s);
    case OpReserve(r, percent, now) => ReserveKeepsPause(s, c, r, percent, now);
    case OpSettle(id, report, percent) => SettleKeepsPause(s, c, id, report, percent);
    case OpRelease(id) => ReleaseKeepsPause(s, c, id);
    case OpMarkUncertain(id) => MarkKeepsPause(s, c, id);
  }

  /** The pause of lease `c` holds after the run and after each beginning of it, and no turn is inserted. */
  ghost predicate PauseLasts(s: State, c: nat, ops: seq<Op>) {
    KeepsPause(s, Run(s, ops), c) && (|ops| > 0 ==> PauseLasts(s, c, ops[..|ops| - 1]))
  }

  lemma PauseEndsNextExactly(s: State, mid: State, c: nat, op: Op)
    requires KeepsPause(s, mid, c)
    ensures KeepsPause(s, Step(mid, op), c) <==> !EndsPause(c, |s.leases| - 1, op)
  {
    PauseEndsExactly(mid, c, op);
  }

  /** None of the transactions ends the pause of lease `c`. */
  predicate NoneEndsPause(c: nat, newest: int, ops: seq<Op>) {
    forall i | 0 <= i < |ops| :: !EndsPause(c, newest, ops[i])
  }

  lemma NoneEndsPauseOneMore(c: nat, newest: int, ops: seq<Op>)
    requires |ops| > 0
    ensures NoneEndsPause(c, newest, ops) <==>
            NoneEndsPause(c, newest, ops[..|ops| - 1]) && !EndsPause(c, newest, ops[|ops| - 1])
  {
  }

  /** Under any interleaving of transactions, a pause lasts exactly if none of them is an upgrade of the
      lease, its expiry or its exhaustion. */
  lemma {:induction false} PauseLastsExactly(s: State, c: nat, ops: seq<Op>)
    requires PausedAt(s, c)
    ensures PauseLasts(s, c, ops) <==> NoneEndsPause(c, |s.leases| - 1, ops)
    decreases |ops|
  {
    if |ops| > 0 {
      var before := ops[..|ops| - 1];
      NoneEndsPauseOneMore(c, |s.leases| - 1, ops);
      PauseLastsExactly(s, c, before);
      if PauseLasts(s, c, before) {
        PauseEndsNextExactly(s, Run(s, before), c, ops[|ops| - 1]);
      }
    }
  }

  /** No service call makes one of those transactions while the current lease is paused. */
  lemma CallKeepsPause(s: State, c: nat, call: Call)
    requires PausedAt(s, c)
    ensures KeepsPause(s, Serve(s, call), c)
  {
    var ops := Transactions(s, call);
    assert Current(s.leases) == Some(c);
    ServeIsRun(s, call);
    PauseLastsExactly(s, c, ops);
  }

  /** No sequence of service calls reserves a turn while the current lease is paused. */
  lemma {:induction false} PauseHolds(s: State, c: nat, calls: seq<Call>)
    requires PausedAt(s, c)
    ensures PausedAt(ServeAll(s, calls), c) && |ServeAll(s, calls).events| == |s.events|
  {
    if |calls| > 0 {
      PauseHolds(s, c, calls[..|calls| - 1]);
      CallKeepsPause(ServeAll(s, calls[..|calls| - 1]), c, calls[|calls| - 1]);
    }
  }

  /** After a settlement above its reservation, the session reserves no turn by service calls. */
  lemma OveragePausesUntilUpgrade(s: State, id: nat, report: Option<Report>, percent: nat, calls: seq<Call>)
    requires Valid(s) && HasEvent(s, id) && s.events[id].value.status.Held()
    requires Settle(s, id, report, percent).Done?
    requires Settle(s, id, report, percent).value.status == ProviderOverage
    ensures var t := Settle(s, id, report, percent).state;
            && s.events[id].value.lease < |ServeAll(t, calls).leases|
            && ServeAll(t, calls).leases[s.events[id].value.lease].state == Paused
            && |ServeAll(t, calls).events| == |t.events|
  {
    SettleKeepsValid(s, id, report, percent);
    PauseHolds(Settle(s, id, report, percent).state, s.events[id].value.lease, calls);
  }

  /** After a turn is marked uncertain, the session reserves no turn by service calls. */
  lemma UncertaintyPausesUntilUpgrade(s: State, id: nat, calls: seq<Call>)
    requires Valid(s) && HasEvent(s, id) && s.events[id].value.status == Reserved && MarkUncertain(s, id).Done?
    ensures var t := MarkUncertain(s, id).state;
            && s.events[id].value.lease < |ServeAll(t, calls).leases|
            && ServeAll(t, calls).leases[s.events[id].value.lease].state == Paused
            && |ServeAll(t, calls).events| == |t.events|
  {
    MarkKeepsValid(s, id);
    PauseHolds(MarkUncertain(s, id).state, s.events[id].value.lease, calls);
  }

  // ---- the paid chat call ----------------------------------------------------------------------

  /** How a call goes on after the reservation, at each point where it can fail. An answer may report usage
      that cannot be read as numbers; that is found out outside all handlers. `Aborted` stands for an
      exception that no handler catches, or the end of the process, before the close is written. */
  datatype Provider =
    | NotStarted
    | StreamFailed(text: string)
    | Unreadable
    | Answered(report: Option<Report>)
    | Aborted

  /** Closing the reservation once the provider has acted. A settlement that fails is held as uncertain in
      a second transaction, after what others do in between, under a reason text that starts with a fixed
      phrase and so is never blank. */
  function CloseTurn(s: State, id: nat, provider: Provider, percent: nat, between: seq<Op>): State {
    match provider
    case NotStarted => ReleaseReservation(s, id).After(s)
    case StreamFailed(text) => MarkTurnUncertain(s, id, text).0
    case Unreadable | Aborted => s
    case Answered(report) =>
      match Settle(s, id, report, percent)
      case Done(t, _) => t
      case Refused(_) => MarkUncertain(Run(s, between), id).After(Run(s, between))
  }

  predicate LeftReserved(s: State, id: nat) {
    HasEvent(s, id) && s.events[id].value.status == Reserved
  }

  /** Another lease is open although the event's own lease is closed: the founder upgraded in between. */
  predicate Overtaken(s: State, id: nat)
    requires HasEvent(s, id) && s.events[id].value.lease < |s.leases|
  {
    !s.leases[s.events[id].value.lease].state.Open() && Current(s.leases).Some?
  }

  /** Whether settling would reopen the event's lease, by pausing it or by moving it to warning. */
  predicate Reopens(s: State, id: nat, report: Option<Report>, percent: nat)
    requires HasEvent(s, id) && s.events[id].value.lease < |s.leases|
  {
    var v := Verdict(s.events[id].value, report);
    v.None? || StateAfterSettlement(s.leases[s.events[id].value.lease], v.value.0, v.value.1, percent,
                                    v.value.2 == ProviderOverage).Open()
  }

  lemma OpeningSecondLease(leases: seq<Lease>, l: nat, lease: Lease)
    requires OneOpen(leases) && l < |leases|
    ensures OneOpen(leases[l := lease]) <==>
            !(lease.state.Open() && !leases[l].state.Open() && Current(leases).Some?)
  {
    var rows := leases[l := lease];
    if lease.state.Open() && !leases[l].state.Open() && Current(leases).Some? {
      assert rows[l].state.Open() && rows[Current(leases).value].state.Open();
    }
  }

  lemma MarkClosesExactly(s: State, id: nat)
    requires Valid(s) && LeftReserved(s, id)
    ensures LeftReserved(MarkUncertain(s, id).After(s), id) <==> Overtaken(s, id)
  {
    var l := s.events[id].value.lease;
    OpeningSecondLease(s.leases, l, SetState(s.leases[l], Paused));
  }

  /** The settlement of a reserved turn is refused. */
  predicate SettlementFails(s: State, id: nat, report: Option<Report>, percent: nat)
    requires HasEvent(s, id) && s.events[id].value.lease < |s.leases|
  {
    Verdict(s.events[id].value, report).None? || (Overtaken(s, id) && Reopens(s, id, report, percent))
  }

  lemma SettleClosesExactly(s: State, id: nat, report: Option<Report>, percent: nat)
    requires Valid(s) && LeftReserved(s, id)
    ensures Settle(s, id, report, percent).Refused? <==> SettlementFails(s, id, report, percent)
    ensures Settle(s, id, report, percent).Done? ==>
            !LeftReserved(Settle(s, id, report, percent).state, id)
  {
    var l := s.events[id].value.lease;
    var a := Verdict(s.events[id].value, report);
    if a.Some? {
      var (u, cost, status) := a.value;
      var lease := s.leases[l];
      var b := Spend(Unhold(lease.balance, s.events[id].value.request), u, cost);
      var state := StateAfterSettlement(lease, u, cost, percent, status == ProviderOverage);
      OpeningSecondLease(s.leases, l, SetState(lease.(balance := b), state));
    }
  }

  /** When a chat call leaves its reservation merely reserved. A stream that never started never does so; a
      failed stream does if the error text is blank or the lease was overtaken; an answer whose usage cannot
      be read always does; any other answer does if its settlement is refused and the lease is overtaken by
      the time the turn is to be marked, the row being still reserved. */
  lemma ChatLeavesReservedExactly(s: State, id: nat, provider: Provider, percent: nat, between: seq<Op>)
    requires Valid(s) && LeftReserved(s, id)
    ensures LeftReserved(CloseTurn(s, id, provider, percent, between), id) <==>
            match provider
            case NotStarted => false
            case StreamFailed(text) => Blank(text) || Overtaken(s, id)
            case Unreadable | Aborted => true
            case Answered(report) =>
              && SettlementFails(s, id, report, percent)
              && var u := Run(s, between);
                 LeftReserved(u, id) && u.events[id].value.lease < |u.leases| && Overtaken(u, id)
  {
    match provider
    case NotStarted =>
    case StreamFailed(text) => MarkClosesExactly(s, id);
    case Unreadable | Aborted =>
    case Answered(report) =>
      SettleClosesExactly(s, id, report, percent);
      var u := Run(s, between);
      RunKeepsValid(s, between);
      if LeftReserved(u, id) {
        MarkClosesExactly(u, id);
      }
  }

  /** Two turns that stay merely reserved although no upgrade overtakes their settlement: any whose usage
      cannot be read, and any with a negative count if the founder upgrades just before it is marked. */
  lemma UnreadableLeavesReserved(s: State, id: nat, percent: nat, between: seq<Op>)
    requires Valid(s) && LeftReserved(s, id)
    ensures CloseTurn(s, id, Unreadable, percent, between) == s
    ensures LeftReserved(CloseTurn(s, id, Unreadable, percent, between), id)
  {
    ChatLeavesReservedExactly(s, id, Unreadable, percent, between);
  }

  lemma UpgradeBeforeMarkLeavesReserved(s: State, id: nat, r: Report, percent: nat, more: Limits, now: nat)
    requires Valid(s) && LeftReserved(s, id) && Validate(r).None?
    requires s.events[id].value.lease == |s.leases| - 1 && s.leases[|s.leases| - 1].state.Open()
    ensures !Overtaken(s, id)
    ensures LeftReserved(CloseTurn(s, id, Answered(Some(r)), percent, [OpUpgrade(more, now)]), id)
  {
    var u := Step(s, OpUpgrade(more, now));
    RunOne(s, OpUpgrade(more, now));
    UpgradeTakesNewest(s, more, now);
    assert u.leases[|s.leases|].state.Open();
    ChatLeavesReservedExactly(s, id, Answered(Some(r)), percent, [OpUpgrade(more, now)]);
  }

  /** What others do to the ledger in the course of a call. */
  datatype Meanwhile = Meanwhile(beforeReserve: seq<Op>, beforeClose: seq<Op>, beforeMark: seq<Op>)

  function Nobody(): Meanwhile {
    Meanwhile([], [], [])
  }

  /** A chat call. Other callers' transactions may come between its own. The clock is read, and the prices are
      looked at, for the preflight and again for the reserve. */
  function Chat(
      s: State, early: Desk, ask: Ask, desk: Desk, egress: bool, others: Meanwhile, provider: Provider): State
  {
    var (ready, pre) := Preflight(s, early);
    if pre.Declined? || !egress then ready
    else
      var (reserved, reply) := ReserveTurn(Run(ready, others.beforeReserve), ask, desk);
      match reply
      case Declined(_) => reserved
      case Granted(id) => CloseTurn(Run(reserved, others.beforeClose), id, provider, desk.percent, others.beforeMark)
  }

  /** The row that a call reserved, once the call has ended. */
  ghost predicate Closed(s: State, t: State, ask: Ask, desk: Desk, provider: Provider)
    requires ask.inputUpper > 0 && ask.maxOutput > 0
  {
    var id := |s.events|;
    && |t.events| == id + 1 && t.events[..id] == s.events
    && |t.leases| == |s.leases|
    && match t.events[id]
       case None =>
         provider == NotStarted && forall l | 0 <= l < |s.leases| :: t.leases[l].balance == s.leases[l].balance
       case Some(e) =>
         && e.request == Priced(ask, desk.prices) && e.lease < |s.leases|
         && match provider
            case NotStarted | Unreadable | Aborted => false
            case StreamFailed(_) => HeldUncertain(s, t, e)
            case Answered(report) =>
              match Verdict(e, report)
              case None => HeldUncertain(s, t, e)
              case Some((u, cost, status)) => SettledAt(s, t, e, u, cost, status)
  }

  predicate SameOtherBalances(s: State, t: State, lease: nat) {
    && |t.leases| == |s.leases|
    && forall l | 0 <= l < |s.leases| && l != lease :: t.leases[l].balance == s.leases[l].balance
  }

  /** The turn is uncertain: its bounds are held, and its lease is paused. */
  ghost predicate HeldUncertain(s: State, t: State, e: Event)
    requires e.lease < |s.leases|
  {
    var b := s.leases[e.lease].balance;
    && e.status == UncertainSpend && SameOtherBalances(s, t, e.lease)
    && t.leases[e.lease].state == Paused
    && t.leases[e.lease].balance == Hold(b, e.request).(turns := b.turns + 1)
  }

  /** The turn is settled: what it used is spent, and nothing of it is held any more. */
  ghost predicate SettledAt(s: State, t: State, e: Event, u: Usage, cost: nat, status: EventStatus)
    requires e.lease < |s.leases|
  {
    var b := s.leases[e.lease].balance;
    && e.status == status && e.usage == u && e.cost == cost && SameOtherBalances(s, t, e.lease)
    && t.leases[e.lease].balance == Spend(b, u, cost).(turns := b.turns + 1)
  }

  lemma NotStartedCloses(s: State, mid: State, ask: Ask, desk: Desk)
    requires Valid(s) && FindRequest(s.events, ask.id).None? && Check(ask, desk).None?
    requires CreateReservation(s, Priced(ask, desk.prices), desk.percent, desk.now) == Done(mid, |s.events|)
    ensures Closed(s, CloseTurn(mid, |s.events|, NotStarted, desk.percent, []), ask, desk, NotStarted)
  {
    ReleaseUndoesReserve(s, Priced(ask, desk.prices), desk.percent, desk.now);
  }

  lemma UncertainCloses(s: State, mid: State, ask: Ask, desk: Desk, provider: Provider)
    requires Valid(mid) && FindRequest(s.events, ask.id).None? && Check(ask, desk).None?
    requires CreateReservation(s, Priced(ask, desk.prices), desk.percent, desk.now) == Done(mid, |s.events|)
    requires provider.StreamFailed?
             || (provider.Answered? && Verdict(mid.events[|s.events|].value, provider.report).None?)
    ensures Closed(s, MarkUncertain(mid, |s.events|).After(mid), ask, desk, provider)
  {
    MarkClosesExactly(mid, |s.events|);
  }

  lemma AnsweredCloses(s: State, mid: State, ask: Ask, desk: Desk, report: Option<Report>)
    requires Valid(mid) && FindRequest(s.events, ask.id).None? && Check(ask, desk).None?
    requires CreateReservation(s, Priced(ask, desk.prices), desk.percent, desk.now) == Done(mid, |s.events|)
    requires Verdict(mid.events[|s.events|].value, report).Some?
    ensures Closed(s, CloseTurn(mid, |s.events|, Answered(report), desk.percent, []), ask, desk, Answered(report))
  {
    SettleClosesExactly(mid, |s.events|, report, desk.percent);
  }

  lemma AnswerCloses(s: State, mid: State, ask: Ask, desk: Desk, report: Option<Report>)
    requires Valid(mid) && FindRequest(s.events, ask.id).None? && Check(ask, desk).None?
    requires CreateReservation(s, Priced(ask, desk.prices), desk.percent, desk.now) == Done(mid, |s.events|)
    ensures Closed(s, CloseTurn(mid, |s.events|, Answered(report), desk.percent, []), ask, desk, Answered(report))
  {
    if Verdict(mid.events[|s.events|].value, report).Some? {
      AnsweredCloses(s, mid, ask, desk, report);
    } else {
      UncertainCloses(s, mid, ask, desk, Answered(report));
    }
  }

  /** The call closes its reservation: no exception passes its handlers and the error text is not blank. */
  predicate Closes(provider: Provider) {
    !provider.Unreadable? && !provider.Aborted? && (provider.StreamFailed? ==> !Blank(provider.text))
  }

  /** The row that a call reserved is merely reserved when it has ended. */
  ghost predicate Abandoned(s: State, t: State, ask: Ask, desk: Desk)
    requires ask.inputUpper > 0 && ask.maxOutput > 0
  {
    var id := |s.events|;
    && |t.events| == id + 1 && t.events[..id] == s.events && LeftReserved(t, id)
    && var e := t.events[id].value;
       && e.request == Priced(ask, desk.prices) && e.lease < |s.leases| && SameOtherBalances(s, t, e.lease)
       && var b := s.leases[e.lease].balance;
          t.leases[e.lease].balance == Hold(b, e.request).(turns := b.turns + 1)
  }

  /** How a call ends that reserved a turn. */
  ghost predicate Ends(s: State, t: State, ask: Ask, desk: Desk, provider: Provider)
    requires ask.inputUpper > 0 && ask.maxOutput > 0
  {
    if Closes(provider) then Closed(s, t, ask, desk, provider) else Abandoned(s, t, ask, desk)
  }

  lemma AbandonedStays(s: State, mid: State, ask: Ask, desk: Desk, provider: Provider)
    requires FindRequest(s.events, ask.id).None? && Check(ask, desk).None?
    requires CreateReservation(s, Priced(ask, desk.prices), desk.percent, desk.now) == Done(mid, |s.events|)
    requires !Closes(provider)
    ensures Ends(s, CloseTurn(mid, |s.events|, provider, desk.percent, []), ask, desk, provider)
  {
  }

  lemma StreamCloses(s: State, mid: State, ask: Ask, desk: Desk, text: string)
    requires Valid(mid) && FindRequest(s.events, ask.id).None? && Check(ask, desk).None?
    requires CreateReservation(s, Priced(ask, desk.prices), desk.percent, desk.now) == Done(mid, |s.events|)
    requires !Blank(text)
    ensures Closed(s, CloseTurn(mid, |s.events|, StreamFailed(text), desk.percent, []), ask, desk, StreamFailed(text))
  {
    UncertainCloses(s, mid, ask, desk, StreamFailed(text));
  }

  lemma TurnCloses(s: State, mid: State, ask: Ask, desk: Desk, provider: Provider)
    requires Valid(s) && FindRequest(s.events, ask.id).None? && Check(ask, desk).None?
    requires CreateReservation(s, Priced(ask, desk.prices), desk.percent, desk.now) == Done(mid, |s.events|)
    ensures Ends(s, CloseTurn(mid, |s.events|, provider, desk.percent, []), ask, desk, provider)
  {
    ReserveKeepsValid(s, Priced(ask, desk.prices), desk.percent, desk.now);
    if !Closes(provider) {
      AbandonedStays(s, mid, ask, desk, provider);
    } else {
      match provider
      case NotStarted => NotStartedCloses(s, mid, ask, desk);
      case StreamFailed(text) => StreamCloses(s, mid, ask, desk, text);
      case Answered(report) => AnswerCloses(s, mid, ask, desk, report);
    }
  }

  /** The call was declined: no row was inserted and no balance changed. */
  ghost predicate NothingCharged(s: State, t: State) {
    && t.events == s.events && |t.leases| == |s.leases|
    && forall l | 0 <= l < |s.leases| :: t.leases[l].balance == s.leases[l].balance
  }

  lemma DeclinedChargesNothing(s: State, ask: Ask, desk: Desk)
    requires ReserveTurn(s, ask, desk).1.Declined?
    ensures NothingCharged(s, ReserveTurn(s, ask, desk).0)
  {
  }

  lemma ReservedTurnCloses(s: State, ask: Ask, desk: Desk, provider: Provider)
    requires Valid(s) && FindRequest(s.events, ask.id).None?
    requires ReserveTurn(s, ask, desk).1.Granted?
    ensures Check(ask, desk).None?
    ensures var (mid, reply) := ReserveTurn(s, ask, desk);
            var t := CloseTurn(mid, reply.value, provider, desk.percent, []);
            Ends(s, t, ask, desk, provider)
  {
    var mid := CreateReservation(s, Priced(ask, desk.prices), desk.percent, desk.now).state;
    TurnCloses(s, mid, ask, desk, provider);
  }

  /** What becomes of a call that no other transaction disturbs, with a new request id. It is declined and
      charges nothing. Or else, if no exception passes its handlers and the error text is not blank, it ends
      with the balances it found and no row if the stream never started, with one uncertain row that is held
      under a paused lease if the stream failed or a count is negative, or with one settled row, its usage
      and cost spent; and if not, its row is left merely reserved. */
  lemma UndisturbedChatCloses(s: State, early: Desk, ask: Ask, desk: Desk, egress: bool, provider: Provider)
    requires Valid(s) && FindRequest(s.events, ask.id).None?
    ensures var t := Chat(s, early, ask, desk, egress, Nobody(), provider);
            || NothingCharged(s, t)
            || (Check(ask, desk).None? && Ends(s, t, ask, desk, provider))
  {
    var (ready, pre) := Preflight(s, early);
    if pre.Granted? && egress {
      if ReserveTurn(s, ask, desk).1.Granted? {
        ReservedTurnCloses(s, ask, desk, provider);
      } else {
        DeclinedChargesNothing(s, ask, desk);
      }
    }
  }
}
