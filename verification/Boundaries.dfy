/** Runs of the service that show where the ledger's guarantees end. */
module Boundaries {
  import opened Basics
  import opened Pricing
  import opened Ledger
  import opened LedgerInvariants
  import opened Budget
  import Bound = SpendBound

  // ---- what the founder and the service do -----------------------------------------------------

  /** The founder approves a lease or an upgrade, or a caller makes a whole service call. */
  datatype Deed = Approval(op: Op) | Service(call: Call)

  function Do(s: State, deed: Deed): State {
    match deed
    case Approval(op) => Step(s, op)
    case Service(call) => Serve(s, call)
  }

  function DoAll(deeds: seq<Deed>): State {
    if |deeds| == 0 then Empty() else Do(DoAll(deeds[..|deeds| - 1]), deeds[|deeds| - 1])
  }

  /** So all laws of runs apply. */
  lemma {:induction false} DoAllIsRun(deeds: seq<Deed>) returns (ops: seq<Op>)
    ensures DoAll(deeds) == Run(Empty(), ops)
  {
    if |deeds| == 0 {
      ops := [];
    } else {
      var before := DoAllIsRun(deeds[..|deeds| - 1]);
      var s, deed := DoAll(deeds[..|deeds| - 1]), deeds[|deeds| - 1];
      var last := if deed.Approval? then [deed.op] else Transactions(s, deed.call);
      if deed.Approval? {
        RunOne(s, deed.op);
      } else {
        ServeIsRun(s, deed.call);
      }
      ops := before + last;
      RunConcat(Empty(), before, last);
    }
  }

  lemma Then(before: seq<Deed>, s: State, deed: Deed, t: State)
    requires DoAll(before) == s && Do(s, deed) == t
    ensures DoAll(before + [deed]) == t
  {
    assert (before + [deed])[..|before|] == before;
  }

  // ---- amounts ---------------------------------------------------------------------------------

  /** One microdollar for each token. */
  function Prices(): Snapshot {
    Snapshot(1.0, 1.0, 1.0, 1.0, 1.0)
  }

  lemma {:induction false} UnitPrice(n: nat)
    ensures Price(n, 1.0) == n as real
  {
    if n > 0 {
      UnitPrice(n - 1);
    }
  }

  function DeskAt(now: nat): Desk {
    Desk(Prices(), true, 80, now)
  }

  function AskFor(id: string, n: nat): Ask {
    Ask(id, n, n, NoCache)
  }

  function Turn(id: string, n: nat): Request {
    Request(id, n, n, 2 * n, NoCache, Prices())
  }

  /** `n` tokens each way, as the service prices them. */
  lemma TurnIsPriced(id: string, n: nat)
    requires n > 0
    ensures Priced(AskFor(id, n), Prices()) == Turn(id, n)
  {
    UnitPrice(n);
  }

  function Balanced(spent: nat, held: nat, turns: nat): Balance {
    Balance(spent, spent, 2 * spent, held, held, 2 * held, turns)
  }

  function Tier(n: nat, duration: nat): Limits {
    Limits(n, n, 2 * n, 10, duration)
  }

  function Open(lease: nat, id: string, n: nat, turn: nat): Option<Event> {
    Some(Event(lease, Turn(id, n), turn, Reserved, Usage(0, 0, 0, 0, 0), 0))
  }

  function Charged(lease: nat, id: string, n: nat, turn: nat): Option<Event> {
    Some(Event(lease, Turn(id, n), turn, ConservativeSettlement, Usage(n, 0, 0, 0, n), 2 * n))
  }

  // ---- single deeds ----------------------------------------------------------------------------

  /** A turn that reaches the warning threshold is reserved. */
  lemma Reserves(s: State, c: nat, id: string, n: nat, now: nat)
    requires c < |s.leases| && OneOpen(s.leases) && s.leases[c].state.Usable() && now < s.leases[c].expiresAt
    requires n > 0 && id != ""
    requires forall i | 0 <= i < |s.events| && s.events[i].Some? ::
               && s.events[i].value.request.id != id
               && (s.events[i].value.lease == c ==> s.events[i].value.turn <= s.leases[c].balance.turns)
    requires var b, l := s.leases[c].balance, s.leases[c].limits;
             && OverCeiling(b, Turn(id, n), l).None?
             && l.input * 80 <= (b.actualInput + b.heldInput + n) * 100
    ensures var b := s.leases[c].balance;
            Do(s, Service(CallReserve(AskFor(id, n), DeskAt(now)))) ==
            State(s.leases[c := s.leases[c].(balance := Hold(b, Turn(id, n)).(turns := b.turns + 1), state := Warning)],
                  s.events + [Open(c, id, n, b.turns + 1)])
  {
    TurnIsPriced(id, n);
    assert Current(s.leases) == Some(c);
    assert FindRequest(s.events, id) == None;
  }

  /** A turn without reported usage is settled at its bounds, which moves its lease to warning. */
  lemma Settles(s: State, k: nat, lease: nat, id: string, n: nat, turn: nat)
    requires k < |s.events| && s.events[k] == Open(lease, id, n, turn) && lease < |s.leases|
    requires forall i | 0 <= i < |s.leases| && i != lease :: !s.leases[i].state.Open()
    requires var b, l := s.leases[lease].balance, s.leases[lease].limits;
             && s.leases[lease].state != Paused
             && l.input * 80 <= (b.actualInput + n) * 100
    ensures var b := s.leases[lease].balance;
            Do(s, Service(CallSettle(k, None, 80))) ==
            State(s.leases[lease := s.leases[lease].(
                    balance := Spend(Unhold(b, Turn(id, n)), Usage(n, 0, 0, 0, n), 2 * n), state := Warning)],
                  s.events[k := Charged(lease, id, n, turn)])
  {
  }

  // ---- a chain that lapsed ---------------------------------------------------------------------

  /** The first lease lasts four hours. */
  function First(state: LeaseState, b: Balance): Lease {
    Lease(1, Tier(100, 14400), state, b, 14400, Tier(100, 14400), Nothing(), false)
  }

  /** The lease that supersedes it lasts two. */
  function Second(state: LeaseState, b: Balance): Lease {
    Lease(2, Tier(100, 14400).Plus(Tier(100, 7200)), state, b, 7200, Tier(100, 7200), Balanced(0, 80, 1), true)
  }

  function Both(first: LeaseState, a: Balance, second: LeaseState, b: Balance, events: seq<Option<Event>>): State {
    State([First(first, a), Second(second, b)], events)
  }

  function Approve(): Deed {
    Approval(OpCreateLease(Tier(100, 14400), 0))
  }

  function Upgrade(): Deed {
    Approval(OpUpgrade(Tier(100, 7200), 0))
  }

  function Reserve(id: string, n: nat, now: nat): Deed {
    Service(CallReserve(AskFor(id, n), DeskAt(now)))
  }

  function Opened(): seq<Deed> {
    [Approve()] + [Reserve("A", 80, 0)]
  }

  function Upgraded(): seq<Deed> {
    Opened() + [Upgrade()] + [Reserve("B", 120, 0)]
  }

  /** After two hours the second lease is found to be late, and the open turn of the first is settled. */
  function Reopened(): seq<Deed> {
    Upgraded() + [Service(CallPreflight(DeskAt(7200)))] + [Service(CallSettle(0, None, 80))]
  }

  lemma ReservesFirst(s: State)
    requires s == State([First(Active, Balanced(0, 0, 0))], [])
    ensures Do(s, Reserve("A", 80, 0)) == State([First(Warning, Balanced(0, 80, 1))], [Open(0, "A", 80, 1)])
  {
    Reserves(s, 0, "A", 80, 0);
  }

  lemma OpenedEnds()
    ensures DoAll(Opened()) == State([First(Warning, Balanced(0, 80, 1))], [Open(0, "A", 80, 1)])
  {
    var s := State([First(Active, Balanced(0, 0, 0))], []);
    Then([], Empty(), Approve(), s);
    ReservesFirst(s);
    Then([Approve()], s, Reserve("A", 80, 0), Do(s, Reserve("A", 80, 0)));
  }

  lemma Upgrades(s: State)
    requires s.leases == [First(Warning, Balanced(0, 80, 1))]
    ensures Do(s, Upgrade()) == Both(Superseded, Balanced(0, 80, 1), Active, Balanced(0, 80, 1), s.events)
  {
    assert Current(s.leases) == Some(0);
  }

  lemma ReservesSecond(s: State)
    requires s == Both(Superseded, Balanced(0, 80, 1), Active, Balanced(0, 80, 1), [Open(0, "A", 80, 1)])
    ensures Do(s, Reserve("B", 120, 0)) == Both(Superseded, Balanced(0, 80, 1), Warning, Balanced(0, 200, 2),
                                                [Open(0, "A", 80, 1), Open(1, "B", 120, 2)])
  {
    Reserves(s, 1, "B", 120, 0);
  }

  lemma UpgradedEnds()
    ensures DoAll(Upgraded()) == Both(Superseded, Balanced(0, 80, 1), Warning, Balanced(0, 200, 2),
                                      [Open(0, "A", 80, 1), Open(1, "B", 120, 2)])
  {
    OpenedEnds();
    var s := Do(DoAll(Opened()), Upgrade());
    Upgrades(DoAll(Opened()));
    Then(Opened(), DoAll(Opened()), Upgrade(), s);
    ReservesSecond(s);
    Then(Opened() + [Upgrade()], s, Reserve("B", 120, 0), Do(s, Reserve("B", 120, 0)));
  }

  lemma Expires(s: State, a: Balance, b: Balance, events: seq<Option<Event>>)
    requires s == Both(Superseded, a, Warning, b, events)
    ensures Serve(s, CallPreflight(DeskAt(7200))) == Both(Superseded, a, Expired, b, events)
  {
    assert Current(s.leases) == Some(1);
  }

  lemma SettlesFirst(s: State)
    requires s == Both(Superseded, Balanced(0, 80, 1), Expired, Balanced(0, 200, 2),
                       [Open(0, "A", 80, 1), Open(1, "B", 120, 2)])
    ensures Do(s, Service(CallSettle(0, None, 80))) == Both(Warning, Balanced(80, 0, 1), Expired, Balanced(0, 200, 2),
                                                            [Charged(0, "A", 80, 1), Open(1, "B", 120, 2)])
  {
    Settles(s, 0, 0, "A", 80, 1);
  }

  lemma ReopenedEnds()
    ensures DoAll(Reopened()) == Both(Warning, Balanced(80, 0, 1), Expired, Balanced(0, 200, 2),
                                      [Charged(0, "A", 80, 1), Open(1, "B", 120, 2)])
  {
    UpgradedEnds();
    var events := [Open(0, "A", 80, 1), Open(1, "B", 120, 2)];
    var s := Both(Superseded, Balanced(0, 80, 1), Expired, Balanced(0, 200, 2), events);
    Expires(DoAll(Upgraded()), Balanced(0, 80, 1), Balanced(0, 200, 2), events);
    Then(Upgraded(), DoAll(Upgraded()), Service(CallPreflight(DeskAt(7200))), s);
    SettlesFirst(s);
    Then(Upgraded() + [Service(CallPreflight(DeskAt(7200)))], s, Service(CallSettle(0, None, 80)),
         Do(s, Service(CallSettle(0, None, 80))));
  }

  lemma ReservesThird(s: State)
    requires s == Both(Warning, Balanced(80, 0, 1), Expired, Balanced(0, 200, 2),
                       [Charged(0, "A", 80, 1), Open(1, "B", 120, 2)])
    ensures Do(s, Reserve("C", 20, 7200))
         == Both(Warning, Balanced(80, 20, 2), Expired, Balanced(0, 200, 2),
                 [Charged(0, "A", 80, 1), Open(1, "B", 120, 2), Open(0, "C", 20, 2)])
  {
    Reserves(s, 0, "C", 20, 7200);
  }

  lemma ExceededEnds()
    ensures DoAll(Reopened() + [Reserve("C", 20, 7200)])
         == Both(Warning, Balanced(80, 20, 2), Expired, Balanced(0, 200, 2),
                 [Charged(0, "A", 80, 1), Open(1, "B", 120, 2), Open(0, "C", 20, 2)])
  {
    var s := DoAll(Reopened());
    ReopenedEnds();
    ReservesThird(s);
    Then(Reopened(), s, Reserve("C", 20, 7200), Do(s, Reserve("C", 20, 7200)));
  }

  lemma {:induction false} NoneOver(s: State, n: nat)
    requires n < |s.leases|
    requires forall k | 0 <= k < |s.events| && s.events[k].Some? :: s.events[k].value.status != ProviderOverage
    ensures Bound.NoOverage(s, n)
  {
    if Bound.Extends(s, n) {
      NoneOver(s, n - 1);
    }
  }

  /** A chain of two leases, without overages, that has committed more dollars than were approved. */
  ghost predicate Exceeds(s: State, n: nat)
    requires n < |s.leases|
  {
    && Bound.Extends(s, n) && Bound.NoOverage(s, n)
    && Bound.ChainCommitted(s, n).dollars == 440 && Bound.ChainApproved(s, n).dollars == 400
  }

  /** By conservation, the balances tell what the events add up to. */
  lemma Totals(s: State, first: nat, second: nat)
    requires Valid(s) && first == 0 && second == 1
    requires s.leases == [First(Warning, Balanced(80, 20, 2)), Second(Expired, Balanced(0, 200, 2))]
    ensures Bound.Extends(s, second)
    ensures Bound.ChainCommitted(s, second).dollars == 440 && Bound.ChainApproved(s, second).dollars == 400
  {
    assert !Bound.Extends(s, first) && Bound.Extends(s, second);
    assert s.leases[first].balance == s.leases[first].opening.Plus(Charges(s.events, first));
    assert s.leases[second].balance == s.leases[second].opening.Plus(Charges(s.events, second));
    assert Bound.ChainCommitted(s, second)
        == Bound.Committed(Charges(s.events, first)).Plus(Bound.Committed(Charges(s.events, second)));
    assert Bound.ChainApproved(s, second)
        == Bound.Ceiling(s.leases[first].granted).Plus(Bound.Ceiling(s.leases[second].granted));
  }

  lemma ExceedsInAll(s: State, first: nat, second: nat)
    requires Valid(s) && first == 0 && second == 1
    requires s == Both(Warning, Balanced(80, 20, 2), Expired, Balanced(0, 200, 2),
                       [Charged(first, "A", 80, 1), Open(second, "B", 120, 2), Open(first, "C", 20, 2)])
    ensures |s.leases| == 2 && Exceeds(s, second)
  {
    NoneOver(s, second);
    Totals(s, first, second);
  }

  /** By approvals and service calls at times that do not fall: after the second lease has expired and before
      the first would have, a late settlement moves the superseded first lease back to warning, and that
      grants a turn beyond the sum of the approvals, with no settlement above its reservation. */
  lemma LapsedChainExceedsApprovals()
    ensures var s := DoAll(Reopened() + [Reserve("C", 20, 7200)]); |s.leases| == 2 && Exceeds(s, 1)
  {
    var deeds := Reopened() + [Reserve("C", 20, 7200)];
    var ops := DoAllIsRun(deeds);
    RunKeepsValid(Empty(), ops);
    ExceededEnds();
    ExceedsInAll(DoAll(deeds), 0, 1);
  }

  // ---- a pause between two transactions of one call --------------------------------------------

  ghost predicate FindsNoRoom(s: State, ask: Ask, desk: Desk)
    requires Check(ask, desk).None?
  {
    var a := CreateReservation(s, Priced(ask, desk.prices), desk.percent, desk.now);
    a.Refused? && a.error in {OverInput, OverOutput, OverDollars, OverTurns}
  }

  /** Under lease `c`, turn `id` is open and a settlement of turn `k` would reach the warning threshold. */
  predicate TurnsRace(s: State, c: nat, id: nat, k: nat, report: Option<Report>, percent: nat)
    requires c < |s.leases|
  {
    && LeftReserved(s, id) && s.events[id].value.lease == c
    && k != id && HasEvent(s, k) && s.events[k].value.status.Held() && s.events[k].value.lease == c
    && var v := Verdict(s.events[k].value, report);
       v.Some? && v.value.2 != ProviderOverage && Bound.Warns(s.leases[c], v.value.0, v.value.1, percent)
  }

  /** A call to reserve finds no room under lease `c` while two turns race there. */
  ghost predicate RacesPause(s: State, c: nat, ask: Ask, desk: Desk, id: nat, k: nat, report: Option<Report>) {
    && Valid(s) && Current(s.leases) == Some(c) && s.leases[c].state.Usable() && Check(ask, desk).None?
    && FindsNoRoom(s, ask, desk) && TurnsRace(s, c, id, k, report, desk.percent)
  }

  /** The pause is lost if it falls between the two transactions of such a call: the second overwrites it,
      and a settlement then makes the lease usable again, without an upgrade. */
  lemma PauseIsLostBetweenTransactions(s: State, c: nat, ask: Ask, desk: Desk, id: nat, k: nat, report: Option<Report>)
    requires RacesPause(s, c, ask, desk, id, k, report)
    ensures var reserve := OpReserve(Priced(ask, desk.prices), desk.percent, desk.now);
            Transactions(s, CallReserve(ask, desk)) == [reserve, OpExhaust(c)]
    ensures var reserve := OpReserve(Priced(ask, desk.prices), desk.percent, desk.now);
            var t := Run(s, [reserve, OpMarkUncertain(id)]);
            var u := Run(t, [OpExhaust(c), OpSettle(k, report, desk.percent)]);
            && c < |t.leases| && t.leases[c].state == Paused
            && HasEvent(u, id) && u.events[id].value.status == UncertainSpend
            && c < |u.leases| && u.leases[c].state == Warning
            && (desk.now < u.leases[c].expiresAt ==> Preflight(u, desk).1 == Granted(c))
  {
    var reserve := OpReserve(Priced(ask, desk.prices), desk.percent, desk.now);
    NoRoomExhausts(s, c, ask, desk);
    RefusedThenMarked(s, c, ask, desk, id);
    var t := Run(s, [reserve, OpMarkUncertain(id)]);
    RunTwo(t, OpExhaust(c), OpSettle(k, report, desk.percent));
    ExhaustOverwrites(t, c);
    SettleReopens(Step(t, OpExhaust(c)), c, k, report, desk.percent);
  }

  lemma NoRoomExhausts(s: State, c: nat, ask: Ask, desk: Desk)
    requires Check(ask, desk).None? && Current(s.leases) == Some(c) && s.leases[c].state.Usable()
    requires FindsNoRoom(s, ask, desk)
    ensures Transactions(s, CallReserve(ask, desk))
         == [OpReserve(Priced(ask, desk.prices), desk.percent, desk.now), OpExhaust(c)]
  {
  }

  lemma MarkPauses(s: State, c: nat, id: nat)
    requires Valid(s) && Current(s.leases) == Some(c) && LeftReserved(s, id) && s.events[id].value.lease == c
    ensures var e := s.events[id].value;
            Step(s, OpMarkUncertain(id))
            == State(s.leases[c := s.leases[c].(state := Paused)],
                     s.events[id := Some(e.(status := UncertainSpend))])
  {
  }

  lemma RefusedThenMarked(s: State, c: nat, ask: Ask, desk: Desk, id: nat)
    requires Valid(s) && Current(s.leases) == Some(c) && Check(ask, desk).None? && FindsNoRoom(s, ask, desk)
    requires LeftReserved(s, id) && s.events[id].value.lease == c
    ensures var e := s.events[id].value;
            Run(s, [OpReserve(Priced(ask, desk.prices), desk.percent, desk.now), OpMarkUncertain(id)])
            == State(s.leases[c := s.leases[c].(state := Paused)],
                     s.events[id := Some(e.(status := UncertainSpend))])
  {
    RunTwo(s, OpReserve(Priced(ask, desk.prices), desk.percent, desk.now), OpMarkUncertain(id));
    MarkPauses(s, c, id);
  }

  lemma ExhaustOverwrites(s: State, c: nat)
    requires OneOpen(s.leases) && c < |s.leases| && s.leases[c].state.Open()
    ensures Step(s, OpExhaust(c)) == s.(leases := s.leases[c := s.leases[c].(state := Exhausted)])
  {
  }

  lemma SettleReopens(s: State, c: nat, k: nat, report: Option<Report>, percent: nat)
    requires OneOpen(s.leases) && c < |s.leases| && s.leases[c].state == Exhausted
    requires HasEvent(s, k) && s.events[k].value.status.Held() && s.events[k].value.lease == c
    requires var v := Verdict(s.events[k].value, report);
             v.Some? && v.value.2 != ProviderOverage && Bound.Warns(s.leases[c], v.value.0, v.value.1, percent)
    ensures var t := Step(s, OpSettle(k, report, percent));
            && |t.leases| == |s.leases| && t.leases[c].state == Warning
            && t.leases[c].expiresAt == s.leases[c].expiresAt
            && t.events == s.events[k := t.events[k]] && Current(t.leases) == Some(c)
  {
    var (u, cost, status) := Verdict(s.events[k].value, report).value;
    assert StateAfterSettlement(s.leases[c], u, cost, percent, false) == Warning;
    var t := Step(s, OpSettle(k, report, percent));
    assert t.leases[c].state == Warning && forall i | 0 <= i < |t.leases| && i != c :: !t.leases[i].state.Open();
  }

  /** Two turns are open under a lease that has reached its warning threshold. */
  function Contended(): seq<Deed> {
    Opened() + [Reserve("B", 1, 0)]
  }

  lemma ContendedEnds()
    ensures DoAll(Contended())
         == State([First(Warning, Balanced(0, 81, 2))], [Open(0, "A", 80, 1), Open(0, "B", 1, 2)])
  {
    OpenedEnds();
    Reserves(DoAll(Opened()), 0, "B", 1, 0);
    Then(Opened(), DoAll(Opened()), Reserve("B", 1, 0), DoAll(Contended()));
  }

  lemma NoRoom(s: State)
    requires s == State([First(Warning, Balanced(0, 81, 2))], [Open(0, "A", 80, 1), Open(0, "B", 1, 2)])
    ensures CreateReservation(s, Turn("C", 101), 80, 0) == Refused(OverInput)
  {
    assert Current(s.leases) == Some(0);
    assert FindRequest(s.events, "C") == None;
  }

  lemma Contends(s: State, c: nat, id: nat, k: nat)
    requires c == 0 && id == 1 && k == 0 && |s.events| == 2 && |s.leases| == 1
    requires s.leases[c] == First(Warning, Balanced(0, 81, 2))
    requires s.events[k] == Open(c, "A", 80, 1) && s.events[id] == Open(c, "B", 1, 2)
    ensures TurnsRace(s, c, id, k, None, 80)
    ensures Current(s.leases) == Some(c)
  {
  }

  /** The service reaches such a state. */
  lemma PauseRaceIsReachable()
    ensures RacesPause(DoAll(Contended()), 0, AskFor("C", 101), DeskAt(0), 1, 0, None)
  {
    var ops := DoAllIsRun(Contended());
    RunKeepsValid(Empty(), ops);
    ContendedEnds();
    NoRoom(DoAll(Contended()));
    TurnIsPriced("C", 101);
    Contends(DoAll(Contended()), 0, 1, 0);
  }
}
