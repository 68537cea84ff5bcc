/** When the budget service and the chat client let a turn through, on their inputs. */
module BudgetLaws {
  import opened Basics
  import opened Pricing
  import opened Ledger
  import opened LedgerInvariants
  import opened LedgerLaws
  import opened Text
  import opened Budget

  /** The service declines stale prices, bounds that are not positive and a blank request id, in this order. */
  lemma CheckExactly(ask: Ask, desk: Desk, denial: Denial)
    ensures Check(ask, desk) == Some(denial) <==>
            match denial
            case PricesStale => !desk.upToDate
            case InputBoundInvalid => desk.upToDate && ask.inputUpper <= 0
            case OutputBoundInvalid => desk.upToDate && ask.inputUpper > 0 && ask.maxOutput <= 0
            case RequestIdBlank => desk.upToDate && ask.inputUpper > 0 && ask.maxOutput > 0 && ask.id == ""
            case ReasonBlank | ByLedger(_) => false
    ensures Check(ask, desk).None? <==> Acceptable(ask, desk)
  {
  }

  predicate Acceptable(ask: Ask, desk: Desk) {
    desk.upToDate && ask.inputUpper > 0 && ask.maxOutput > 0 && ask.id != ""
  }

  /** The turn that is asked for, at the price of `ReservedCostIs`. */
  lemma PricedExactly(ask: Ask, prices: Snapshot)
    requires ask.inputUpper > 0 && ask.maxOutput > 0
    ensures var r := Priced(ask, prices);
            && r.id == ask.id && r.inputUpper == ask.inputUpper && r.maxOutput == ask.maxOutput
            && r.mode == ask.mode && r.pricing == prices
            && r.cost == ReservedCost(prices, ask.mode, ask.inputUpper, ask.maxOutput)
  {
  }

  // ---- preflight and reserve -------------------------------------------------------------------

  /** The prices are up to date, and the open lease is usable and has not expired. */
  predicate Passes(s: State, desk: Desk) {
    desk.upToDate && exists c :: 0 <= c < |s.leases| && Usable(s, c) && Timely(s, c, desk.now)
  }

  /** A preflight grants exactly a usable, timely lease. It changes nothing, but that it expires a late one. */
  lemma PreflightExactly(s: State, desk: Desk, c: nat)
    requires OneOpen(s.leases)
    ensures Preflight(s, desk).1.Granted? <==> Passes(s, desk)
    ensures Preflight(s, desk).1 == Granted(c) <==> desk.upToDate && Usable(s, c) && Timely(s, c, desk.now)
    ensures Passes(s, desk) ==> Preflight(s, desk).0 == s
    ensures desk.upToDate && Usable(s, c) && !Timely(s, c, desk.now) ==>
              Preflight(s, desk).0 == s.(leases := s.leases[c := s.leases[c].(state := Expired)])
    ensures (!desk.upToDate || forall d | 0 <= d < |s.leases| :: !(Usable(s, d) && !Timely(s, d, desk.now))) ==>
              Preflight(s, desk).0 == s
  {
    if Usable(s, c) {
      OpenIsCurrent(s, c);
    }
    forall d | 0 <= d < |s.leases| && Usable(s, d) ensures Current(s.leases) == Some(d) {
      OpenIsCurrent(s, d);
    }
    if Current(s.leases).Some? {
      var d := Current(s.leases).value;
      assert Usable(s, d) <==> s.leases[d].state.Usable();
    }
  }

  /** A refused reserve closes its lease: late, it is expired; without room, it is exhausted; and for any other
      reason nothing changes. */
  lemma RefusedReserveCloses(s: State, ask: Ask, desk: Desk, c: nat, error: Refusal)
    requires OneOpen(s.leases) && Acceptable(ask, desk) && NewId(s, ask.id) && c < |s.leases|
    requires RefusedAt(s, c, Priced(ask, desk.prices), desk.now, error)
    ensures ReserveTurn(s, ask, desk).1 == Declined(ByLedger(error))
    ensures ReserveTurn(s, ask, desk).0 ==
            match error
            case LeaseExpired => s.(leases := s.leases[c := s.leases[c].(state := Expired)])
            case OverInput | OverOutput | OverDollars | OverTurns =>
              s.(leases := s.leases[c := s.leases[c].(state := Exhausted)])
            case _ => s
  {
    OpenIsCurrent(s, c);
    ReserveRefusesExactly(s, Priced(ask, desk.prices), desk.percent, desk.now, error);
    ExhaustLeaseExactly(s, c);
    ExpireLeaseExactly(s, c);
    ClosesCurrent(s, c, error);
  }

  lemma ClosesCurrent(s: State, c: nat, error: Refusal)
    requires OneOpen(s.leases) && c < |s.leases| && Current(s.leases) == Some(c)
    ensures CloseAfter(s, error) ==
            if s.leases[c].state in {Active, Warning} then
              match error
              case LeaseExpired => s.(leases := s.leases[c := s.leases[c].(state := Expired)])
              case OverInput | OverOutput | OverDollars | OverTurns =>
                s.(leases := s.leases[c := s.leases[c].(state := Exhausted)])
              case _ => s
            else s
  {
  }

  /** A reserve is granted exactly if what is asked for is acceptable and some lease admits it. */
  lemma ReserveTurnGrantsExactly(s: State, ask: Ask, desk: Desk)
    requires OneOpen(s.leases) && NewId(s, ask.id)
    ensures ReserveTurn(s, ask, desk).1.Granted? <==>
            Acceptable(ask, desk) && exists c :: Admits(s, c, Priced(ask, desk.prices), desk.now)
  {
    if Acceptable(ask, desk) {
      ReserveGrantsExactly(s, Priced(ask, desk.prices), desk.percent, desk.now);
    }
  }

  // ---- a chat call -----------------------------------------------------------------------------

  /** The call sends a turn: egress is authorised, the preflight passes, what is asked for is acceptable, and
      some lease admits it. */
  ghost predicate Sends(s: State, early: Desk, ask: Ask, desk: Desk, egress: bool) {
    && egress && Passes(s, early) && Acceptable(ask, desk)
    && exists c :: Admits(s, c, Priced(ask, desk.prices), desk.now)
  }

  /** An undisturbed call with a new request id sends a turn, and ends as its provider lets it, exactly if it may;
      in every other case no row is inserted and no balance changes. */
  lemma ChatSendsExactly(s: State, early: Desk, ask: Ask, desk: Desk, egress: bool, provider: Provider)
    requires Valid(s) && NewId(s, ask.id)
    ensures var t := Chat(s, early, ask, desk, egress, Nobody(), provider);
            if Sends(s, early, ask, desk, egress) then Ends(s, t, ask, desk, provider) else NothingCharged(s, t)
  {
    NewIdIsNotFound(s, ask.id);
    PreflightExactly(s, early, 0);
    if Passes(s, early) && egress {
      ReserveTurnGrantsExactly(s, ask, desk);
      if Sends(s, early, ask, desk, egress) {
        ReservedTurnCloses(s, ask, desk, provider);
      } else {
        DeclinedChargesNothing(s, ask, desk);
      }
    } else {
      PreflightChargesNothing(s, early);
    }
  }

  lemma PreflightChargesNothing(s: State, desk: Desk)
    ensures NothingCharged(s, Preflight(s, desk).0)
  {
  }

  /** What a call does never fits both descriptions. */
  lemma EndsIsCharged(s: State, t: State, ask: Ask, desk: Desk, provider: Provider)
    requires ask.inputUpper > 0 && ask.maxOutput > 0
    ensures !(Ends(s, t, ask, desk, provider) && NothingCharged(s, t))
  {
  }

  /** Whatever others do: without authorisation, or without a usable and timely lease at the preflight, nothing
      is reserved by a call. */
  lemma UnauthorisedChatReservesNothing(
      s: State, early: Desk, ask: Ask, desk: Desk, egress: bool, others: Meanwhile, provider: Provider)
    requires OneOpen(s.leases) && (!egress || !Passes(s, early))
    ensures NothingCharged(s, Chat(s, early, ask, desk, egress, others, provider))
  {
    PreflightExactly(s, early, 0);
    PreflightChargesNothing(s, early);
  }
}
