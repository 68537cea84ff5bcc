/** At-most-once charging, and what releasing a reservation does to the turn numbers. */
module Charging {
  import opened Basics
  import opened Pricing
  import opened Ledger
  import opened LedgerInvariants

  // ---- the life of an event row ----------------------------------------------------------------

  predicate SameTurn(e: Event, f: Event) {
    e.lease == f.lease && e.request == f.request && e.turn == f.turn
  }

  /** Gaps stay gaps, only reserved rows can go, uncertain rows can only close, closed rows stay. */
  predicate Advances(e: Option<Event>, f: Option<Event>) {
    match e
    case None => f.None?
    case Some(v) =>
      match v.status
      case Reserved => f.Some? ==> SameTurn(v, f.value)
      case UncertainSpend => f.Some? && SameTurn(v, f.value) && f.value.status != Reserved
                             && (f.value.status == UncertainSpend ==> f == e)
      case _ => f == e
  }

  ghost predicate EventsAdvance(s: State, t: State) {
    |s.events| <= |t.events| && forall k | 0 <= k < |s.events| :: Advances(s.events[k], t.events[k])
  }

  lemma AdvancesTransitive(e: Option<Event>, f: Option<Event>, g: Option<Event>)
    requires Advances(e, f) && Advances(f, g)
    ensures Advances(e, g)
  {
  }

  lemma StepAdvances(s: State, op: Op)
    ensures EventsAdvance(s, Step(s, op))
  {
    match op
    case OpSettle(id, report, percent) =>
      var a := Settle(s, id, report, percent);
      if a.Done? {
        assert a.state.events == s.events[id := a.state.events[id]];
      }
    case _ =>
  }

  lemma {:induction false} RunAdvances(s: State, ops: seq<Op>)
    ensures EventsAdvance(s, Run(s, ops))
  {
    if |ops| > 0 {
      var n := |ops| - 1;
      var mid := Run(s, ops[..n]);
      RunAdvances(s, ops[..n]);
      StepAdvances(mid, ops[n]);
      forall k | 0 <= k < |s.events| ensures Advances(s.events[k], Run(s, ops).events[k]) {
        AdvancesTransitive(s.events[k], mid.events[k], Step(mid, ops[n]).events[k]);
      }
    }
  }

  /** In every reachable state no two rows have the same request id. A turn that was settled or marked
      uncertain keeps its row through every later run, a settled row unchanged, and its id is refused if it
      is asked for again. */
  lemma AtMostOnce(ops: seq<Op>, later: seq<Op>, id: nat)
    ensures var s := Run(Empty(), ops);
            forall i: nat, k: nat | HasEvent(s, i) && HasEvent(s, k) && i != k ::
              s.events[i].value.request.id != s.events[k].value.request.id
    ensures var s, t := Run(Empty(), ops), Run(Run(Empty(), ops), later);
            HasEvent(s, id) && s.events[id].value.status != Reserved ==>
              && HasEvent(t, id)
              && SameTurn(s.events[id].value, t.events[id].value)
              && (!s.events[id].value.status.Held() ==> t.events[id] == s.events[id])
              && (forall k | 0 <= k < |t.events| && k != id && t.events[k].Some? ::
                    t.events[k].value.request.id != s.events[id].value.request.id)
              && forall r: Request, percent: nat, now: nat | r.id == s.events[id].value.request.id ::
                   CreateReservation(t, r, percent, now) == Refused(RequestIdUsed)
  {
    var s, t := Run(Empty(), ops), Run(Run(Empty(), ops), later);
    RunKeepsValid(Empty(), ops);
    RunKeepsValid(s, later);
    RunAdvances(s, later);
    if HasEvent(s, id) && s.events[id].value.status != Reserved {
      assert Advances(s.events[id], t.events[id]);
      RefusedWhileRowStands(t, id);
    }
  }

  lemma RefusedWhileRowStands(t: State, id: nat)
    requires EventsIndexed(t) && HasEvent(t, id) && t.events[id].value.status != Reserved
    ensures forall k | 0 <= k < |t.events| && k != id && t.events[k].Some? ::
              t.events[k].value.request.id != t.events[id].value.request.id
    ensures forall r: Request, percent: nat, now: nat | r.id == t.events[id].value.request.id ::
              CreateReservation(t, r, percent, now) == Refused(RequestIdUsed)
  {
    forall r: Request, percent: nat, now: nat | r.id == t.events[id].value.request.id
      ensures CreateReservation(t, r, percent, now) == Refused(RequestIdUsed)
    {
      assert FindRequest(t.events, r.id) == Some(id);
    }
  }

  /** Repeating a reservation that is still open, at any later time, returns it and changes nothing. */
  lemma RepeatedReserveIsNoOp(ops: seq<Op>, r: Request, percent: nat, now: nat, later: seq<Op>,
                              again: Request, percent': nat, now': nat)
    requires CreateReservation(Run(Empty(), ops), r, percent, now).Done?
    requires again.id == r.id
    ensures var a := CreateReservation(Run(Empty(), ops), r, percent, now);
            var t := Run(a.state, later);
            HasEvent(t, a.value) && t.events[a.value].value.status == Reserved ==>
              CreateReservation(t, again, percent', now') == Done(t, a.value)
  {
    var s := Run(Empty(), ops);
    var a := CreateReservation(s, r, percent, now);
    var t := Run(a.state, later);
    RunKeepsValid(Empty(), ops);
    ReserveKeepsValid(s, r, percent, now);
    RunKeepsValid(a.state, later);
    RunAdvances(a.state, later);
    if HasEvent(t, a.value) && t.events[a.value].value.status == Reserved {
      assert Advances(a.state.events[a.value], t.events[a.value]);
      OpenReservationIsReturned(t, again, percent', now', a.value);
    }
  }

  lemma OpenReservationIsReturned(t: State, r: Request, percent: nat, now: nat, id: nat)
    requires EventsIndexed(t) && HasEvent(t, id) && t.events[id].value.status == Reserved
    requires t.events[id].value.request.id == r.id
    ensures CreateReservation(t, r, percent, now) == Done(t, id)
  {
    assert FindRequest(t.events, r.id) == Some(id);
  }

  /** Settling a turn again, at any later time, returns the first settlement and changes nothing. */
  lemma RepeatedSettleIsNoOp(s: State, id: nat, report: Option<Report>, percent: nat, later: seq<Op>,
                             again: Option<Report>, percent': nat)
    requires Settle(s, id, report, percent).Done?
    ensures var a := Settle(s, id, report, percent);
            var t := Run(a.state, later);
            && HasEvent(t, id) && t.events[id] == Some(a.value)
            && (Verdict(a.value, again).Some? ==> Settle(t, id, again, percent') == Done(t, a.value))
  {
    var a := Settle(s, id, report, percent);
    RunAdvances(a.state, later);
    assert Advances(a.state.events[id], Run(a.state, later).events[id]);
  }

  /** Releasing a reservation at once restores every balance and leaves no row. */
  lemma ReleaseUndoesReserve(s: State, r: Request, percent: nat, now: nat)
    requires Valid(s) && FindRequest(s.events, r.id).None?
    requires CreateReservation(s, r, percent, now).Done?
    ensures var a := CreateReservation(s, r, percent, now);
            var b := ReleaseReservation(a.state, a.value);
            && b.Done? && b.state.events == s.events + [None]
            && |b.state.leases| == |s.leases|
            && forall i | 0 <= i < |s.leases| ::
                 b.state.leases[i].(state := s.leases[i].state) == s.leases[i]
  {
    var a := CreateReservation(s, r, percent, now);
    var c := Current(s.leases).value;
    var b := s.leases[c].balance;
    HoldUnhold(b, r);
    var released := ReleaseReservation(a.state, a.value);
    assert a.state.leases[c].balance == Hold(b, r).(turns := b.turns + 1);
    assert released.state.leases[c].balance == b;
    assert (s.events + [a.state.events[|s.events|]])[|s.events| := None] == s.events + [None];
  }

  lemma HoldUnhold(b: Balance, r: Request)
    ensures Unhold(Hold(b, r).(turns := b.turns + 1), r).(turns := Less(b.turns + 1, 1)) == b
  {
  }

  // ---- turn numbers ----------------------------------------------------------------------------

  /** The lease's events are numbered without gaps, from its opening turn count to its present one. */
  ghost predicate TurnsDense(s: State, lease: nat)
    requires lease < |s.leases|
  {
    var first, last := s.leases[lease].opening.turns, s.leases[lease].balance.turns;
    && (forall k | 0 <= k < |s.events| && s.events[k].Some? && s.events[k].value.lease == lease ::
          first < s.events[k].value.turn <= last)
    && (forall turn: nat | first < turn <= last :: TurnTaken(s, lease, turn))
  }

  /** With dense turn numbers the next number is free. */
  lemma DenseNeverCollides(s: State, r: Request, percent: nat, now: nat)
    requires Valid(s) && forall l | 0 <= l < |s.leases| :: TurnsDense(s, l)
    ensures CreateReservation(s, r, percent, now) != Refused(IndexViolated)
  {
    var c := Current(s.leases);
    if c.Some? {
      assert TurnsDense(s, c.value);
    }
  }

  /** Releasing a reservation takes the next turn number exactly when a later turn was reserved since. */
  lemma ReleaseCollidesExactly(s: State, id: nat)
    requires Valid(s) && HasEvent(s, id) && s.events[id].value.status == Reserved
    requires TurnsDense(s, s.events[id].value.lease)
    ensures var e := s.events[id].value;
            var t := ReleaseReservation(s, id).state;
            && t.leases[e.lease].balance.turns + 1 == s.leases[e.lease].balance.turns
            && (TurnTaken(t, e.lease, t.leases[e.lease].balance.turns + 1)
                <==> e.turn != s.leases[e.lease].balance.turns)
  {
    var e := s.events[id].value;
    var t := ReleaseReservation(s, id).state;
    HeldIsCovered(s, id);
    var last := s.leases[e.lease].balance.turns;
    assert t.events == s.events[id := None];
    if e.turn != last {
      assert TurnTaken(s, e.lease, last);
      var k :| 0 <= k < |s.events| && s.events[k].Some?
               && s.events[k].value.lease == e.lease && s.events[k].value.turn == last;
      assert t.events[k] == s.events[k];
      assert TurnTaken(t, e.lease, last);
    }
  }

  /** The newest turn of a lease was released, or the step is no release. */
  predicate ReleasesNewest(s: State, op: Op) {
    op.OpRelease? && HasEvent(s, op.id) && s.events[op.id].value.lease < |s.leases| ==>
      s.events[op.id].value.turn == s.leases[s.events[op.id].value.lease].balance.turns
  }

  /** Rows keep their turn numbers, so density only depends on which rows there are. */
  lemma TurnsKept(s: State, t: State, l: nat)
    requires l < |s.leases| && l < |t.leases| && |s.events| == |t.events|
    requires TurnsDense(s, l)
    requires t.leases[l].opening == s.leases[l].opening && t.leases[l].balance.turns == s.leases[l].balance.turns
    requires forall k | 0 <= k < |s.events| ::
               s.events[k].Some? == t.events[k].Some?
               && (s.events[k].Some? ==> SameTurn(s.events[k].value, t.events[k].value))
    ensures TurnsDense(t, l)
  {
    forall turn: nat | t.leases[l].opening.turns < turn <= t.leases[l].balance.turns
      ensures TurnTaken(t, l, turn)
    {
      assert TurnTaken(s, l, turn);
      var k :| 0 <= k < |s.events| && s.events[k].Some?
               && s.events[k].value.lease == l && s.events[k].value.turn == turn;
      assert SameTurn(s.events[k].value, t.events[k].value);
    }
  }

  lemma ReserveKeepsDense(s: State, r: Request, percent: nat, now: nat, l: nat)
    requires Valid(s) && l < |s.leases| && TurnsDense(s, l)
    requires CreateReservation(s, r, percent, now).Done? && FindRequest(s.events, r.id).None?
    ensures TurnsDense(CreateReservation(s, r, percent, now).state, l)
  {
    var t := CreateReservation(s, r, percent, now).state;
    var n := |s.events|;
    forall turn: nat | t.leases[l].opening.turns < turn <= t.leases[l].balance.turns
      ensures TurnTaken(t, l, turn)
    {
      if turn <= s.leases[l].balance.turns {
        assert TurnTaken(s, l, turn);
        var k :| 0 <= k < n && s.events[k].Some? && s.events[k].value.lease == l && s.events[k].value.turn == turn;
        assert t.events[k] == s.events[k];
      } else {
        assert t.events[n].value.lease == l && t.events[n].value.turn == turn;
      }
    }
  }

  lemma ReleaseNewestKeepsDense(s: State, id: nat, l: nat)
    requires Valid(s) && l < |s.leases| && TurnsDense(s, l)
    requires HasEvent(s, id) && s.events[id].value.status == Reserved
    requires ReleasesNewest(s, OpRelease(id))
    ensures TurnsDense(ReleaseReservation(s, id).state, l)
  {
    var t := ReleaseReservation(s, id).state;
    HeldIsCovered(s, id);
    assert t.events == s.events[id := None];
    forall turn: nat | t.leases[l].opening.turns < turn <= t.leases[l].balance.turns
      ensures TurnTaken(t, l, turn)
    {
      assert TurnTaken(s, l, turn);
      var k :| 0 <= k < |s.events| && s.events[k].Some?
               && s.events[k].value.lease == l && s.events[k].value.turn == turn;
      assert t.events[k] == s.events[k];
    }
  }

  ghost predicate AllDense(s: State) {
    forall l | 0 <= l < |s.leases| :: TurnsDense(s, l)
  }

  lemma ReserveKeepsAllDense(s: State, r: Request, percent: nat, now: nat)
    requires Valid(s) && AllDense(s)
    ensures AllDense(CreateReservation(s, r, percent, now).After(s))
  {
    var a := CreateReservation(s, r, percent, now);
    if a.Done? && FindRequest(s.events, r.id).None? {
      forall l | 0 <= l < |s.leases| ensures TurnsDense(a.state, l) {
        ReserveKeepsDense(s, r, percent, now, l);
      }
    }
  }

  lemma ReleaseKeepsAllDense(s: State, id: nat)
    requires Valid(s) && AllDense(s) && ReleasesNewest(s, OpRelease(id))
    ensures AllDense(ReleaseReservation(s, id).After(s))
  {
    if HasEvent(s, id) && s.events[id].value.status == Reserved {
      forall l | 0 <= l < |s.leases| ensures TurnsDense(ReleaseReservation(s, id).state, l) {
        ReleaseNewestKeepsDense(s, id, l);
      }
    }
  }

  lemma KeptTurnsStayDense(s: State, t: State)
    requires EventsIndexed(t) && EventsIndexed(s) && AllDense(s) && KeepsTurns(s, t)
    ensures AllDense(t)
  {
    forall l | 0 <= l < |t.leases| ensures TurnsDense(t, l) {
      if l < |s.leases| {
        TurnsKept(s, t, l);
      }
    }
  }

  lemma StepKeepsDense(s: State, op: Op)
    requires Valid(s) && AllDense(s) && ReleasesNewest(s, op)
    ensures AllDense(Step(s, op))
  {
    if op.OpReserve? {
      ReserveKeepsAllDense(s, op.request, op.percent, op.now);
    } else if op.OpRelease? {
      ReleaseKeepsAllDense(s, op.id);
    } else {
      QuietStepKeepsTurns(s, op);
      StepKeepsValid(s, op);
      KeptTurnsStayDense(s, Step(s, op));
    }
  }

  /** Rows and turn counts are kept; a lease that is new starts with none of its own. */
  ghost predicate KeepsTurns(s: State, t: State) {
    && |t.events| == |s.events| && |s.leases| <= |t.leases|
    && (forall k | 0 <= k < |s.events| ::
          s.events[k].Some? == t.events[k].Some?
          && (s.events[k].Some? ==> SameTurn(s.events[k].value, t.events[k].value)))
    && (forall l | 0 <= l < |s.leases| ::
          t.leases[l].opening == s.leases[l].opening
          && t.leases[l].balance.turns == s.leases[l].balance.turns)
    && (forall l | |s.leases| <= l < |t.leases| ::
          t.leases[l].opening.turns == t.leases[l].balance.turns)
  }

  lemma SettleKeepsTurns(s: State, id: nat, report: Option<Report>, percent: nat)
    ensures KeepsTurns(s, Settle(s, id, report, percent).After(s))
  {
  }

  lemma MarkKeepsTurns(s: State, id: nat)
    ensures KeepsTurns(s, MarkUncertain(s, id).After(s))
  {
  }

  lemma LeaseStepKeepsTurns(s: State, op: Op)
    requires op.OpCreateLease? || op.OpUpgrade? || op.OpExpire? || op.OpExhaust? || op.OpPauseUsable?
    ensures KeepsTurns(s, Step(s, op))
  {
    var t := Step(s, op);
    assert t.events == s.events;
    if op.OpUpgrade? {
      assert forall l | 0 <= l < |s.leases| ::
          t.leases[l].opening == s.leases[l].opening && t.leases[l].balance == s.leases[l].balance;
    }
  }

  lemma QuietStepKeepsTurns(s: State, op: Op)
    requires !op.OpReserve? && !op.OpRelease?
    ensures KeepsTurns(s, Step(s, op))
  {
    match op
    case OpSettle(id, report, percent) => SettleKeepsTurns(s, id, report, percent);
    case OpMarkUncertain(id) => MarkKeepsTurns(s, id);
    case _ => LeaseStepKeepsTurns(s, op);
  }

  /** As long as only the newest turn of a lease is ever released, no reservation meets a taken number. */
  lemma InOrderReleasesNeverCollide(ops: seq<Op>, r: Request, percent: nat, now: nat)
    requires forall i | 0 <= i < |ops| :: ReleasesNewest(Run(Empty(), ops[..i]), ops[i])
    ensures AllDense(Run(Empty(), ops))
    ensures CreateReservation(Run(Empty(), ops), r, percent, now) != Refused(IndexViolated)
  {
    RunKeepsValid(Empty(), ops);
    InOrderReleasesKeepDense(ops);
    DenseNeverCollides(Run(Empty(), ops), r, percent, now);
  }

  lemma {:induction false} InOrderReleasesKeepDense(ops: seq<Op>)
    requires forall i | 0 <= i < |ops| :: ReleasesNewest(Run(Empty(), ops[..i]), ops[i])
    ensures AllDense(Run(Empty(), ops))
  {
    if |ops| > 0 {
      var before := ops[..|ops| - 1];
      forall i | 0 <= i < |before| ensures ReleasesNewest(Run(Empty(), before[..i]), before[i]) {
        assert before[..i] == ops[..i];
      }
      InOrderReleasesKeepDense(before);
      RunKeepsValid(Empty(), before);
      StepKeepsDense(Run(Empty(), before), ops[|ops| - 1]);
    }
  }

  /** The next turn number of the lease is taken. */
  ghost predicate Blocked(s: State, c: nat) {
    c < |s.leases| && TurnTaken(s, c, s.leases[c].balance.turns + 1)
  }

  /** No turn of the lease was inserted. */
  predicate NoneInserted(s: State, t: State, c: nat) {
    && |s.events| <= |t.events|
    && forall k | |s.events| <= k < |t.events| && t.events[k].Some? :: t.events[k].value.lease != c
  }

  /** The row that holds the number stays. */
  lemma StillTaken(s: State, t: State, c: nat, turn: nat)
    requires TurnTaken(s, c, turn) && |s.events| <= |t.events|
    requires forall k | 0 <= k < |s.events| && s.events[k].Some? ::
               t.events[k].Some? && SameTurn(s.events[k].value, t.events[k].value)
    ensures TurnTaken(t, c, turn)
  {
    var k :| 0 <= k < |s.events| && s.events[k].Some?
             && s.events[k].value.lease == c && s.events[k].value.turn == turn;
    assert SameTurn(s.events[k].value, t.events[k].value);
  }

  lemma ReserveKeepsBlocked(s: State, c: nat, r: Request, percent: nat, now: nat)
    requires Blocked(s, c)
    ensures var t := CreateReservation(s, r, percent, now).After(s); Blocked(t, c) && NoneInserted(s, t, c)
  {
    var t := CreateReservation(s, r, percent, now).After(s);
    StillTaken(s, t, c, s.leases[c].balance.turns + 1);
  }

  lemma StepKeepsBlocked(s: State, c: nat, op: Op)
    requires Blocked(s, c) && !op.OpRelease?
    ensures Blocked(Step(s, op), c) && NoneInserted(s, Step(s, op), c)
  {
    if op.OpReserve? {
      ReserveKeepsBlocked(s, c, op.request, op.percent, op.now);
    } else {
      QuietStepKeepsTurns(s, op);
      StillTaken(s, Step(s, op), c, s.leases[c].balance.turns + 1);
    }
  }

  /** After an out-of-order release the lease is never given a turn again, whatever happens short of a
      release. */
  lemma {:induction false} OutOfOrderReleaseBlocks(s: State, id: nat, ops: seq<Op>)
    requires Valid(s) && HasEvent(s, id) && s.events[id].value.status == Reserved
    requires TurnsDense(s, s.events[id].value.lease)
    requires s.events[id].value.turn != s.leases[s.events[id].value.lease].balance.turns
    requires forall i | 0 <= i < |ops| :: !ops[i].OpRelease?
    ensures var t := ReleaseReservation(s, id).state; var c := s.events[id].value.lease;
            Blocked(Run(t, ops), c) && NoneInserted(t, Run(t, ops), c)
  {
    var t := ReleaseReservation(s, id).state;
    var c := s.events[id].value.lease;
    if |ops| == 0 {
      ReleaseCollidesExactly(s, id);
    } else {
      var mid := Run(t, ops[..|ops| - 1]);
      OutOfOrderReleaseBlocks(s, id, ops[..|ops| - 1]);
      StepKeepsBlocked(mid, c, ops[|ops| - 1]);
      StepAdvances(mid, ops[|ops| - 1]);
    }
  }
}
