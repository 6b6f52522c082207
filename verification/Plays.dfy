/** Building blocks of concrete runs: a seeded system, and calls played step by step. */
module Plays {
  import opened Domain
  import opened Baggage
  import opened Tables
  import opened Machine
  import opened Safety

  const SEAT := Seat(7, 1, 'A', Available, None, None)

  /** One flight, one seat and two passengers. */
  function Seeded(config: Config): State {
    State(System(0, config, Db({1, 2}, map[7 := Scheduled], map[1 := SEAT], [], [], []),
                 map[], map[], map[], {}, []),
          map[])
  }

  /** The default baggage limits. */
  const DEFAULTS := Config(25.0, 10.0)

  const SEEDED := Seeded(DEFAULTS)

  ghost predicate Closed(P: State -> bool) {
    forall s, e :: P(s) ==> P(Next(s, e))
  }

  /** The state lies in every set that holds the initial state and is closed under events. */
  ghost predicate Reachable(init: State, s: State) {
    forall P: State -> bool :: Closed(P) && P(init) ==> P(s)
  }

  lemma Initially(config: Config)
    ensures Reachable(Seeded(config), Seeded(config))
  {
  }

  lemma Play(init: State, s: State, e: Event) returns (s': State)
    requires Reachable(init, s)
    ensures s' == Next(s, e) && Reachable(init, s')
  {
    s' := Next(s, e);
  }

  lemma ExecSnoc(s: State, es: seq<Event>, e: Event)
    ensures Exec(s, es + [e]) == Next(Exec(s, es), e)
  {
    assert (es + [e])[..|es + [e]| - 1] == es;
  }

  /** A state in every such set is the end of some run. */
  lemma ByRun(config: Config, s: State) returns (es: seq<Event>)
    requires Reachable(Seeded(config), s)
    ensures Reaches(Seeded(config), es, s)
  {
    var init := Seeded(config);
    var P := t => exists es :: t == Exec(init, es);
    assert Exec(init, []) == init;
    forall t, e | P(t)
      ensures P(Next(t, e))
    {
      var es :| t == Exec(init, es);
      ExecSnoc(init, es, e);
    }
    assert Closed(P) && P(init) && P(s);
    es :| s == Exec(init, es);
  }

  // ---- Check-in ----

  /** A passenger asks for the seat, and finds it available. */
  lemma PlayRead(init: State, s: State, c: CallId, p: PassengerId) returns (s': State)
    requires Reachable(init, s) && c !in s.calls
    requires 7 in s.sys.db.flights && !HasCheckIn(s.sys.db.checkIns, p, 7) && s.sys.db.seats == map[1 := SEAT]
    ensures Reachable(init, s') && s' == s.(calls := s.calls[c := Holding(p, 7, 1, s.sys.now)])
  {
    s' := Play(init, s, Open(c, StartRequest(p, 7, 1)));
    assert s'.calls[c] == Starting(p, 7, 1);
    s' := Play(init, s', Advance(c, Ack));
    assert s'.calls[c] == Found(p, 7, 1);
    s' := Play(init, s', Advance(c, Ack));
  }

  /** The transaction of such a call. */
  lemma PlayTake(init: State, s: State, c: CallId, p: PassengerId, heldAt: nat) returns (s': State)
    requires Reachable(init, s) && c in s.calls && s.calls[c] == Holding(p, 7, 1, heldAt)
    requires p in s.sys.db.passengers && 7 in s.sys.db.flights && !HasCheckIn(s.sys.db.checkIns, p, 7)
    requires s.sys.db.seats == map[1 := SEAT]
    ensures Reachable(init, s') && s' == Next(s, Advance(c, Ack))
    ensures s' == State(s.sys.(db := s'.sys.db), s.calls[c := Tail([SetKey(1, p), DropMap(7)])])
    ensures s'.sys.db == s.sys.db.(
      seats := map[1 := SEAT.(status := Held, heldBy := Some(p), heldAt := Some(heldAt))],
      checkIns := s.sys.db.checkIns + [NewCheckIn(p, 7, 1)], audit := s'.sys.db.audit)
  {
    s' := Play(init, s, Advance(c, Ack));
  }

  /** A passenger holds the seat: the read, the transaction and the hold key. */
  lemma PlayHold(init: State, s: State, c: CallId, p: PassengerId) returns (s': State)
    requires Reachable(init, s) && c !in s.calls
    requires p in s.sys.db.passengers && 7 in s.sys.db.flights && !HasCheckIn(s.sys.db.checkIns, p, 7)
    requires s.sys.db.seats == map[1 := SEAT]
    ensures Reachable(init, s') && s'.calls == s.calls[c := Tail([DropMap(7)])]
    ensures s'.sys == s.sys.(
      db := s'.sys.db, holdKeys := s.sys.holdKeys[1 := HoldKey(p, s.sys.now + SEAT_HOLD_MS)])
    ensures s'.sys.db == s.sys.db.(
      seats := map[1 := SEAT.(status := Held, heldBy := Some(p), heldAt := Some(s.sys.now))],
      checkIns := s.sys.db.checkIns + [NewCheckIn(p, 7, 1)], audit := s'.sys.db.audit)
  {
    s' := PlayRead(init, s, c, p);
    s' := PlayTake(init, s', c, p, s.sys.now);
    s' := Play(init, s', Advance(c, Ack));
  }

  /** A cancellation of a check-in on the seat, up to its transaction. */
  lemma PlayCancel(init: State, s: State, c: CallId, id: CheckInId, p: PassengerId) returns (s': State)
    requires Reachable(init, s) && c !in s.calls && s.sys.db.flights == map[7 := Scheduled]
    requires id < |s.sys.db.checkIns| && s.sys.db.checkIns[id].passenger == p
    ensures Reachable(init, s')
    ensures s'.sys == s.sys.(db := CancelAndFree(s.sys.db, id, s.sys.db.checkIns[id]))
    ensures s'.calls == s.calls[c := Tail(AfterCancel(s.sys.db.checkIns[id]))]
  {
    var row := s.sys.db.checkIns[id];
    s' := Play(init, s, Open(c, CancelRequest(id, p)));
    assert s'.calls[c] == Cancelling(id, row);
    s' := Play(init, s', Advance(c, Ack));
    assert s'.calls[c] == Permitted(id, row);
    s' := Play(init, s', Advance(c, Ack));
  }

  /** A confirmation gets past its checks. */
  lemma PlayValidate(init: State, s: State, c: CallId, id: CheckInId, p: PassengerId, weight: real) returns (s': State)
    requires Reachable(init, s) && c !in s.calls && weight >= 0.0
    requires id < |s.sys.db.checkIns| && s.sys.db.checkIns[id].passenger == p && s.sys.db.checkIns[id].Pending()
    requires s.sys.db.checkIns[id].seat == Some(1) && KeyLive(s.sys.holdKeys, 1, s.sys.now)
    ensures Reachable(init, s')
    ensures s' == s.(calls := s.calls[c := Validated(id, s.sys.db.checkIns[id], weight)])
  {
    s' := Play(init, s, Open(c, ConfirmRequest(id, p, weight)));
    assert s'.calls[c] == Confirming(id, s.sys.db.checkIns[id], weight);
    s' := Play(init, s', Advance(c, Ack));
  }

  /** A confirmation within the limit commits, whatever has become of the check-in. */
  lemma PlayComplete(init: State, s: State, c: CallId, id: CheckInId, row: CheckIn, weight: real) returns (s': State)
    requires Reachable(init, s) && c in s.calls && s.calls[c] == Validated(id, row, weight)
    requires weight <= s.sys.config.maxBaggageKg && ToCents(weight) < WEIGHT_BOUND
    requires id < |s.sys.db.checkIns| && row.seat.Some?
    ensures Reachable(init, s') && s'.sys == s.sys.(db := s'.sys.db)
    ensures s'.sys.db.checkIns == s.sys.db.checkIns[id := s.sys.db.checkIns[id].(
      status := Completed, weight := Some(ToCents(weight)), payment := None)]
    ensures s'.calls == s.calls[c := Tail(AfterComplete(row))]
  {
    s' := Play(init, s, Advance(c, Ack));
  }

  /** An overweight confirmation stores weight and fee, and goes on to the payment service. */
  lemma PlayAwait(init: State, s: State, c: CallId, id: CheckInId, row: CheckIn, weight: real) returns (s': State)
    requires Reachable(init, s) && c in s.calls && s.calls[c] == Validated(id, row, weight)
    requires weight > s.sys.config.maxBaggageKg && ToCents(weight) < WEIGHT_BOUND
    requires ToCents(CalculateFee(s.sys.config, weight).excessFee) < FEE_BOUND && id < |s.sys.db.checkIns|
    ensures Reachable(init, s') && s' == State(s.sys.(db := s'.sys.db), s.calls[c := Paying(id, row, weight)])
    ensures |s'.sys.db.checkIns| == |s.sys.db.checkIns|
    ensures s'.sys.db == s.sys.db.(checkIns := s.sys.db.checkIns[id := s'.sys.db.checkIns[id]])
    ensures var before, after := s.sys.db.checkIns[id], s'.sys.db.checkIns[id];
      after == before.(status := AwaitingPayment, weight := after.weight, fee := after.fee)
  {
    s' := Play(init, s, Advance(c, Ack));
  }

  /** The payment service confirms, and the check-in completes. */
  lemma PlayPay(init: State, s: State, c: CallId, id: CheckInId, row: CheckIn, weight: real, transaction: string)
    returns (s': State)
    requires Reachable(init, s) && c in s.calls && s.calls[c] == Paying(id, row, weight)
    requires ToCents(weight) < WEIGHT_BOUND && id < |s.sys.db.checkIns|
    ensures Reachable(init, s') && s'.sys.config == s.sys.config
    ensures s'.sys.payments ==
      s.sys.payments + {Payment(transaction, id, CalculateFee(s.sys.config, weight).excessFee)}
    ensures s'.sys.db.checkIns == s.sys.db.checkIns[id := s.sys.db.checkIns[id].(
      status := Completed, weight := Some(ToCents(weight)), payment := Some(transaction))]
  {
    s' := Play(init, s, Advance(c, PaymentReply(Some(transaction))));
    assert s'.calls[c] == Paid(id, row, weight, transaction);
    s' := Play(init, s', Advance(c, Ack));
  }

  // ---- Waitlist ----

  /** A join of the flight, up to its insert. */
  lemma PlayPosition(init: State, s: State, c: CallId, p: PassengerId) returns (s': State)
    requires Reachable(init, s) && c !in s.calls && 7 in s.sys.db.flights && !HasEntry(s.sys.db.waitlist, p, 7)
    ensures Reachable(init, s')
    ensures s' == s.(calls := s.calls[c := Positioned(p, 7, MaxPosition(s.sys.db.waitlist, 7) + 1)])
  {
    s' := Play(init, s, Open(c, JoinRequest(p, 7)));
    assert s'.calls[c] == Joining(p, 7);
    s' := Play(init, s', Advance(c, Ack));
  }

  lemma PlayInsert(init: State, s: State, c: CallId, p: PassengerId, position: nat) returns (s': State)
    requires Reachable(init, s) && c in s.calls && s.calls[c] == Positioned(p, 7, position)
    requires p in s.sys.db.passengers && 7 in s.sys.db.flights && !HasEntry(s.sys.db.waitlist, p, 7)
    ensures Reachable(init, s') && s'.calls == s.calls[c := Tail([Count(7, 1)])]
    ensures s'.sys == s.sys.(db := s.sys.db.(waitlist := s.sys.db.waitlist + [Entry(7, p, position, Waiting)]))
  {
    s' := Play(init, s, Advance(c, Ack));
  }

  lemma PlayJoin(init: State, s: State, c: CallId, p: PassengerId) returns (s': State)
    requires Reachable(init, s) && c !in s.calls
    requires p in s.sys.db.passengers && 7 in s.sys.db.flights && !HasEntry(s.sys.db.waitlist, p, 7)
    ensures Reachable(init, s') && s'.calls == s.calls[c := Tail([Count(7, 1)])]
    ensures s'.sys == s.sys.(db := s.sys.db.(
      waitlist := s.sys.db.waitlist + [Entry(7, p, MaxPosition(s.sys.db.waitlist, 7) + 1, Waiting)]))
  {
    s' := PlayPosition(init, s, c, p);
    s' := PlayInsert(init, s', c, p, MaxPosition(s.sys.db.waitlist, 7) + 1);
  }

  /** Waitlist processing up to its transaction, for a head the database returns. */
  lemma PlayHead(init: State, s: State, c: CallId, e: EntryId) returns (s': State)
    requires Reachable(init, s) && c !in s.calls && IsHead(s.sys.db.waitlist, 7, e)
    requires s.sys.db.seats == map[1 := SEAT]
    ensures Reachable(init, s')
    ensures s' == s.(calls := s.calls[c := Seating(e, s.sys.db.waitlist[e].passenger, 7, 1, s.sys.now)])
  {
    s' := Play(init, s, Open(c, ProcessRequest(7, None, e)));
    assert s'.calls[c] == Heading(e, s.sys.db.waitlist[e].passenger, 7, None);
    s' := Play(init, s', Advance(c, SeatReply(1)));
    assert s'.calls[c] == Offered(e, s.sys.db.waitlist[e].passenger, 7, 1);
    s' := Play(init, s', Advance(c, Ack));
  }

  /** The assignment transaction of such a call. */
  lemma PlayAssign(init: State, s: State, c: CallId, e: EntryId, p: PassengerId, heldAt: nat) returns (s': State)
    requires Reachable(init, s) && c in s.calls && s.calls[c] == Seating(e, p, 7, 1, heldAt)
    requires p in s.sys.db.passengers && 7 in s.sys.db.flights && !HasCheckIn(s.sys.db.checkIns, p, 7)
    requires s.sys.db.seats == map[1 := SEAT] && e < |s.sys.db.waitlist|
    ensures Reachable(init, s') && s'.calls == s.calls[c := Tail(AfterAssign(1, p, 7))]
    ensures s'.sys == s.sys.(db := AssignSeat(s.sys.db, e, p, 7, 1, heldAt).value)
  {
    s' := Play(init, s, Advance(c, Ack));
  }

  /** A leave up to its update. */
  lemma PlayLeaving(init: State, s: State, c: CallId, e: EntryId) returns (s': State)
    requires Reachable(init, s) && c !in s.calls
    requires e < |s.sys.db.waitlist| && s.sys.db.waitlist[e].status.Waiting?
    ensures Reachable(init, s') && s' == s.(calls := s.calls[c := Leaving(e, s.sys.db.waitlist[e].flight)])
  {
    s' := Play(init, s, Open(c, LeaveRequest(e, s.sys.db.waitlist[e].passenger)));
  }

  /** The update, whatever has become of the entry. */
  lemma PlayLeft(init: State, s: State, c: CallId, e: EntryId) returns (s': State)
    requires Reachable(init, s) && c in s.calls && s.calls[c] == Leaving(e, 7)
    ensures Reachable(init, s') && s'.calls == s.calls[c := Tail([Count(7, -1)])]
    ensures s'.sys == s.sys.(db := s.sys.db.(waitlist := SetEntry(s.sys.db.waitlist, e, WaitStatus.Cancelled)))
  {
    s' := Play(init, s, Advance(c, Ack));
  }

  lemma PlayLeave(init: State, s: State, c: CallId, e: EntryId) returns (s': State)
    requires Reachable(init, s) && c !in s.calls
    requires e < |s.sys.db.waitlist| && s.sys.db.waitlist[e].status.Waiting?
    ensures Reachable(init, s') && s'.calls == s.calls[c := Tail([Count(s.sys.db.waitlist[e].flight, -1)])]
    ensures s'.sys == s.sys.(db := s.sys.db.(waitlist := SetEntry(s.sys.db.waitlist, e, WaitStatus.Cancelled)))
  {
    var entry := s.sys.db.waitlist[e];
    s' := Play(init, s, Open(c, LeaveRequest(e, entry.passenger)));
    assert s'.calls[c] == Leaving(e, entry.flight);
    s' := Play(init, s', Advance(c, Ack));
  }
}
