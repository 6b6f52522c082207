/**
 * Each service call run to its end with nothing in between: what a call does to the whole system and what it
 * answers.  Every one of them is a schedule of the interleaving machine, so its invariants apply.
 */
module Calls {
  import opened Domain
  import opened Baggage
  import opened Tables
  import opened Machine

  datatype CallError =
    | FlightNotFound | SeatNotFound | AlreadyCheckedIn | SeatAlreadyHeld
    | CheckInNotFound | HoldExpired | CancellationNotAllowed
    | AlreadyOnWaitlist | WaitlistNotFound
    | LockUnavailable   // Redlock gave up
    | DatabaseRejected  // a constraint or a column bound rolled the transaction back

  datatype Outcome = Done | MustPay

  predicate HasLiveCheckIn(rows: seq<CheckIn>, p: PassengerId, f: FlightId) {
    exists i :: 0 <= i < |rows| && rows[i].passenger == p && rows[i].flight == f && rows[i].Live()
  }

  predicate HasWaitingEntry(entries: seq<Entry>, p: PassengerId, f: FlightId) {
    exists i :: 0 <= i < |entries| && entries[i].passenger == p && IsWaiting(entries, f, i)
  }

  /** What happens under lock:seat. */
  function HoldWithinLock(sys: System, p: PassengerId, f: FlightId, x: SeatId): (System, Result<CheckInId, CallError>) {
    if !IsAvailable(sys.db.seats, x) then (sys, Err(SeatAlreadyHeld))
    else
      match HoldSeat(sys.db, p, f, x, sys.now)
      case None => (sys, Err(DatabaseRejected))
      case Some(db) => (PerformAll(sys.(db := db), AfterHold(x, p, f)), Ok(|sys.db.checkIns|))
  }

  function StartCheckIn(sys: System, lock: bool, p: PassengerId, f: FlightId, x: SeatId)
    : (System, Result<CheckInId, CallError>)
  {
    if f !in sys.db.flights then (sys, Err(FlightNotFound))
    else if x !in sys.db.seats || sys.db.seats[x].flight != f then (sys, Err(SeatNotFound))
    else if HasLiveCheckIn(sys.db.checkIns, p, f) then (sys, Err(AlreadyCheckedIn))
    else if !lock then (sys, Err(LockUnavailable))
    else HoldWithinLock(sys, p, f, x)
  }

  predicate MayConfirm(sys: System, row: CheckIn) {
    row.Pending() && (row.seat.Some? ==> KeyLive(sys.holdKeys, row.seat.value, sys.now))
  }

  function Finalise(sys: System, id: CheckInId, row: CheckIn, weight: real, payment: Option<string>)
    : (System, Result<Outcome, CallError>)
  {
    match Complete(sys.db, id, row, weight, payment)
    case None => (sys, Err(DatabaseRejected))
    case Some(db) => (PerformAll(sys.(db := db), AfterComplete(row)), Ok(Done))
  }

  /** `paid` is the transaction id when the payment service confirms. */
  function ConfirmCheckIn(sys: System, id: CheckInId, p: PassengerId, weight: real, paid: Option<string>)
    : (System, Result<Outcome, CallError>)
    requires weight >= 0.0
  {
    if id >= |sys.db.checkIns| || sys.db.checkIns[id].passenger != p then (sys, Err(CheckInNotFound))
    else
      var row := sys.db.checkIns[id];
      if !MayConfirm(sys, row) then (sys, Err(HoldExpired))
      else
        var fee := CalculateFee(sys.config, weight);
        if !fee.isOverweight then Finalise(sys, id, row, weight, None)
        else
          match AwaitPayment(sys.db, id, weight, fee.excessFee)
          case None => (sys, Err(DatabaseRejected))
          case Some(db) =>
            if paid.None? then (sys.(db := db), Ok(MustPay))
            else
              Finalise(sys.(db := db, payments := sys.payments + {Payment(paid.value, id, fee.excessFee)}),
                       id, row, weight, paid)
  }

  function CancelCheckIn(sys: System, id: CheckInId, p: PassengerId): (System, Result<Outcome, CallError>) {
    if id >= |sys.db.checkIns| || sys.db.checkIns[id].passenger != p then (sys, Err(CheckInNotFound))
    else
      var row := sys.db.checkIns[id];
      if row.flight in sys.db.flights && sys.db.flights[row.flight].Departed? then (sys, Err(CancellationNotAllowed))
      else (PerformAll(sys.(db := CancelAndFree(sys.db, id, row)), AfterCancel(row)), Ok(Done))
  }

  /** The entry whose assignment the expired hold came from, if any, becomes EXPIRED. */
  function ExpireEntry(entries: seq<Entry>, holder: Option<PassengerId>, f: FlightId): seq<Entry> {
    match holder
    case None => entries
    case Some(p) =>
      match FindAssigned(entries, p, f)
      case None => entries
      case Some(e) => SetEntry(entries, e, Expired)
  }

  /** One assigned entry of the holder on the flight expires, if there is one, and nothing else changes. */
  lemma OneEntryExpires(entries: seq<Entry>, p: PassengerId, f: FlightId)
    ensures var after := ExpireEntry(entries, Some(p), f);
      if exists e: nat :: e < |entries| && entries[e].flight == f && entries[e].passenger == p
                          && entries[e].status.Assigned?
      then exists e: nat :: e < |entries| && entries[e].flight == f && entries[e].passenger == p
                            && entries[e].status.Assigned? && after == entries[e := entries[e].(status := Expired)]
      else after == entries
  {
    var found := FindAssigned(entries, p, f);
    if e: nat :| e < |entries| && entries[e].flight == f && entries[e].passenger == p && entries[e].status.Assigned? {
      assert IsAssigned(entries, p, f, e);
    }
  }

  predicate Stale(sys: System, x: SeatId) {
    x in sys.db.seats && sys.db.seats[x].status.Held? && sys.db.seats[x].Lapsed(sys.now)
  }

  function ReleaseSeat(sys: System, lock: bool, x: SeatId): (System, bool) {
    if !lock || !Stale(sys, x) then (sys, false)
    else
      var seat := sys.db.seats[x];
      match ReleaseHold(sys.db, x, seat.heldBy, seat.flight)
      case None => (sys, false)
      case Some(db) =>
        (PerformAll(sys.(db := db.(waitlist := ExpireEntry(db.waitlist, seat.heldBy, seat.flight))),
                    AfterRelease(x, seat.flight)), true)
  }

  function JoinWaitlist(sys: System, p: PassengerId, f: FlightId): (System, Result<EntryId, CallError>) {
    if f !in sys.db.flights then (sys, Err(FlightNotFound))
    else if HasWaitingEntry(sys.db.waitlist, p, f) then (sys, Err(AlreadyOnWaitlist))
    else
      match InsertEntry(sys.db, p, f, MaxPosition(sys.db.waitlist, f) + 1)
      case None => (sys, Err(DatabaseRejected))
      case Some(db) => (PerformAll(sys.(db := db), [Count(f, 1)]), Ok(|sys.db.waitlist|))
  }

  function LeaveWaitlist(sys: System, e: EntryId, p: PassengerId): (System, Result<Outcome, CallError>) {
    if e >= |sys.db.waitlist| || sys.db.waitlist[e].passenger != p || !sys.db.waitlist[e].status.Waiting? then
      (sys, Err(WaitlistNotFound))
    else
      var left := sys.(db := sys.db.(waitlist := SetEntry(sys.db.waitlist, e, WaitStatus.Cancelled)));
      (PerformAll(left, [Count(sys.db.waitlist[e].flight, -1)]), Ok(Done))
  }

  predicate SeatOffered(sys: System, f: FlightId, hint: Option<SeatId>, x: SeatId) {
    IsAvailable(sys.db.seats, x) && sys.db.seats[x].flight == f && (hint.Some? ==> hint.value == x)
  }

  /** The assignment of a seat to an entry, both as read earlier. */
  function AssignWithinLock(sys: System, e: EntryId, p: PassengerId, f: FlightId, x: SeatId): System {
    match AssignSeat(sys.db, e, p, f, x, sys.now)
    case None => sys
    case Some(db) => PerformAll(sys.(db := db), AfterAssign(x, p, f))
  }

  /** `head` and `x` are the rows the two reads return; without either the call ends. */
  function ProcessWaitlist(sys: System, lock: bool, f: FlightId, hint: Option<SeatId>,
                           head: Option<EntryId>, x: Option<SeatId>): System
  {
    if && lock && head.Some? && IsHead(sys.db.waitlist, f, head.value)
       && x.Some? && SeatOffered(sys, f, hint, x.value)
    then
      AssignWithinLock(sys, head.value, sys.db.waitlist[head.value].passenger, f, x.value)
    else
      sys
  }

  // ---- The effects after a transaction, spelt out ----

  lemma KeySet(sys: System, x: SeatId, p: PassengerId)
    ensures Perform(sys, SetKey(x, p)) == sys.(holdKeys := sys.holdKeys[x := HoldKey(p, sys.now + SEAT_HOLD_MS)])
  {
  }

  lemma Counted(sys: System, f: FlightId, delta: int)
    ensures Perform(sys, Count(f, delta)) == sys.(depth := sys.depth[f := Depth(sys.depth, f) + delta])
  {
  }

  lemma PerformOne(sys: System, a: Effect)
    ensures PerformAll(sys, [a]) == Perform(sys, a)
  {
    assert [a][1..] == [];
  }

  lemma PerformTwo(sys: System, a: Effect, b: Effect)
    ensures PerformAll(sys, [a, b]) == Perform(Perform(sys, a), b)
  {
    assert [a, b][1..] == [b];
    PerformOne(Perform(sys, a), b);
  }

  lemma PerformThree(sys: System, a: Effect, b: Effect, c: Effect)
    ensures PerformAll(sys, [a, b, c]) == Perform(Perform(Perform(sys, a), b), c)
  {
    assert [a, b, c][1..] == [b, c];
    PerformTwo(Perform(sys, a), b, c);
  }

  lemma AfterHoldEffect(sys: System, x: SeatId, p: PassengerId, f: FlightId)
    ensures PerformAll(sys, AfterHold(x, p, f)) == sys.(
      holdKeys := sys.holdKeys[x := HoldKey(p, sys.now + SEAT_HOLD_MS)], seatMaps := sys.seatMaps - {f})
  {
    KeySet(sys, x, p);
    PerformTwo(sys, SetKey(x, p), DropMap(f));
  }

  lemma AfterAssignEffect(sys: System, x: SeatId, p: PassengerId, f: FlightId)
    ensures PerformAll(sys, AfterAssign(x, p, f)) == sys.(
      holdKeys := sys.holdKeys[x := HoldKey(p, sys.now + SEAT_HOLD_MS)], seatMaps := sys.seatMaps - {f},
      depth := sys.depth[f := Depth(sys.depth, f) - 1])
  {
    var keyed := sys.(holdKeys := sys.holdKeys[x := HoldKey(p, sys.now + SEAT_HOLD_MS)]);
    var dropped := keyed.(seatMaps := keyed.seatMaps - {f});
    PerformThree(sys, SetKey(x, p), DropMap(f), Count(f, -1));
    KeySet(sys, x, p);
    assert Perform(keyed, DropMap(f)) == dropped;
    Counted(dropped, f, -1);
  }

  lemma AfterCompleteEffect(sys: System, row: CheckIn)
    ensures PerformAll(sys, AfterComplete(row)) ==
      if row.seat.Some? then
        sys.(holdKeys := sys.holdKeys - {row.seat.value}, seatMaps := sys.seatMaps - {row.flight})
      else sys
  {
    if row.seat.Some? {
      PerformTwo(sys, DeleteKey(row.seat.value), DropMap(row.flight));
    }
  }

  lemma AfterCancelEffect(sys: System, row: CheckIn)
    ensures PerformAll(sys, AfterCancel(row)) ==
      PerformAll(sys, AfterComplete(row)).(signals := sys.signals + [Signal(row.flight, None)])
  {
    var emit := Emit(Signal(row.flight, None));
    AfterCompleteEffect(sys, row);
    if row.seat.Some? {
      PerformThree(sys, DeleteKey(row.seat.value), DropMap(row.flight), emit);
    } else {
      assert AfterCancel(row) == [emit];
      PerformOne(sys, emit);
    }
  }

  lemma AfterReleaseEffect(sys: System, x: SeatId, f: FlightId)
    ensures PerformAll(sys, AfterRelease(x, f)) == sys.(
      seatMaps := sys.seatMaps - {f}, signals := sys.signals + [Signal(f, Some(x))])
  {
    PerformTwo(sys, DropMap(f), Emit(Signal(f, Some(x))));
  }

  lemma CountEffect(sys: System, f: FlightId, delta: int)
    ensures PerformAll(sys, [Count(f, delta)]) == sys.(depth := sys.depth[f := Depth(sys.depth, f) + delta])
  {
  }

  // ---- Calls are schedules ----

  function Run(sys: System, call: Option<Call>, replies: seq<Reply>): (System, Option<Call>)
    decreases |replies|
  {
    if call.None? || replies == [] then (sys, call)
    else
      var (sys', call') := Step(sys, call.value, replies[0]);
      Run(sys', call', replies[1..])
  }

  function Advances(c: CallId, replies: seq<Reply>): seq<Event> {
    seq(|replies|, i requires 0 <= i < |replies| => Advance(c, replies[i]))
  }

  lemma {:induction false} ExecConcat(s: State, a: seq<Event>, b: seq<Event>)
    ensures Exec(s, a + b) == Exec(Exec(s, a), b)
    decreases |b|
  {
    if b == [] {
      assert a + b == a;
    } else {
      assert (a + b)[..|a + b| - 1] == a + b[..|b| - 1];
      ExecConcat(s, a, b[..|b| - 1]);
    }
  }

  lemma ExecOne(s: State, e: Event)
    ensures Exec(s, [e]) == Next(s, e)
  {
    assert [e][..0] == [];
    assert Exec(s, [e][..0]) == s;
  }

  lemma {:induction false} AdvancesRun(s: State, c: CallId, replies: seq<Reply>)
    requires c in s.calls
    ensures var (sys, call) := Run(s.sys, Some(s.calls[c]), replies);
      Exec(s, Advances(c, replies)) == State(sys, Place(s.calls, c, call))
    decreases |replies|
  {
    if replies == [] {
      assert Place(s.calls, c, Some(s.calls[c])) == s.calls;
    } else {
      var e, rest := Advance(c, replies[0]), replies[1..];
      var s' := Next(s, e);
      assert Advances(c, replies) == [e] + Advances(c, rest);
      ExecConcat(s, [e], Advances(c, rest));
      ExecOne(s, e);
      if c in s'.calls {
        AdvancesRun(s', c, rest);
        var (_, call) := Run(s'.sys, Some(s'.calls[c]), rest);
        assert Place(s'.calls, c, call) == Place(s.calls, c, call);
      } else {
        Idle(s', c, rest);
      }
    }
  }

  lemma {:induction false} Idle(s: State, c: CallId, replies: seq<Reply>)
    requires c !in s.calls
    ensures Exec(s, Advances(c, replies)) == s
    decreases |replies|
  {
    if replies != [] {
      var n := |replies| - 1;
      assert Advances(c, replies)[..n] == Advances(c, replies[..n]);
      Idle(s, c, replies[..n]);
    }
  }

  /** Opening a call and giving it all its steps in a row is a schedule of the interleaving machine. */
  lemma RunIsSchedule(s: State, c: CallId, request: Request, replies: seq<Reply>)
    requires c !in s.calls
    ensures var (sys, call) := Run(s.sys, Begin(s.sys, request), replies);
      Exec(s, [Open(c, request)] + Advances(c, replies)) == State(sys, Place(s.calls, c, call))
  {
    var e := Open(c, request);
    ExecConcat(s, [e], Advances(c, replies));
    ExecOne(s, e);
    OpenedRun(s, c, Begin(s.sys, request), replies);
  }

  lemma OpenedRun(s: State, c: CallId, call: Option<Call>, replies: seq<Reply>)
    requires c !in s.calls
    ensures var (sys, call') := Run(s.sys, call, replies);
      Exec(State(s.sys, Place(s.calls, c, call)), Advances(c, replies)) == State(sys, Place(s.calls, c, call'))
  {
    var s' := State(s.sys, Place(s.calls, c, call));
    if call.Some? {
      AdvancesRun(s', c, replies);
      var (_, call') := Run(s'.sys, call, replies);
      assert Place(s'.calls, c, call') == Place(s.calls, c, call');
    } else {
      Idle(s', c, replies);
    }
  }

  lemma {:induction false} FreshId(ids: set<CallId>) returns (c: CallId)
    ensures forall d :: d in ids ==> d < c
    decreases ids
  {
    c := 0;
    if ids != {} {
      var d :| d in ids;
      var above := FreshId(ids - {d});
      c := if d < above then above else d + 1;
      assert forall e :: e in ids ==> e == d || e in ids - {d};
    }
  }

  /** A call that ends after all its steps in a row leaves nothing but its effect on the system. */
  lemma WholeCall(s: State, request: Request, replies: seq<Reply>, sys: System) returns (es: seq<Event>)
    requires Run(s.sys, Begin(s.sys, request), replies) == (sys, None)
    ensures Exec(s, es) == s.(sys := sys)
  {
    var c := FreshId(s.calls.Keys);
    RunIsSchedule(s, c, request, replies);
    es := [Open(c, request)] + Advances(c, replies);
    assert Place(s.calls, c, None) == s.calls;
  }

  function Acks(n: nat): seq<Reply> {
    seq(n, _ => Ack)
  }

  lemma RunTail(sys: System, effects: seq<Effect>, replies: seq<Reply>)
    requires |effects| <= |replies|
    ensures Run(sys, Finish(effects), replies) == (PerformAll(sys, effects), None)
    decreases |effects|
  {
    if effects != [] {
      RunTail(Perform(sys, effects[0]), effects[1..], replies[1..]);
    }
  }

  lemma RunAcks(sys: System, call: Call, n: nat)
    ensures var (sys', call') := Step(sys, call, Ack);
      Run(sys, Some(call), Acks(n + 1)) == Run(sys', call', Acks(n))
  {
    assert Acks(n + 1)[1..] == Acks(n);
  }

  lemma StartIsRun(sys: System, p: PassengerId, f: FlightId, x: SeatId)
    ensures Run(sys, Begin(sys, StartRequest(p, f, x)), Acks(5)) == (StartCheckIn(sys, true, p, f, x).0, None)
  {
    var call := Begin(sys, StartRequest(p, f, x));
    if call.Some? {
      RunAcks(sys, call.value, 4);
      if IsAvailable(sys.db.seats, x) {
        RunAcks(sys, Found(p, f, x), 3);
        HoldingIsRun(sys, p, f, x, sys.now);
      }
    }
  }

  lemma HoldingIsRun(sys: System, p: PassengerId, f: FlightId, x: SeatId, heldAt: nat)
    ensures Run(sys, Some(Holding(p, f, x, heldAt)), Acks(3)) == (
      match HoldSeat(sys.db, p, f, x, heldAt)
      case None => (sys, None)
      case Some(db) => (PerformAll(sys.(db := db), AfterHold(x, p, f)), None))
  {
    var (sys', call') := Step(sys, Holding(p, f, x, heldAt), Ack);
    RunAcks(sys, Holding(p, f, x, heldAt), 2);
    if call'.Some? {
      RunTail(sys', AfterHold(x, p, f), Acks(2));
    }
  }

  /** What is left of a call once its last transaction has been tried. */
  lemma FinaliseIsRun(sys: System, id: CheckInId, row: CheckIn, weight: real, payment: Option<string>,
                      replies: seq<Reply>)
    requires 2 <= |replies|
    ensures var (sys', call') := FinishComplete(sys, id, row, weight, payment);
      Run(sys', call', replies) == (Finalise(sys, id, row, weight, payment).0, None)
  {
    match Complete(sys.db, id, row, weight, payment)
    case None =>
    case Some(db) => RunTail(sys.(db := db), AfterComplete(row), replies);
  }

  function ConfirmReplies(paid: Option<string>): seq<Reply> {
    [Ack, Ack, PaymentReply(paid), Ack, Ack, Ack]
  }

  lemma ConfirmIsRun(sys: System, id: CheckInId, p: PassengerId, weight: real, paid: Option<string>)
    requires weight >= 0.0
    ensures Run(sys, Begin(sys, ConfirmRequest(id, p, weight)), ConfirmReplies(paid))
         == (ConfirmCheckIn(sys, id, p, weight, paid).0, None)
  {
    var call := Begin(sys, ConfirmRequest(id, p, weight));
    var replies := ConfirmReplies(paid);
    assert replies[1..] == [Ack, PaymentReply(paid), Ack, Ack, Ack] && replies[1..][1..] == replies[2..];
    if call.Some? && MayConfirm(sys, call.value.row) {
      var row, fee := call.value.row, CalculateFee(sys.config, weight);
      var validated := Validated(id, row, weight);
      assert Step(sys, call.value, Ack) == (sys, Some(validated));
      var (sys2, call2) := Step(sys, validated, Ack);
      assert Run(sys, call, replies) == Run(sys2, call2, replies[2..]);
      if !fee.isOverweight {
        FinaliseIsRun(sys, id, row, weight, None, replies[2..]);
      } else if call2.Some? {
        ConfirmPaidIsRun(sys2, id, row, weight, paid);
      }
    }
  }

  lemma ConfirmPaidIsRun(sys: System, id: CheckInId, row: CheckIn, weight: real, paid: Option<string>)
    ensures
      var fee := CalculateFee(sys.config, weight).excessFee;
      var payment := Payment(if paid.Some? then paid.value else "", id, fee);
      Run(sys, Some(Paying(id, row, weight)), ConfirmReplies(paid)[2..]) ==
        if paid.None? then (sys, None)
        else (Finalise(sys.(payments := sys.payments + {payment}), id, row, weight, paid).0, None)
  {
    var replies := ConfirmReplies(paid)[2..];
    assert replies == [PaymentReply(paid), Ack, Ack, Ack];
    assert replies[1..] == [Ack, Ack, Ack] && replies[1..][1..] == [Ack, Ack];
    if paid.Some? {
      var sys1 := Step(sys, Paying(id, row, weight), replies[0]).0;
      FinaliseIsRun(sys1, id, row, weight, paid, [Ack, Ack]);
    }
  }

  lemma CancelIsRun(sys: System, id: CheckInId, p: PassengerId)
    ensures Run(sys, Begin(sys, CancelRequest(id, p)), Acks(5)) == (CancelCheckIn(sys, id, p).0, None)
  {
    var call := Begin(sys, CancelRequest(id, p));
    assert Acks(5)[1..] == Acks(4) && Acks(4)[1..] == Acks(3);
    if call.Some? {
      var (sys1, call1) := Step(sys, call.value, Ack);
      if call1.Some? {
        RunTail(Step(sys1, call1.value, Ack).0, AfterCancel(call.value.row), Acks(3));
      }
    }
  }

  lemma ReleaseIsRun(sys: System, x: SeatId)
    ensures Run(sys, Begin(sys, ReleaseRequest(x)), Acks(5)) == (ReleaseSeat(sys, true, x).0, None)
  {
    var call := Begin(sys, ReleaseRequest(x));
    assert Acks(5)[1..] == Acks(4);
    if call.Some? {
      var (sys1, call1) := Step(sys, call.value, Ack);
      if call1.Some? {
        ReleasedIsRun(sys1, x, call.value.holder, call.value.flight);
      }
    }
  }

  lemma ReleasedIsRun(sys: System, x: SeatId, holder: Option<PassengerId>, f: FlightId)
    ensures
      var expired := sys.(db := sys.db.(waitlist := ExpireEntry(sys.db.waitlist, holder, f)));
      Run(sys, Some(Released(x, holder, f)), Acks(4)) == (PerformAll(expired, AfterRelease(x, f)), None)
  {
    var entry := if holder.Some? then FindAssigned(sys.db.waitlist, holder.value, f) else None;
    assert Acks(4)[1..] == Acks(3);
    if entry.Some? {
      assert Step(sys, Released(x, holder, f), Ack) == (sys, Some(Expiring(x, f, entry.value)));
      ExpiringIsRun(sys, x, f, entry.value);
    } else {
      assert Step(sys, Released(x, holder, f), Ack) == (sys, Finish(AfterRelease(x, f)));
      RunTail(sys, AfterRelease(x, f), Acks(3));
    }
  }

  lemma ExpiringIsRun(sys: System, x: SeatId, f: FlightId, e: EntryId)
    ensures
      var expired := sys.(db := sys.db.(waitlist := SetEntry(sys.db.waitlist, e, Expired)));
      Run(sys, Some(Expiring(x, f, e)), Acks(3)) == (PerformAll(expired, AfterRelease(x, f)), None)
  {
    assert Acks(3)[1..] == Acks(2);
    RunTail(Step(sys, Expiring(x, f, e), Ack).0, AfterRelease(x, f), Acks(2));
  }

  lemma JoinIsRun(sys: System, p: PassengerId, f: FlightId)
    ensures Run(sys, Begin(sys, JoinRequest(p, f)), Acks(3)) == (JoinWaitlist(sys, p, f).0, None)
  {
    var call := Begin(sys, JoinRequest(p, f));
    assert Acks(3)[1..] == Acks(2);
    if call.Some? {
      var position := MaxPosition(sys.db.waitlist, f) + 1;
      assert Step(sys, call.value, Ack) == (sys, Some(Positioned(p, f, position)));
      PositionedIsRun(sys, p, f, position);
    }
  }

  lemma PositionedIsRun(sys: System, p: PassengerId, f: FlightId, position: nat)
    ensures Run(sys, Some(Positioned(p, f, position)), Acks(2)) == (
      match InsertEntry(sys.db, p, f, position)
      case None => (sys, None)
      case Some(db) => (PerformAll(sys.(db := db), [Count(f, 1)]), None))
  {
    var (sys', call') := Step(sys, Positioned(p, f, position), Ack);
    assert Acks(2)[1..] == Acks(1);
    if call'.Some? {
      RunTail(sys', [Count(f, 1)], Acks(1));
    }
  }

  lemma LeaveIsRun(sys: System, e: EntryId, p: PassengerId)
    ensures Run(sys, Begin(sys, LeaveRequest(e, p)), Acks(2)) == (LeaveWaitlist(sys, e, p).0, None)
  {
    var call := Begin(sys, LeaveRequest(e, p));
    assert Acks(2)[1..] == Acks(1);
    if call.Some? {
      var (sys1, call1) := Step(sys, call.value, Ack);
      RunTail(sys1, [Count(call.value.flight, -1)], Acks(1));
    }
  }

  lemma ProcessIsRun(sys: System, f: FlightId, hint: Option<SeatId>, head: EntryId, x: SeatId)
    ensures Run(sys, Begin(sys, ProcessRequest(f, hint, head)), [SeatReply(x)] + Acks(5))
         == (ProcessWaitlist(sys, true, f, hint, Some(head), Some(x)), None)
  {
    var call := Begin(sys, ProcessRequest(f, hint, head));
    var replies := [SeatReply(x)] + Acks(5);
    assert replies[1..] == Acks(5);
    if call.Some? && SeatOffered(sys, f, hint, x) {
      var p := call.value.passenger;
      assert Step(sys, call.value, replies[0]) == (sys, Some(Offered(head, p, f, x)));
      RunAcks(sys, Offered(head, p, f, x), 4);
      SeatingIsRun(sys, Seating(head, p, f, x, sys.now));
    }
  }

  lemma SeatingIsRun(sys: System, call: Call)
    requires call.Seating?
    ensures Run(sys, Some(call), Acks(4)) == (
      match AssignSeat(sys.db, call.entry, call.passenger, call.flight, call.seat, call.heldAt)
      case None => (sys, None)
      case Some(db) => (PerformAll(sys.(db := db), AfterAssign(call.seat, call.passenger, call.flight)), None))
  {
    var (sys', call') := Step(sys, call, Ack);
    assert Acks(4)[1..] == Acks(3);
    if call'.Some? {
      RunTail(sys', AfterAssign(call.seat, call.passenger, call.flight), Acks(3));
    }
  }
}
