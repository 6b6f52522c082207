/** Runs of calls that each finish at the instant they start, on a single instance. */
module Serial {
  import opened Domain
  import opened Tables
  import opened Machine
  import opened Calls

  datatype SerialCall =
    | Wait(ms: nat)
    | Start(passenger: PassengerId, flight: FlightId, seat: SeatId)
    | Confirm(checkIn: CheckInId, passenger: PassengerId, weight: real, paid: Option<string>)
    | Cancel(checkIn: CheckInId, passenger: PassengerId)
    | Release(seat: SeatId)
    | Sweep(order: seq<SeatId>, granted: set<SeatId>)
    | Join(passenger: PassengerId, flight: FlightId)
    | Leave(entry: EntryId, passenger: PassengerId)
    | Process(flight: FlightId, hint: Option<SeatId>, head: Option<EntryId>, free: Option<SeatId>)

  /**
   * The sweep's loop over the list of stale seats, in whatever order the query returned it; a seat whose lock
   * is not granted is skipped.
   */
  function ReleaseEach(sys: System, order: seq<SeatId>, granted: set<SeatId>): System
    decreases |order|
  {
    if order == [] then sys
    else
      var n := |order| - 1;
      ReleaseSeat(ReleaseEach(sys, order[..n], granted), order[n] in granted, order[n]).0
  }

  /** The condition of the sweep's query: held, and with held_at at or before the cutoff. */
  predicate Overdue(sys: System, x: SeatId) {
    && x in sys.db.seats && sys.db.seats[x].status.Held?
    && sys.db.seats[x].heldAt.Some? && sys.db.seats[x].heldAt.value + SEAT_HOLD_MS <= sys.now
  }

  function OverdueSeats(sys: System): set<SeatId> {
    set x | x in sys.db.seats && Overdue(sys, x)
  }

  /** The list is an answer to the query: exactly the overdue seats, in any order. */
  predicate ListsStale(sys: System, order: seq<SeatId>) {
    (forall x :: x in OverdueSeats(sys) ==> x in order) && (forall x :: x in order ==> x in OverdueSeats(sys))
  }

  function Do(sys: System, call: SerialCall): System {
    match call
    case Wait(ms) => sys.(now := sys.now + ms)
    case Start(p, f, x) => StartCheckIn(sys, true, p, f, x).0
    case Confirm(id, p, weight, paid) => if weight >= 0.0 then ConfirmCheckIn(sys, id, p, weight, paid).0 else sys
    case Cancel(id, p) => CancelCheckIn(sys, id, p).0
    case Release(x) => ReleaseSeat(sys, true, x).0
    case Sweep(order, granted) => if ListsStale(sys, order) then ReleaseEach(sys, order, granted) else sys
    case Join(p, f) => JoinWaitlist(sys, p, f).0
    case Leave(e, p) => LeaveWaitlist(sys, e, p).0
    case Process(f, hint, head, x) => ProcessWaitlist(sys, true, f, hint, head, x)
  }

  function DoAll(sys: System, calls: seq<SerialCall>): System
    decreases |calls|
  {
    if calls == [] then sys else Do(DoAll(sys, calls[..|calls| - 1]), calls[|calls| - 1])
  }

  /** Some run of uninterrupted calls leads here from a freshly seeded system. */
  ghost predicate Reached(sys: System) {
    exists init: State, calls: seq<SerialCall> :: Init(init) && sys == DoAll(init.sys, calls)
  }

  // ---- What each call leaves alone ----

  /** Joining and leaving the waitlist touch the queue and its gauge only. */
  lemma JoinLeavesSeats(sys: System, p: PassengerId, f: FlightId)
    ensures var sys' := JoinWaitlist(sys, p, f).0;
      sys' == sys.(db := sys.db.(waitlist := sys'.db.waitlist), depth := sys'.depth)
  {
    var joined := InsertEntry(sys.db, p, f, MaxPosition(sys.db.waitlist, f) + 1);
    if joined.Some? {
      CountEffect(sys.(db := joined.value), f, 1);
    }
  }

  lemma LeaveLeavesSeats(sys: System, e: EntryId, p: PassengerId)
    ensures var sys' := LeaveWaitlist(sys, e, p).0;
      sys' == sys.(db := sys.db.(waitlist := sys'.db.waitlist), depth := sys'.depth)
  {
    var left := sys.(db := sys.db.(waitlist := SetEntry(sys.db.waitlist, e, WaitStatus.Cancelled)));
    if e < |sys.db.waitlist| {
      CountEffect(left, sys.db.waitlist[e].flight, -1);
    }
  }

  lemma StartForm(sys: System, lock: bool, p: PassengerId, f: FlightId, x: SeatId)
    ensures var (sys', r) := StartCheckIn(sys, lock, p, f, x);
      if r.Ok? then
        && lock && HoldSeat(sys.db, p, f, x, sys.now) == Some(sys'.db)
        && sys' == sys.(db := sys'.db, seatMaps := sys.seatMaps - {f},
                        holdKeys := sys.holdKeys[x := HoldKey(p, sys.now + SEAT_HOLD_MS)])
      else sys' == sys
  {
    var held := HoldSeat(sys.db, p, f, x, sys.now);
    if held.Some? {
      AfterHoldEffect(sys.(db := held.value), x, p, f);
    }
  }

  lemma FinaliseForm(sys: System, id: CheckInId, row: CheckIn, weight: real, payment: Option<string>)
    ensures var (sys', r) := Finalise(sys, id, row, weight, payment);
      if r.Ok? then
        && Complete(sys.db, id, row, weight, payment) == Some(sys'.db)
        && sys' == if row.seat.Some? then sys.(db := sys'.db, seatMaps := sys.seatMaps - {row.flight},
                                               holdKeys := sys.holdKeys - {row.seat.value})
                   else sys.(db := sys'.db)
      else sys' == sys
  {
    var completed := Complete(sys.db, id, row, weight, payment);
    if completed.Some? {
      AfterCompleteEffect(sys.(db := completed.value), row);
    }
  }

  lemma CancelForm(sys: System, id: CheckInId, p: PassengerId)
    ensures var (sys', r) := CancelCheckIn(sys, id, p);
      if r.Ok? then
        && id < |sys.db.checkIns|
        && var row := sys.db.checkIns[id];
        var signals := sys.signals + [Signal(row.flight, None)];
        && sys'.db == CancelAndFree(sys.db, id, row)
        && sys' == if row.seat.Some? then
             sys.(db := sys'.db, seatMaps := sys.seatMaps - {row.flight}, signals := signals,
                  holdKeys := sys.holdKeys - {row.seat.value})
           else sys.(db := sys'.db, signals := signals)
      else sys' == sys
  {
    if id < |sys.db.checkIns| {
      var row := sys.db.checkIns[id];
      var cancelled := sys.(db := CancelAndFree(sys.db, id, row));
      AfterCancelEffect(cancelled, row);
      AfterCompleteEffect(cancelled, row);
    }
  }

  lemma ReleaseForm(sys: System, lock: bool, x: SeatId)
    ensures var sys' := ReleaseSeat(sys, lock, x).0;
      if lock && Stale(sys, x) then
        var seat := sys.db.seats[x];
        var released := ReleaseHold(sys.db, x, seat.heldBy, seat.flight);
        && released.Some?
        && sys' == sys.(
             db := released.value.(waitlist := ExpireEntry(sys.db.waitlist, seat.heldBy, seat.flight)),
             seatMaps := sys.seatMaps - {seat.flight}, signals := sys.signals + [Signal(seat.flight, Some(x))])
      else sys' == sys
  {
    if Stale(sys, x) {
      var seat := sys.db.seats[x];
      var db := ReleaseHold(sys.db, x, seat.heldBy, seat.flight).value;
      var expired := db.(waitlist := ExpireEntry(db.waitlist, seat.heldBy, seat.flight));
      AfterReleaseEffect(sys.(db := expired), x, seat.flight);
    }
  }

  lemma ProcessForm(sys: System, lock: bool, f: FlightId, hint: Option<SeatId>,
                    head: Option<EntryId>, free: Option<SeatId>)
    ensures var sys' := ProcessWaitlist(sys, lock, f, hint, head, free);
      if && lock && head.Some? && IsHead(sys.db.waitlist, f, head.value)
         && free.Some? && SeatOffered(sys, f, hint, free.value)
         && AssignSeat(sys.db, head.value, sys.db.waitlist[head.value].passenger, f, free.value, sys.now).Some?
      then
        var p := sys.db.waitlist[head.value].passenger;
        && AssignSeat(sys.db, head.value, p, f, free.value, sys.now) == Some(sys'.db)
        && sys' == sys.(db := sys'.db, seatMaps := sys.seatMaps - {f},
                        holdKeys := sys.holdKeys[free.value := HoldKey(p, sys.now + SEAT_HOLD_MS)],
                        depth := sys.depth[f := Depth(sys.depth, f) - 1])
      else sys' == sys
  {
    if head.Some? && IsHead(sys.db.waitlist, f, head.value) && free.Some? {
      var p := sys.db.waitlist[head.value].passenger;
      var held := AssignSeat(sys.db, head.value, p, f, free.value, sys.now);
      if held.Some? {
        AfterAssignEffect(sys.(db := held.value), free.value, p, f);
      }
    }
  }

  // ---- Runs of single-step calls are schedules ----

  lemma ReleaseIsSchedule(s: State, lock: bool, x: SeatId) returns (es: seq<Event>)
    ensures Exec(s, es) == s.(sys := ReleaseSeat(s.sys, lock, x).0)
  {
    es := [];
    if lock {
      ReleaseIsRun(s.sys, x);
      es := WholeCall(s, ReleaseRequest(x), Acks(5), ReleaseSeat(s.sys, true, x).0);
    }
  }

  lemma {:induction false} SweepIsSchedule(s: State, order: seq<SeatId>, granted: set<SeatId>) returns (es: seq<Event>)
    ensures Exec(s, es) == s.(sys := ReleaseEach(s.sys, order, granted))
    decreases |order|
  {
    es := [];
    if order != [] {
      var n := |order| - 1;
      var before := SweepIsSchedule(s, order[..n], granted);
      var last := ReleaseIsSchedule(Exec(s, before), order[n] in granted, order[n]);
      ExecConcat(s, before, last);
      es := before + last;
    }
  }

  lemma DoIsSchedule(s: State, call: SerialCall) returns (es: seq<Event>)
    ensures Exec(s, es) == s.(sys := Do(s.sys, call))
  {
    var sys := s.sys;
    es := [];
    match call {
      case Wait(ms) =>
        ExecOne(s, Tick(ms));
        es := [Tick(ms)];
      case Start(p, f, x) =>
        StartIsRun(sys, p, f, x);
        es := WholeCall(s, StartRequest(p, f, x), Acks(5), Do(sys, call));
      case Confirm(id, p, weight, paid) =>
        if weight >= 0.0 {
          ConfirmIsRun(sys, id, p, weight, paid);
          es := WholeCall(s, ConfirmRequest(id, p, weight), ConfirmReplies(paid), Do(sys, call));
        }
      case Cancel(id, p) =>
        CancelIsRun(sys, id, p);
        es := WholeCall(s, CancelRequest(id, p), Acks(5), Do(sys, call));
      case Release(x) => es := ReleaseIsSchedule(s, true, x);
      case Sweep(order, granted) => if ListsStale(sys, order) { es := SweepIsSchedule(s, order, granted); }
      case Join(p, f) =>
        JoinIsRun(sys, p, f);
        es := WholeCall(s, JoinRequest(p, f), Acks(3), Do(sys, call));
      case Leave(e, p) =>
        LeaveIsRun(sys, e, p);
        es := WholeCall(s, LeaveRequest(e, p), Acks(2), Do(sys, call));
      case Process(f, hint, head, free) =>
        if head.Some? && free.Some? {
          ProcessIsRun(sys, f, hint, head.value, free.value);
          es := WholeCall(s, ProcessRequest(f, hint, head.value), [SeatReply(free.value)] + Acks(5), Do(sys, call));
        }
    }
  }

  /** Every run of single-step calls is a schedule of the machine, so what holds of all schedules holds of it. */
  lemma {:induction false} SerialRunIsSchedule(s: State, calls: seq<SerialCall>) returns (es: seq<Event>)
    ensures Exec(s, es) == s.(sys := DoAll(s.sys, calls))
    decreases |calls|
  {
    es := [];
    if calls != [] {
      var n := |calls| - 1;
      var before := SerialRunIsSchedule(s, calls[..n]);
      var last := DoIsSchedule(Exec(s, before), calls[n]);
      ExecConcat(s, before, last);
      es := before + last;
    }
  }
}
