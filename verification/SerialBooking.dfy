/** When seats and check-ins stay in bijection, for calls that each run as one step. */
module SerialBooking {
  import opened Domain
  import opened Baggage
  import opened Tables
  import opened Machine
  import opened Invariants
  import opened Preservation
  import opened Booking
  import opened Calls
  import opened Serial
  import opened Sweeps

  /** A check-in that awaits payment loses its seat to the release of `xs`. */
  predicate LosesPaidFor(sys: System, xs: set<SeatId>, row: CheckIn) {
    row.status.AwaitingPayment? && row.seat.Some? && row.seat.value in xs && Stale(sys, row.seat.value)
  }

  ghost predicate ReleasesSafely(sys: System, xs: set<SeatId>) {
    forall i :: 0 <= i < |sys.db.checkIns| ==> !LosesPaidFor(sys, xs, sys.db.checkIns[i])
  }

  /** A cancellation that goes through finds its check-in live, or at least its seat not taken by someone else. */
  predicate CancelsOwn(sys: System, id: CheckInId, p: PassengerId) {
    CancelCheckIn(sys, id, p).1.Ok? ==>
      var row := sys.db.checkIns[id];
      row.Live() || (row.seat.Some? && IsAvailable(sys.db.seats, row.seat.value))
  }

  /**
   * The two ways in which an uninterrupted call can break the correspondence: cancelling a check-in that is
   * already cancelled and whose seat someone else has taken, and ending a hold whose check-in awaits payment.
   */
  ghost predicate SafeCall(sys: System, call: SerialCall) {
    match call
    case Cancel(id, p) => CancelsOwn(sys, id, p)
    case Release(x) => ReleasesSafely(sys, {x})
    case Sweep(order, granted) => ListsStale(sys, order) ==> ReleasesSafely(sys, OverdueSeats(sys) * granted)
    case _ => true
  }

  // ---- Each call ----

  lemma OneRelease(sys: System, x: SeatId)
    ensures ReleaseEach(sys, [x], {x}) == ReleaseSeat(sys, true, x).0
  {
  }

  lemma {:induction false} SweepKeeps(sys: System, order: seq<SeatId>, granted: set<SeatId>)
    requires DbOk(sys.db)
    ensures DbOk(ReleaseEach(sys, order, granted).db)
    decreases |order|
  {
    if order != [] {
      var n := |order| - 1;
      SweepKeeps(sys, order[..n], granted);
      SeatReleaseKeeps(ReleaseEach(sys, order[..n], granted), order[n] in granted, order[n]);
    }
  }

  lemma SeatReleaseKeeps(sys: System, lock: bool, x: SeatId)
    requires DbOk(sys.db)
    ensures DbOk(ReleaseSeat(sys, lock, x).0.db)
  {
    ReleaseForm(sys, lock, x);
    if lock && Stale(sys, x) {
      var seat := sys.db.seats[x];
      var db := ReleaseHold(sys.db, x, seat.heldBy, seat.flight).value;
      ReleaseKeeps(sys.db, x, seat.heldBy, seat.flight, db);
      WaitlistKeeps(db, ReleaseSeat(sys, lock, x).0.db);
    }
  }

  ghost predicate Freed(sys: System, db': Db, xs: set<SeatId>) {
    db'.seats == FreedSeats(sys, xs) && db'.checkIns == FreedRows(sys, xs)
  }

  lemma FreedSeated(sys: System, db': Db, xs: set<SeatId>, i: CheckInId)
    requires Freed(sys, db', xs) && i < |sys.db.checkIns| && Seated(sys.db, sys.db.checkIns[i])
    requires db'.checkIns[i].Live()
    ensures Seated(db', db'.checkIns[i]) <==> !LosesPaidFor(sys, xs, sys.db.checkIns[i])
  {
  }

  lemma FreedOccupied(sys: System, db': Db, xs: set<SeatId>, y: SeatId)
    requires Freed(sys, db', xs) && Bijective(sys.db)
    requires y in db'.seats && Occupied(db'.seats[y])
    ensures exists i: CheckInId :: Occupies(db'.checkIns, i, y)
  {
    assert Occupied(sys.db.seats[y]);
    var i: CheckInId :| Occupies(sys.db.checkIns, i, y);
    assert Occupies(db'.checkIns, i, y);
  }

  /**
   * Freeing the stale seats of `xs` at once keeps the correspondence exactly when no one was paying for one of them.
   */
  lemma FreedBijective(sys: System, db': Db, xs: set<SeatId>)
    requires Bijective(sys.db) && Freed(sys, db', xs)
    ensures Bijective(db') <==> ReleasesSafely(sys, xs)
  {
    var rows := sys.db.checkIns;
    forall i | 0 <= i < |rows| && db'.checkIns[i].Live()
      ensures rows[i].Live()
      ensures Seated(db', db'.checkIns[i]) <==> !LosesPaidFor(sys, xs, rows[i])
    {
      FreedSeated(sys, db', xs, i);
    }
    forall y | y in db'.seats && Occupied(db'.seats[y])
      ensures exists i: CheckInId :: Occupies(db'.checkIns, i, y)
    {
      FreedOccupied(sys, db', xs, y);
    }
    assert forall i :: 0 <= i < |rows| && LosesPaidFor(sys, xs, rows[i]) ==> db'.checkIns[i].Live();
  }

  lemma SweepBijective(sys: System, order: seq<SeatId>, granted: set<SeatId>)
    requires DbOk(sys.db) && Bijective(sys.db) && ListsStale(sys, order)
    ensures DbOk(ReleaseEach(sys, order, granted).db)
    ensures Bijective(ReleaseEach(sys, order, granted).db) <==> ReleasesSafely(sys, OverdueSeats(sys) * granted)
  {
    SweepKeeps(sys, order, granted);
    LoopFrees(sys, order, granted);
    SweepSet(sys, order);
    FreedBijective(sys, ReleaseEach(sys, order, granted).db, OverdueSeats(sys) * granted);
  }

  lemma ReleaseBijects(sys: System, x: SeatId)
    requires DbOk(sys.db) && Bijective(sys.db)
    ensures DbOk(ReleaseSeat(sys, true, x).0.db)
    ensures Bijective(ReleaseSeat(sys, true, x).0.db) <==> ReleasesSafely(sys, {x})
  {
    OneRelease(sys, x);
    SeatReleaseKeeps(sys, true, x);
    LoopFrees(sys, [x], {x});
    assert Elements([x]) * {x} == {x};
    FreedBijective(sys, ReleaseSeat(sys, true, x).0.db, {x});
  }

  lemma StartBijects(sys: System, p: PassengerId, f: FlightId, x: SeatId)
    requires DbOk(sys.db) && Bijective(sys.db)
    ensures var sys' := StartCheckIn(sys, true, p, f, x).0; DbOk(sys'.db) && Bijective(sys'.db)
  {
    StartForm(sys, true, p, f, x);
    var sys' := StartCheckIn(sys, true, p, f, x).0;
    if sys' != sys {
      var log := SeatHeld(x, p, f, |sys.db.checkIns|);
      AcquireKeeps(sys.db, p, f, x, sys.now, log, sys'.db);
      AcquireBijective(sys.db, p, f, x, sys.now, log, sys'.db);
    }
  }

  lemma ProcessBijects(sys: System, f: FlightId, hint: Option<SeatId>, head: Option<EntryId>, free: Option<SeatId>)
    requires DbOk(sys.db) && Bijective(sys.db)
    ensures var sys' := ProcessWaitlist(sys, true, f, hint, head, free); DbOk(sys'.db) && Bijective(sys'.db)
  {
    ProcessForm(sys, true, f, hint, head, free);
    var sys' := ProcessWaitlist(sys, true, f, hint, head, free);
    if sys' != sys {
      var e, x := head.value, free.value;
      var p := sys.db.waitlist[e].passenger;
      var log := WaitlistAssigned(e, f, x, p, |sys.db.checkIns|);
      var db := Acquire(sys.db, p, f, x, sys.now, log).value;
      AcquireKeeps(sys.db, p, f, x, sys.now, log, db);
      AcquireBijective(sys.db, p, f, x, sys.now, log, db);
      WaitlistKeeps(db, sys'.db);
      SameRows(db, sys'.db);
    }
  }

  lemma FinaliseBijects(sys: System, id: CheckInId, row: CheckIn, weight: real, payment: Option<string>)
    requires DbOk(sys.db) && Bijective(sys.db) && Reads(sys.db, id, row) && sys.db.checkIns[id].Live()
    ensures var sys' := Finalise(sys, id, row, weight, payment).0; DbOk(sys'.db) && Bijective(sys'.db)
  {
    FinaliseForm(sys, id, row, weight, payment);
    var sys' := Finalise(sys, id, row, weight, payment).0;
    if sys' != sys {
      CompleteKeeps(sys.db, id, row, weight, payment, sys'.db);
      CompleteBijective(sys.db, id, row, weight, payment, sys'.db);
    }
  }

  /** Storing the excess fee, and completing once it is paid. */
  lemma ExcessBijects(sys: System, id: CheckInId, row: CheckIn, weight: real, fee: real, paid: Option<string>, db: Db)
    requires DbOk(sys.db) && Bijective(sys.db) && Reads(sys.db, id, row) && sys.db.checkIns[id].Pending()
    requires AwaitPayment(sys.db, id, weight, fee) == Some(db)
    ensures DbOk(db) && Bijective(db)
    ensures paid.Some? ==>
      var paying := sys.(db := db, payments := sys.payments + {Payment(paid.value, id, fee)});
      var sys' := Finalise(paying, id, row, weight, paid).0;
      DbOk(sys'.db) && Bijective(sys'.db)
  {
    AwaitKeeps(sys.db, id, weight, fee, db);
    AwaitBijective(sys.db, id, row, weight, fee, db);
    if paid.Some? {
      FinaliseBijects(sys.(db := db, payments := sys.payments + {Payment(paid.value, id, fee)}), id, row, weight, paid);
    }
  }

  /** A confirmation that is not interrupted is always safe: its own checks make sure of the check-in it completes. */
  lemma ConfirmBijects(sys: System, id: CheckInId, p: PassengerId, weight: real, paid: Option<string>)
    requires DbOk(sys.db) && Bijective(sys.db) && weight >= 0.0
    ensures var sys' := ConfirmCheckIn(sys, id, p, weight, paid).0; DbOk(sys'.db) && Bijective(sys'.db)
  {
    if id < |sys.db.checkIns| && MayConfirm(sys, sys.db.checkIns[id]) {
      var row, fee := sys.db.checkIns[id], CalculateFee(sys.config, weight).excessFee;
      FinaliseBijects(sys, id, row, weight, None);
      var awaiting := AwaitPayment(sys.db, id, weight, fee);
      if awaiting.Some? {
        ExcessBijects(sys, id, row, weight, fee, paid, awaiting.value);
      }
    }
  }

  lemma CancelBijects(sys: System, id: CheckInId, p: PassengerId)
    requires DbOk(sys.db) && Bijective(sys.db)
    ensures DbOk(CancelCheckIn(sys, id, p).0.db)
    ensures Bijective(CancelCheckIn(sys, id, p).0.db) <==> CancelsOwn(sys, id, p)
  {
    CancelForm(sys, id, p);
    if CancelCheckIn(sys, id, p).1.Ok? {
      var row, db' := sys.db.checkIns[id], CancelAndFree(sys.db, id, sys.db.checkIns[id]);
      assert RowOk(sys.db, row);
      CancelKeeps(sys.db, id, row, db');
      CancelBijective(sys.db, id, row, db');
      AfterCancelEffect(sys.(db := db'), row);
      AfterCompleteEffect(sys.(db := db'), row);
    }
  }

  lemma QueueBijects(db: Db, db': Db)
    requires DbOk(db) && Bijective(db) && db' == db.(waitlist := db'.waitlist)
    ensures DbOk(db') && Bijective(db')
  {
  }

  lemma DoBijective(sys: System, call: SerialCall)
    requires DbOk(sys.db) && Bijective(sys.db)
    ensures DbOk(Do(sys, call).db)
    ensures Bijective(Do(sys, call).db) <==> SafeCall(sys, call)
  {
    match call {
      case Wait(_) =>
      case Start(p, f, x) => StartBijects(sys, p, f, x);
      case Confirm(id, p, weight, paid) => if weight >= 0.0 { ConfirmBijects(sys, id, p, weight, paid); }
      case Cancel(id, p) => CancelBijects(sys, id, p);
      case Release(x) => ReleaseBijects(sys, x);
      case Sweep(order, granted) => if ListsStale(sys, order) { SweepBijective(sys, order, granted); }
      case Join(p, f) =>
        JoinLeavesSeats(sys, p, f);
        QueueBijects(sys.db, Do(sys, call).db);
      case Leave(e, p) =>
        LeaveLeavesSeats(sys, e, p);
        QueueBijects(sys.db, Do(sys, call).db);
      case Process(f, hint, head, free) => ProcessBijects(sys, f, hint, head, free);
    }
  }

  // ---- Runs ----

  ghost predicate SafeCalls(sys: System, calls: seq<SerialCall>)
    decreases |calls|
  {
    calls == [] ||
    (var n := |calls| - 1; SafeCalls(sys, calls[..n]) && SafeCall(DoAll(sys, calls[..n]), calls[n]))
  }

  ghost predicate AlwaysBijective(sys: System, calls: seq<SerialCall>)
    decreases |calls|
  {
    Bijective(DoAll(sys, calls).db) && (calls == [] || AlwaysBijective(sys, calls[..|calls| - 1]))
  }

  lemma {:induction false} SerialRun(sys: System, calls: seq<SerialCall>)
    requires DbOk(sys.db) && Bijective(sys.db)
    ensures AlwaysBijective(sys, calls) <==> SafeCalls(sys, calls)
    ensures AlwaysBijective(sys, calls) ==> DbOk(DoAll(sys, calls).db)
    decreases |calls|
  {
    if calls != [] {
      var n := |calls| - 1;
      SerialRun(sys, calls[..n]);
      if AlwaysBijective(sys, calls[..n]) {
        DoBijective(DoAll(sys, calls[..n]), calls[n]);
      }
    }
  }

  /**
   * When calls run one at a time, seats and check-ins correspond throughout if and only if no check-in is
   * cancelled a second time after its seat was taken by someone else, and no hold lapses while its check-in
   * awaits payment.
   */
  lemma NoDoubleBookingSerially(init: State, calls: seq<SerialCall>)
    requires Init(init)
    ensures AlwaysBijective(init.sys, calls) <==> SafeCalls(init.sys, calls)
  {
    InitInv(init);
    SerialRun(init.sys, calls);
  }
}
