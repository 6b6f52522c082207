/** When seats and check-ins stay in bijection, exactly. */
module Booking {
  import opened Domain
  import opened Baggage
  import opened Tables
  import opened Machine
  import opened Invariants
  import opened Preservation

  /** The row's seat is occupied for this passenger, held while the check-in is pending and confirmed once completed. */
  predicate Seated(db: Db, row: CheckIn) {
    && row.seat.Some? && row.seat.value in db.seats
    && var seat := db.seats[row.seat.value];
    seat.heldBy == Some(row.passenger) && if row.status.Completed? then seat.status.Confirmed? else seat.status.Held?
  }

  predicate Occupied(seat: Seat) {
    seat.status.Held? || seat.status.Confirmed?
  }

  predicate Occupies(rows: seq<CheckIn>, i: CheckInId, x: SeatId) {
    i < |rows| && rows[i].Live() && rows[i].seat == Some(x)
  }

  /** Live check-ins and occupied seats correspond one to one. */
  ghost predicate Bijective(db: Db) {
    && (forall i :: 0 <= i < |db.checkIns| && db.checkIns[i].Live() ==> Seated(db, db.checkIns[i]))
    && (forall x :: x in db.seats && Occupied(db.seats[x]) ==> exists i: CheckInId :: Occupies(db.checkIns, i, x))
  }

  /** The correspondence is injective: a seat has at most one live check-in, so at most one completed one. */
  lemma OneLivePerSeat(db: Db, x: SeatId, i: CheckInId, j: CheckInId)
    requires DbOk(db) && Bijective(db)
    requires Occupies(db.checkIns, i, x) && Occupies(db.checkIns, j, x)
    ensures i == j
  {
  }

  /** What a caller can check, just before a step commits, about the rows the step is about to overwrite by id. */
  ghost predicate SafeStep(sys: System, call: Call) {
    var db := sys.db;
    match call
    case Validated(id, row, weight) =>
      var fee := CalculateFee(sys.config, weight);
      if fee.isOverweight then
        AwaitPayment(db, id, weight, fee.excessFee).Some? ==> id < |db.checkIns| && db.checkIns[id].Pending()
      else
        Complete(db, id, row, weight, None).Some? ==> id < |db.checkIns| && db.checkIns[id].Live()
    case Paid(id, row, weight, transaction) =>
      Complete(db, id, row, weight, Some(transaction)).Some? ==> id < |db.checkIns| && db.checkIns[id].Live()
    case Permitted(id, row) =>
      id < |db.checkIns| && (db.checkIns[id].Live() || (row.seat.Some? && IsAvailable(db.seats, row.seat.value)))
    case Releasing(x, holder, f) =>
      ReleaseHold(db, x, holder, f).Some? ==>
        forall i :: 0 <= i < |db.checkIns| && db.checkIns[i].seat == Some(x) ==> !db.checkIns[i].status.AwaitingPayment?
    case _ => true
  }

  ghost predicate SafeEvent(s: State, e: Event) {
    e.Advance? && e.c in s.calls ==> SafeStep(s.sys, s.calls[e.c])
  }

  /** A passenger of record on an occupied seat has the live check-in for it. */
  lemma HolderIsLive(db: Db, id: CheckInId, x: SeatId)
    requires DbOk(db) && Bijective(db)
    requires id < |db.checkIns| && db.checkIns[id].seat == Some(x) && x in db.seats
    requires db.seats[x].heldBy == Some(db.checkIns[id].passenger)
    ensures db.checkIns[id].Live()
  {
  }

  lemma AcquireBijective(db: Db, p: PassengerId, f: FlightId, x: SeatId, heldAt: nat, log: Audit, db': Db)
    requires DbOk(db) && Bijective(db) && Acquire(db, p, f, x, heldAt, log) == Some(db')
    ensures Bijective(db')
  {
    forall y | y in db'.seats && Occupied(db'.seats[y])
      ensures exists i: CheckInId :: Occupies(db'.checkIns, i, y)
    {
      if y == x {
        assert Occupies(db'.checkIns, |db.checkIns|, x);
      } else {
        var i: CheckInId :| Occupies(db.checkIns, i, y);
        assert Occupies(db'.checkIns, i, y);
      }
    }
    forall i | 0 <= i < |db'.checkIns| && db'.checkIns[i].Live()
      ensures Seated(db', db'.checkIns[i])
    {
      if i < |db.checkIns| {
        assert Seated(db, db.checkIns[i]);
      }
    }
  }

  /** Seats other than `x`, when only `x` and check-in `id` for it change. */
  lemma ElsewhereOccupied(db: Db, db': Db, id: CheckInId, x: SeatId, y: SeatId)
    requires Bijective(db) && id < |db.checkIns| == |db'.checkIns| && db.checkIns[id].seat == Some(x)
    requires forall i :: 0 <= i < |db.checkIns| && i != id ==> db'.checkIns[i] == db.checkIns[i]
    requires y != x && y in db.seats && Occupied(db.seats[y])
    ensures exists i: CheckInId :: Occupies(db'.checkIns, i, y)
  {
    var i: CheckInId :| Occupies(db.checkIns, i, y);
    assert Occupies(db'.checkIns, i, y);
  }

  lemma CompleteBijective(db: Db, id: CheckInId, row: CheckIn, weight: real, payment: Option<string>, db': Db)
    requires DbOk(db) && Bijective(db) && Reads(db, id, row)
    requires Complete(db, id, row, weight, payment) == Some(db')
    ensures Bijective(db') <==> db.checkIns[id].Live()
  {
    assert RowOk(db, db.checkIns[id]);
    var x := row.seat.value;
    if db.checkIns[id].Live() {
      assert Seated(db, db.checkIns[id]);
      forall i | 0 <= i < |db'.checkIns| && db'.checkIns[i].Live()
        ensures Seated(db', db'.checkIns[i])
      {
        if i != id {
          assert Seated(db, db.checkIns[i]);
          if db.checkIns[i].seat == Some(x) {
            OneLivePerSeat(db, x, i, id);
          }
        }
      }
      forall y | y in db'.seats && Occupied(db'.seats[y])
        ensures exists i: CheckInId :: Occupies(db'.checkIns, i, y)
      {
        if y == x {
          assert Occupies(db'.checkIns, id, x);
        } else {
          ElsewhereOccupied(db, db', id, x, y);
        }
      }
    } else if Bijective(db') {
      assert Seated(db', db'.checkIns[id]);
      HolderIsLive(db, id, x);
    }
  }

  lemma AwaitBijective(db: Db, id: CheckInId, row: CheckIn, weight: real, fee: real, db': Db)
    requires DbOk(db) && Bijective(db) && Reads(db, id, row)
    requires AwaitPayment(db, id, weight, fee) == Some(db')
    ensures Bijective(db') <==> db.checkIns[id].Pending()
  {
    assert RowOk(db, db.checkIns[id]);
    var x := row.seat.value;
    if db.checkIns[id].Pending() {
      assert Seated(db, db.checkIns[id]);
      forall y | y in db'.seats && Occupied(db'.seats[y])
        ensures exists i: CheckInId :: Occupies(db'.checkIns, i, y)
      {
        var i: CheckInId :| Occupies(db.checkIns, i, y);
        assert Occupies(db'.checkIns, i, y);
      }
      forall i | 0 <= i < |db'.checkIns| && db'.checkIns[i].Live()
        ensures Seated(db', db'.checkIns[i])
      {
        assert Seated(db, db.checkIns[i]);
      }
    } else if Bijective(db') {
      assert Seated(db', db'.checkIns[id]);
      HolderIsLive(db, id, x);
    }
  }

  lemma CancelBijective(db: Db, id: CheckInId, row: CheckIn, db': Db)
    requires DbOk(db) && Bijective(db) && Reads(db, id, row)
    requires db' == CancelAndFree(db, id, row)
    ensures Bijective(db') <==> db.checkIns[id].Live() || IsAvailable(db.seats, row.seat.value)
  {
    assert RowOk(db, db.checkIns[id]);
    var x := row.seat.value;
    assert SeatOk(db.seats[x], x, db.checkIns);
    if db.checkIns[id].Live() {
      forall i | 0 <= i < |db'.checkIns| && db'.checkIns[i].Live()
        ensures Seated(db', db'.checkIns[i])
      {
        assert Seated(db, db.checkIns[i]);
        if db.checkIns[i].seat == Some(x) {
          OneLivePerSeat(db, x, i, id);
        }
      }
      forall y | y in db'.seats && Occupied(db'.seats[y])
        ensures exists i: CheckInId :: Occupies(db'.checkIns, i, y)
      {
        ElsewhereOccupied(db, db', id, x, y);
      }
    } else if IsAvailable(db.seats, x) {
      assert db'.seats == db.seats && db'.checkIns == db.checkIns;
    } else {
      var i: CheckInId :| Occupies(db.checkIns, i, x);
      assert i != id && !Seated(db', db'.checkIns[i]);
    }
  }

  /** A release of a seat that nobody pays for cancels the seat's only live check-in and touches no other. */
  lemma ReleaseKeepsOthers(db: Db, x: SeatId, holder: Option<PassengerId>, f: FlightId, db': Db, i: CheckInId)
    requires DbOk(db) && Bijective(db) && ReleaseHold(db, x, holder, f) == Some(db')
    requires i < |db.checkIns| && db'.checkIns[i].Live()
    requires db.checkIns[i].seat == Some(x) ==> !db.checkIns[i].status.AwaitingPayment?
    ensures db.checkIns[i].Live() && db.checkIns[i].seat != Some(x) && Seated(db', db'.checkIns[i])
  {
    assert Seated(db, db.checkIns[i]);
  }

  lemma ReleaseBijective(db: Db, x: SeatId, holder: Option<PassengerId>, f: FlightId, db': Db)
    requires DbOk(db) && Bijective(db) && SeatIn(db, x, f)
    requires ReleaseHold(db, x, holder, f) == Some(db')
    ensures Bijective(db') <==>
      forall i :: 0 <= i < |db.checkIns| && db.checkIns[i].seat == Some(x) ==> !db.checkIns[i].status.AwaitingPayment?
  {
    if i :| 0 <= i < |db.checkIns| && db.checkIns[i].seat == Some(x) && db.checkIns[i].status.AwaitingPayment? {
      assert db'.checkIns[i].Live() && !Seated(db', db'.checkIns[i]);
    } else {
      forall i | 0 <= i < |db'.checkIns| && db'.checkIns[i].Live()
        ensures Seated(db', db'.checkIns[i])
      {
        ReleaseKeepsOthers(db, x, holder, f, db', i);
      }
      forall y | y in db'.seats && Occupied(db'.seats[y])
        ensures exists i: CheckInId :: Occupies(db'.checkIns, i, y)
      {
        var i: CheckInId :| Occupies(db.checkIns, i, y);
        assert Occupies(db'.checkIns, i, y);
      }
    }
  }

  lemma AcquisitionBijective(sys: System, call: Call, reply: Reply)
    requires DbOk(sys.db) && Bijective(sys.db) && (call.Holding? || call.Seating?)
    ensures Bijective(Step(sys, call, reply).0.db)
  {
    var db := sys.db;
    var log := if call.Holding? then SeatHeld(call.seat, call.passenger, call.flight, |db.checkIns|)
               else WaitlistAssigned(call.entry, call.flight, call.seat, call.passenger, |db.checkIns|);
    var held := Acquire(db, call.passenger, call.flight, call.seat, call.heldAt, log);
    if held.Some? {
      AcquireBijective(db, call.passenger, call.flight, call.seat, call.heldAt, log, held.value);
      SameRows(held.value, Step(sys, call, reply).0.db);
    }
  }

  lemma ValidatedBijective(sys: System, call: Call, reply: Reply)
    requires DbOk(sys.db) && CallOk(sys, call) && Bijective(sys.db) && call.Validated?
    ensures Bijective(Step(sys, call, reply).0.db) <==> SafeStep(sys, call)
  {
    var Validated(id, row, weight) := call;
    var fee := CalculateFee(sys.config, weight);
    var awaiting, completed := AwaitPayment(sys.db, id, weight, fee.excessFee), Complete(sys.db, id, row, weight, None);
    if fee.isOverweight {
      if awaiting.Some? {
        AwaitBijective(sys.db, id, row, weight, fee.excessFee, awaiting.value);
      }
    } else if completed.Some? {
      CompleteBijective(sys.db, id, row, weight, None, completed.value);
    }
  }

  lemma PaidBijective(sys: System, call: Call, reply: Reply)
    requires DbOk(sys.db) && CallOk(sys, call) && Bijective(sys.db) && call.Paid?
    ensures Bijective(Step(sys, call, reply).0.db) <==> SafeStep(sys, call)
  {
    var Paid(id, row, weight, transaction) := call;
    var completed := Complete(sys.db, id, row, weight, Some(transaction));
    if completed.Some? {
      CompleteBijective(sys.db, id, row, weight, Some(transaction), completed.value);
    }
  }

  lemma PermittedBijective(sys: System, call: Call, reply: Reply)
    requires DbOk(sys.db) && CallOk(sys, call) && Bijective(sys.db) && call.Permitted?
    ensures Bijective(Step(sys, call, reply).0.db) <==> SafeStep(sys, call)
  {
    var Permitted(id, row) := call;
    assert RowOk(sys.db, sys.db.checkIns[id]);
    CancelBijective(sys.db, id, row, CancelAndFree(sys.db, id, row));
  }

  lemma ReleasingBijective(sys: System, call: Call, reply: Reply)
    requires DbOk(sys.db) && CallOk(sys, call) && Bijective(sys.db) && call.Releasing?
    ensures Bijective(Step(sys, call, reply).0.db) <==> SafeStep(sys, call)
  {
    var Releasing(x, holder, f) := call;
    var freed := ReleaseHold(sys.db, x, holder, f);
    if freed.Some? {
      ReleaseBijective(sys.db, x, holder, f, freed.value);
    }
  }

  lemma OtherBijective(sys: System, call: Call, reply: Reply)
    requires Bijective(sys.db)
    requires !Writes(call) || call.Expiring? || call.Positioned? || call.Leaving?
    ensures Bijective(Step(sys, call, reply).0.db) && SafeStep(sys, call)
  {
    SameRows(sys.db, Step(sys, call, reply).0.db);
  }

  lemma StepBijective(sys: System, call: Call, reply: Reply)
    requires DbOk(sys.db) && CallOk(sys, call) && Bijective(sys.db)
    ensures Bijective(Step(sys, call, reply).0.db) <==> SafeStep(sys, call)
  {
    if call.Holding? || call.Seating? {
      AcquisitionBijective(sys, call, reply);
    } else if call.Validated? {
      ValidatedBijective(sys, call, reply);
    } else if call.Paid? {
      PaidBijective(sys, call, reply);
    } else if call.Permitted? {
      PermittedBijective(sys, call, reply);
    } else if call.Releasing? {
      ReleasingBijective(sys, call, reply);
    } else {
      OtherBijective(sys, call, reply);
    }
  }

  lemma SameRows(db: Db, db': Db)
    requires db'.seats == db.seats && db'.checkIns == db.checkIns
    ensures Bijective(db') <==> Bijective(db)
  {
  }

  // ---- Runs ----

  /** Every event of the schedule is safe in the state it meets. */
  ghost predicate SafeThroughout(s: State, es: seq<Event>)
    decreases |es|
  {
    es == [] ||
    (var n := |es| - 1; SafeThroughout(s, es[..n]) && SafeEvent(Exec(s, es[..n]), es[n]))
  }

  /** Seats and check-ins correspond at the end of the schedule and after each of its prefixes. */
  ghost predicate BijectiveThroughout(s: State, es: seq<Event>)
    decreases |es|
  {
    Bijective(Exec(s, es).sys.db) && (es == [] || BijectiveThroughout(s, es[..|es| - 1]))
  }

  lemma NextBijective(s: State, e: Event)
    requires Inv(s) && Bijective(s.sys.db)
    ensures Bijective(Next(s, e).sys.db) <==> SafeEvent(s, e)
  {
    if e.Advance? && e.c in s.calls {
      StepBijective(s.sys, s.calls[e.c], e.reply);
    } else {
      SameRows(s.sys.db, Next(s, e).sys.db);
    }
  }

  lemma {:induction false} BijectiveRun(s: State, es: seq<Event>)
    requires Inv(s) && Bijective(s.sys.db)
    ensures BijectiveThroughout(s, es) <==> SafeThroughout(s, es)
    decreases |es|
  {
    if es != [] {
      var n := |es| - 1;
      BijectiveRun(s, es[..n]);
      if BijectiveThroughout(s, es[..n]) {
        ExecKeeps(s, es[..n]);
        NextBijective(Exec(s, es[..n]), es[n]);
      }
    }
  }

  /**
   * From a freshly seeded system, occupied seats and live check-ins correspond one to one throughout a run if
   * and only if no step of it overwrites a row that moved on: no completion of a cancelled check-in, no wait for
   * payment on a finished one, no second cancellation of a check-in whose seat someone else has taken, and no
   * lapse of a hold whose check-in awaits payment.
   */
  lemma NoDoubleBookingExactly(init: State, es: seq<Event>)
    requires Init(init)
    ensures BijectiveThroughout(init, es) <==> SafeThroughout(init, es)
  {
    InitInv(init);
    BijectiveRun(init, es);
  }

  /** In such a run no seat ever has two completed check-ins. */
  lemma OneCompletionPerSeat(init: State, es: seq<Event>, rows: seq<CheckIn>, i: CheckInId, j: CheckInId)
    requires Init(init) && SafeThroughout(init, es) && rows == Exec(init, es).sys.db.checkIns
    requires i < |rows| && j < |rows| && rows[i].seat == rows[j].seat
    requires rows[i].status.Completed? && rows[j].status.Completed?
    ensures i == j
  {
    NoDoubleBookingExactly(init, es);
    InitInv(init);
    ExecKeeps(init, es);
    var db := Exec(init, es).sys.db;
    assert RowOk(db, db.checkIns[i]);
    OneLivePerSeat(db, db.checkIns[i].seat.value, i, j);
  }
}
