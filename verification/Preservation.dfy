/** Each transaction, and hence each step of each call, keeps the invariants. */
module Preservation {
  import opened Domain
  import opened Baggage
  import opened Tables
  import opened Machine
  import opened Invariants

  lemma AppendAudit(audit: seq<Audit>, log: Audit, xs: set<SeatId>)
    ensures Acquisitions(audit + [log]) ==
      if log.IsAcquisition() then Acquisitions(audit) + [Acquisition(log.passenger, log.flight, log.seat)]
      else Acquisitions(audit)
    ensures Replay(audit + [log], xs) == ReplayEntry(Replay(audit, xs), log)
  {
    assert (audit + [log])[..|audit + [log]| - 1] == audit;
  }

  /** The keys, the uniqueness and the acquisition log, when no check-in is added. */
  lemma KeysCarry(db: Db, db': Db)
    requires DbOk(db) && DbEvolves(db, db') && |db'.checkIns| == |db.checkIns|
    requires Acquisitions(db'.audit) == Acquisitions(db.audit)
    ensures RowsOk(db') && UniqueOk(db'.checkIns) && AcquisitionsOk(db'.audit, db'.checkIns)
  {
  }

  /** Releases already logged stay releases of seats their holders no longer hold. */
  lemma ReleasesCarry(db: Db, db': Db, k: nat)
    requires ReleasesOk(db) && DbEvolves(db, db')
    requires k < |db.audit| && db.audit[k].SeatReleased?
    ensures ReleaseOk(db', db.audit[k])
  {
    var log := db.audit[k];
    assert ReleaseOk(db, log);
    HasOwnerStable(db.checkIns, db'.checkIns, log.seat, log.holder.value, db.seats[log.seat].flight);
    OwnerHasCheckIn(db.checkIns, log.seat, log.holder.value, db.seats[log.seat].flight);
  }

  lemma OwnerHasCheckIn(rows: seq<CheckIn>, x: SeatId, p: PassengerId, f: FlightId)
    requires HasOwner(rows, x, p, f)
    ensures HasCheckIn(rows, p, f)
  {
  }

  /** A seat the transaction does not touch stays consistent if its holder's check-in stays pending. */
  lemma SeatCarry(db: Db, db': Db, y: SeatId)
    requires y in db.seats && SeatOk(db.seats[y], y, db.checkIns)
    requires KeysKept(db.checkIns, db'.checkIns)
    requires db.seats[y].status.Held? ==>
      forall i :: 0 <= i < |db.checkIns| && db.checkIns[i].seat == Some(y) && db.checkIns[i].Pending()
        ==> db'.checkIns[i].Pending()
    ensures SeatOk(db.seats[y], y, db'.checkIns)
  {
    var seat := db.seats[y];
    if seat.status.Held? {
      var i: CheckInId :| Owns(db.checkIns, i, y, seat.heldBy.value, seat.flight) && db.checkIns[i].Pending();
      assert db.checkIns[i].SameKey(db'.checkIns[i]) && Owns(db'.checkIns, i, y, seat.heldBy.value, seat.flight);
    } else if seat.heldBy.Some? {
      HasOwnerStable(db.checkIns, db'.checkIns, y, seat.heldBy.value, seat.flight);
    }
  }

  /** The log's releases, after entries that record none. */
  lemma ReleasesExtend(db: Db, db': Db)
    requires ReleasesOk(db) && ReleasedOnce(db.audit) && DbEvolves(db, db') && db.audit <= db'.audit
    requires forall k :: |db.audit| <= k < |db'.audit| ==> !db'.audit[k].SeatReleased?
    ensures ReleasesOk(db') && ReleasedOnce(db'.audit)
  {
    forall k | 0 <= k < |db'.audit| && db'.audit[k].SeatReleased?
      ensures ReleaseOk(db', db'.audit[k])
    {
      ReleasesCarry(db, db', k);
    }
  }

  /** The seats, after a transaction that rewrites `x` alone and leaves the holds on other seats pending. */
  lemma SeatsExtend(db: Db, db': Db, x: SeatId)
    requires SeatsOk(db.seats, db.checkIns) && db'.seats.Keys == db.seats.Keys && KeysKept(db.checkIns, db'.checkIns)
    requires forall y :: y in db.seats && y != x ==> db'.seats[y] == db.seats[y]
    requires forall i :: (0 <= i < |db.checkIns| && db.checkIns[i].seat != Some(x) && db.checkIns[i].Pending()
                          ==> db'.checkIns[i].Pending())
    requires x in db'.seats ==> SeatOk(db'.seats[x], x, db'.checkIns)
    ensures SeatsOk(db'.seats, db'.checkIns)
  {
    forall y | y in db'.seats
      ensures SeatOk(db'.seats[y], y, db'.checkIns)
    {
      if y != x {
        SeatCarry(db, db', y);
      }
    }
  }

  lemma AppendTwo(audit: seq<Audit>, log0: Audit, log1: Audit, xs: set<SeatId>)
    requires !log0.IsAcquisition() && !log1.IsAcquisition()
    ensures Acquisitions(audit + [log0] + [log1]) == Acquisitions(audit)
    ensures Replay(audit + [log0] + [log1], xs) == ReplayEntry(ReplayEntry(Replay(audit, xs), log0), log1)
  {
    AppendAudit(audit, log0, xs);
    AppendAudit(audit + [log0], log1, xs);
  }

  lemma AcquireEvolves(db: Db, p: PassengerId, f: FlightId, x: SeatId, heldAt: nat, log: Audit, db': Db)
    requires Acquire(db, p, f, x, heldAt, log) == Some(db') && SeatIn(db, x, f)
    ensures DbEvolves(db, db')
  {
  }

  /** The inserted check-in satisfies the constraints, and is the last acquisition of the log. */
  lemma AcquireRows(db: Db, p: PassengerId, f: FlightId, x: SeatId, heldAt: nat, log: Audit, db': Db)
    requires DbOk(db) && SeatIn(db, x, f)
    requires log.IsAcquisition() && log.passenger == p && log.flight == f && log.seat == x
    requires Acquire(db, p, f, x, heldAt, log) == Some(db')
    ensures RowsOk(db') && UniqueOk(db'.checkIns) && AcquisitionsOk(db'.audit, db'.checkIns)
  {
    AppendAudit(db.audit, log, {});
    forall i | 0 <= i < |db.checkIns|
      ensures RowOk(db', db'.checkIns[i])
    {
      assert RowOk(db, db.checkIns[i]);
    }
    forall i | 0 <= i < |db.checkIns|
      ensures Acquired(Acquisitions(db'.audit)[i], db'.checkIns[i])
    {
      assert Acquired(Acquisitions(db.audit)[i], db.checkIns[i]);
    }
  }

  lemma AcquireReplays(db: Db, p: PassengerId, f: FlightId, x: SeatId, heldAt: nat, log: Audit, db': Db)
    requires ReplayOk(db) && log.IsAcquisition() && log.passenger == p && log.seat == x
    requires Acquire(db, p, f, x, heldAt, log) == Some(db')
    ensures ReplayOk(db')
  {
    AppendAudit(db.audit, log, db.seats.Keys);
    assert db'.seats.Keys == db.seats.Keys;
    assert SeatStates(db'.seats) == SeatStates(db.seats)[x := SeatState(Held, Some(p))];
  }

  /** The taken seat has its pending check-in, the one just inserted. */
  lemma AcquireSeats(db: Db, p: PassengerId, f: FlightId, x: SeatId, heldAt: nat, log: Audit, db': Db)
    requires SeatsOk(db.seats, db.checkIns) && SeatIn(db, x, f)
    requires Acquire(db, p, f, x, heldAt, log) == Some(db')
    ensures SeatsOk(db'.seats, db'.checkIns)
  {
    assert Owns(db'.checkIns, |db.checkIns|, x, p, f) && db'.checkIns[|db.checkIns|].Pending();
    SeatsExtend(db, db', x);
  }

  lemma AcquireReleases(db: Db, p: PassengerId, f: FlightId, x: SeatId, heldAt: nat, log: Audit, db': Db)
    requires ReleasesOk(db) && ReleasedOnce(db.audit) && DbEvolves(db, db') && log.IsAcquisition()
    requires Acquire(db, p, f, x, heldAt, log) == Some(db')
    ensures ReleasesOk(db') && ReleasedOnce(db'.audit)
  {
    ReleasesExtend(db, db');
  }

  lemma AcquireKeeps(db: Db, p: PassengerId, f: FlightId, x: SeatId, heldAt: nat, log: Audit, db': Db)
    requires DbOk(db) && SeatIn(db, x, f)
    requires log.IsAcquisition() && log.passenger == p && log.flight == f && log.seat == x
    requires Acquire(db, p, f, x, heldAt, log) == Some(db')
    ensures DbOk(db') && DbEvolves(db, db')
  {
    AcquireEvolves(db, p, f, x, heldAt, log, db');
    AcquireRows(db, p, f, x, heldAt, log, db');
    AcquireSeats(db, p, f, x, heldAt, log, db');
    AcquireReleases(db, p, f, x, heldAt, log, db');
    AcquireReplays(db, p, f, x, heldAt, log, db');
  }

  lemma ReleaseEvolves(db: Db, x: SeatId, holder: Option<PassengerId>, f: FlightId, db': Db)
    requires ReleaseHold(db, x, holder, f) == Some(db')
    ensures DbEvolves(db, db')
  {
  }

  /** The logged release is of a hold that its holder had, and of none released before. */
  lemma ReleaseLogged(db: Db, x: SeatId, holder: Option<PassengerId>, f: FlightId, db': Db)
    requires DbOk(db) && SeatIn(db, x, f) && DbEvolves(db, db')
    requires ReleaseHold(db, x, holder, f) == Some(db') && holder.Some?
    requires HasOwner(db'.checkIns, x, holder.value, f)
    ensures ReleasesOk(db') && ReleasedOnce(db'.audit)
  {
    forall k | 0 <= k < |db'.audit| && db'.audit[k].SeatReleased?
      ensures ReleaseOk(db', db'.audit[k])
      ensures k < |db.audit| ==> db.audit[k].seat != x || db.audit[k].holder != holder
    {
      if k < |db.audit| {
        ReleasesCarry(db, db', k);
        assert ReleaseOk(db, db.audit[k]);
      }
    }
  }

  lemma ReleaseReplays(db: Db, x: SeatId, holder: Option<PassengerId>, f: FlightId, db': Db)
    requires ReplayOk(db) && ReleaseHold(db, x, holder, f) == Some(db')
    ensures ReplayOk(db') && Acquisitions(db'.audit) == Acquisitions(db.audit)
  {
    AppendAudit(db.audit, SeatReleased(x, holder, f), db.seats.Keys);
    assert db'.seats.Keys == db.seats.Keys;
    assert SeatStates(db'.seats) == SeatStates(db.seats)[x := SeatState(Available, None)];
  }

  lemma ReleaseKeeps(db: Db, x: SeatId, holder: Option<PassengerId>, f: FlightId, db': Db)
    requires DbOk(db) && SeatIn(db, x, f)
    requires ReleaseHold(db, x, holder, f) == Some(db')
    ensures DbOk(db') && DbEvolves(db, db')
  {
    ReleaseEvolves(db, x, holder, f, db');
    ReleaseReplays(db, x, holder, f, db');
    KeysCarry(db, db');
    assert SeatOk(db.seats[x], x, db.checkIns);
    var i: CheckInId :| Owns(db.checkIns, i, x, holder.value, f) && db.checkIns[i].Pending();
    assert Owns(db.checkIns, i, x, holder.value, f);
    HasOwnerStable(db.checkIns, db'.checkIns, x, holder.value, f);
    ReleaseLogged(db, x, holder, f, db');
    SeatsExtend(db, db', x);
  }

  lemma CompleteEvolves(db: Db, id: CheckInId, row: CheckIn, weight: real, payment: Option<string>, db': Db)
    requires Complete(db, id, row, weight, payment) == Some(db') && Reads(db, id, row)
    ensures DbEvolves(db, db')
  {
  }

  lemma CompleteReplays(db: Db, id: CheckInId, row: CheckIn, weight: real, payment: Option<string>, db': Db)
    requires ReplayOk(db) && row.seat.Some? && row.seat.value in db.seats
    requires Complete(db, id, row, weight, payment) == Some(db')
    ensures ReplayOk(db') && Acquisitions(db'.audit) == Acquisitions(db.audit)
  {
    var x := row.seat.value;
    AppendTwo(db.audit, SeatConfirmed(x, row.passenger, row.flight, id),
              CheckInCompleted(id, row.passenger, row.flight, row.status, payment), db.seats.Keys);
    assert db'.seats.Keys == db.seats.Keys;
    assert SeatStates(db'.seats) == SeatStates(db.seats)[x := SeatState(Confirmed, db.seats[x].heldBy)];
  }

  lemma CompleteSeats(db: Db, id: CheckInId, row: CheckIn, weight: real, payment: Option<string>, db': Db)
    requires SeatsOk(db.seats, db.checkIns) && Reads(db, id, row) && row.seat.Some? && row.seat.value in db.seats
    requires Complete(db, id, row, weight, payment) == Some(db') && KeysKept(db.checkIns, db'.checkIns)
    ensures SeatsOk(db'.seats, db'.checkIns)
  {
    var x := row.seat.value;
    assert SeatOk(db.seats[x], x, db.checkIns);
    if db.seats[x].heldBy.Some? {
      ConfirmedKeepsOwner(db, db', x);
    }
    SeatsExtend(db, db', x);
  }

  lemma CompleteKeeps(db: Db, id: CheckInId, row: CheckIn, weight: real, payment: Option<string>, db': Db)
    requires DbOk(db) && Reads(db, id, row)
    requires Complete(db, id, row, weight, payment) == Some(db')
    ensures DbOk(db') && DbEvolves(db, db')
  {
    CompleteEvolves(db, id, row, weight, payment, db');
    assert RowOk(db, db.checkIns[id]);
    CompleteReplays(db, id, row, weight, payment, db');
    KeysCarry(db, db');
    CompleteSeats(db, id, row, weight, payment, db');
    ReleasesExtend(db, db');
  }

  lemma ConfirmedKeepsOwner(db: Db, db': Db, x: SeatId)
    requires x in db.seats && SeatOk(db.seats[x], x, db.checkIns) && db.seats[x].heldBy.Some?
    requires KeysKept(db.checkIns, db'.checkIns)
    ensures HasOwner(db'.checkIns, x, db.seats[x].heldBy.value, db.seats[x].flight)
  {
    var p, f := db.seats[x].heldBy.value, db.seats[x].flight;
    if db.seats[x].status.Held? {
      var i: CheckInId :| Owns(db.checkIns, i, x, p, f) && db.checkIns[i].Pending();
      assert Owns(db.checkIns, i, x, p, f);
    }
    HasOwnerStable(db.checkIns, db'.checkIns, x, p, f);
  }

  lemma CancelEvolves(db: Db, id: CheckInId, row: CheckIn)
    requires Reads(db, id, row)
    ensures DbEvolves(db, CancelAndFree(db, id, row))
  {
  }

  lemma CancelReplays(db: Db, id: CheckInId, row: CheckIn, db': Db)
    requires ReplayOk(db) && row.seat.Some? && row.seat.value in db.seats
    requires db' == CancelAndFree(db, id, row)
    ensures ReplayOk(db') && Acquisitions(db'.audit) == Acquisitions(db.audit)
  {
    var x := row.seat.value;
    AppendTwo(db.audit,
              SeatCancelled(x, row.passenger, row.flight, id, if row.status.Completed? then Confirmed else Held),
              CheckInCancelled(id, row.passenger, row.flight, row.status), db.seats.Keys);
    assert db'.seats.Keys == db.seats.Keys;
    assert SeatStates(db'.seats) == SeatStates(db.seats)[x := SeatState(Available, None)];
  }

  lemma CancelKeeps(db: Db, id: CheckInId, row: CheckIn, db': Db)
    requires DbOk(db) && Reads(db, id, row)
    requires db' == CancelAndFree(db, id, row)
    ensures DbOk(db') && DbEvolves(db, db')
  {
    CancelEvolves(db, id, row);
    assert RowOk(db, db.checkIns[id]);
    CancelReplays(db, id, row, db');
    KeysCarry(db, db');
    SeatsExtend(db, db', row.seat.value);
    ReleasesExtend(db, db');
  }

  lemma AwaitKeeps(db: Db, id: CheckInId, weight: real, fee: real, db': Db)
    requires DbOk(db)
    requires AwaitPayment(db, id, weight, fee) == Some(db')
    ensures DbOk(db') && DbEvolves(db, db')
  {
    KeysCarry(db, db');
    forall y | y in db'.seats
      ensures SeatOk(db'.seats[y], y, db'.checkIns)
    {
      SeatCarry(db, db', y);
    }
    ReleasesExtend(db, db');
  }

  /** Transactions on the waitlist alone. */
  lemma WaitlistKeeps(db: Db, db': Db)
    requires DbOk(db) && db' == db.(waitlist := db'.waitlist)
    ensures DbOk(db')
  {
  }

  // ---- Steps ----

  ghost predicate Kept(sys: System, sys': System) {
    DbOk(sys'.db) && Evolves(sys, sys')
  }

  lemma FinishCompleteKeeps(sys: System, id: CheckInId, row: CheckIn, weight: real, payment: Option<string>)
    requires DbOk(sys.db) && Reads(sys.db, id, row)
    ensures Kept(sys, FinishComplete(sys, id, row, weight, payment).0)
  {
    match Complete(sys.db, id, row, weight, payment)
    case Some(db) => CompleteKeeps(sys.db, id, row, weight, payment, db);
    case None =>
  }

  lemma HoldKeeps(db: Db, p: PassengerId, f: FlightId, x: SeatId, heldAt: nat, db': Db)
    requires DbOk(db) && SeatIn(db, x, f) && HoldSeat(db, p, f, x, heldAt) == Some(db')
    ensures DbOk(db') && DbEvolves(db, db')
  {
    AcquireKeeps(db, p, f, x, heldAt, SeatHeld(x, p, f, |db.checkIns|), db');
  }

  lemma AssignKeeps(db: Db, e: EntryId, p: PassengerId, f: FlightId, x: SeatId, heldAt: nat, db': Db)
    requires DbOk(db) && SeatIn(db, x, f) && AssignSeat(db, e, p, f, x, heldAt) == Some(db')
    ensures DbOk(db') && DbEvolves(db, db')
  {
    var log := WaitlistAssigned(e, f, x, p, |db.checkIns|);
    var held := Acquire(db, p, f, x, heldAt, log).value;
    AcquireKeeps(db, p, f, x, heldAt, log, held);
    WaitlistKeeps(held, db');
  }

  /** The database after the step of a hold or an assignment: the transaction's, or the old one. */
  lemma TakingStep(sys: System, call: Call, reply: Reply)
    requires call.Holding? || call.Seating?
    ensures var db := if call.Holding? then HoldSeat(sys.db, call.passenger, call.flight, call.seat, call.heldAt)
                      else AssignSeat(sys.db, call.entry, call.passenger, call.flight, call.seat, call.heldAt);
      Step(sys, call, reply).0 == if db.Some? then sys.(db := db.value) else sys
  {
  }

  lemma TakingKeeps(sys: System, call: Call, reply: Reply)
    requires DbOk(sys.db) && CallOk(sys, call) && (call.Holding? || call.Seating?)
    ensures Kept(sys, Step(sys, call, reply).0)
  {
    var sys' := Step(sys, call, reply).0;
    TakingStep(sys, call, reply);
    if sys' != sys {
      if call.Holding? {
        HoldKeeps(sys.db, call.passenger, call.flight, call.seat, call.heldAt, sys'.db);
      } else {
        AssignKeeps(sys.db, call.entry, call.passenger, call.flight, call.seat, call.heldAt, sys'.db);
      }
    }
  }

  lemma ValidatedKeeps(sys: System, call: Call, reply: Reply)
    requires DbOk(sys.db) && CallOk(sys, call) && call.Validated?
    ensures Kept(sys, Step(sys, call, reply).0)
  {
    var Validated(id, row, weight) := call;
    var fee := CalculateFee(sys.config, weight);
    if fee.isOverweight {
      match AwaitPayment(sys.db, id, weight, fee.excessFee)
      case Some(db) =>
        AwaitKeeps(sys.db, id, weight, fee.excessFee, db);
      case None =>
    } else {
      FinishCompleteKeeps(sys, id, row, weight, None);
    }
  }

  lemma CancellationKeeps(sys: System, call: Call, reply: Reply)
    requires DbOk(sys.db) && CallOk(sys, call) && call.Permitted?
    ensures Kept(sys, Step(sys, call, reply).0)
  {
    var db := CancelAndFree(sys.db, call.id, call.row);
    CancelKeeps(sys.db, call.id, call.row, db);
  }

  lemma ReleasingKeeps(sys: System, call: Call, reply: Reply)
    requires DbOk(sys.db) && CallOk(sys, call) && call.Releasing?
    ensures Kept(sys, Step(sys, call, reply).0)
  {
    var Releasing(x, holder, f) := call;
    match ReleaseHold(sys.db, x, holder, f)
    case Some(db) =>
      ReleaseKeeps(sys.db, x, holder, f, db);
    case None =>
  }

  lemma QueueingKeeps(sys: System, call: Call, reply: Reply)
    requires DbOk(sys.db) && (call.Expiring? || call.Positioned? || call.Leaving?)
    ensures Kept(sys, Step(sys, call, reply).0)
  {
    WaitlistKeeps(sys.db, Step(sys, call, reply).0.db);
  }

  /** The call's next step may write to the database. */
  predicate Writes(call: Call) {
    || call.Holding? || call.Validated? || call.Paid? || call.Permitted? || call.Releasing?
    || call.Seating? || call.Expiring? || call.Positioned? || call.Leaving?
  }

  lemma ReadingStep(sys: System, call: Call, reply: Reply)
    requires !Writes(call)
    ensures Step(sys, call, reply).0.db == sys.db
  {
  }

  lemma ReadKeeps(sys: System, call: Call, reply: Reply)
    requires DbOk(sys.db) && !Writes(call)
    ensures Kept(sys, Step(sys, call, reply).0)
  {
    ReadingStep(sys, call, reply);
  }

  lemma PaidKeeps(sys: System, call: Call, reply: Reply)
    requires DbOk(sys.db) && CallOk(sys, call) && call.Paid?
    ensures Kept(sys, Step(sys, call, reply).0)
  {
    FinishCompleteKeeps(sys, call.id, call.row, call.weight, Some(call.transaction));
  }

  lemma StepKeeps(sys: System, call: Call, reply: Reply)
    requires DbOk(sys.db) && CallOk(sys, call)
    ensures Kept(sys, Step(sys, call, reply).0)
  {
    if !Writes(call) {
      ReadKeeps(sys, call, reply);
    } else if call.Holding? || call.Seating? {
      TakingKeeps(sys, call, reply);
    } else if call.Validated? {
      ValidatedKeeps(sys, call, reply);
    } else if call.Paid? {
      PaidKeeps(sys, call, reply);
    } else if call.Permitted? {
      CancellationKeeps(sys, call, reply);
    } else if call.Releasing? {
      ReleasingKeeps(sys, call, reply);
    } else {
      QueueingKeeps(sys, call, reply);
    }
  }

  lemma BeginOk(sys: System, request: Request)
    requires DbOk(sys.db)
    ensures Begin(sys, request).Some? ==> CallOk(sys, Begin(sys, request).value)
  {
  }

  /** The step reads something that the next step relies on. */
  predicate Reading(call: Call) {
    || call.Starting? || call.Found? || call.Confirming? || call.Validated? || call.Paying? || call.Cancelling?
    || call.Heading? || call.Offered?
  }

  lemma OtherCallOk(sys: System, call: Call, reply: Reply)
    requires !Reading(call)
    ensures var (sys', call') := Step(sys, call, reply); call'.Some? ==> CallOk(sys', call'.value)
  {
  }

  lemma ReadingCallOk(sys: System, call: Call, reply: Reply)
    requires DbOk(sys.db) && CallOk(sys, call) && Reading(call)
    ensures var (sys', call') := Step(sys, call, reply); call'.Some? ==> CallOk(sys', call'.value)
  {
  }

  /** A call's own next reading is good in the state its step leaves. */
  lemma StepCallOk(sys: System, call: Call, reply: Reply)
    requires DbOk(sys.db) && CallOk(sys, call)
    ensures var (sys', call') := Step(sys, call, reply); call'.Some? ==> CallOk(sys', call'.value)
  {
    if Reading(call) {
      ReadingCallOk(sys, call, reply);
    } else {
      OtherCallOk(sys, call, reply);
    }
  }

  /** Calls that did not move keep what they rely on. */
  lemma CallsCarry(s: State, sys: System)
    requires Inv(s) && DbOk(sys.db) && Evolves(s.sys, sys)
    ensures Inv(s.(sys := sys))
  {
    forall c | c in s.calls
      ensures CallOk(sys, s.calls[c])
    {
      CallOkStable(s.sys, sys, s.calls[c]);
    }
  }

  lemma NextKeeps(s: State, e: Event)
    requires Inv(s)
    ensures Inv(Next(s, e)) && Evolves(s.sys, Next(s, e).sys)
  {
    match e
    case Tick(ms) => CallsCarry(s, s.sys.(now := s.sys.now + ms));
    case Open(c, request) => BeginOk(s.sys, request);
    case Advance(c, reply) =>
      if c in s.calls {
        StepKeeps(s.sys, s.calls[c], reply);
        StepCallOk(s.sys, s.calls[c], reply);
        CallsCarry(s, Step(s.sys, s.calls[c], reply).0);
      }
    case Abandon(_) =>
  }

  lemma InitInv(s: State)
    requires Init(s)
    ensures Inv(s)
  {
  }

  lemma {:induction false} ExecKeeps(s: State, es: seq<Event>)
    requires Inv(s)
    ensures Inv(Exec(s, es))
    ensures Evolves(s.sys, Exec(s, es).sys)
    decreases |es|
  {
    if es != [] {
      var before := es[..|es| - 1];
      ExecKeeps(s, before);
      NextKeeps(Exec(s, before), es[|es| - 1]);
      EvolvesTransitive(s.sys, Exec(s, before).sys, Exec(s, es).sys);
    }
  }
}
