/** The Redis hold keys as an index of the held seats, in runs of uninterrupted calls. */
module HoldKeys {
  import opened Domain
  import opened Baggage
  import opened Tables
  import opened Machine
  import opened Calls
  import opened Serial
  import opened Invariants
  import opened Preservation

  /**
   * The key of a seat, while its hold is younger than 120 s, names the holder and expires with the hold; else it is
   * dead.
   */
  predicate KeyMatches(sys: System, x: SeatId)
    requires x in sys.db.seats
  {
    var seat := sys.db.seats[x];
    if seat.status.Held? then
      && seat.heldBy.Some? && seat.heldAt.Some?
      && if sys.now < seat.heldAt.value + SEAT_HOLD_MS then
           x in sys.holdKeys && sys.holdKeys[x] == HoldKey(seat.heldBy.value, seat.heldAt.value + SEAT_HOLD_MS)
         else !KeyLive(sys.holdKeys, x, sys.now)
    else !KeyLive(sys.holdKeys, x, sys.now)
  }

  ghost predicate KeysMirror(sys: System) {
    forall x :: x in sys.db.seats ==> KeyMatches(sys, x)
  }

  lemma ReleaseMirrors(sys: System, lock: bool, x: SeatId)
    requires KeysMirror(sys)
    ensures KeysMirror(ReleaseSeat(sys, lock, x).0)
  {
    ReleaseForm(sys, lock, x);
    forall y | y in sys.db.seats
      ensures KeyMatches(ReleaseSeat(sys, lock, x).0, y)
    {
      assert KeyMatches(sys, y);
    }
  }

  lemma {:induction false} SweepMirrors(sys: System, order: seq<SeatId>, granted: set<SeatId>)
    requires KeysMirror(sys)
    ensures KeysMirror(ReleaseEach(sys, order, granted))
    decreases |order|
  {
    if order != [] {
      var n := |order| - 1;
      SweepMirrors(sys, order[..n], granted);
      ReleaseMirrors(ReleaseEach(sys, order[..n], granted), order[n] in granted, order[n]);
    }
  }

  lemma FinaliseMirrors(sys: System, id: CheckInId, row: CheckIn, weight: real, payment: Option<string>)
    requires KeysMirror(sys)
    ensures KeysMirror(Finalise(sys, id, row, weight, payment).0)
  {
    FinaliseForm(sys, id, row, weight, payment);
    forall y | y in sys.db.seats
      ensures KeyMatches(Finalise(sys, id, row, weight, payment).0, y)
    {
      assert KeyMatches(sys, y);
    }
  }

  lemma ConfirmMirrors(sys: System, id: CheckInId, p: PassengerId, weight: real, paid: Option<string>)
    requires KeysMirror(sys) && weight >= 0.0
    ensures KeysMirror(ConfirmCheckIn(sys, id, p, weight, paid).0)
  {
    if id < |sys.db.checkIns| {
      var row, fee := sys.db.checkIns[id], CalculateFee(sys.config, weight);
      FinaliseMirrors(sys, id, row, weight, None);
      var awaiting := AwaitPayment(sys.db, id, weight, fee.excessFee);
      if awaiting.Some? {
        var waiting := sys.(db := awaiting.value);
        QueueMirrors(sys, waiting);
        if paid.Some? {
          var paying := waiting.(payments := sys.payments + {Payment(paid.value, id, fee.excessFee)});
          QueueMirrors(waiting, paying);
          FinaliseMirrors(paying, id, row, weight, paid);
        }
      }
    }
  }

  lemma CancelMirrors(sys: System, id: CheckInId, p: PassengerId)
    requires KeysMirror(sys)
    ensures KeysMirror(CancelCheckIn(sys, id, p).0)
  {
    CancelForm(sys, id, p);
    forall y | y in sys.db.seats
      ensures KeyMatches(CancelCheckIn(sys, id, p).0, y)
    {
      assert KeyMatches(sys, y);
    }
  }

  lemma StartMirrors(sys: System, p: PassengerId, f: FlightId, x: SeatId)
    requires KeysMirror(sys)
    ensures KeysMirror(StartCheckIn(sys, true, p, f, x).0)
  {
    StartForm(sys, true, p, f, x);
    forall y | y in sys.db.seats
      ensures KeyMatches(StartCheckIn(sys, true, p, f, x).0, y)
    {
      assert KeyMatches(sys, y);
    }
  }

  lemma ProcessMirrors(sys: System, f: FlightId, hint: Option<SeatId>, head: Option<EntryId>, free: Option<SeatId>)
    requires KeysMirror(sys)
    ensures KeysMirror(ProcessWaitlist(sys, true, f, hint, head, free))
  {
    ProcessForm(sys, true, f, hint, head, free);
    forall y | y in sys.db.seats
      ensures KeyMatches(ProcessWaitlist(sys, true, f, hint, head, free), y)
    {
      assert KeyMatches(sys, y);
    }
  }

  lemma QueueMirrors(sys: System, sys': System)
    requires KeysMirror(sys)
    requires sys'.db.seats == sys.db.seats && sys'.holdKeys == sys.holdKeys && sys'.now == sys.now
    ensures KeysMirror(sys')
  {
  }

  lemma DoMirrors(sys: System, call: SerialCall)
    requires KeysMirror(sys)
    ensures KeysMirror(Do(sys, call))
  {
    match call {
      case Wait(ms) =>
        assert forall y :: y in sys.db.seats ==> KeyMatches(sys, y) && KeyMatches(Do(sys, call), y);
      case Start(p, f, x) => StartMirrors(sys, p, f, x);
      case Confirm(id, p, weight, paid) => if weight >= 0.0 { ConfirmMirrors(sys, id, p, weight, paid); }
      case Cancel(id, p) => CancelMirrors(sys, id, p);
      case Release(x) => ReleaseMirrors(sys, true, x);
      case Sweep(order, granted) => SweepMirrors(sys, order, granted);
      case Join(p, f) =>
        JoinLeavesSeats(sys, p, f);
        QueueMirrors(sys, Do(sys, call));
      case Leave(e, p) =>
        LeaveLeavesSeats(sys, e, p);
        QueueMirrors(sys, Do(sys, call));
      case Process(f, hint, head, x) => ProcessMirrors(sys, f, hint, head, x);
    }
  }

  lemma {:induction false} MirrorRun(sys: System, calls: seq<SerialCall>)
    requires KeysMirror(sys)
    ensures KeysMirror(DoAll(sys, calls))
    decreases |calls|
  {
    if calls != [] {
      MirrorRun(sys, calls[..|calls| - 1]);
      DoMirrors(DoAll(sys, calls[..|calls| - 1]), calls[|calls| - 1]);
    }
  }

  /**
   * The hold key of a seat is live exactly while the seat is held for less than 120 s, and names the holder,
   * although an expiry release never deletes it and cancel and confirm delete it without looking whose it is.
   */
  lemma HoldKeyMirrorsTable(init: State, calls: seq<SerialCall>, x: SeatId)
    requires Init(init) && x in DoAll(init.sys, calls).db.seats
    ensures var sys := DoAll(init.sys, calls); var seat := sys.db.seats[x];
      && (KeyLive(sys.holdKeys, x, sys.now) <==>
            seat.status.Held? && seat.heldAt.Some? && sys.now < seat.heldAt.value + SEAT_HOLD_MS)
      && (KeyLive(sys.holdKeys, x, sys.now) ==> Some(sys.holdKeys[x].holder) == seat.heldBy)
  {
    MirrorRun(init.sys, calls);
    assert KeyMatches(DoAll(init.sys, calls), x);
  }

  /** After calls that have all run to their end, a check-in's seat exists, and has no live key unless its hold runs. */
  lemma ConfirmNeedsHold(sys: System, id: CheckInId)
    requires Reached(sys) && id < |sys.db.checkIns|
    ensures var seat := sys.db.checkIns[id].seat;
      && seat.Some? && seat.value in sys.db.seats
      && var held := sys.db.seats[seat.value];
      !(held.status.Held? && held.heldAt.Some? && sys.now < held.heldAt.value + 120_000) ==>
        !(seat.value in sys.holdKeys && sys.now < sys.holdKeys[seat.value].expiresAt)
  {
    var init: State, calls: seq<SerialCall> :| Init(init) && sys == DoAll(init.sys, calls);
    var es := SerialRunIsSchedule(init, calls);
    InitInv(init);
    ExecKeeps(init, es);
    assert RowOk(sys.db, sys.db.checkIns[id]);
    HoldKeyMirrorsTable(init, calls, sys.db.checkIns[id].seat.value);
  }
}
