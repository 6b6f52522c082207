/** The background sweep: one loop, one specification, and the bound it puts on holds. */
module Sweeps {
  import opened Domain
  import opened Baggage
  import opened Tables
  import opened Machine
  import opened Calls
  import opened Serial

  /** The seat table after every listed, stale seat is freed at once. */
  function FreedSeats(sys: System, xs: set<SeatId>): map<SeatId, Seat> {
    map x | x in sys.db.seats ::
      if x in xs && Stale(sys, x) then sys.db.seats[x].(status := Available, heldBy := None, heldAt := None)
      else sys.db.seats[x]
  }

  predicate LosesSeat(sys: System, xs: set<SeatId>, row: CheckIn) {
    row.status.InProgress? && row.seat.Some? && row.seat.value in xs && Stale(sys, row.seat.value)
  }

  /** The check-ins after the holds of those seats end: only the unconfirmed ones are cancelled. */
  function FreedRows(sys: System, xs: set<SeatId>): (rows: seq<CheckIn>)
  {
    seq(|sys.db.checkIns|, i requires 0 <= i < |sys.db.checkIns| =>
      var row := sys.db.checkIns[i];
      if LosesSeat(sys, xs, row) then row.(status := CheckInStatus.Cancelled) else row)
  }

  function Elements(order: seq<SeatId>): set<SeatId> {
    set x | x in order
  }

  lemma FreeOne(sys: System, mid: System, xs: set<SeatId>, x: SeatId)
    requires mid.now == sys.now && mid.db.seats == FreedSeats(sys, xs) && mid.db.checkIns == FreedRows(sys, xs)
    ensures var sys' := ReleaseSeat(mid, true, x).0;
      sys'.now == sys.now && sys'.db.seats == FreedSeats(sys, xs + {x}) && sys'.db.checkIns == FreedRows(sys, xs + {x})
  {
    ReleaseForm(mid, true, x);
    var sys' := ReleaseSeat(mid, true, x).0;
    assert Stale(mid, x) <==> Stale(sys, x) && x !in xs;
    assert sys'.db.seats == FreedSeats(sys, xs + {x});
    FreeOneRows(sys, xs, x);
    if !Stale(mid, x) {
      assert sys' == mid && FreedRows(sys, xs + {x}) == FreedRows(sys, xs);
    }
  }

  lemma FreeOneRows(sys: System, xs: set<SeatId>, x: SeatId)
    ensures FreedRows(sys, xs + {x}) ==
      if Stale(sys, x) && x !in xs then CancelInProgress(FreedRows(sys, xs), x) else FreedRows(sys, xs)
  {
  }

  lemma {:induction false} LoopFrees(sys: System, order: seq<SeatId>, granted: set<SeatId>)
    ensures var sys', xs := ReleaseEach(sys, order, granted), Elements(order) * granted;
      sys'.now == sys.now && sys'.db.seats == FreedSeats(sys, xs) && sys'.db.checkIns == FreedRows(sys, xs)
    decreases |order|
  {
    if order == [] {
      assert Elements(order) * granted == {};
    } else {
      var n := |order| - 1;
      var before, x := order[..n], order[n];
      LoopFrees(sys, before, granted);
      assert order == before + [x];
      assert Elements(order) == Elements(before) + {x};
      if x in granted {
        FreeOne(sys, ReleaseEach(sys, before, granted), Elements(before) * granted, x);
        assert Elements(order) * granted == Elements(before) * granted + {x};
      } else {
        assert Elements(order) * granted == Elements(before) * granted;
      }
    }
  }

  /** The order of the list, and the list itself, do not matter. */
  lemma SweepSet(sys: System, order: seq<SeatId>)
    requires ListsStale(sys, order)
    ensures Elements(order) == OverdueSeats(sys)
  {
  }

  /** Whatever the order of the stale list, the loop frees exactly the seats held at or before the cutoff. */
  lemma SweepIsOneShot(sys: System, order: seq<SeatId>)
    requires ListsStale(sys, order)
    ensures var sys' := ReleaseEach(sys, order, Elements(order));
      sys'.db.seats == FreedSeats(sys, OverdueSeats(sys)) && sys'.db.checkIns == FreedRows(sys, OverdueSeats(sys))
  {
    SweepSet(sys, order);
    LoopFrees(sys, order, Elements(order));
  }

  // ---- Holds end within 150 s ----

  /** The sweep reaches every stale seat. */
  predicate FullSweep(sys: System, call: SerialCall) {
    call.Sweep? && ListsStale(sys, call.order) && forall x :: x in call.order ==> x in call.granted
  }

  /** When the last full sweep ran, or the run started. */
  function LastSweep(sys: System, calls: seq<SerialCall>): nat
    decreases |calls|
  {
    if calls == [] then sys.now
    else
      var before := calls[..|calls| - 1];
      var mid := DoAll(sys, before);
      if FullSweep(mid, calls[|calls| - 1]) then mid.now else LastSweep(sys, before)
  }

  /** At no moment of the run is the last full sweep more than 30 s old. */
  predicate SweptInTime(sys: System, calls: seq<SerialCall>)
    decreases |calls|
  {
    && DoAll(sys, calls).now <= LastSweep(sys, calls) + SWEEP_PERIOD_MS
    && (calls == [] || SweptInTime(sys, calls[..|calls| - 1]))
  }

  /** Every held seat's 120 s end after `t`. */
  ghost predicate HoldsOutlast(sys: System, t: nat) {
    forall x :: x in sys.db.seats && sys.db.seats[x].status.Held? ==>
      sys.db.seats[x].heldAt.Some? && sys.db.seats[x].heldAt.value + SEAT_HOLD_MS > t
  }

  lemma FinaliseHolds(sys: System, id: CheckInId, row: CheckIn, weight: real, payment: Option<string>, t: nat)
    requires HoldsOutlast(sys, t)
    ensures HoldsOutlast(Finalise(sys, id, row, weight, payment).0, t)
    ensures Finalise(sys, id, row, weight, payment).0.now == sys.now
  {
    FinaliseForm(sys, id, row, weight, payment);
  }

  lemma ConfirmHolds(sys: System, id: CheckInId, p: PassengerId, weight: real, paid: Option<string>, t: nat)
    requires HoldsOutlast(sys, t) && weight >= 0.0
    ensures HoldsOutlast(ConfirmCheckIn(sys, id, p, weight, paid).0, t)
    ensures ConfirmCheckIn(sys, id, p, weight, paid).0.now == sys.now
  {
    if id < |sys.db.checkIns| {
      var row, fee := sys.db.checkIns[id], CalculateFee(sys.config, weight);
      FinaliseHolds(sys, id, row, weight, None, t);
      var awaiting := AwaitPayment(sys.db, id, weight, fee.excessFee);
      if awaiting.Some? && paid.Some? {
        var paying := sys.(db := awaiting.value, payments := sys.payments + {Payment(paid.value, id, fee.excessFee)});
        assert paying.db.seats == sys.db.seats;
        FinaliseHolds(paying, id, row, weight, paid, t);
      }
    }
  }

  lemma DoHolds(sys: System, call: SerialCall, t: nat)
    requires HoldsOutlast(sys, t) && t <= sys.now
    ensures HoldsOutlast(Do(sys, call), t) && sys.now <= Do(sys, call).now
  {
    match call {
      case Wait(_) =>
      case Start(p, f, x) => StartForm(sys, true, p, f, x);
      case Confirm(id, p, weight, paid) => if weight >= 0.0 { ConfirmHolds(sys, id, p, weight, paid, t); }
      case Cancel(id, p) => CancelForm(sys, id, p);
      case Release(x) => ReleaseForm(sys, true, x);
      case Sweep(order, granted) => LoopFrees(sys, order, granted);
      case Join(p, f) => JoinLeavesSeats(sys, p, f);
      case Leave(e, p) => LeaveLeavesSeats(sys, e, p);
      case Process(f, hint, head, free) => ProcessForm(sys, true, f, hint, head, free);
    }
  }

  lemma FullSweepHolds(sys: System, call: SerialCall)
    requires FullSweep(sys, call)
    requires forall x :: x in sys.db.seats && sys.db.seats[x].status.Held? ==> sys.db.seats[x].heldAt.Some?
    ensures HoldsOutlast(Do(sys, call), sys.now) && Do(sys, call).now == sys.now
  {
    LoopFrees(sys, call.order, call.granted);
  }

  lemma {:induction false} HoldsRun(sys: System, calls: seq<SerialCall>)
    requires HoldsOutlast(sys, sys.now)
    ensures HoldsOutlast(DoAll(sys, calls), LastSweep(sys, calls)) && LastSweep(sys, calls) <= DoAll(sys, calls).now
    decreases |calls|
  {
    if calls != [] {
      var before, last := calls[..|calls| - 1], calls[|calls| - 1];
      HoldsRun(sys, before);
      DoHolds(DoAll(sys, before), last, LastSweep(sys, before));
      if FullSweep(DoAll(sys, before), last) {
        FullSweepHolds(DoAll(sys, before), last);
      }
    }
  }

  /**
   * With full sweeps at most 30 s apart, a held seat has been held for less than 150 s, whatever events were missed.
   */
  lemma SerialHoldsEndInTime(init: State, calls: seq<SerialCall>, x: SeatId)
    requires Init(init) && SweptInTime(init.sys, calls)
    requires x in DoAll(init.sys, calls).db.seats && DoAll(init.sys, calls).db.seats[x].status.Held?
    ensures var sys := DoAll(init.sys, calls);
      sys.db.seats[x].heldAt.Some? && sys.db.seats[x].heldAt.value + SEAT_HOLD_MS + SWEEP_PERIOD_MS > sys.now
  {
    HoldsRun(init.sys, calls);
  }
}
