/** src/check-in/check-in.service.ts: hold, confirm and cancel, statement by statement. */
module CheckInServices {
  import opened Domain
  import opened Baggage
  import opened Tables
  import opened Machine
  import opened Payments
  import opened Store
  import Calls
  import Serial
  import HoldKeys
  import Answers

  class CheckInService {
    const store: Backend
    const payment: PaymentService

    constructor (store: Backend, payment: PaymentService)
      ensures this.store == store && this.payment == payment
    {
      this.store := store;
      this.payment := payment;
    }

    /** `lock` is whether Redlock grants lock:seat. */
    method StartCheckIn(lock: bool, passenger: PassengerId, flight: FlightId, seat: SeatId)
      returns (r: Result<CheckInId, Calls.CallError>)
      modifies store
      ensures (store.View(), r) == Calls.StartCheckIn(old(store.View()), lock, passenger, flight, seat)
      // The answer, in the order of the tests.
      ensures
        if flight !in store.flights then r == Err(Calls.FlightNotFound)
        else if !(seat in old(store.seats) && old(store.seats)[seat].flight == flight) then r == Err(Calls.SeatNotFound)
        else if exists i :: 0 <= i < |old(store.checkIns)| && old(store.checkIns)[i].passenger == passenger
                            && old(store.checkIns)[i].flight == flight && !old(store.checkIns)[i].status.Cancelled?
        then r == Err(Calls.AlreadyCheckedIn)
        else if !lock then r == Err(Calls.LockUnavailable)
        else if !old(store.seats)[seat].status.Available? then r == Err(Calls.SeatAlreadyHeld)
        else if || passenger !in store.passengers
                || exists i :: 0 <= i < |old(store.checkIns)| && old(store.checkIns)[i].passenger == passenger
                               && old(store.checkIns)[i].flight == flight
        then r == Err(Calls.DatabaseRejected)
        else r == Ok(|old(store.checkIns)|)
      // What has changed.
      ensures r.Err? ==> store.View() == old(store.View())
      ensures r.Ok? ==>
        && store.seats == old(store.seats)[seat :=
             old(store.seats)[seat].(status := Held, heldBy := Some(passenger), heldAt := Some(old(store.now)))]
        && store.checkIns == old(store.checkIns) +
             [CheckIn(passenger, flight, Some(seat), InProgress, None, None, None)]
        && store.audit == old(store.audit) + [SeatHeld(seat, passenger, flight, r.value)]
        && store.holdKeys == old(store.holdKeys)[seat := HoldKey(passenger, old(store.now) + 120_000)]
        && store.seatMaps == old(store.seatMaps) - {flight}
        && store.waitlist == old(store.waitlist) && store.depth == old(store.depth) && store.now == old(store.now)
        && store.payments == old(store.payments) && store.signals == old(store.signals)
    {
      Serial.StartForm(store.View(), lock, passenger, flight, seat);
      if flight !in store.flights {
        return Err(Calls.FlightNotFound);
      }
      if seat !in store.seats || store.seats[seat].flight != flight {
        return Err(Calls.SeatNotFound);
      }
      if Calls.HasLiveCheckIn(store.checkIns, passenger, flight) {
        return Err(Calls.AlreadyCheckedIn);
      }
      if !lock {
        return Err(Calls.LockUnavailable);
      }
      r := HoldSeatWithinLock(passenger, flight, seat);
    }

    method HoldSeatWithinLock(passenger: PassengerId, flight: FlightId, seat: SeatId)
      returns (r: Result<CheckInId, Calls.CallError>)
      modifies store
      ensures (store.View(), r) == Calls.HoldWithinLock(old(store.View()), passenger, flight, seat)
    {
      if !IsAvailable(store.seats, seat) {
        return Err(Calls.SeatAlreadyHeld);
      }
      r := HoldTransaction(passenger, flight, seat, store.now);
      if r.Ok? {
        Calls.PerformTwo(store.View(), SetKey(seat, passenger), DropMap(flight));
        store.SetSeatHold(seat, passenger);
        store.InvalidateCache(flight);
      }
    }

    /** Whatever has happened since the seat was read: all of the transaction commits, or nothing changes. */
    method HoldTransaction(passenger: PassengerId, flight: FlightId, seat: SeatId, heldAt: nat)
      returns (r: Result<CheckInId, Calls.CallError>)
      modifies store
      ensures var before := old(store.View());
        match HoldSeat(before.db, passenger, flight, seat, heldAt)
        case Some(db) => store.View() == before.(db := db) && r == Ok(|before.db.checkIns|)
        case None =>
          && store.View() == before
          && r == Err(if IsAvailable(before.db.seats, seat) then Calls.DatabaseRejected else Calls.SeatAlreadyHeld)
    {
      var seatsBefore := store.seats;
      if !IsAvailable(store.seats, seat) { // no row affected
        return Err(Calls.SeatAlreadyHeld);
      }
      store.seats := store.seats[seat := store.seats[seat].(
        status := Held, heldBy := Some(passenger), heldAt := Some(heldAt))];
      var id := |store.checkIns|;
      if passenger !in store.passengers || flight !in store.flights || HasCheckIn(store.checkIns, passenger, flight) {
        store.seats := seatsBefore; // ROLLBACK
        return Err(Calls.DatabaseRejected);
      }
      store.checkIns := store.checkIns + [NewCheckIn(passenger, flight, seat)];
      store.Log(SeatHeld(seat, passenger, flight, id));
      r := Ok(id);
    }

    /** `attempts` are the payment service's answers, should it be asked. */
    method ConfirmCheckIn(id: CheckInId, passenger: PassengerId, weight: real, attempts: nat -> Attempt)
      returns (r: Result<Calls.Outcome, Calls.CallError>)
      requires weight >= 0.0
      modifies store
      ensures (store.View(), r) ==
        Calls.ConfirmCheckIn(old(store.View()), id, passenger, weight, Transaction(attempts, payment.maxRetries))
      ensures r.Err? ==> store.View() == old(store.View())
      // The answer, in the order of the tests.
      ensures
        var fee, limit := CalculateFee(store.config, weight).excessFee, store.config.maxBaggageKg;
        if !(id < |old(store.checkIns)| && old(store.checkIns)[id].passenger == passenger) then
          r == Err(Calls.CheckInNotFound)
        else
          var row := old(store.checkIns)[id];
          if || !(row.status.InProgress? || row.status.AwaitingPayment?)
             || (row.seat.Some? && !(row.seat.value in old(store.holdKeys)
                                     && old(store.now) < old(store.holdKeys)[row.seat.value].expiresAt))
          then r == Err(Calls.HoldExpired)
          else if ToCents(weight) >= 1_000.0 || (weight > limit && ToCents(fee) >= 100_000_000.0) then
            r == Err(Calls.DatabaseRejected)
          else if weight > limit && Transaction(attempts, payment.maxRetries).None? then r == Ok(Calls.MustPay)
          else r == Ok(Calls.Done)
      // After calls that have all run to their end, a check-in whose hold is over cannot be confirmed.
      ensures id < |old(store.checkIns)| && old(store.checkIns)[id].passenger == passenger
              && old(Serial.Reached(store.View())) ==>
        var seat := old(store.checkIns)[id].seat;
        && seat.Some? && seat.value in old(store.seats)
        && var held := old(store.seats)[seat.value];
        !(held.status.Held? && held.heldAt.Some? && old(store.now) < held.heldAt.value + 120_000) ==>
          r == Err(Calls.HoldExpired) && store.View() == old(store.View())
    {
      ghost var before := store.View();
      Answers.ConfirmAnswer(before, id, passenger, weight, Transaction(attempts, payment.maxRetries));
      if id < |store.checkIns| && Serial.Reached(before) {
        HoldKeys.ConfirmNeedsHold(before, id);
      }
      if id >= |store.checkIns| || store.checkIns[id].passenger != passenger {
        return Err(Calls.CheckInNotFound);
      }
      var row := store.checkIns[id];
      if !row.status.InProgress? && !row.status.AwaitingPayment? {
        return Err(Calls.HoldExpired);
      }
      if row.seat.Some? {
        if !KeyLive(store.holdKeys, row.seat.value, store.now) {
          return Err(Calls.HoldExpired);
        }
      }
      var fee := CalculateFee(store.config, weight);
      if fee.isOverweight {
        r := HandleExcessBaggage(id, row, weight, fee.excessFee, attempts);
      } else {
        r := CompleteCheckIn(id, row, weight, None);
      }
    }

    /** `row` is the check-in as confirmCheckIn read it. */
    method HandleExcessBaggage(id: CheckInId, row: CheckIn, weight: real, excessFee: real, attempts: nat -> Attempt)
      returns (r: Result<Calls.Outcome, Calls.CallError>)
      modifies store
      ensures
        var before, paid := old(store.View()), Transaction(attempts, payment.maxRetries);
        (store.View(), r) ==
          match AwaitPayment(before.db, id, weight, excessFee)
          case None => (before, Err(Calls.DatabaseRejected))
          case Some(db) =>
            if paid.None? then (before.(db := db), Ok(Calls.MustPay))
            else
              Calls.Finalise(before.(db := db, payments := before.payments + {Payment(paid.value, id, excessFee)}),
                             id, row, weight, paid)
    {
      var storedWeight, storedFee := Numeric(weight, WEIGHT_BOUND), Numeric(excessFee, FEE_BOUND);
      if storedWeight.None? || storedFee.None? {
        return Err(Calls.DatabaseRejected);
      }
      if id < |store.checkIns| {
        store.checkIns := store.checkIns[id := store.checkIns[id].(
          status := AwaitingPayment, weight := storedWeight, fee := storedFee)];
      }
      var result, _, _ := payment.CallPaymentServiceWithRetry(attempts);
      if result.success {
        store.payments := store.payments + {Payment(result.transaction.value, id, excessFee)};
        r := CompleteCheckIn(id, row, weight, result.transaction);
      } else {
        r := Ok(Calls.MustPay);
      }
    }

    method CompleteCheckIn(id: CheckInId, row: CheckIn, weight: real, paymentId: Option<string>)
      returns (r: Result<Calls.Outcome, Calls.CallError>)
      modifies store
      ensures (store.View(), r) == Calls.Finalise(old(store.View()), id, row, weight, paymentId)
    {
      var committed := CompleteTransaction(id, row, weight, paymentId);
      if !committed {
        return Err(Calls.DatabaseRejected);
      }
      if row.seat.Some? {
        Calls.PerformTwo(store.View(), DeleteKey(row.seat.value), DropMap(row.flight));
        store.DeleteSeatHold(row.seat.value);
        store.InvalidateCache(row.flight);
      }
      r := Ok(Calls.Done);
    }

    /** Confirms seat and check-in by id, or neither. */
    method CompleteTransaction(id: CheckInId, row: CheckIn, weight: real, paymentId: Option<string>)
      returns (committed: bool)
      modifies store
      ensures var before := old(store.View());
        match Complete(before.db, id, row, weight, paymentId)
        case Some(db) => store.View() == before.(db := db) && committed
        case None => store.View() == before && !committed
    {
      var seatsBefore, auditBefore := store.seats, store.audit;
      if row.seat.Some? {
        var seat := row.seat.value;
        if seat in store.seats {
          store.seats := store.seats[seat := store.seats[seat].(status := Confirmed)];
        }
        store.Log(SeatConfirmed(seat, row.passenger, row.flight, id));
      }
      var storedWeight := Numeric(weight, WEIGHT_BOUND);
      if storedWeight.None? {
        store.seats, store.audit := seatsBefore, auditBefore; // ROLLBACK
        return false;
      }
      if id < |store.checkIns| {
        store.checkIns := store.checkIns[id := store.checkIns[id].(
          status := Completed, weight := storedWeight, payment := paymentId)];
      }
      store.Log(CheckInCompleted(id, row.passenger, row.flight, row.status, paymentId));
      committed := true;
    }

    method CancelCheckIn(id: CheckInId, passenger: PassengerId) returns (r: Result<Calls.Outcome, Calls.CallError>)
      modifies store
      ensures (store.View(), r) == Calls.CancelCheckIn(old(store.View()), id, passenger)
      // The answer.
      ensures r == Err(Calls.CheckInNotFound) <==>
        !(id < |old(store.checkIns)| && old(store.checkIns)[id].passenger == passenger)
      ensures id < |old(store.checkIns)| && old(store.checkIns)[id].passenger == passenger ==>
        var flight := old(store.checkIns)[id].flight;
        && (r == Err(Calls.CancellationNotAllowed) <==> flight in store.flights && store.flights[flight].Departed?)
        && (r.Ok? <==> r != Err(Calls.CancellationNotAllowed))
      // What has changed.
      ensures r.Err? ==> store.View() == old(store.View())
      ensures r.Ok? ==>
        var row := old(store.checkIns)[id];
        var cancelled := CheckInCancelled(id, row.passenger, row.flight, row.status);
        && r.value == Calls.Done
        && store.checkIns == old(store.checkIns)[id := row.(status := CheckInStatus.Cancelled)]
        && store.signals == old(store.signals) + [Signal(row.flight, None)]
        && store.now == old(store.now) && store.waitlist == old(store.waitlist)
        && store.depth == old(store.depth) && store.payments == old(store.payments)
        && if row.seat.Some? then
             var seat := row.seat.value;
             var freed := SeatCancelled(seat, row.passenger, row.flight, id,
                                        if row.status.Completed? then Confirmed else Held);
             && store.seats == (if seat in old(store.seats) then
                                  old(store.seats)[seat :=
                                    old(store.seats)[seat].(status := Available, heldBy := None, heldAt := None)]
                                else old(store.seats))
             && store.audit == old(store.audit) + [freed, cancelled]
             && store.holdKeys == old(store.holdKeys) - {seat} && store.seatMaps == old(store.seatMaps) - {row.flight}
           else
             && store.seats == old(store.seats) && store.audit == old(store.audit) + [cancelled]
             && store.holdKeys == old(store.holdKeys) && store.seatMaps == old(store.seatMaps)
    {
      Serial.CancelForm(store.View(), id, passenger);
      if id >= |store.checkIns| || store.checkIns[id].passenger != passenger {
        return Err(Calls.CheckInNotFound);
      }
      var row := store.checkIns[id];
      if row.flight in store.flights && store.flights[row.flight].Departed? {
        return Err(Calls.CancellationNotAllowed);
      }
      CancelTransaction(id, row);
      FollowCancellation(row);
      r := Ok(Calls.Done);
    }

    /** Frees the seat and cancels the check-in by id, whatever has happened since `row` was read. */
    method CancelTransaction(id: CheckInId, row: CheckIn)
      modifies store
      ensures store.View() == old(store.View()).(db := CancelAndFree(old(store.View()).db, id, row))
    {
      if row.seat.Some? {
        var seat := row.seat.value;
        if seat in store.seats {
          store.seats := store.seats[seat := store.seats[seat].(status := Available, heldBy := None, heldAt := None)];
        }
        store.Log(SeatCancelled(seat, row.passenger, row.flight, id,
                                if row.status.Completed? then Confirmed else Held));
      }
      if id < |store.checkIns| {
        store.checkIns := store.checkIns[id := store.checkIns[id].(status := CheckInStatus.Cancelled)];
      }
      store.Log(CheckInCancelled(id, row.passenger, row.flight, row.status));
    }

    /** Once a cancellation has committed: the hold key, the cache and the event for the waitlist. */
    method FollowCancellation(row: CheckIn)
      modifies store
      ensures store.View() == PerformAll(old(store.View()), AfterCancel(row))
    {
      ghost var committed := store.View();
      var signal := Signal(row.flight, None);
      if row.seat.Some? {
        store.DeleteSeatHold(row.seat.value);
        store.InvalidateCache(row.flight);
        Calls.PerformThree(committed, DeleteKey(row.seat.value), DropMap(row.flight), Emit(signal));
        assert AfterCancel(row) == [DeleteKey(row.seat.value), DropMap(row.flight), Emit(signal)];
      } else {
        Calls.PerformOne(committed, Emit(signal));
        assert AfterCancel(row) == [Emit(signal)];
      }
      store.EmitSignal(signal);
    }
  }
}
