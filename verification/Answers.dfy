/** What an uninterrupted confirmation changes, spelt out on the tables and keys. */
module Answers {
  import opened Domain
  import opened Baggage
  import opened Tables
  import opened Machine
  import opened Calls
  import opened Serial

  /** The seat, the log, the hold key and the cached map once the check-in is completed. */
  lemma FinaliseEffect(sys: System, id: CheckInId, row: CheckIn, weight: real, payment: Option<string>)
    requires id < |sys.db.checkIns|
    ensures var (sys', r) := Finalise(sys, id, row, weight, payment);
      var completed := CheckInCompleted(id, row.passenger, row.flight, row.status, payment);
      if ToCents(weight) >= 1_000.0 then r == Err(DatabaseRejected) && sys' == sys
      else
        && r == Ok(Done)
        && sys'.db.checkIns == sys.db.checkIns[id :=
             sys.db.checkIns[id].(status := Completed, weight := Some(ToCents(weight)), payment := payment)]
        && sys'.db.waitlist == sys.db.waitlist && sys'.now == sys.now && sys'.depth == sys.depth
        && sys'.payments == sys.payments && sys'.signals == sys.signals
        && if row.seat.Some? then
             var x := row.seat.value;
             && sys'.db.seats == (if x in sys.db.seats then sys.db.seats[x := sys.db.seats[x].(status := Confirmed)]
                                  else sys.db.seats)
             && sys'.db.audit == sys.db.audit + [SeatConfirmed(x, row.passenger, row.flight, id), completed]
             && sys'.holdKeys == sys.holdKeys - {x} && sys'.seatMaps == sys.seatMaps - {row.flight}
           else
             && sys'.db.seats == sys.db.seats && sys'.db.audit == sys.db.audit + [completed]
             && sys'.holdKeys == sys.holdKeys && sys'.seatMaps == sys.seatMaps
  {
    FinaliseForm(sys, id, row, weight, payment);
  }

  /** The answer of a confirmation, test by test. */
  lemma ConfirmAnswer(sys: System, id: CheckInId, p: PassengerId, weight: real, paid: Option<string>)
    requires weight >= 0.0
    ensures var (sys', r) := ConfirmCheckIn(sys, id, p, weight, paid);
      var fee, overweight := CalculateFee(sys.config, weight).excessFee, weight > sys.config.maxBaggageKg;
      && (r.Err? ==> sys' == sys)
      && if !(id < |sys.db.checkIns| && sys.db.checkIns[id].passenger == p) then r == Err(CheckInNotFound)
         else
           var row := sys.db.checkIns[id];
           if || !(row.status.InProgress? || row.status.AwaitingPayment?)
              || (row.seat.Some? && !(row.seat.value in sys.holdKeys
                                      && sys.now < sys.holdKeys[row.seat.value].expiresAt))
           then r == Err(HoldExpired)
           else if ToCents(weight) >= 1_000.0 || (overweight && ToCents(fee) >= 100_000_000.0) then
             r == Err(DatabaseRejected)
           else r == Ok(if overweight && paid.None? then MustPay else Done)
  {
    if id < |sys.db.checkIns| {
      var row, fee := sys.db.checkIns[id], CalculateFee(sys.config, weight).excessFee;
      FinaliseForm(sys, id, row, weight, None);
      var awaiting := AwaitPayment(sys.db, id, weight, fee);
      if awaiting.Some? && paid.Some? {
        var paying := sys.(db := awaiting.value, payments := sys.payments + {Payment(paid.value, id, fee)});
        FinaliseForm(paying, id, row, weight, paid);
      }
    }
  }

  /** What it changes in the check-in, in what the payment service has confirmed, and not at all. */
  lemma ConfirmRow(sys: System, id: CheckInId, p: PassengerId, weight: real, paid: Option<string>)
    requires weight >= 0.0 && ConfirmCheckIn(sys, id, p, weight, paid).1.Ok?
    ensures var (sys', r) := ConfirmCheckIn(sys, id, p, weight, paid);
      var fee, overweight := CalculateFee(sys.config, weight).excessFee, weight > sys.config.maxBaggageKg;
      var row := sys.db.checkIns[id];
      && sys'.db.checkIns == sys.db.checkIns[id := row.(
           status := if r.value == Done then Completed else AwaitingPayment,
           weight := Some(ToCents(weight)),
           fee := if overweight then Some(ToCents(fee)) else row.fee,
           payment := if r.value == MustPay then row.payment else if overweight then paid else None)]
      && sys'.payments == sys.payments + (if r.value == Done && overweight then {Payment(paid.value, id, fee)} else {})
      && sys'.now == sys.now && sys'.db.waitlist == sys.db.waitlist
      && sys'.depth == sys.depth && sys'.signals == sys.signals
  {
    var row, fee := sys.db.checkIns[id], CalculateFee(sys.config, weight).excessFee;
    FinaliseEffect(sys, id, row, weight, None);
    var awaiting := AwaitPayment(sys.db, id, weight, fee);
    if awaiting.Some? && paid.Some? {
      var paying := sys.(db := awaiting.value, payments := sys.payments + {Payment(paid.value, id, fee)});
      FinaliseEffect(paying, id, row, weight, paid);
    }
  }

  /** What it changes in the seat, the log, the hold keys and the cached maps: all of it only on completion. */
  lemma ConfirmSeat(sys: System, id: CheckInId, p: PassengerId, weight: real, paid: Option<string>)
    requires weight >= 0.0 && ConfirmCheckIn(sys, id, p, weight, paid).1.Ok?
    ensures var (sys', r) := ConfirmCheckIn(sys, id, p, weight, paid);
      var row := sys.db.checkIns[id];
      var settled := if weight > sys.config.maxBaggageKg then paid else None;
      var completed := CheckInCompleted(id, row.passenger, row.flight, row.status, settled);
      if r.value == Done && row.seat.Some? then
        var x := row.seat.value;
        && sys'.db.seats == (if x in sys.db.seats then sys.db.seats[x := sys.db.seats[x].(status := Confirmed)]
                             else sys.db.seats)
        && sys'.db.audit == sys.db.audit + [SeatConfirmed(x, row.passenger, row.flight, id), completed]
        && sys'.holdKeys == sys.holdKeys - {x} && sys'.seatMaps == sys.seatMaps - {row.flight}
      else
        && sys'.db.seats == sys.db.seats && sys'.holdKeys == sys.holdKeys && sys'.seatMaps == sys.seatMaps
        && sys'.db.audit == if r.value == Done then sys.db.audit + [completed] else sys.db.audit
  {
    var row, fee := sys.db.checkIns[id], CalculateFee(sys.config, weight).excessFee;
    FinaliseEffect(sys, id, row, weight, None);
    var awaiting := AwaitPayment(sys.db, id, weight, fee);
    if awaiting.Some? && paid.Some? {
      var paying := sys.(db := awaiting.value, payments := sys.payments + {Payment(paid.value, id, fee)});
      FinaliseEffect(paying, id, row, weight, paid);
    }
  }
}
