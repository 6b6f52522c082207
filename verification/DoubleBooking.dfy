/** Runs that show the conditions of Booking cannot be dropped. */
module DoubleBooking {
  import opened Domain
  import opened Baggage
  import opened Machine
  import opened Safety
  import opened Plays

  /** Passenger 1's check-in waits for payment. */
  lemma PlayAwaiting() returns (s: State)
    ensures Reachable(SEEDED, s) && s.calls.Keys == {0, 1} && s.sys.now == 0
    ensures s.sys.config == DEFAULTS && s.sys.db.passengers == {1, 2} && s.sys.db.flights == map[7 := Scheduled]
    ensures s.sys.db.seats == map[1 := SEAT.(status := Held, heldBy := Some(1), heldAt := Some(0))]
    ensures |s.sys.db.checkIns| == 1
    ensures var row := s.sys.db.checkIns[0];
      row.passenger == 1 && row.flight == 7 && row.seat == Some(1) && row.status.AwaitingPayment?
  {
    Initially(DEFAULTS);
    s := PlayHold(SEEDED, SEEDED, 0, 1);
    var row := s.sys.db.checkIns[0];
    s := PlayValidate(SEEDED, s, 1, 0, 1, 30.0);
    assert ToCents(30.0) == 30.0 && ToCents(50.0) == 50.0;
    s := PlayAwait(SEEDED, s, 1, 0, row, 30.0);
  }

  /** The hold lapses, and the check-in stays AWAITING_PAYMENT without a seat. */
  lemma LapseDuringPayment() returns (s: State)
    ensures Reachable(SEEDED, s) && s.calls.Keys == {0, 1, 2}
    ensures s.sys.config == DEFAULTS && s.sys.db.passengers == {1, 2} && 7 in s.sys.db.flights
    ensures s.sys.db.seats == map[1 := SEAT] && |s.sys.db.checkIns| == 1
    ensures var row := s.sys.db.checkIns[0];
      row.passenger == 1 && row.flight == 7 && row.seat == Some(1) && row.status.AwaitingPayment?
  {
    s := PlayAwaiting();
    s := Play(SEEDED, s, Tick(SEAT_HOLD_MS));
    s := Play(SEEDED, s, Open(2, ReleaseRequest(1)));
    assert s.calls[2] == Releasing(1, Some(1), 7);
    s := Play(SEEDED, s, Advance(2, Ack));
    assert s.sys.db.seats == map[1 := SEAT];
  }

  /** Both passengers' confirmations get past their checks, against passenger 2's hold key. */
  lemma PlayTwoConfirmations() returns (s: State, rows: seq<CheckIn>)
    ensures Reachable(SEEDED, s) && rows == s.sys.db.checkIns && s.sys.config == DEFAULTS
    ensures |rows| == 2 && rows[0].seat == rows[1].seat == Some(1) && rows[0].passenger != rows[1].passenger
    ensures 4 in s.calls && s.calls[4] == Validated(0, rows[0], 10.0)
    ensures 5 in s.calls && s.calls[5] == Validated(1, rows[1], 10.0)
  {
    s := LapseDuringPayment();
    s := PlayHold(SEEDED, s, 3, 2);
    rows := s.sys.db.checkIns;
    s := PlayValidate(SEEDED, s, 4, 0, 1, 10.0);
    s := PlayValidate(SEEDED, s, 5, 1, 2, 10.0);
  }

  /**
   * One seat, two completed check-ins.  After the lapse passenger 2 takes the seat, and both passengers confirm
   * against passenger 2's hold key.
   */
  lemma TwoCompletionsOneSeat() returns (es: seq<Event>, s: State)
    ensures Reaches(SEEDED, es, s)
    ensures var rows := s.sys.db.checkIns;
      && |rows| == 2 && rows[0].seat == rows[1].seat == Some(1)
      && rows[0].status.Completed? && rows[1].status.Completed?
      && rows[0].passenger != rows[1].passenger
  {
    var rows;
    s, rows := PlayTwoConfirmations();
    assert ToCents(10.0) == 10.0;
    s := PlayComplete(SEEDED, s, 4, 0, rows[0], 10.0);
    s := PlayComplete(SEEDED, s, 5, 1, rows[1], 10.0);
    es := ByRun(DEFAULTS, s);
  }

  /** A second cancellation of the same check-in frees a seat that someone else holds. */
  lemma SecondCancelFreesAnothersSeat() returns (es: seq<Event>, s: State)
    ensures Reaches(SEEDED, es, s)
    ensures var db := s.sys.db;
      && |db.checkIns| == 2 && db.checkIns[1].seat == Some(1) && db.checkIns[1].status.InProgress?
      && 1 in db.seats && db.seats[1].status.Available?
  {
    Initially(DEFAULTS);
    s := PlayHold(SEEDED, SEEDED, 0, 1);
    s := PlayCancel(SEEDED, s, 1, 0, 1);
    assert s.sys.db.seats == map[1 := SEAT];
    s := PlayHold(SEEDED, s, 2, 2);
    s := PlayCancel(SEEDED, s, 3, 0, 1);
    es := ByRun(DEFAULTS, s);
  }
}
