/**
 * When seats and check-ins stay in bijection, with confirmations and cancellations as single steps and holds,
 * assignments, releases and everything else interleaving freely.
 */
module AtomicBooking {
  import opened Domain
  import opened Tables
  import opened Machine
  import opened Invariants
  import opened Preservation
  import opened Booking
  import opened Calls
  import SerialBooking

  datatype Move =
    | Free(e: Event)
    | Confirm(checkIn: CheckInId, passenger: PassengerId, weight: real, paid: Option<string>)
    | Cancel(checkIn: CheckInId, passenger: PassengerId)

  predicate OpensAtomic(e: Event) {
    e.Open? && (e.request.ConfirmRequest? || e.request.CancelRequest?)
  }

  /** A free event opens no confirmation and no cancellation: those happen as moves of their own. */
  function After(s: State, m: Move): State {
    match m
    case Free(e) => if OpensAtomic(e) then s else Next(s, e)
    case Confirm(id, p, weight, paid) =>
      if weight >= 0.0 then s.(sys := ConfirmCheckIn(s.sys, id, p, weight, paid).0) else s
    case Cancel(id, p) => s.(sys := CancelCheckIn(s.sys, id, p).0)
  }

  function AfterAll(s: State, ms: seq<Move>): State
    decreases |ms|
  {
    if ms == [] then s else After(AfterAll(s, ms[..|ms| - 1]), ms[|ms| - 1])
  }

  /** The seat is being released under a check-in that awaits payment. */
  predicate LapsesUnderPayment(db: Db, call: Call) {
    call.Releasing? && ReleaseHold(db, call.seat, call.holder, call.flight).Some? &&
    exists i :: 0 <= i < |db.checkIns| && db.checkIns[i].seat == Some(call.seat)
                && db.checkIns[i].status.AwaitingPayment?
  }

  predicate SafeMove(s: State, m: Move) {
    match m
    case Free(e) => e.Advance? && e.c in s.calls ==> !LapsesUnderPayment(s.sys.db, s.calls[e.c])
    case Confirm(_, _, _, _) => true
    case Cancel(id, p) => SerialBooking.CancelsOwn(s.sys, id, p)
  }

  /** No confirmation or cancellation is under way. */
  ghost predicate NoneSplit(s: State) {
    forall c :: c in s.calls ==> !Splits(s.calls[c])
  }

  predicate Splits(call: Call) {
    || call.Confirming? || call.Validated? || call.Paying? || call.Paid?
    || call.Cancelling? || call.Permitted?
  }

  // ---- Moves are schedules ----

  lemma MoveIsSchedule(s: State, m: Move) returns (es: seq<Event>)
    ensures Exec(s, es) == After(s, m)
  {
    es := [];
    match m {
      case Free(e) =>
        if !OpensAtomic(e) {
          ExecOne(s, e);
          es := [e];
        }
      case Confirm(id, p, weight, paid) =>
        if weight >= 0.0 {
          ConfirmIsRun(s.sys, id, p, weight, paid);
          es := WholeCall(s, ConfirmRequest(id, p, weight), ConfirmReplies(paid), After(s, m).sys);
        }
      case Cancel(id, p) =>
        CancelIsRun(s.sys, id, p);
        es := WholeCall(s, CancelRequest(id, p), Acks(5), After(s, m).sys);
    }
  }

  /** So every theorem about schedules is about these runs, too. */
  lemma {:induction false} RunIsSchedule(s: State, ms: seq<Move>) returns (es: seq<Event>)
    ensures Exec(s, es) == AfterAll(s, ms)
    decreases |ms|
  {
    es := [];
    if ms != [] {
      var n := |ms| - 1;
      var before := RunIsSchedule(s, ms[..n]);
      var last := MoveIsSchedule(AfterAll(s, ms[..n]), ms[n]);
      ExecConcat(s, before, last);
      es := before + last;
    }
  }

  // ---- Each move ----

  lemma StepSplitsNothing(sys: System, call: Call, reply: Reply)
    requires !Splits(call)
    ensures var call' := Step(sys, call, reply).1; call'.Some? ==> !Splits(call'.value)
  {
  }

  lemma MoveSplitsNothing(s: State, m: Move)
    requires NoneSplit(s)
    ensures NoneSplit(After(s, m))
  {
    if m.Free? && m.e.Advance? && m.e.c in s.calls {
      StepSplitsNothing(s.sys, s.calls[m.e.c], m.e.reply);
    } else if m.Free? && m.e.Open? && !OpensAtomic(m.e) {
      BeginSplitsNothing(s.sys, m.e.request);
    }
  }

  lemma BeginSplitsNothing(sys: System, request: Request)
    requires !request.ConfirmRequest? && !request.CancelRequest?
    ensures var call := Begin(sys, request); call.Some? ==> !Splits(call.value)
  {
  }

  lemma UnsplitIsSafe(sys: System, call: Call)
    requires !Splits(call)
    ensures SafeStep(sys, call) <==> !LapsesUnderPayment(sys.db, call)
  {
  }

  lemma MoveBijective(s: State, m: Move)
    requires Inv(s) && NoneSplit(s) && Bijective(s.sys.db)
    ensures Bijective(After(s, m).sys.db) <==> SafeMove(s, m)
  {
    match m {
      case Free(e) =>
        if !OpensAtomic(e) {
          NextBijective(s, e);
        }
        if e.Advance? && e.c in s.calls {
          UnsplitIsSafe(s.sys, s.calls[e.c]);
        }
      case Confirm(id, p, weight, paid) =>
        if weight >= 0.0 {
          SerialBooking.ConfirmBijects(s.sys, id, p, weight, paid);
        }
      case Cancel(id, p) => SerialBooking.CancelBijects(s.sys, id, p);
    }
  }

  // ---- Runs ----

  ghost predicate SafeMoves(s: State, ms: seq<Move>)
    decreases |ms|
  {
    ms == [] || (var n := |ms| - 1; SafeMoves(s, ms[..n]) && SafeMove(AfterAll(s, ms[..n]), ms[n]))
  }

  ghost predicate StaysBijective(s: State, ms: seq<Move>)
    decreases |ms|
  {
    Bijective(AfterAll(s, ms).sys.db) && (ms == [] || StaysBijective(s, ms[..|ms| - 1]))
  }

  lemma RunKeeps(init: State, ms: seq<Move>)
    requires Init(init)
    ensures Inv(AfterAll(init, ms))
  {
    var es := RunIsSchedule(init, ms);
    InitInv(init);
    ExecKeeps(init, es);
  }

  lemma {:induction false} RunSplitsNothing(s: State, ms: seq<Move>)
    requires NoneSplit(s)
    ensures NoneSplit(AfterAll(s, ms))
    decreases |ms|
  {
    if ms != [] {
      var n := |ms| - 1;
      RunSplitsNothing(s, ms[..n]);
      MoveSplitsNothing(AfterAll(s, ms[..n]), ms[n]);
    }
  }

  /**
   * With confirmations and cancellations as single steps, live check-ins and occupied seats correspond one to one
   * throughout a run if and only if no cancellation of an already cancelled check-in meets a seat that someone
   * else has taken, and no hold lapses while its check-in awaits payment.
   */
  lemma {:induction false} NoDoubleBookingAtomically(init: State, ms: seq<Move>)
    requires Init(init)
    ensures StaysBijective(init, ms) <==> SafeMoves(init, ms)
    decreases |ms|
  {
    if ms == [] {
      assert Bijective(init.sys.db);
    } else {
      var n := |ms| - 1;
      NoDoubleBookingAtomically(init, ms[..n]);
      if StaysBijective(init, ms[..n]) {
        RunKeeps(init, ms[..n]);
        RunSplitsNothing(init, ms[..n]);
        assert Bijective(AfterAll(init, ms[..n]).sys.db);
        MoveBijective(AfterAll(init, ms[..n]), ms[n]);
      }
    }
  }

  /** In such a run no seat ever has two completed check-ins. */
  lemma OneCompletionPerSeat(init: State, ms: seq<Move>, rows: seq<CheckIn>, i: CheckInId, j: CheckInId)
    requires Init(init) && SafeMoves(init, ms) && rows == AfterAll(init, ms).sys.db.checkIns
    requires i < |rows| && j < |rows| && rows[i].seat == rows[j].seat
    requires rows[i].status.Completed? && rows[j].status.Completed?
    ensures i == j
  {
    NoDoubleBookingAtomically(init, ms);
    RunKeeps(init, ms);
    var db := AfterAll(init, ms).sys.db;
    assert RowOk(db, db.checkIns[i]);
    OneLivePerSeat(db, db.checkIns[i].seat.value, i, j);
  }
}
