/** Nothing is cancelled on a flight that has departed. */
module Departures {
  import opened Domain
  import opened Machine
  import opened Safety
  import opened Preservation

  predicate Gone(db: Db, f: FlightId) {
    f in db.flights && db.flights[f].Departed?
  }

  predicate IsCancellation(log: Audit) {
    log.SeatCancelled? || log.CheckInCancelled?
  }

  predicate LogsNoGone(db: Db) {
    forall k :: 0 <= k < |db.audit| && IsCancellation(db.audit[k]) ==> !Gone(db, db.audit[k].flight)
  }

  ghost predicate Grounded(s: State) {
    LogsNoGone(s.sys.db) && forall c :: c in s.calls && s.calls[c].Permitted? ==> !Gone(s.sys.db, s.calls[c].row.flight)
  }

  /** The log grows, and the entries it grows by cancel nothing. */
  predicate CancelsNothing(a: Db, b: Db) {
    && b.flights == a.flights && |a.audit| <= |b.audit| && (forall k :: 0 <= k < |a.audit| ==> b.audit[k] == a.audit[k])
    && forall k :: |a.audit| <= k < |b.audit| ==> !IsCancellation(b.audit[k])
  }

  lemma CompletionCancelsNothing(sys: System, id: CheckInId, row: CheckIn, weight: real, payment: Option<string>)
    ensures CancelsNothing(sys.db, FinishComplete(sys, id, row, weight, payment).0.db)
  {
  }

  lemma OthersCancelNothing(sys: System, call: Call, reply: Reply)
    requires !call.Permitted?
    ensures CancelsNothing(sys.db, Step(sys, call, reply).0.db)
  {
    if call.Validated? || call.Paid? {
      CompletingCancelsNothing(sys, call, reply);
    } else {
      RestCancelNothing(sys, call, reply);
    }
  }

  lemma CompletingCancelsNothing(sys: System, call: Call, reply: Reply)
    requires call.Validated? || call.Paid?
    ensures CancelsNothing(sys.db, Step(sys, call, reply).0.db)
  {
    CompletionCancelsNothing(sys, call.id, call.row, call.weight, if call.Paid? then Some(call.transaction) else None);
  }

  lemma RestCancelNothing(sys: System, call: Call, reply: Reply)
    requires !call.Permitted? && !call.Validated? && !call.Paid?
    ensures CancelsNothing(sys.db, Step(sys, call, reply).0.db)
  {
    if !Writes(call) {
      ReadingStep(sys, call, reply);
    } else if call.Holding? || call.Seating? {
      TakingStep(sys, call, reply);
    }
  }

  /** A call is permitted to cancel only by the test of the flight. */
  lemma StepPermits(sys: System, call: Call, reply: Reply)
    ensures var call' := Step(sys, call, reply).1;
      call'.Some? && call'.value.Permitted? ==> !Gone(sys.db, call'.value.row.flight)
  {
  }

  lemma NextGrounded(s: State, e: Event)
    requires Grounded(s)
    ensures Grounded(Next(s, e))
  {
    if e.Advance? && e.c in s.calls {
      StepPermits(s.sys, s.calls[e.c], e.reply);
      if s.calls[e.c].Permitted? {
        assert !Gone(s.sys.db, s.calls[e.c].row.flight);
      } else {
        OthersCancelNothing(s.sys, s.calls[e.c], e.reply);
      }
    }
  }

  lemma {:induction false} RunGrounded(s: State, es: seq<Event>)
    requires Grounded(s)
    ensures Grounded(Exec(s, es)) && Exec(s, es).sys.db.flights == s.sys.db.flights
    decreases |es|
  {
    if es != [] {
      RunGrounded(s, es[..|es| - 1]);
      NextGrounded(Exec(s, es[..|es| - 1]), es[|es| - 1]);
      FlightsStay(Exec(s, es[..|es| - 1]), es[|es| - 1]);
    }
  }

  lemma FlightsStay(s: State, e: Event)
    ensures Next(s, e).sys.db.flights == s.sys.db.flights
  {
    if e.Advance? && e.c in s.calls && !s.calls[e.c].Permitted? {
      OthersCancelNothing(s.sys, s.calls[e.c], e.reply);
    }
  }

  /** In every interleaving, no seat and no check-in is ever cancelled on a flight that has departed. */
  lemma NoneCancelledOnceDeparted(init: State, es: seq<Event>, s: State, k: nat)
    requires Reaches(init, es, s) && k < |s.sys.db.audit|
    requires s.sys.db.audit[k].SeatCancelled? || s.sys.db.audit[k].CheckInCancelled?
    ensures var f := s.sys.db.audit[k].flight;
      !(f in init.sys.db.flights && init.sys.db.flights[f].Departed?)
  {
    RunGrounded(init, es);
  }
}
