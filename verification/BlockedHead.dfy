/** A waitlist head who already has a check-in row: never assigned, and never passed over. */
module BlockedHead {
  import opened Domain
  import opened Tables
  import opened Machine
  import opened Invariants
  import opened Preservation
  import opened Safety
  import opened Plays
  import Calls
  import Recycling
  import Fifo

  /** Entry `j` of the later log is an acquisition on the flight that the earlier log does not hold yet. */
  predicate WritesAcquisition(a: seq<Audit>, b: seq<Audit>, j: nat, p: PassengerId, f: FlightId) {
    |a| <= j < |b| && b[j].IsAcquisition() && b[j].passenger == p && b[j].flight == f
  }

  lemma OthersAcquireNothing(sys: System, call: Call, reply: Reply, j: nat, p: PassengerId, f: FlightId)
    requires !call.Holding? && !call.Seating?
    ensures !WritesAcquisition(sys.db.audit, Step(sys, call, reply).0.db.audit, j, p, f)
  {
    if call.Validated? || call.Paid? {
      Fifo.CompletingLog(sys, call, reply);
    }
  }

  lemma StepAcquires(sys: System, call: Call, reply: Reply, j: nat, p: PassengerId, f: FlightId)
    ensures WritesAcquisition(sys.db.audit, Step(sys, call, reply).0.db.audit, j, p, f) ==>
      !HasCheckIn(sys.db.checkIns, p, f)
  {
    if call.Holding? || call.Seating? {
      TakingStep(sys, call, reply);
    } else {
      OthersAcquireNothing(sys, call, reply, j, p, f);
    }
  }

  lemma NextAcquires(s: State, e: Event, j: nat, p: PassengerId, f: FlightId)
    ensures WritesAcquisition(s.sys.db.audit, Next(s, e).sys.db.audit, j, p, f) ==> !HasCheckIn(s.sys.db.checkIns, p, f)
  {
    if e.Advance? && e.c in s.calls {
      StepAcquires(s.sys, s.calls[e.c], e.reply, j, p, f);
    }
  }

  lemma StaysCheckedIn(init: State, es: seq<Event>, k: nat, m: nat, p: PassengerId, f: FlightId)
    requires Init(init) && k <= m <= |es| && HasCheckIn(Exec(init, es[..k]).sys.db.checkIns, p, f)
    ensures HasCheckIn(Exec(init, es[..m]).sys.db.checkIns, p, f)
  {
    InitInv(init);
    ExecKeeps(init, es[..k]);
    ExecKeeps(Exec(init, es[..k]), es[k..m]);
    Calls.ExecConcat(init, es[..k], es[k..m]);
    assert es[..k] + es[k..m] == es[..m];
    HasCheckInStable(Exec(init, es[..k]).sys.db.checkIns, Exec(init, es[..m]).sys.db.checkIns, p, f);
  }

  /**
   * In every interleaving, once a passenger has a check-in row on a flight, no event acquires a seat of it for them.
   */
  lemma NeverAcquiresAgain(init: State, es: seq<Event>, k: nat, m: nat, j: nat, p: PassengerId, f: FlightId)
    requires Init(init) && k <= m < |es| && HasCheckIn(Exec(init, es[..k]).sys.db.checkIns, p, f)
    ensures !WritesAcquisition(Exec(init, es[..m]).sys.db.audit, Exec(init, es[..m + 1]).sys.db.audit, j, p, f)
  {
    StaysCheckedIn(init, es, k, m, p, f);
    assert es[..m + 1][..m] == es[..m];
    NextAcquires(Exec(init, es[..m]), es[m], j, p, f);
  }

  /** What a passenger on a flight's waitlist and a seat of the flight owe to the foreign keys. */
  lemma KeysExist(init: State, es: seq<Event>, s: State, f: FlightId, h: EntryId, x: SeatId)
    requires Reaches(init, es, s) && h < |s.sys.db.waitlist| && x in s.sys.db.seats && s.sys.db.seats[x].flight == f
    ensures s.sys.db.waitlist[h].passenger in s.sys.db.passengers && f in s.sys.db.flights
  {
    InitInv(init);
    ExecKeeps(init, es);
    Recycling.EntriesRun(init, es);
    assert init.sys.db.seats[x].flight == f;
  }

  lemma AssignmentShows(sys: System, h: EntryId, p: PassengerId, f: FlightId, x: SeatId)
    requires AssignSeat(sys.db, h, p, f, x, sys.now).Some?
    ensures Calls.AssignWithinLock(sys, h, p, f, x) != sys
  {
    var db := AssignSeat(sys.db, h, p, f, x, sys.now).value;
    Calls.AfterAssignEffect(sys.(db := db), x, p, f);
    assert |db.audit| == |sys.db.audit| + 1;
  }

  /**
   * In every reachable state, processing the head for an offered seat does something exactly when the head has no
   * row.
   */
  lemma HeadBlocks(init: State, es: seq<Event>, s: State, f: FlightId, hint: Option<SeatId>, h: EntryId, x: SeatId)
    requires Reaches(init, es, s) && IsHead(s.sys.db.waitlist, f, h) && Calls.SeatOffered(s.sys, f, hint, x)
    ensures Calls.ProcessWaitlist(s.sys, true, f, hint, Some(h), Some(x)) != s.sys <==>
      !HasCheckIn(s.sys.db.checkIns, s.sys.db.waitlist[h].passenger, f)
  {
    var p := s.sys.db.waitlist[h].passenger;
    KeysExist(init, es, s, f, h, x);
    if !HasCheckIn(s.sys.db.checkIns, p, f) {
      AssignmentShows(s.sys, h, p, f, x);
    }
  }

  /** A passenger holds the seat, cancels and joins; a second one joins behind. */
  lemma PlayBlocked() returns (s: State)
    ensures Reachable(SEEDED, s) && s.sys.db.seats == map[1 := SEAT]
    ensures |s.sys.db.checkIns| == 1 && s.sys.db.checkIns[0].passenger == 1 && s.sys.db.checkIns[0].flight == 7
    ensures s.sys.db.waitlist == [Entry(7, 1, 1, Waiting), Entry(7, 2, 2, Waiting)]
  {
    Initially(DEFAULTS);
    s := PlayHold(SEEDED, SEEDED, 0, 1);
    s := PlayCancel(SEEDED, s, 1, 0, 1);
    s := PlayJoin(SEEDED, s, 2, 1);
    assert s.sys.db.waitlist == [Entry(7, 1, 1, Waiting)];
    assert [Entry(7, 1, 1, Waiting)][..0] == [];
    s := PlayJoin(SEEDED, s, 3, 2);
    assert s.sys.db.seats == map[1 := SEAT];
  }

  /** Then a free seat, a passenger without a check-in and no processing that would bring them together. */
  lemma HeadBlocksQueue() returns (es: seq<Event>, s: State)
    ensures Reaches(SEEDED, es, s) && Calls.SeatOffered(s.sys, 7, None, 1)
    ensures IsWaiting(s.sys.db.waitlist, 7, 1) && !HasCheckIn(s.sys.db.checkIns, s.sys.db.waitlist[1].passenger, 7)
    ensures forall hint, head, x :: Calls.ProcessWaitlist(s.sys, true, 7, hint, head, x) == s.sys
  {
    s := PlayBlocked();
    es := ByRun(DEFAULTS, s);
    forall hint, head, x
      ensures Calls.ProcessWaitlist(s.sys, true, 7, hint, head, x) == s.sys
    {
      if && head.Some? && IsHead(s.sys.db.waitlist, 7, head.value)
         && x.Some? && Calls.SeatOffered(s.sys, 7, hint, x.value)
      {
        assert IsWaiting(s.sys.db.waitlist, 7, 0) && head.value == 0;
        assert s.sys.db.checkIns[0].passenger == 1;
        HeadBlocks(SEEDED, es, s, 7, hint, 0, x.value);
      }
    }
  }
}
