/**
 * Safety over whole runs, with no premise on the schedule: any interleaving of calls, with
 * lock leases that may lapse, stale readings, repeated cancels and duplicate expiry events.
 */
module Safety {
  import opened Domain
  import opened Sets
  import opened Tables
  import opened Machine
  import opened Invariants
  import opened Preservation
  import Calls

  /** A state that some schedule reaches from a freshly seeded system. */
  ghost predicate Reaches(init: State, es: seq<Event>, s: State) {
    Init(init) && s == Exec(init, es)
  }

  lemma ReachedInv(init: State, es: seq<Event>, s: State)
    requires Reaches(init, es, s)
    ensures Inv(s)
  {
    InitInv(init);
    ExecKeeps(init, es);
  }

  /** No other check-in of the same passenger on the same flight exists. */
  ghost predicate OnlyCheckIn(rows: seq<CheckIn>, i: CheckInId)
    requires i < |rows|
  {
    forall j :: 0 <= j < |rows| && j != i ==> rows[j].passenger != rows[i].passenger || rows[j].flight != rows[i].flight
  }

  /** A held seat has a holder and a time, and the holder's only check-in on the flight is for it and pending. */
  lemma HeldMeansLive(init: State, es: seq<Event>, s: State, x: SeatId)
    requires Reaches(init, es, s)
    requires x in s.sys.db.seats && s.sys.db.seats[x].status.Held?
    ensures var db, seat := s.sys.db, s.sys.db.seats[x];
      && seat.heldBy.Some? && seat.heldAt.Some?
      && exists i: CheckInId :: Owns(db.checkIns, i, x, seat.heldBy.value, seat.flight) && db.checkIns[i].Pending()
           && OnlyCheckIn(db.checkIns, i)
  {
    ReachedInv(init, es, s);
    var rows, seat := s.sys.db.checkIns, s.sys.db.seats[x];
    assert SeatOk(seat, x, rows);
    var i: CheckInId :| Owns(rows, i, x, seat.heldBy.value, seat.flight) && rows[i].Pending();
    assert Owns(rows, i, x, seat.heldBy.value, seat.flight);
  }

  // ---- One acquisition per passenger and flight ----

  /** Two acquisitions in the log are two different entries of Acquisitions, in the same order. */
  lemma {:induction false} AcquisitionAt(audit: seq<Audit>, k: nat) returns (b: nat)
    requires k < |audit| && audit[k].IsAcquisition()
    ensures b == |Acquisitions(audit[..k])| < |Acquisitions(audit)|
    ensures Acquisitions(audit)[b] == Acquisition(audit[k].passenger, audit[k].flight, audit[k].seat)
    decreases |audit|
  {
    var before := audit[..|audit| - 1];
    if k == |audit| - 1 {
      assert audit[..k] == before;
      b := |Acquisitions(before)|;
    } else {
      assert before[..k] == audit[..k];
      b := AcquisitionAt(before, k);
    }
  }

  lemma {:induction false} AcquisitionsGrow(audit: seq<Audit>, j: nat, k: nat)
    requires j < k <= |audit| && audit[j].IsAcquisition()
    ensures |Acquisitions(audit[..j])| < |Acquisitions(audit[..k])|
    decreases k
  {
    assert audit[..k][..k - 1] == audit[..k - 1];
    if j < k - 1 {
      AcquisitionsGrow(audit, j, k - 1);
    }
  }

  /** Over the whole run no passenger acquires twice on a flight, by direct hold or from the waitlist. */
  lemma AcquiresAtMostOnce(init: State, es: seq<Event>, s: State, j: nat, k: nat)
    requires Reaches(init, es, s)
    requires j < k < |s.sys.db.audit| && s.sys.db.audit[j].IsAcquisition() && s.sys.db.audit[k].IsAcquisition()
    ensures s.sys.db.audit[j].passenger != s.sys.db.audit[k].passenger
         || s.sys.db.audit[j].flight != s.sys.db.audit[k].flight
  {
    ReachedInv(init, es, s);
    var db := s.sys.db;
    var a := AcquisitionAt(db.audit, j);
    var b := AcquisitionAt(db.audit, k);
    AcquisitionsGrow(db.audit, j, k);
    assert Acquired(Acquisitions(db.audit)[a], db.checkIns[a]);
    assert Acquired(Acquisitions(db.audit)[b], db.checkIns[b]);
  }

  /** At any time a passenger is the holder of record of at most one seat of a flight. */
  lemma HoldsAtMostOneSeat(init: State, es: seq<Event>, s: State, x: SeatId, y: SeatId)
    requires Reaches(init, es, s)
    requires x in s.sys.db.seats && y in s.sys.db.seats && s.sys.db.seats[x].flight == s.sys.db.seats[y].flight
    requires s.sys.db.seats[x].heldBy.Some? && s.sys.db.seats[x].heldBy == s.sys.db.seats[y].heldBy
    ensures x == y
  {
    ReachedInv(init, es, s);
    var db := s.sys.db;
    var p, f := db.seats[x].heldBy.value, db.seats[x].flight;
    var i := OwnerOf(db, x, p);
    var j := OwnerOf(db, y, p);
    assert i == j;
  }

  lemma OwnerOf(db: Db, x: SeatId, p: PassengerId) returns (i: CheckInId)
    requires DbOk(db) && x in db.seats && db.seats[x].heldBy == Some(p)
    ensures Owns(db.checkIns, i, x, p, db.seats[x].flight)
  {
    assert SeatOk(db.seats[x], x, db.checkIns);
    ConfirmedKeepsOwner(db, db, x);
    i :| Owns(db.checkIns, i, x, p, db.seats[x].flight);
  }

  function Pairs(ps: set<PassengerId>, fs: set<FlightId>): set<(PassengerId, FlightId)> {
    set p, f | p in ps && f in fs :: (p, f)
  }

  lemma {:induction false} PairsSize(ps: set<PassengerId>, fs: set<FlightId>)
    ensures |Pairs(ps, fs)| == |ps| * |fs|
    decreases ps
  {
    if ps == {} {
      assert Pairs(ps, fs) == {};
    } else {
      var p :| p in ps;
      var rest := ps - {p};
      var column := Column(p, fs);
      PairsSize(rest, fs);
      ColumnSize(p, fs);
      assert Pairs(ps, fs) == Pairs(rest, fs) + column && Pairs(rest, fs) !! column;
      assert |ps| == |rest| + 1;
      assert (|rest| + 1) * |fs| == |rest| * |fs| + |fs|;
    }
  }

  function Column(p: PassengerId, fs: set<FlightId>): set<(PassengerId, FlightId)> {
    set f | f in fs :: (p, f)
  }

  lemma {:induction false} ColumnSize(p: PassengerId, fs: set<FlightId>)
    ensures |Column(p, fs)| == |fs|
    decreases fs
  {
    if fs == {} {
      assert Column(p, fs) == {};
    } else {
      var g :| g in fs;
      ColumnSize(p, fs - {g});
      assert Column(p, fs) == Column(p, fs - {g}) + {(p, g)};
    }
  }

  function Holders(rows: seq<CheckIn>): set<(PassengerId, FlightId)> {
    set i | 0 <= i < |rows| :: (rows[i].passenger, rows[i].flight)
  }

  lemma {:induction false} HoldersSize(rows: seq<CheckIn>)
    requires UniqueOk(rows)
    ensures |Holders(rows)| == |rows|
    decreases |rows|
  {
    if rows != [] {
      var n := |rows| - 1;
      var before, last := rows[..n], (rows[n].passenger, rows[n].flight);
      HoldersSize(before);
      assert Holders(rows) == Holders(before) + {last};
      assert last !in Holders(before);
    }
  }

  /** The seats ever acquired never outnumber passengers times flights. */
  lemma AcquisitionsBounded(init: State, es: seq<Event>, s: State)
    requires Reaches(init, es, s)
    ensures |Acquisitions(s.sys.db.audit)| <= |init.sys.db.passengers| * |init.sys.db.flights.Keys|
  {
    InitInv(init);
    ExecKeeps(init, es);
    var db := s.sys.db;
    HoldersSize(db.checkIns);
    PairsSize(db.passengers, db.flights.Keys);
    forall i | 0 <= i < |db.checkIns|
      ensures (db.checkIns[i].passenger, db.checkIns[i].flight) in Pairs(db.passengers, db.flights.Keys)
    {
      assert RowOk(db, db.checkIns[i]);
    }
    SubsetSize(Holders(db.checkIns), Pairs(db.passengers, db.flights.Keys));
  }

  // ---- Expiry ----

  /** Entry `j` of the later log is a release that the earlier log does not hold yet. */
  predicate WritesRelease(a: seq<Audit>, b: seq<Audit>, j: nat) {
    |a| <= j < |b| && b[j].SeatReleased?
  }

  /**
   * Between two moments of a run a hold cannot lapse and be taken up again by the same passenger: whoever
   * had a check-in on the flight and holds the seat later has held it all along, since the same heldAt.
   */
  lemma HoldsNeverRestart(init: State, es: seq<Event>, k: nat, a: Db, b: Db, x: SeatId, p: PassengerId)
    requires Init(init) && k <= |es| && a == Exec(init, es[..k]).sys.db && b == Exec(init, es).sys.db
    requires x in a.seats && HasCheckIn(a.checkIns, p, a.seats[x].flight)
    requires x in b.seats && b.seats[x].HeldBy(p)
    ensures a.seats[x].HeldBy(p) && a.seats[x].heldAt == b.seats[x].heldAt
  {
    InitInv(init);
    ExecKeeps(init, es[..k]);
    ExecKeeps(Exec(init, es[..k]), es[k..]);
    Calls.ExecConcat(init, es[..k], es[k..]);
    assert es[..k] + es[k..] == es;
    assert NoReacquisition(a, b);
  }

  /** Only the transaction of releaseSeatWithinLock writes SEAT_RELEASED, one entry at a time. */
  lemma StepWrites(sys: System, call: Call, reply: Reply)
    ensures var a, b := sys.db.audit, Step(sys, call, reply).0.db.audit;
      if call.Releasing? then
        b == if ReleaseHold(sys.db, call.seat, call.holder, call.flight).Some?
             then a + [SeatReleased(call.seat, call.holder, call.flight)] else a
      else forall j: nat :: !WritesRelease(a, b, j)
  {
  }

  /** The release that an event writes is of a hold whose 120 s are over at that moment. */
  lemma ReleaseIsDue(s: State, e: Event, j: nat)
    requires Inv(s) && WritesRelease(s.sys.db.audit, Next(s, e).sys.db.audit, j)
    ensures var log := Next(s, e).sys.db.audit[j];
      && log.holder.Some? && log.seat in s.sys.db.seats && s.sys.db.seats[log.seat].HeldBy(log.holder.value)
      && s.sys.db.seats[log.seat].heldAt.Some?
      && s.sys.db.seats[log.seat].heldAt.value + SEAT_HOLD_MS <= s.sys.now
  {
    assert e.Advance? && e.c in s.calls;
    var call := s.calls[e.c];
    StepWrites(s.sys, call, e.reply);
    assert CallOk(s.sys, call) && SeatOk(s.sys.db.seats[call.seat], call.seat, s.sys.db.checkIns);
  }

  /**
   * However late, duplicated or stale the expiry event, a release happens only when the very hold it ends
   * is at least 120 s old, although the compare-and-swap looks at status and holder only.
   */
  lemma NoEarlyRelease(init: State, es: seq<Event>, k: nat, a: System, audit: seq<Audit>, j: nat)
    requires Init(init) && k < |es| && a == Exec(init, es[..k]).sys && audit == Exec(init, es[..k + 1]).sys.db.audit
    requires WritesRelease(a.db.audit, audit, j)
    ensures var log := audit[j];
      && log.holder.Some? && log.seat in a.db.seats && a.db.seats[log.seat].HeldBy(log.holder.value)
      && a.db.seats[log.seat].heldAt.Some?
      && a.db.seats[log.seat].heldAt.value + SEAT_HOLD_MS <= a.now
  {
    InitInv(init);
    ExecKeeps(init, es[..k]);
    assert es[..k + 1][..k] == es[..k];
    ReleaseIsDue(Exec(init, es[..k]), es[k], j);
  }

  /** Over keyspace handler and sweep together, each acquisition is released at most once. */
  lemma ReleasedAtMostOnce(init: State, es: seq<Event>, s: State, j: nat, k: nat)
    requires Reaches(init, es, s)
    requires j < k < |s.sys.db.audit| && s.sys.db.audit[j].SeatReleased? && s.sys.db.audit[k].SeatReleased?
    ensures s.sys.db.audit[j].seat != s.sys.db.audit[k].seat || s.sys.db.audit[j].holder != s.sys.db.audit[k].holder
  {
    ReachedInv(init, es, s);
  }

  /** Every release in the log is of a seat that its holder had acquired. */
  lemma ReleasesWereAcquired(init: State, es: seq<Event>, s: State, k: nat)
    requires Reaches(init, es, s)
    requires k < |s.sys.db.audit| && s.sys.db.audit[k].SeatReleased?
    ensures var log := s.sys.db.audit[k];
      && log.holder.Some? && log.seat in s.sys.db.seats
      && Acquisition(log.holder.value, s.sys.db.seats[log.seat].flight, log.seat) in Acquisitions(s.sys.db.audit)
  {
    ReachedInv(init, es, s);
    var db, log := s.sys.db, s.sys.db.audit[k];
    assert ReleaseOk(db, log);
    var i: CheckInId :| Owns(db.checkIns, i, log.seat, log.holder.value, db.seats[log.seat].flight);
    assert Acquired(Acquisitions(db.audit)[i], db.checkIns[i]);
  }

  // ---- Audit ----

  /** Folding the log from the all-free table gives every seat's current status and holder. */
  lemma AuditReplaysTable(init: State, es: seq<Event>, s: State)
    requires Reaches(init, es, s)
    ensures Replay(s.sys.db.audit, init.sys.db.seats.Keys) == SeatStates(s.sys.db.seats)
  {
    InitInv(init);
    ExecKeeps(init, es);
  }
}
