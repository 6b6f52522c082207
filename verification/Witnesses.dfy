/** Runs that show that the premises of Fifo and Freshness cannot be dropped. */
module Witnesses {
  import opened Domain
  import opened Tables
  import opened Machine
  import opened Safety
  import opened Plays
  import opened Fifo
  import opened Freshness

  /** Overlapping joins end up at the same position. */
  lemma OverlappingJoinsTie() returns (es: seq<Event>, s: State)
    ensures Reaches(SEEDED, es, s)
    ensures s.sys.db.waitlist == [Entry(7, 1, 1, Waiting), Entry(7, 2, 1, Waiting)]
  {
    Initially(DEFAULTS);
    s := PlayPosition(SEEDED, SEEDED, 0, 1);
    s := PlayPosition(SEEDED, s, 1, 2);
    s := PlayInsert(SEEDED, s, 0, 1, 1);
    s := PlayInsert(SEEDED, s, 1, 2, 1);
    es := ByRun(DEFAULTS, s);
  }

  /** A queue of one has its position as the maximum. */
  lemma MaxOfOne(entry: Entry)
    ensures MaxPosition([entry], entry.flight) == entry.position
  {
    assert [entry][..0] == [];
  }

  /** Two passengers wait, one behind the other. */
  lemma PlayQueue() returns (s: State)
    ensures Reachable(SEEDED, s) && s.calls.Keys == {0, 1}
    ensures s.sys == SEEDED.sys.(db := SEEDED.sys.db.(
      waitlist := [Entry(7, 1, 1, Waiting), Entry(7, 2, 2, Waiting)]))
  {
    Initially(DEFAULTS);
    s := PlayJoin(SEEDED, SEEDED, 0, 1);
    assert s.sys.db.waitlist == [Entry(7, 1, 1, Waiting)];
    MaxOfOne(Entry(7, 1, 1, Waiting));
    s := PlayJoin(SEEDED, s, 1, 2);
  }

  /** A first call has read head 0 and a free seat when passenger 1 leaves and a second call reads head 1. */
  lemma PlayTwoHeads() returns (s: State)
    ensures Reachable(SEEDED, s) && s.calls.Keys == {0, 1, 2, 3, 4}
    ensures s.calls[2] == Seating(0, 1, 7, 1, 0) && s.calls[4] == Seating(1, 2, 7, 1, 0)
    ensures s.sys == SEEDED.sys.(db := SEEDED.sys.db.(
      waitlist := [Entry(7, 1, 1, WaitStatus.Cancelled), Entry(7, 2, 2, Waiting)]))
  {
    s := PlayQueue();
    s := PlayHead(SEEDED, s, 2, 0);
    s := PlayLeave(SEEDED, s, 3, 0);
    s := PlayHead(SEEDED, s, 4, 1);
  }

  /** The second call assigns the seat to passenger 2, who gives it back. */
  lemma PlayAssignedAndCancelled() returns (s: State)
    ensures Reachable(SEEDED, s) && 2 in s.calls && s.calls[2] == Seating(0, 1, 7, 1, 0)
    ensures var db := s.sys.db;
      && db.passengers == {1, 2} && 7 in db.flights && db.seats == map[1 := SEAT]
      && |db.checkIns| == 1 && db.checkIns[0].passenger == 2
      && db.waitlist == [Entry(7, 1, 1, WaitStatus.Cancelled), Entry(7, 2, 2, Assigned)]
      && |db.audit| == 3 && db.audit[0] == WaitlistAssigned(1, 7, 1, 2, 0)
  {
    s := PlayTwoHeads();
    s := PlayAssign(SEEDED, s, 4, 1, 2, 0);
    assert s.sys.db.checkIns == [NewCheckIn(2, 7, 1)];
    s := PlayCancel(SEEDED, s, 5, 0, 2);
  }

  /**
   * When the waitlist lease lapses between a head read and its assignment, position 1 can be assigned after
   * position 2, even though its passenger has left the queue.
   */
  lemma LapsedLeaseReordersAssignments() returns (es: seq<Event>, s: State, j: nat, k: nat)
    ensures Reaches(SEEDED, es, s)
    ensures var db := s.sys.db;
      && j < k && IsAssignment(db.audit, j, 7) && IsAssignment(db.audit, k, 7) && |db.waitlist| == 2
      && db.audit[j].entry == 1 && db.audit[k].entry == 0
      && db.waitlist[1].position == 2 && db.waitlist[0].position == 1
      && db.waitlist[0].status.Assigned?
  {
    s := PlayAssignedAndCancelled();
    s := PlayAssign(SEEDED, s, 2, 0, 1, 0);
    j, k := 0, 3;
    es := ByRun(DEFAULTS, s);
  }

  lemma PlayOneWaiting() returns (s: State)
    ensures Reachable(SEEDED, s) && s.calls.Keys == {0}
    ensures s.sys == SEEDED.sys.(db := SEEDED.sys.db.(waitlist := [Entry(7, 1, 1, Waiting)]))
  {
    Initially(DEFAULTS);
    s := PlayJoin(SEEDED, SEEDED, 0, 1);
    assert s.sys.db.waitlist == [Entry(7, 1, 1, Waiting)];
  }

  /** A leave has read its entry as WAITING when the entry is assigned the seat. */
  lemma PlayLeavingAssigned() returns (s: State)
    ensures Reachable(SEEDED, s) && s.calls.Keys == {0, 1, 2}
    ensures s.calls[1] == Leaving(0, 7) && s.calls[2] == Tail(AfterAssign(1, 1, 7))
    ensures s.sys.now == 0 && s.sys.db.waitlist == [Entry(7, 1, 1, Assigned)]
    ensures s.sys.db.checkIns == [NewCheckIn(1, 7, 1)]
    ensures s.sys.db.seats == map[1 := SEAT.(status := Held, heldBy := Some(1), heldAt := Some(0))]
  {
    s := PlayOneWaiting();
    s := PlayLeaving(SEEDED, s, 1, 0);
    s := PlayHead(SEEDED, s, 2, 0);
    s := PlayAssign(SEEDED, s, 2, 0, 1, 0);
  }

  /** A leave overwrites the assignment it overlaps: the entry is CANCELLED, the hold it led to goes on. */
  lemma LeaveOverwritesAssignment() returns (es: seq<Event>, s: State)
    ensures Reaches(SEEDED, es, s)
    ensures s.sys.db.waitlist == [Entry(7, 1, 1, WaitStatus.Cancelled)]
    ensures s.sys.db.checkIns == [NewCheckIn(1, 7, 1)] && 1 in s.sys.db.seats && s.sys.db.seats[1].HeldBy(1)
  {
    s := PlayLeavingAssigned();
    s := PlayLeft(SEEDED, s, 1, 0);
    es := ByRun(DEFAULTS, s);
  }

  /** The assigned hold has lapsed and been released, and its entry read as ASSIGNED. */
  lemma PlayExpiring() returns (s: State)
    ensures Reachable(SEEDED, s) && {1, 3} <= s.calls.Keys
    ensures s.calls[1] == Leaving(0, 7) && s.calls[3] == Expiring(1, 7, 0)
    ensures s.sys.db.waitlist == [Entry(7, 1, 1, Assigned)]
  {
    s := PlayLeavingAssigned();
    s := Play(SEEDED, s, Tick(SEAT_HOLD_MS));
    s := Play(SEEDED, s, Open(3, ReleaseRequest(1)));
    assert s.calls[3] == Releasing(1, Some(1), 7);
    s := Play(SEEDED, s, Advance(3, Ack));
    assert s.calls[3] == Released(1, Some(1), 7);
    assert IsAssigned(s.sys.db.waitlist, 1, 7, 0);
    s := Play(SEEDED, s, Advance(3, Ack));
  }

  /** An expiry overwrites the leave that it overlaps in turn. */
  lemma ExpiryOverwritesLeave() returns (es: seq<Event>, s: State)
    ensures Reaches(SEEDED, es, s)
    ensures s.sys.db.waitlist == [Entry(7, 1, 1, Expired)]
    ensures 1 in s.calls && s.calls[1] == Tail([Count(7, -1)])
  {
    s := PlayExpiring();
    s := PlayLeft(SEEDED, s, 1, 0);
    s := Play(SEEDED, s, Advance(3, Ack));
    es := ByRun(DEFAULTS, s);
  }

  const ALL_FREE: SeatMap := map[1 := SeatView(1, 'A', Available)]

  /** A reader has built the map of the flight and not yet written the cache. */
  lemma PlayReader() returns (s: State)
    ensures Reachable(SEEDED, s) && s == SEEDED.(calls := map[0 := Mapping(7, ALL_FREE, 0)])
  {
    Initially(DEFAULTS);
    s := Play(SEEDED, SEEDED, Open(0, MapRequest(7)));
    assert Projection(SEEDED.sys.db.seats, 7) == ALL_FREE;
  }

  /** A map read before a hold and cached after the hold's invalidation shows the held seat as available. */
  lemma InvalidationMissesReader() returns (es: seq<Event>, s: State, e: Event)
    ensures Reaches(SEEDED, es, s)
    ensures 1 in s.sys.db.seats && s.sys.db.seats[1].status.Held? && s.calls == map[]
    ensures Served(s, e, 7) == Some(ALL_FREE)
  {
    s := PlayReader();
    s := PlayHold(SEEDED, s, 1, 1);
    s := Play(SEEDED, s, Advance(1, Ack));
    assert s.calls == map[0 := Mapping(7, ALL_FREE, 0)];
    s := Play(SEEDED, s, Advance(0, Ack));
    e := Open(0, MapRequest(7));
    assert Served(s, e, 7) == Some(ALL_FREE);
    es := ByRun(DEFAULTS, s);
  }
}
