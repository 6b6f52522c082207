/** One seat passed down the waitlist: each assignee lets the hold lapse, and the queue empties in order. */
module Recycling {
  import opened Domain
  import opened Tables
  import opened Machine
  import opened Invariants
  import opened Calls
  import opened Serial
  import opened Gauge
  import opened Preservation
  import opened Safety
  import opened Fifo

  /**
   * The head that the query returns, one of the lowest-positioned if joins have tied, and how long its hold is left.
   */
  datatype Turn = Turn(head: EntryId, wait: nat)

  /** Assign the seat to the head, let its hold lapse, and release it: the event this emits starts the next round. */
  function Round(sys: System, f: FlightId, x: SeatId, turn: Turn): System {
    var seated := ProcessWaitlist(sys, true, f, Some(x), Some(turn.head), Some(x));
    ReleaseSeat(seated.(now := seated.now + turn.wait), true, x).0
  }

  function Rounds(sys: System, f: FlightId, x: SeatId, turns: seq<Turn>): System
    decreases |turns|
  {
    if turns == [] then sys else Rounds(Round(sys, f, x, turns[0]), f, x, turns[1..])
  }

  /** Each turn's entry is a head when its round starts, and its hold is left to lapse. */
  ghost predicate Possible(sys: System, f: FlightId, x: SeatId, turns: seq<Turn>)
    decreases |turns|
  {
    turns == [] ||
    (&& IsHead(sys.db.waitlist, f, turns[0].head) && turns[0].wait >= SEAT_HOLD_MS
     && Possible(Round(sys, f, x, turns[0]), f, x, turns[1..]))
  }

  function Heads(turns: seq<Turn>): seq<EntryId> {
    if turns == [] then [] else [turns[0].head] + Heads(turns[1..])
  }

  predicate SeatFree(sys: System, f: FlightId, x: SeatId) {
    && x in sys.db.seats && sys.db.seats[x].flight == f && f in sys.db.flights
    && sys.db.seats[x].status.Available? && sys.db.seats[x].heldBy.None? && sys.db.seats[x].heldAt.None?
  }

  /** UQ_waitlist_flight_passenger, for one flight. */
  ghost predicate OneEntryEach(entries: seq<Entry>, f: FlightId) {
    forall i, j :: 0 <= i < j < |entries| && entries[i].flight == f && entries[j].flight == f
      ==> entries[i].passenger != entries[j].passenger
  }

  /** Nobody waiting on the flight has a check-in row for it. */
  ghost predicate NoneCheckedIn(db: Db, f: FlightId) {
    forall e: EntryId :: IsWaiting(db.waitlist, f, e) ==>
      db.waitlist[e].passenger in db.passengers && !HasCheckIn(db.checkIns, db.waitlist[e].passenger, f)
  }

  ghost predicate Ready(sys: System, f: FlightId, x: SeatId) {
    SeatFree(sys, f, x) && OneEntryEach(sys.db.waitlist, f) && NoneCheckedIn(sys.db, f)
  }

  /** What one round does when `h` is the head. */
  ghost predicate Passed(a: System, b: System, f: FlightId, x: SeatId, h: EntryId) {
    && IsHead(a.db.waitlist, f, h)
    && b.db.seats == a.db.seats
    && b.db.flights == a.db.flights && b.db.passengers == a.db.passengers
    && b.db.waitlist == SetEntry(a.db.waitlist, h, Expired)
    && b.db.audit == a.db.audit + [WaitlistAssigned(h, f, x, a.db.waitlist[h].passenger, |a.db.checkIns|),
                                   SeatReleased(x, Some(a.db.waitlist[h].passenger), f)]
    && |b.db.checkIns| == |a.db.checkIns| + 1 && KeysKept(a.db.checkIns, b.db.checkIns)
    && b.db.checkIns[|a.db.checkIns|] ==
         NewCheckIn(a.db.waitlist[h].passenger, f, x).(status := CheckInStatus.Cancelled)
    && b.signals == a.signals + [Signal(f, Some(x))]
  }

  /** The assignee's entry is the one that the lapse marks as expired. */
  lemma AssigneeExpires(entries: seq<Entry>, f: FlightId, h: EntryId)
    requires OneEntryEach(entries, f) && h < |entries| && entries[h].flight == f
    ensures ExpireEntry(SetEntry(entries, h, Assigned), Some(entries[h].passenger), f) == SetEntry(entries, h, Expired)
  {
    var seated, p := SetEntry(entries, h, Assigned), entries[h].passenger;
    assert IsAssigned(seated, p, f, h);
    var e := FindAssigned(seated, p, f).value;
    assert entries[e].flight == f && entries[e].passenger == p;
  }

  lemma RoundPasses(sys: System, f: FlightId, x: SeatId, turn: Turn)
    requires Ready(sys, f, x) && IsHead(sys.db.waitlist, f, turn.head) && turn.wait >= SEAT_HOLD_MS
    ensures Passed(sys, Round(sys, f, x, turn), f, x, turn.head)
  {
    var entries, h := sys.db.waitlist, turn.head;
    var p := entries[h].passenger;
    assert IsWaiting(entries, f, h);
    var held := AssignSeat(sys.db, h, p, f, x, sys.now);
    assert held.Some?;
    AfterAssignEffect(sys.(db := held.value), x, p, f);
    var seated := ProcessWaitlist(sys, true, f, Some(x), Some(h), Some(x));
    assert seated.db == held.value;
    ReleaseForm(seated.(now := seated.now + turn.wait), true, x);
    AssigneeExpires(entries, f, h);
    assert Round(sys, f, x, turn).db.seats == sys.db.seats;
  }

  lemma ReadyAgain(a: System, b: System, f: FlightId, x: SeatId, h: EntryId)
    requires Ready(a, f, x) && Passed(a, b, f, x, h)
    ensures Ready(b, f, x)
    ensures CountWaiting(b.db.waitlist, f) == CountWaiting(a.db.waitlist, f) - 1
  {
    CountSet(a.db.waitlist, h, Expired, f);
    forall e: EntryId | IsWaiting(b.db.waitlist, f, e)
      ensures b.db.waitlist[e].passenger in b.db.passengers
      ensures !HasCheckIn(b.db.checkIns, b.db.waitlist[e].passenger, f)
    {
      var q := a.db.waitlist[e].passenger;
      assert IsWaiting(a.db.waitlist, f, e) && q != a.db.waitlist[h].passenger;
      assert forall i :: 0 <= i < |a.db.checkIns| ==> a.db.checkIns[i].SameKey(b.db.checkIns[i]);
    }
  }

  lemma {:induction false} NoneWaiting(entries: seq<Entry>, f: FlightId)
    ensures CountWaiting(entries, f) == 0 <==> forall e: EntryId :: !IsWaiting(entries, f, e)
    decreases |entries|
  {
    if entries != [] {
      var n := |entries| - 1;
      NoneWaiting(entries[..n], f);
      assert forall e: EntryId :: e < n ==> (IsWaiting(entries[..n], f, e) <==> IsWaiting(entries, f, e));
      assert IsWaiting(entries, f, n) ==> CountWaiting(entries, f) > 0;
    }
  }

  /** The entries as they end: whoever waited on the flight has expired, nobody else has moved. */
  function AllExpired(entries: seq<Entry>, f: FlightId): seq<Entry> {
    seq(|entries|, i requires 0 <= i < |entries| =>
      if IsWaiting(entries, f, i) then entries[i].(status := Expired) else entries[i])
  }

  /** From entry `k` of the log on, an assignment of `e` and its release follow each other. */
  predicate AssignedThenReleased(audit: seq<Audit>, k: nat, f: FlightId, x: SeatId, e: EntryId) {
    && k + 1 < |audit|
    && audit[k].WaitlistAssigned? && audit[k].entry == e && audit[k].flight == f && audit[k].seat == x
    && audit[k + 1] == SeatReleased(x, Some(audit[k].passenger), f)
  }

  /** The log from `a` to `b` is exactly an assignment and a release for each entry of `order`. */
  ghost predicate LogsExactly(a: seq<Audit>, b: seq<Audit>, f: FlightId, x: SeatId, order: seq<EntryId>) {
    && |b| == |a| + 2 * |order| && a <= b
    && forall k :: 0 <= k < |order| ==> AssignedThenReleased(b, |a| + 2 * k, f, x, order[k])
  }

  /** Distinct waiting entries of the flight in order of position. */
  ghost predicate InPositionOrder(entries: seq<Entry>, f: FlightId, order: seq<EntryId>) {
    && (forall k :: 0 <= k < |order| ==> IsWaiting(entries, f, order[k]))
    && (forall j, k :: 0 <= j < k < |order| ==> Before(entries, order[j], order[k]))
  }

  predicate Before(entries: seq<Entry>, e: EntryId, e': EntryId) {
    e < |entries| && e' < |entries| && e != e' && entries[e].position <= entries[e'].position
  }

  lemma LogsPrepend(a: seq<Audit>, mid: seq<Audit>, b: seq<Audit>, f: FlightId, x: SeatId,
                    h: EntryId, later: seq<EntryId>)
    requires LogsExactly(a, mid, f, x, [h]) && LogsExactly(mid, b, f, x, later)
    ensures LogsExactly(a, b, f, x, [h] + later)
  {
  }

  lemma OrderPrepend(entries: seq<Entry>, f: FlightId, h: EntryId, later: seq<EntryId>)
    requires IsHead(entries, f, h) && InPositionOrder(SetEntry(entries, h, Expired), f, later)
    ensures InPositionOrder(entries, f, [h] + later)
  {
  }

  /** What any number of rounds does, whichever heads the queries return among equal positions. */
  ghost predicate PassedDown(a: System, b: System, f: FlightId, x: SeatId, order: seq<EntryId>) {
    && Ready(b, f, x) && b.db.seats == a.db.seats
    && LogsExactly(a.db.audit, b.db.audit, f, x, order) && InPositionOrder(a.db.waitlist, f, order)
    && CountWaiting(b.db.waitlist, f) + |order| == CountWaiting(a.db.waitlist, f)
    && AllExpired(b.db.waitlist, f) == AllExpired(a.db.waitlist, f)
  }

  lemma PassedThenDown(a: System, mid: System, b: System, f: FlightId, x: SeatId, h: EntryId, later: seq<EntryId>)
    requires Ready(a, f, x) && Passed(a, mid, f, x, h) && PassedDown(mid, b, f, x, later)
    ensures PassedDown(a, b, f, x, [h] + later)
  {
    ReadyAgain(a, mid, f, x, h);
    assert AssignedThenReleased(mid.db.audit, |a.db.audit|, f, x, h);
    LogsPrepend(a.db.audit, mid.db.audit, b.db.audit, f, x, h, later);
    OrderPrepend(a.db.waitlist, f, h, later);
    AllExpiredAfter(a.db.waitlist, f, h);
  }

  /** Every round takes one from the number of waiting entries: the measure that ends the recycling. */
  lemma {:induction false} SeatPassesDown(sys: System, f: FlightId, x: SeatId, turns: seq<Turn>)
    requires Ready(sys, f, x) && Possible(sys, f, x, turns)
    ensures PassedDown(sys, Rounds(sys, f, x, turns), f, x, Heads(turns)) && |Heads(turns)| == |turns|
    decreases |turns|
  {
    if turns != [] {
      var mid := Round(sys, f, x, turns[0]);
      RoundPasses(sys, f, x, turns[0]);
      ReadyAgain(sys, mid, f, x, turns[0].head);
      SeatPassesDown(mid, f, x, turns[1..]);
      PassedThenDown(sys, mid, Rounds(sys, f, x, turns), f, x, turns[0].head, Heads(turns[1..]));
    }
  }

  /**
   * With n passengers waiting and no joins or leaves, there are never more than n rounds, and n rounds make
   * exactly n assignments, to the waiting entries in order of position, and end with all of them expired, the
   * seat free and nobody left to assign.
   */
  lemma {:induction false} SeatPassesDownTheQueue(sys: System, f: FlightId, x: SeatId, turns: seq<Turn>)
    requires Ready(sys, f, x) && Possible(sys, f, x, turns)
    ensures |turns| <= CountWaiting(sys.db.waitlist, f)
    ensures var sys' := Rounds(sys, f, x, turns);
      && SeatFree(sys', f, x) && sys'.db.seats == sys.db.seats
      && LogsExactly(sys.db.audit, sys'.db.audit, f, x, Heads(turns))
      && InPositionOrder(sys.db.waitlist, f, Heads(turns))
      && (|turns| == CountWaiting(sys.db.waitlist, f) ==>
            sys'.db.waitlist == AllExpired(sys.db.waitlist, f)
            && forall e: EntryId :: !IsWaiting(sys'.db.waitlist, f, e))
  {
    SeatPassesDown(sys, f, x, turns);
    NoneWaiting(Rounds(sys, f, x, turns).db.waitlist, f);
  }

  /** As long as somebody waits there is a next round. */
  lemma {:induction false} RoundsGoOn(sys: System, f: FlightId, x: SeatId, n: nat) returns (turns: seq<Turn>)
    requires Ready(sys, f, x) && n <= CountWaiting(sys.db.waitlist, f)
    ensures Possible(sys, f, x, turns) && |turns| == n
    decreases n
  {
    turns := [];
    if n > 0 {
      NoneWaiting(sys.db.waitlist, f);
      var turn := Turn(FindHead(sys.db.waitlist, f).value, SEAT_HOLD_MS);
      RoundPasses(sys, f, x, turn);
      ReadyAgain(sys, Round(sys, f, x, turn), f, x, turn.head);
      var later := RoundsGoOn(Round(sys, f, x, turn), f, x, n - 1);
      turns := [turn] + later;
    }
  }

  lemma AllExpiredAfter(entries: seq<Entry>, f: FlightId, h: EntryId)
    requires IsWaiting(entries, f, h)
    ensures AllExpired(SetEntry(entries, h, Expired), f) == AllExpired(entries, f)
  {
  }

  /** Once nobody waits, a round would only let time pass. */
  lemma EmptyQueueStaysPut(sys: System, f: FlightId, x: SeatId, turn: Turn)
    requires SeatFree(sys, f, x) && CountWaiting(sys.db.waitlist, f) == 0
    ensures Round(sys, f, x, turn) == sys.(now := sys.now + turn.wait)
  {
    NoneWaiting(sys.db.waitlist, f);
  }

  // ---- A free seat is ready in every reachable state ----

  /** The foreign key and the unique constraint of the waitlist. */
  ghost predicate EntriesOk(db: Db) {
    && (forall i :: 0 <= i < |db.waitlist| ==> db.waitlist[i].passenger in db.passengers)
    && forall i, j :: 0 <= i < j < |db.waitlist| ==>
         db.waitlist[i].passenger != db.waitlist[j].passenger || db.waitlist[i].flight != db.waitlist[j].flight
  }

  /** A step adds at most one entry, under both constraints. */
  lemma StepAppends(sys: System, call: Call, reply: Reply)
    ensures var a, b := sys.db, Step(sys, call, reply).0.db;
      |b.waitlist| <= |a.waitlist| || (|b.waitlist| == |a.waitlist| + 1 &&
        var last := b.waitlist[|a.waitlist|];
        last.passenger in a.passengers && !HasEntry(a.waitlist, last.passenger, last.flight))
  {
    if !WritesQueue(call) {
      StepEntries(sys, call, reply);
    }
  }

  lemma NextEntries(s: State, e: Event)
    requires Inv(s) && EntriesOk(s.sys.db)
    ensures EntriesOk(Next(s, e).sys.db)
  {
    NextKeeps(s, e);
    if e.Advance? && e.c in s.calls {
      StepAppends(s.sys, s.calls[e.c], e.reply);
      EntriesCarry(s.sys.db, Next(s, e).sys.db);
    }
  }

  lemma EntriesCarry(a: Db, b: Db)
    requires EntriesOk(a) && DbEvolves(a, b)
    requires |b.waitlist| <= |a.waitlist| || (|b.waitlist| == |a.waitlist| + 1 &&
      var last := b.waitlist[|a.waitlist|];
      last.passenger in a.passengers && !HasEntry(a.waitlist, last.passenger, last.flight))
    ensures EntriesOk(b)
  {
  }

  lemma {:induction false} EntriesRun(s: State, es: seq<Event>)
    requires Inv(s) && EntriesOk(s.sys.db)
    ensures EntriesOk(Exec(s, es).sys.db)
    decreases |es|
  {
    if es != [] {
      EntriesRun(s, es[..|es| - 1]);
      ExecKeeps(s, es[..|es| - 1]);
      NextEntries(Exec(s, es[..|es| - 1]), es[|es| - 1]);
    }
  }

  /** In every reachable state a free seat can be passed down the queue once nobody waiting has a check-in. */
  lemma FreeSeatIsReady(init: State, es: seq<Event>, s: State, f: FlightId, x: SeatId)
    requires Reaches(init, es, s) && IsAvailable(s.sys.db.seats, x) && s.sys.db.seats[x].flight == f
    requires forall e: EntryId :: IsWaiting(s.sys.db.waitlist, f, e) ==>
      !HasCheckIn(s.sys.db.checkIns, s.sys.db.waitlist[e].passenger, f)
    ensures Ready(s.sys, f, x)
  {
    InitInv(init);
    ExecKeeps(init, es);
    EntriesRun(init, es);
    var db := s.sys.db;
    assert SeatOk(db.seats[x], x, db.checkIns);
    assert init.sys.db.seats[x].flight == f;
  }
}
