/** src/waitlist/waitlist.service.ts: the queue, its gauge, and automatic assignment. */
module WaitlistServices {
  import opened Domain
  import opened Tables
  import opened Machine
  import opened Store
  import Calls
  import Gauge
  import Serial

  class WaitlistService {
    const store: Backend

    constructor (store: Backend)
      ensures this.store == store
    {
      this.store := store;
    }

    method JoinWaitlist(passenger: PassengerId, flight: FlightId) returns (r: Result<EntryId, Calls.CallError>)
      modifies store
      ensures (store.View(), r) == Calls.JoinWaitlist(old(store.View()), passenger, flight)
      ensures old(Gauge.GaugeExact(store.View())) ==> Gauge.GaugeExact(store.View())
      // The answer, in the order of the tests.
      ensures
        if flight !in store.flights then r == Err(Calls.FlightNotFound)
        else if exists i :: 0 <= i < |old(store.waitlist)| && old(store.waitlist)[i].passenger == passenger
                            && old(store.waitlist)[i].flight == flight && old(store.waitlist)[i].status.Waiting?
        then r == Err(Calls.AlreadyOnWaitlist)
        else if || passenger !in store.passengers
                || exists i :: 0 <= i < |old(store.waitlist)| && old(store.waitlist)[i].passenger == passenger
                               && old(store.waitlist)[i].flight == flight
        then r == Err(Calls.DatabaseRejected)
        else r == Ok(|old(store.waitlist)|)
      // What has changed: a new entry, right behind everybody on the flight.
      ensures r.Err? ==> store.View() == old(store.View())
      ensures r.Ok? ==>
        && |store.waitlist| == r.value + 1
        && var entry := store.waitlist[r.value];
        && entry.flight == flight && entry.passenger == passenger && entry.status.Waiting?
        && (forall i :: 0 <= i < r.value && old(store.waitlist)[i].flight == flight ==>
              old(store.waitlist)[i].position < entry.position)
        && (entry.position == 1 || exists i :: 0 <= i < r.value && old(store.waitlist)[i].flight == flight
                                               && old(store.waitlist)[i].position == entry.position - 1)
        && store.View() == old(store.View()).(
             db := old(store.View()).db.(waitlist := old(store.waitlist) + [entry]),
             depth := old(store.depth)[flight :=
               (if flight in old(store.depth) then old(store.depth)[flight] else 0) + 1])
    {
      ghost var before := store.View();
      if flight !in store.flights {
        return Err(Calls.FlightNotFound);
      }
      if Calls.HasWaitingEntry(store.waitlist, passenger, flight) {
        return Err(Calls.AlreadyOnWaitlist);
      }
      var position := GetNextPosition(flight);
      if passenger !in store.passengers || HasEntry(store.waitlist, passenger, flight) {
        return Err(Calls.DatabaseRejected);
      }
      var id := |store.waitlist|;
      store.waitlist := store.waitlist + [Entry(flight, passenger, position, Waiting)];
      Calls.PerformOne(store.View(), Count(flight, 1));
      store.AddDepth(flight, 1);
      r := Ok(id);
      if Gauge.GaugeExact(before) {
        Gauge.JoinExact(before, passenger, flight);
      }
    }

    /** A position above every entry of the flight, whatever its status, with no gap below it. */
    method GetNextPosition(flight: FlightId) returns (position: nat)
      ensures position >= 1
      ensures forall i :: 0 <= i < |store.waitlist| && store.waitlist[i].flight == flight ==>
        store.waitlist[i].position < position
      ensures position == 1 || exists i :: 0 <= i < |store.waitlist| && store.waitlist[i].flight == flight
                                           && store.waitlist[i].position == position - 1
    {
      var max, n := 0, 0;
      while n < |store.waitlist|
        invariant 0 <= n <= |store.waitlist| && max >= 0
        invariant forall i :: 0 <= i < n && store.waitlist[i].flight == flight ==> store.waitlist[i].position <= max
        invariant max == 0 || exists i :: 0 <= i < n && store.waitlist[i].flight == flight
                                          && store.waitlist[i].position == max
      {
        if store.waitlist[n].flight == flight && store.waitlist[n].position > max {
          max := store.waitlist[n].position;
        }
        n := n + 1;
      }
      position := max + 1;
    }

    method LeaveWaitlist(entry: EntryId, passenger: PassengerId) returns (r: Result<Calls.Outcome, Calls.CallError>)
      modifies store
      ensures (store.View(), r) == Calls.LeaveWaitlist(old(store.View()), entry, passenger)
      ensures
        if && entry < |old(store.waitlist)| && old(store.waitlist)[entry].passenger == passenger
           && old(store.waitlist)[entry].status.Waiting?
        then
          var left := old(store.waitlist)[entry];
          && r == Ok(Calls.Done)
          && store.View() == old(store.View()).(
               db := old(store.View()).db.(
                 waitlist := old(store.waitlist)[entry := left.(status := WaitStatus.Cancelled)]),
               depth := old(store.depth)[left.flight :=
                 (if left.flight in old(store.depth) then old(store.depth)[left.flight] else 0) - 1])
        else r == Err(Calls.WaitlistNotFound) && store.View() == old(store.View())
      ensures old(Gauge.GaugeExact(store.View())) ==> Gauge.GaugeExact(store.View())
    {
      ghost var before := store.View();
      if entry >= |store.waitlist| || store.waitlist[entry].passenger != passenger {
        return Err(Calls.WaitlistNotFound);
      }
      if !store.waitlist[entry].status.Waiting? {
        return Err(Calls.WaitlistNotFound);
      }
      store.waitlist := store.waitlist[entry := store.waitlist[entry].(status := WaitStatus.Cancelled)];
      Calls.PerformOne(store.View(), Count(store.waitlist[entry].flight, -1));
      store.AddDepth(store.waitlist[entry].flight, -1);
      r := Ok(Calls.Done);
      if Gauge.GaugeExact(before) {
        Gauge.LeaveExact(before, entry, passenger);
      }
    }

    /** Returns the two rows the reads found, so that the contract can say what they decided. */
    method ProcessWaitlist(lock: bool, flight: FlightId, hint: Option<SeatId>)
      returns (head: Option<EntryId>, free: Option<SeatId>)
      modifies store
      ensures store.View() == Calls.ProcessWaitlist(old(store.View()), lock, flight, hint, head, free)
      // The head: a waiting entry of the flight with nobody waiting before it, unless there is none or no lock.
      ensures head.Some? ==>
        && lock && head.value < |old(store.waitlist)|
        && old(store.waitlist)[head.value].flight == flight && old(store.waitlist)[head.value].status.Waiting?
        && forall e :: 0 <= e < |old(store.waitlist)| && old(store.waitlist)[e].flight == flight
                       && old(store.waitlist)[e].status.Waiting? ==>
             old(store.waitlist)[head.value].position <= old(store.waitlist)[e].position
      ensures lock && head.None? ==>
        forall e :: 0 <= e < |old(store.waitlist)| && old(store.waitlist)[e].flight == flight ==>
          !old(store.waitlist)[e].status.Waiting?
      // The seat: a free one of the flight, the hinted one if there is a hint, unless there is none.
      ensures free.Some? ==>
        && head.Some? && free.value in old(store.seats) && old(store.seats)[free.value].flight == flight
        && old(store.seats)[free.value].status.Available? && (hint.Some? ==> hint.value == free.value)
      ensures head.Some? && free.None? ==>
        forall x :: x in old(store.seats) && old(store.seats)[x].flight == flight
                    && (hint.Some? ==> hint.value == x) ==>
          !old(store.seats)[x].status.Available?
      // The assignment, unless a constraint rolls it back.
      ensures
        if && head.Some? && free.Some?
           && flight in store.flights && old(store.waitlist)[head.value].passenger in store.passengers
           && forall i :: 0 <= i < |old(store.checkIns)| && old(store.checkIns)[i].flight == flight ==>
                old(store.checkIns)[i].passenger != old(store.waitlist)[head.value].passenger
        then
          var h, seat, p := head.value, free.value, old(store.waitlist)[head.value].passenger;
          && store.seats == old(store.seats)[seat :=
               old(store.seats)[seat].(status := Held, heldBy := Some(p), heldAt := Some(old(store.now)))]
          && store.waitlist == old(store.waitlist)[h := old(store.waitlist)[h].(status := Assigned)]
          && store.checkIns == old(store.checkIns) + [CheckIn(p, flight, Some(seat), InProgress, None, None, None)]
          && store.audit == old(store.audit) + [WaitlistAssigned(h, flight, seat, p, |old(store.checkIns)|)]
          && store.holdKeys == old(store.holdKeys)[seat := HoldKey(p, old(store.now) + 120_000)]
          && store.seatMaps == old(store.seatMaps) - {flight}
          && store.depth == old(store.depth)[flight :=
               (if flight in old(store.depth) then old(store.depth)[flight] else 0) - 1]
          && store.now == old(store.now) && store.payments == old(store.payments) && store.signals == old(store.signals)
        else store.View() == old(store.View())
      ensures old(Gauge.GaugeExact(store.View())) ==> Gauge.GaugeExact(store.View())
    {
      ghost var before := store.View();
      head, free := None, None;
      if !lock {
        return;
      }
      head := FindHead(store.waitlist, flight);
      if head.None? {
        forall e | 0 <= e < |store.waitlist| && store.waitlist[e].flight == flight
          ensures !store.waitlist[e].status.Waiting?
        {
          assert !IsWaiting(store.waitlist, flight, e);
        }
        return;
      }
      assert forall e: EntryId :: IsWaiting(store.waitlist, flight, e) ==>
        store.waitlist[head.value].position <= store.waitlist[e].position;
      free := FindSeat(flight, hint);
      if free.None? {
        assert forall x :: x in store.seats ==> !Calls.SeatOffered(store.View(), flight, hint, x);
        return;
      }
      Serial.ProcessForm(before, lock, flight, hint, head, free);
      AssignSeatToWaitlistPassenger(head.value, store.waitlist[head.value].passenger, free.value, flight);
      if Gauge.GaugeExact(before) {
        Gauge.ProcessExact(before, flight, hint, head, free);
      }
    }

    method FindSeat(flight: FlightId, hint: Option<SeatId>) returns (free: Option<SeatId>)
      ensures free.Some? ==> Calls.SeatOffered(store.View(), flight, hint, free.value)
      ensures free.None? ==> forall x: SeatId :: !Calls.SeatOffered(store.View(), flight, hint, x)
    {
      var offered := set x | x in store.seats && Calls.SeatOffered(store.View(), flight, hint, x);
      if offered == {} {
        assert forall x: SeatId :: Calls.SeatOffered(store.View(), flight, hint, x) ==> x in offered;
        return None;
      }
      var x :| x in offered;
      return Some(x);
    }

    /** Entry and seat are as the two reads found them; both may have changed since. */
    method AssignSeatToWaitlistPassenger(entry: EntryId, passenger: PassengerId, seat: SeatId, flight: FlightId)
      modifies store
      ensures store.View() == Calls.AssignWithinLock(old(store.View()), entry, passenger, flight, seat)
    {
      var committed := AssignTransaction(entry, passenger, seat, flight, store.now);
      if !committed {
        return;
      }
      Calls.PerformThree(store.View(), SetKey(seat, passenger), DropMap(flight), Count(flight, -1));
      store.SetSeatHold(seat, passenger);
      store.InvalidateCache(flight);
      store.AddDepth(flight, -1);
    }

    /** Holds the seat, marks the entry and inserts the check-in, or nothing of it. */
    method AssignTransaction(entry: EntryId, passenger: PassengerId, seat: SeatId, flight: FlightId, heldAt: nat)
      returns (committed: bool)
      modifies store
      ensures var before := old(store.View());
        match AssignSeat(before.db, entry, passenger, flight, seat, heldAt)
        case Some(db) => store.View() == before.(db := db) && committed
        case None => store.View() == before && !committed
    {
      var seatsBefore, waitlistBefore := store.seats, store.waitlist;
      if !IsAvailable(store.seats, seat) { // no row affected
        return false;
      }
      store.seats := store.seats[seat := store.seats[seat].(
        status := Held, heldBy := Some(passenger), heldAt := Some(heldAt))];
      if entry < |store.waitlist| {
        store.waitlist := store.waitlist[entry := store.waitlist[entry].(status := Assigned)];
      }
      if passenger !in store.passengers || flight !in store.flights || HasCheckIn(store.checkIns, passenger, flight) {
        store.seats, store.waitlist := seatsBefore, waitlistBefore; // ROLLBACK
        return false;
      }
      var id := |store.checkIns|;
      store.checkIns := store.checkIns + [NewCheckIn(passenger, flight, seat)];
      store.Log(WaitlistAssigned(entry, flight, seat, passenger, id));
      committed := true;
    }
  }
}
