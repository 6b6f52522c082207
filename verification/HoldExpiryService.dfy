/** src/check-in/hold-expiry.service.ts: one release, reached from keyspace events and from the sweep. */
module HoldExpiryServices {
  import opened Domain
  import opened Tables
  import opened Machine
  import opened Store
  import Calls
  import Serial
  import Sweeps

  class HoldExpiryService {
    const store: Backend

    constructor (store: Backend)
      ensures this.store == store
    {
      this.store := store;
    }

    method HandleHoldExpired(lock: bool, seat: SeatId)
      modifies store
      ensures store.View() == Calls.ReleaseSeat(old(store.View()), lock, seat).0
    {
      var _ := ReleaseSeat(lock, seat);
    }

    /** A call that finds the hold gone, renewed by nobody or not yet lapsed changes nothing at all. */
    method ReleaseSeat(lock: bool, seat: SeatId) returns (released: bool)
      modifies store
      ensures (store.View(), released) == Calls.ReleaseSeat(old(store.View()), lock, seat)
      ensures !released ==> store.View() == old(store.View())
      ensures released <==>
        && lock && seat in old(store.seats) && old(store.seats)[seat].status.Held?
        && var heldAt := old(store.seats)[seat].heldAt;
        (if heldAt.Some? then heldAt.value else 0) + 120_000 <= old(store.now)
      ensures released ==>
        var held := old(store.seats)[seat];
        && store.seats == old(store.seats)[seat := held.(status := Available, heldBy := None, heldAt := None)]
        && |store.checkIns| == |old(store.checkIns)|
        && (forall i :: 0 <= i < |store.checkIns| ==>
              var row := old(store.checkIns)[i];
              store.checkIns[i] == if row.seat == Some(seat) && row.status.InProgress?
                                   then row.(status := CheckInStatus.Cancelled) else row)
        && store.audit == old(store.audit) + [SeatReleased(seat, held.heldBy, held.flight)]
        && store.seatMaps == old(store.seatMaps) - {held.flight}
        && store.signals == old(store.signals) + [Signal(held.flight, Some(seat))]
        && store.now == old(store.now) && store.holdKeys == old(store.holdKeys)
        && store.depth == old(store.depth) && store.payments == old(store.payments)
      // The holder's assigned entry on the flight expires, if there is one.
      ensures released ==>
        var held, entries := old(store.seats)[seat], old(store.waitlist);
        if exists e: nat :: e < |entries| && entries[e].flight == held.flight
                            && Some(entries[e].passenger) == held.heldBy && entries[e].status.Assigned?
        then exists e: nat :: e < |entries| && entries[e].flight == held.flight
                              && Some(entries[e].passenger) == held.heldBy && entries[e].status.Assigned?
                              && store.waitlist == entries[e := entries[e].(status := Expired)]
        else store.waitlist == entries
    {
      Serial.ReleaseForm(store.View(), lock, seat);
      if seat in store.seats && store.seats[seat].heldBy.Some? {
        Calls.OneEntryExpires(store.waitlist, store.seats[seat].heldBy.value, store.seats[seat].flight);
      }
      if !lock {
        return false;
      }
      released := ReleaseSeatWithinLock(seat);
    }

    method ReleaseSeatWithinLock(seatId: SeatId) returns (released: bool)
      modifies store
      ensures (store.View(), released) == Calls.ReleaseSeat(old(store.View()), true, seatId)
      ensures !released ==> store.View() == old(store.View())
      ensures released <==> Calls.Stale(old(store.View()), seatId)
    {
      if seatId !in store.seats || !store.seats[seatId].status.Held? {
        return false;
      }
      var seat := store.seats[seatId];
      var holdExpiry := (if seat.heldAt.Some? then seat.heldAt.value else 0) + SEAT_HOLD_MS;
      if holdExpiry > store.now {
        return false;
      }
      var updated := ReleaseTransaction(seatId, seat.heldBy, seat.flight);
      if !updated {
        return false;
      }
      MarkWaitlistEntryExpired(seat.flight, seat.heldBy);
      ghost var marked := store.View();
      store.InvalidateCache(seat.flight);
      store.EmitSignal(Signal(seat.flight, Some(seatId)));
      Calls.PerformTwo(marked, DropMap(seat.flight), Emit(Signal(seat.flight, Some(seatId))));
      released := true;
    }

    /** Frees the seat if it is still held by `holder`, and cancels its unconfirmed check-ins, or changes nothing. */
    method ReleaseTransaction(seatId: SeatId, holder: Option<PassengerId>, flight: FlightId) returns (updated: bool)
      modifies store
      ensures var before := old(store.View());
        match ReleaseHold(before.db, seatId, holder, flight)
        case Some(db) => store.View() == before.(db := db) && updated
        case None => store.View() == before && !updated
    {
      if seatId !in store.seats || !store.seats[seatId].status.Held? || store.seats[seatId].heldBy != holder {
        return false; // no row affected
      }
      store.seats := store.seats[seatId := store.seats[seatId].(status := Available, heldBy := None, heldAt := None)];
      store.checkIns := CancelInProgress(store.checkIns, seatId);
      store.Log(SeatReleased(seatId, holder, flight));
      updated := true;
    }

    method MarkWaitlistEntryExpired(flight: FlightId, holder: Option<PassengerId>)
      modifies store`waitlist
      ensures store.waitlist == Calls.ExpireEntry(old(store.waitlist), holder, flight)
    {
      if holder.None? {
        return;
      }
      var entry := FindAssigned(store.waitlist, holder.value, flight);
      if entry.Some? {
        store.waitlist := store.waitlist[entry.value := store.waitlist[entry.value].(status := Expired)];
      }
    }

    /** The seats held since the cutoff or longer, in an order of the database's choosing. */
    method FindStaleSeats() returns (stale: seq<SeatId>)
      ensures Serial.ListsStale(store.View(), stale)
      ensures forall x :: x in stale <==>
        && x in store.seats && store.seats[x].status.Held?
        && store.seats[x].heldAt.Some? && store.seats[x].heldAt.value + 120_000 <= store.now
    {
      var left := set x | x in store.seats && Serial.Overdue(store.View(), x);
      stale := [];
      while left != {}
        invariant forall x :: x in left || x in stale <==> Serial.Overdue(store.View(), x)
        decreases left
      {
        var x :| x in left;
        left := left - {x};
        stale := stale + [x];
      }
    }

    /**
     * The sweep ends with exactly the stale seats whose lock is granted freed, and their unconfirmed check-ins
     * cancelled, as if all had been freed at once.
     */
    method SweepExpiredHolds(granted: set<SeatId>)
      modifies store
      ensures var before := old(store.View());
        && store.seats == Sweeps.FreedSeats(before, Serial.OverdueSeats(before) * granted)
        && store.checkIns == Sweeps.FreedRows(before, Serial.OverdueSeats(before) * granted)
        && store.now == before.now
      // Exactly the granted seats held at or before the cutoff are freed, and only their unconfirmed check-ins
      // cancelled.
      ensures store.seats.Keys == old(store.seats).Keys && |store.checkIns| == |old(store.checkIns)|
      ensures forall x :: x in store.seats ==>
        var seat := old(store.seats)[x];
        store.seats[x] == if && x in granted && seat.status.Held?
                             && seat.heldAt.Some? && seat.heldAt.value + 120_000 <= old(store.now)
                          then seat.(status := Available, heldBy := None, heldAt := None) else seat
      ensures forall i :: 0 <= i < |store.checkIns| ==>
        var row := old(store.checkIns)[i];
        store.checkIns[i] == if && row.status.InProgress? && row.seat.Some? && row.seat.value in old(store.seats)
                                && store.seats[row.seat.value] != old(store.seats)[row.seat.value]
                             then row.(status := CheckInStatus.Cancelled) else row
      ensures exists stale ::
        (&& Serial.ListsStale(old(store.View()), stale)
         && store.View() == Serial.ReleaseEach(old(store.View()), stale, granted))
    {
      ghost var before := store.View();
      var stale := FindStaleSeats();
      if |stale| == 0 {
        Sweeps.LoopFrees(before, stale, granted);
        Sweeps.SweepSet(before, stale);
        return;
      }
      var i := 0;
      while i < |stale|
        invariant 0 <= i <= |stale|
        invariant store.View() == Serial.ReleaseEach(before, stale[..i], granted)
      {
        assert stale[..i + 1][..i] == stale[..i];
        var _ := ReleaseSeat(stale[i] in granted, stale[i]);
        i := i + 1;
      }
      assert stale[..i] == stale;
      Sweeps.LoopFrees(before, stale, granted);
      Sweeps.SweepSet(before, stale);
    }
  }
}
