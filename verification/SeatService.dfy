/** src/seat/seat.service.ts: the seat map, through its cache. */
module SeatServices {
  import opened Domain
  import opened Machine
  import opened Store
  import Calls

  class SeatService {
    const store: Backend

    constructor (store: Backend)
      ensures this.store == store
    {
      this.store := store;
    }

    /** The answer is the cached map, or the map of the table as it is, which is then cached for 2 s. */
    method GetSeatMap(flight: FlightId) returns (r: Result<SeatMap, Calls.CallError>)
      modifies store
      ensures store.View() == Calls.Run(old(store.View()), Begin(old(store.View()), MapRequest(flight)), [Ack]).0
      ensures
        if flight in old(store.seatMaps) && old(store.now) < old(store.seatMaps)[flight].expiresAt then
          r == Ok(old(store.seatMaps)[flight].seats) && store.View() == old(store.View())
        else if flight !in store.flights then
          r == Err(Calls.FlightNotFound) && store.View() == old(store.View())
        else
          && r.Ok?
          // Exactly the seats of the flight, each as the table has it.
          && (forall x :: x in r.value <==> x in store.seats && store.seats[x].flight == flight)
          && (forall x :: x in r.value ==>
                && r.value[x].row == store.seats[x].row && r.value[x].column == store.seats[x].column
                && r.value[x].status == store.seats[x].status)
          && store.View() == old(store.View()).(
               seatMaps := old(store.seatMaps)[flight := CachedMap(r.value, old(store.now) + 2_000)])
    {
      if flight in store.seatMaps && store.now < store.seatMaps[flight].expiresAt {
        return Ok(store.seatMaps[flight].seats);
      }
      if flight !in store.flights {
        return Err(Calls.FlightNotFound);
      }
      var seats := ToSeatMap(flight);
      store.seatMaps := store.seatMaps[flight := CachedMap(seats, store.now + SEAT_MAP_CACHE_MS)];
      r := Ok(seats);
    }

    function ToSeatMap(flight: FlightId): SeatMap
      reads store
    {
      Projection(store.seats, flight)
    }
  }
}
