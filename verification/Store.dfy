/** The shared state as the services see it: PostgreSQL tables, Redis keys, the gauge and the event bus. */
module Store {
  import opened Domain
  import opened Baggage
  import opened Machine

  class Backend {
    var now: nat
    const config: Config
    const passengers: set<PassengerId>
    const flights: map<FlightId, FlightStatus>
    var seats: map<SeatId, Seat>
    var checkIns: seq<CheckIn>
    var waitlist: seq<Entry>
    var audit: seq<Audit>
    var holdKeys: map<SeatId, HoldKey>
    var seatMaps: map<FlightId, CachedMap>
    var depth: map<FlightId, int>
    var payments: set<Payment>
    var signals: seq<Signal>

    function View(): System
      reads this
    {
      System(now, config, Db(passengers, flights, seats, checkIns, waitlist, audit),
             holdKeys, seatMaps, depth, payments, signals)
    }

    constructor (config: Config, passengers: set<PassengerId>, flights: map<FlightId, FlightStatus>,
                 seats: map<SeatId, Seat>)
      ensures View() == System(0, config, Db(passengers, flights, seats, [], [], []), map[], map[], map[], {}, [])
    {
      now := 0;
      this.config := config;
      this.passengers := passengers;
      this.flights := flights;
      this.seats := seats;
      checkIns, waitlist, audit := [], [], [];
      holdKeys, seatMaps, depth, payments, signals := map[], map[], map[], {}, [];
    }

    // ---- RedisService ----

    method SetSeatHold(x: SeatId, p: PassengerId)
      modifies this`holdKeys
      ensures View() == Perform(old(View()), SetKey(x, p))
    {
      holdKeys := holdKeys[x := HoldKey(p, now + SEAT_HOLD_MS)];
    }

    method DeleteSeatHold(x: SeatId)
      modifies this`holdKeys
      ensures View() == Perform(old(View()), DeleteKey(x))
    {
      holdKeys := holdKeys - {x};
    }

    // ---- SeatService.invalidateCache, the gauge, the event emitter ----

    method InvalidateCache(f: FlightId)
      modifies this`seatMaps
      ensures View() == Perform(old(View()), DropMap(f))
    {
      seatMaps := seatMaps - {f};
    }

    method AddDepth(f: FlightId, delta: int)
      modifies this`depth
      ensures View() == Perform(old(View()), Count(f, delta))
    {
      depth := depth[f := Depth(depth, f) + delta];
    }

    method EmitSignal(signal: Signal)
      modifies this`signals
      ensures View() == Perform(old(View()), Emit(signal))
    {
      signals := signals + [signal];
    }

    // ---- AuditService.logWithTransaction ----

    method Log(entry: Audit)
      modifies this`audit
      ensures audit == old(audit) + [entry]
    {
      audit := audit + [entry];
    }
  }
}
