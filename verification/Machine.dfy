/**
 * The services as programs of atomic steps over shared state.
 *
 * A call to a service is a small program; each step reads the tables, commits one
 * transaction, or performs one Redis command.  Steps of different calls interleave in any
 * order.  Leases on lock:seat and lock:waitlist may lapse, so they exclude nothing here; a call
 * whose lock is refused, that throws, or whose process dies is abandoned.
 */
module Machine {
  import opened Domain
  import opened Baggage
  import opened Tables

  datatype HoldKey = HoldKey(holder: PassengerId, expiresAt: nat)
  datatype SeatView = SeatView(row: nat, column: char, status: SeatStatus)
  type SeatMap = map<SeatId, SeatView>
  datatype CachedMap = CachedMap(seats: SeatMap, expiresAt: nat)

  /** The payload of WAITLIST_PROCESS_EVENT. */
  datatype Signal = Signal(flight: FlightId, seat: Option<SeatId>)

  /** A payment the payment service confirmed: for which check-in, and at which amount. */
  datatype Payment = Payment(transaction: string, checkIn: CheckInId, amount: real)

  datatype System = System(
    now: nat,
    config: Config,
    db: Db,
    holdKeys: map<SeatId, HoldKey>,
    seatMaps: map<FlightId, CachedMap>,
    depth: map<FlightId, int>,
    payments: set<Payment>,
    signals: seq<Signal>)

  /** What follows a committed transaction: one Redis command, metric update or event each. */
  datatype Effect =
    | SetKey(seat: SeatId, holder: PassengerId)
    | DeleteKey(seat: SeatId)
    | DropMap(flight: FlightId)
    | Count(flight: FlightId, delta: int)
    | Emit(signal: Signal)

  datatype Request =
    | StartRequest(passenger: PassengerId, flight: FlightId, seat: SeatId)
    | ConfirmRequest(checkIn: CheckInId, passenger: PassengerId, weight: real)
    | CancelRequest(checkIn: CheckInId, passenger: PassengerId)
      // a keyspace event (late, duplicate or stale ones included) or one seat of a sweep
    | ReleaseRequest(seat: SeatId)
    | JoinRequest(passenger: PassengerId, flight: FlightId)
    | LeaveRequest(entry: EntryId, passenger: PassengerId)
      // `head` is the row the database returns for ORDER BY position LIMIT 1
    | ProcessRequest(flight: FlightId, hint: Option<SeatId>, head: EntryId)
    | MapRequest(flight: FlightId)

  /** Where a call stands, with everything it has read so far. */
  datatype Call =
    | Starting(passenger: PassengerId, flight: FlightId, seat: SeatId)
    | Found(passenger: PassengerId, flight: FlightId, seat: SeatId)
    | Holding(passenger: PassengerId, flight: FlightId, seat: SeatId, heldAt: nat)
    | Confirming(id: CheckInId, row: CheckIn, weight: real)
    | Validated(id: CheckInId, row: CheckIn, weight: real)
    | Paying(id: CheckInId, row: CheckIn, weight: real)
    | Paid(id: CheckInId, row: CheckIn, weight: real, transaction: string)
    | Cancelling(id: CheckInId, row: CheckIn)
    | Permitted(id: CheckInId, row: CheckIn)
    | Releasing(seat: SeatId, holder: Option<PassengerId>, flight: FlightId)
    | Released(seat: SeatId, holder: Option<PassengerId>, flight: FlightId)
    | Expiring(seat: SeatId, flight: FlightId, entry: EntryId)
    | Joining(passenger: PassengerId, flight: FlightId)
    | Positioned(passenger: PassengerId, flight: FlightId, position: nat)
    | Leaving(entry: EntryId, flight: FlightId)
    | Heading(entry: EntryId, passenger: PassengerId, flight: FlightId, hint: Option<SeatId>)
    | Offered(entry: EntryId, passenger: PassengerId, flight: FlightId, seat: SeatId)
    | Seating(entry: EntryId, passenger: PassengerId, flight: FlightId, seat: SeatId, heldAt: nat)
    | Mapping(flight: FlightId, seats: SeatMap, readAt: nat)
    | Tail(effects: seq<Effect>)

  /** The environment's part in a step. */
  datatype Reply =
    | Ack
    | PaymentReply(transaction: Option<string>)
    | SeatReply(seat: SeatId)

  predicate KeyLive(holdKeys: map<SeatId, HoldKey>, x: SeatId, now: nat) {
    x in holdKeys && now < holdKeys[x].expiresAt
  }

  predicate MapCached(sys: System, f: FlightId) {
    f in sys.seatMaps && sys.now < sys.seatMaps[f].expiresAt
  }

  function Depth(depth: map<FlightId, int>, f: FlightId): int {
    if f in depth then depth[f] else 0
  }

  function Projection(seats: map<SeatId, Seat>, f: FlightId): SeatMap {
    map x | x in seats && seats[x].flight == f :: SeatView(seats[x].row, seats[x].column, seats[x].status)
  }

  function Perform(sys: System, effect: Effect): System {
    match effect
    case SetKey(x, p) => sys.(holdKeys := sys.holdKeys[x := HoldKey(p, sys.now + SEAT_HOLD_MS)])
    case DeleteKey(x) => sys.(holdKeys := sys.holdKeys - {x})
    case DropMap(f) => sys.(seatMaps := sys.seatMaps - {f})
    case Count(f, delta) => sys.(depth := sys.depth[f := Depth(sys.depth, f) + delta])
    case Emit(signal) => sys.(signals := sys.signals + [signal])
  }

  function PerformAll(sys: System, effects: seq<Effect>): System
    decreases |effects|
  {
    if effects == [] then sys else PerformAll(Perform(sys, effects[0]), effects[1..])
  }

  function Finish(effects: seq<Effect>): Option<Call> {
    if effects == [] then None else Some(Tail(effects))
  }

  function AfterHold(x: SeatId, p: PassengerId, f: FlightId): seq<Effect> {
    [SetKey(x, p), DropMap(f)]
  }

  function AfterComplete(row: CheckIn): seq<Effect> {
    if row.seat.Some? then [DeleteKey(row.seat.value), DropMap(row.flight)] else []
  }

  function AfterCancel(row: CheckIn): seq<Effect> {
    AfterComplete(row) + [Emit(Signal(row.flight, None))]
  }

  function AfterRelease(x: SeatId, f: FlightId): seq<Effect> {
    [DropMap(f), Emit(Signal(f, Some(x)))]
  }

  function AfterAssign(x: SeatId, p: PassengerId, f: FlightId): seq<Effect> {
    [SetKey(x, p), DropMap(f), Count(f, -1)]
  }

  /** The reads that open a call; None means that the call ends there, with or without an error. */
  function Begin(sys: System, request: Request): Option<Call> {
    var db := sys.db;
    match request
    case StartRequest(p, f, x) =>
      if && f in db.flights && x in db.seats && db.seats[x].flight == f
         && !exists i :: 0 <= i < |db.checkIns| && db.checkIns[i].passenger == p && db.checkIns[i].flight == f
                         && db.checkIns[i].Live()
      then Some(Starting(p, f, x)) else None
    case ConfirmRequest(id, p, weight) =>
      if id < |db.checkIns| && db.checkIns[id].passenger == p && weight >= 0.0
      then Some(Confirming(id, db.checkIns[id], weight)) else None
    case CancelRequest(id, p) =>
      if id < |db.checkIns| && db.checkIns[id].passenger == p
      then Some(Cancelling(id, db.checkIns[id])) else None
    case ReleaseRequest(x) =>
      if x in db.seats && db.seats[x].status.Held? && db.seats[x].Lapsed(sys.now)
      then Some(Releasing(x, db.seats[x].heldBy, db.seats[x].flight)) else None
    case JoinRequest(p, f) =>
      if && f in db.flights
         && !exists i :: 0 <= i < |db.waitlist| && db.waitlist[i].passenger == p && IsWaiting(db.waitlist, f, i)
      then Some(Joining(p, f)) else None
    case LeaveRequest(e, p) =>
      if e < |db.waitlist| && db.waitlist[e].passenger == p && db.waitlist[e].status.Waiting?
      then Some(Leaving(e, db.waitlist[e].flight)) else None
    case ProcessRequest(f, hint, e) =>
      if IsHead(db.waitlist, f, e) then Some(Heading(e, db.waitlist[e].passenger, f, hint)) else None
    case MapRequest(f) =>
      if !MapCached(sys, f) && f in db.flights then Some(Mapping(f, Projection(db.seats, f), sys.now)) else None
  }

  /** The next atomic step of a call, and where the call then stands. */
  function Step(sys: System, call: Call, reply: Reply): (System, Option<Call>) {
    var db := sys.db;
    match call
    case Starting(p, f, x) =>
      (sys, if IsAvailable(db.seats, x) then Some(Found(p, f, x)) else None)
    case Found(p, f, x) =>
      (sys, Some(Holding(p, f, x, sys.now)))
    case Holding(p, f, x, heldAt) =>
      (match HoldSeat(db, p, f, x, heldAt)
       case Some(db') => (sys.(db := db'), Finish(AfterHold(x, p, f)))
       case None => (sys, None))
    case Confirming(id, row, weight) =>
      (sys, if row.Pending() && (row.seat.Some? ==> KeyLive(sys.holdKeys, row.seat.value, sys.now))
            then Some(Validated(id, row, weight)) else None)
    case Validated(id, row, weight) =>
      var fee := CalculateFee(sys.config, weight);
      if fee.isOverweight then
        (match AwaitPayment(db, id, weight, fee.excessFee)
         case Some(db') => (sys.(db := db'), Some(Paying(id, row, weight)))
         case None => (sys, None))
      else
        FinishComplete(sys, id, row, weight, None)
    case Paying(id, row, weight) =>
      if reply.PaymentReply? && reply.transaction.Some? then
        var payment := Payment(reply.transaction.value, id, CalculateFee(sys.config, weight).excessFee);
        (sys.(payments := sys.payments + {payment}), Some(Paid(id, row, weight, reply.transaction.value)))
      else
        (sys, None)
    case Paid(id, row, weight, transaction) =>
      FinishComplete(sys, id, row, weight, Some(transaction))
    case Cancelling(id, row) =>
      (sys, if row.flight in db.flights && db.flights[row.flight].Departed? then None else Some(Permitted(id, row)))
    case Permitted(id, row) =>
      (sys.(db := CancelAndFree(db, id, row)), Finish(AfterCancel(row)))
    case Releasing(x, holder, f) =>
      (match ReleaseHold(db, x, holder, f)
       case Some(db') => (sys.(db := db'), Some(Released(x, holder, f)))
       case None => (sys, None))
    case Released(x, holder, f) =>
      var entry := if holder.Some? then FindAssigned(db.waitlist, holder.value, f) else None;
      (sys, if entry.Some? then Some(Expiring(x, f, entry.value)) else Finish(AfterRelease(x, f)))
    case Expiring(x, f, e) =>
      (sys.(db := db.(waitlist := SetEntry(db.waitlist, e, Expired))), Finish(AfterRelease(x, f)))
    case Joining(p, f) =>
      (sys, Some(Positioned(p, f, MaxPosition(db.waitlist, f) + 1)))
    case Positioned(p, f, position) =>
      (match InsertEntry(db, p, f, position)
       case Some(db') => (sys.(db := db'), Finish([Count(f, 1)]))
       case None => (sys, None))
    case Leaving(e, f) =>
      (sys.(db := db.(waitlist := SetEntry(db.waitlist, e, WaitStatus.Cancelled))), Finish([Count(f, -1)]))
    case Heading(e, p, f, hint) =>
      (sys, if && reply.SeatReply? && IsAvailable(db.seats, reply.seat) && db.seats[reply.seat].flight == f
               && (hint.Some? ==> hint.value == reply.seat)
            then Some(Offered(e, p, f, reply.seat)) else None)
    case Offered(e, p, f, x) =>
      (sys, Some(Seating(e, p, f, x, sys.now)))
    case Seating(e, p, f, x, heldAt) =>
      (match AssignSeat(db, e, p, f, x, heldAt)
       case Some(db') => (sys.(db := db'), Finish(AfterAssign(x, p, f)))
       case None => (sys, None))
    case Mapping(f, seats, _) =>
      (sys.(seatMaps := sys.seatMaps[f := CachedMap(seats, sys.now + SEAT_MAP_CACHE_MS)]), None)
    case Tail(effects) =>
      if effects == [] then (sys, None) else (Perform(sys, effects[0]), Finish(effects[1..]))
  }

  function FinishComplete(sys: System, id: CheckInId, row: CheckIn, weight: real,
                          payment: Option<string>): (System, Option<Call>)
  {
    match Complete(sys.db, id, row, weight, payment)
    case Some(db) => (sys.(db := db), Finish(AfterComplete(row)))
    case None => (sys, None)
  }

  // ---- Interleaving ----

  type CallId = nat

  datatype State = State(sys: System, calls: map<CallId, Call>)

  datatype Event =
    | Tick(ms: nat)
    | Open(c: CallId, request: Request)
    | Advance(c: CallId, reply: Reply)
    | Abandon(c: CallId)

  function Place(calls: map<CallId, Call>, c: CallId, call: Option<Call>): map<CallId, Call> {
    match call
    case Some(k) => calls[c := k]
    case None => calls - {c}
  }

  /** An event that is not possible in a state changes nothing, so every event sequence is a schedule. */
  function Next(s: State, e: Event): State {
    match e
    case Tick(ms) => s.(sys := s.sys.(now := s.sys.now + ms))
    case Open(c, request) =>
      if c in s.calls then s else s.(calls := Place(s.calls, c, Begin(s.sys, request)))
    case Advance(c, reply) =>
      if c !in s.calls then s
      else
        var (sys, call) := Step(s.sys, s.calls[c], reply);
        State(sys, Place(s.calls, c, call))
    case Abandon(c) => s.(calls := s.calls - {c})
  }

  function Exec(s: State, es: seq<Event>): State
    decreases |es|
  {
    if es == [] then s else Next(Exec(s, es[..|es| - 1]), es[|es| - 1])
  }

  /** A freshly seeded system: every seat free, no check-ins, no waitlist, nothing in Redis. */
  predicate Init(s: State) {
    && s.calls == map[]
    && s.sys.holdKeys == map[] && s.sys.seatMaps == map[] && s.sys.depth == map[]
    && s.sys.payments == {} && s.sys.signals == []
    && s.sys.db.checkIns == [] && s.sys.db.waitlist == [] && s.sys.db.audit == []
    && forall x :: x in s.sys.db.seats ==>
         s.sys.db.seats[x].status.Available? && s.sys.db.seats[x].heldBy.None? && s.sys.db.seats[x].heldAt.None?
         && s.sys.db.seats[x].flight in s.sys.db.flights
  }
}
