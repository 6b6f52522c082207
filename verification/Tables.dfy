/**
 * The database transactions.  Each is all-or-nothing: None means that the transaction
 * changed nothing, because a compare-and-swap matched no row or a constraint rolled it back.
 */
module Tables {
  import opened Domain
  import opened Baggage

  predicate IsAvailable(seats: map<SeatId, Seat>, x: SeatId) {
    x in seats && seats[x].status.Available?
  }

  predicate HasCheckIn(rows: seq<CheckIn>, p: PassengerId, f: FlightId) {
    exists i :: 0 <= i < |rows| && rows[i].passenger == p && rows[i].flight == f
  }

  predicate HasEntry(entries: seq<Entry>, p: PassengerId, f: FlightId) {
    exists i :: 0 <= i < |entries| && entries[i].passenger == p && entries[i].flight == f
  }

  /** Foreign keys and UQ_checkin_passenger_flight, which covers rows of every status. */
  predicate CanInsertCheckIn(db: Db, p: PassengerId, f: FlightId) {
    p in db.passengers && f in db.flights && !HasCheckIn(db.checkIns, p, f)
  }

  function SetSeat(seats: map<SeatId, Seat>, x: SeatId, status: SeatStatus,
                   heldBy: Option<PassengerId>, heldAt: Option<nat>): map<SeatId, Seat>
  {
    if x in seats then seats[x := seats[x].(status := status, heldBy := heldBy, heldAt := heldAt)] else seats
  }

  function SetRow(rows: seq<CheckIn>, id: CheckInId, row: CheckIn): seq<CheckIn> {
    if id < |rows| then rows[id := row] else rows
  }

  function SetStatus(rows: seq<CheckIn>, id: CheckInId, status: CheckInStatus): seq<CheckIn> {
    if id < |rows| then rows[id := rows[id].(status := status)] else rows
  }

  function SetEntry(entries: seq<Entry>, id: EntryId, status: WaitStatus): seq<Entry> {
    if id < |entries| then entries[id := entries[id].(status := status)] else entries
  }

  function NewCheckIn(p: PassengerId, f: FlightId, x: SeatId): CheckIn {
    CheckIn(p, f, Some(x), InProgress, None, None, None)
  }

  /** The seat CAS and the check-in insert that both acquisition paths share. */
  function Acquire(db: Db, p: PassengerId, f: FlightId, x: SeatId, heldAt: nat, log: Audit): Option<Db> {
    if IsAvailable(db.seats, x) && CanInsertCheckIn(db, p, f) then
      Some(db.(seats := SetSeat(db.seats, x, Held, Some(p), Some(heldAt)),
               checkIns := db.checkIns + [NewCheckIn(p, f, x)],
               audit := db.audit + [log]))
    else
      None
  }

  /** The transaction of holdSeatWithinLock. */
  function HoldSeat(db: Db, p: PassengerId, f: FlightId, x: SeatId, heldAt: nat): Option<Db> {
    Acquire(db, p, f, x, heldAt, SeatHeld(x, p, f, |db.checkIns|))
  }

  /** The transaction of assignSeatToWaitlistPassenger; the entry is updated whatever its status has become. */
  function AssignSeat(db: Db, entry: EntryId, p: PassengerId, f: FlightId, x: SeatId, heldAt: nat): Option<Db> {
    match Acquire(db, p, f, x, heldAt, WaitlistAssigned(entry, f, x, p, |db.checkIns|))
    case None => None
    case Some(held) => Some(held.(waitlist := SetEntry(db.waitlist, entry, Assigned)))
  }

  function CancelInProgress(rows: seq<CheckIn>, x: SeatId): (r: seq<CheckIn>)
    ensures |r| == |rows|
    ensures forall i :: 0 <= i < |rows| ==>
      r[i] == if rows[i].seat == Some(x) && rows[i].status.InProgress?
              then rows[i].(status := CheckInStatus.Cancelled) else rows[i]
  {
    seq(|rows|, i requires 0 <= i < |rows| =>
      if rows[i].seat == Some(x) && rows[i].status.InProgress?
      then rows[i].(status := CheckInStatus.Cancelled) else rows[i])
  }

  /** The transaction of releaseSeatWithinLock: the CAS compares status and holder, not heldAt. */
  function ReleaseHold(db: Db, x: SeatId, holder: Option<PassengerId>, f: FlightId): Option<Db> {
    if x in db.seats && db.seats[x].status.Held? && db.seats[x].heldBy == holder then
      Some(db.(seats := SetSeat(db.seats, x, Available, None, None),
               checkIns := CancelInProgress(db.checkIns, x),
               audit := db.audit + [SeatReleased(x, holder, f)]))
    else
      None
  }

  /** The update of handleExcessBaggage, by check-in id only. */
  function AwaitPayment(db: Db, id: CheckInId, weight: real, fee: real): Option<Db> {
    match (Numeric(weight, WEIGHT_BOUND), Numeric(fee, FEE_BOUND))
    case (Some(w), Some(a)) =>
      if id < |db.checkIns| then
        Some(db.(checkIns := SetRow(db.checkIns, id,
          db.checkIns[id].(status := AwaitingPayment, weight := Some(w), fee := Some(a)))))
      else
        Some(db)
    case _ => None
  }

  /** The transaction of completeCheckIn: seat and check-in are updated by id only; `row` was read earlier. */
  function Complete(db: Db, id: CheckInId, row: CheckIn, weight: real, payment: Option<string>): Option<Db> {
    match Numeric(weight, WEIGHT_BOUND)
    case None => None
    case Some(w) =>
      var seated :=
        if row.seat.Some? then
          var x := row.seat.value;
          db.(seats := if x in db.seats then db.seats[x := db.seats[x].(status := Confirmed)] else db.seats,
              audit := db.audit + [SeatConfirmed(x, row.passenger, row.flight, id)])
        else db;
      Some(seated.(
        checkIns := if id < |db.checkIns| then
            SetRow(db.checkIns, id, db.checkIns[id].(status := Completed, weight := Some(w), payment := payment))
          else db.checkIns,
        audit := seated.audit + [CheckInCompleted(id, row.passenger, row.flight, row.status, payment)]))
  }

  /** The transaction of cancelCheckIn: by id only, whatever the statuses have become; `row` was read earlier. */
  function CancelAndFree(db: Db, id: CheckInId, row: CheckIn): Db {
    var freed :=
      if row.seat.Some? then
        db.(seats := SetSeat(db.seats, row.seat.value, Available, None, None),
            audit := db.audit + [SeatCancelled(row.seat.value, row.passenger, row.flight, id,
                                               if row.status.Completed? then Confirmed else Held)])
      else db;
    freed.(checkIns := SetStatus(db.checkIns, id, CheckInStatus.Cancelled),
           audit := freed.audit + [CheckInCancelled(id, row.passenger, row.flight, row.status)])
  }

  /** MAX(position) over every entry of the flight, or 0. */
  function MaxPosition(entries: seq<Entry>, f: FlightId): (m: nat)
    ensures forall i :: 0 <= i < |entries| && entries[i].flight == f ==> entries[i].position <= m
    ensures m == 0 || exists i :: 0 <= i < |entries| && entries[i].flight == f && entries[i].position == m
  {
    if entries == [] then 0
    else
      var m, last := MaxPosition(entries[..|entries| - 1], f), entries[|entries| - 1];
      if last.flight == f && last.position > m then last.position else m
  }

  /** The insert of joinWaitlist, under UQ_waitlist_flight_passenger. */
  function InsertEntry(db: Db, p: PassengerId, f: FlightId, position: nat): Option<Db> {
    if p in db.passengers && f in db.flights && !HasEntry(db.waitlist, p, f) then
      Some(db.(waitlist := db.waitlist + [Entry(f, p, position, Waiting)]))
    else
      None
  }

  predicate IsWaiting(entries: seq<Entry>, f: FlightId, e: EntryId) {
    e < |entries| && entries[e].flight == f && entries[e].status.Waiting?
  }

  /** `e` is a lowest-positioned WAITING entry of the flight: what ORDER BY position LIMIT 1 may return. */
  predicate IsHead(entries: seq<Entry>, f: FlightId, e: EntryId) {
    && IsWaiting(entries, f, e)
    && forall i :: 0 <= i < |entries| && IsWaiting(entries, f, i) ==> entries[e].position <= entries[i].position
  }

  predicate IsAssigned(entries: seq<Entry>, p: PassengerId, f: FlightId, e: EntryId) {
    e < |entries| && entries[e].flight == f && entries[e].passenger == p && entries[e].status.Assigned?
  }

  function FindAssigned(entries: seq<Entry>, p: PassengerId, f: FlightId): (r: Option<EntryId>)
    ensures r.Some? ==> IsAssigned(entries, p, f, r.value)
    ensures r.None? ==> forall e: EntryId :: !IsAssigned(entries, p, f, e)
  {
    if entries == [] then None
    else
      var last := |entries| - 1;
      var earlier := FindAssigned(entries[..last], p, f);
      assert forall e: EntryId :: e < last ==> (IsAssigned(entries[..last], p, f, e) <==> IsAssigned(entries, p, f, e));
      if earlier.Some? then earlier else if IsAssigned(entries, p, f, last) then Some(last) else None
  }

  /** The head of the flight's queue; the earliest row when overlapping joins have made positions equal. */
  function FindHead(entries: seq<Entry>, f: FlightId): (r: Option<EntryId>)
    ensures r.Some? ==> IsHead(entries, f, r.value)
    ensures r.None? ==> forall e: EntryId :: !IsWaiting(entries, f, e)
  {
    if entries == [] then None
    else
      var last := |entries| - 1;
      var earlier := FindHead(entries[..last], f);
      assert forall e: EntryId :: e < last ==> (IsWaiting(entries[..last], f, e) <==> IsWaiting(entries, f, e));
      if !IsWaiting(entries, f, last) then earlier
      else if earlier.Some? && entries[earlier.value].position <= entries[last].position then earlier
      else Some(last)
  }
}
