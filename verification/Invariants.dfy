/** What every reachable state satisfies, with no premise on the schedule. */
module Invariants {
  import opened Domain
  import opened Baggage
  import opened Tables
  import opened Machine

  /** Every check-in names an existing seat of its own flight and satisfies the foreign keys. */
  ghost predicate RowsOk(db: Db) {
    forall i :: 0 <= i < |db.checkIns| ==> RowOk(db, db.checkIns[i])
  }

  predicate RowOk(db: Db, row: CheckIn) {
    && row.seat.Some? && row.seat.value in db.seats && db.seats[row.seat.value].flight == row.flight
    && row.passenger in db.passengers && row.flight in db.flights
  }

  ghost predicate UniqueOk(rows: seq<CheckIn>) {
    forall i, j :: 0 <= i < j < |rows| ==> rows[i].passenger != rows[j].passenger || rows[i].flight != rows[j].flight
  }

  predicate Owns(rows: seq<CheckIn>, i: CheckInId, x: SeatId, p: PassengerId, f: FlightId) {
    i < |rows| && rows[i].passenger == p && rows[i].flight == f && rows[i].seat == Some(x)
  }

  ghost predicate HasOwner(rows: seq<CheckIn>, x: SeatId, p: PassengerId, f: FlightId) {
    exists i: CheckInId :: Owns(rows, i, x, p, f)
  }

  ghost predicate HasPendingOwner(rows: seq<CheckIn>, x: SeatId, p: PassengerId, f: FlightId) {
    exists i: CheckInId :: Owns(rows, i, x, p, f) && rows[i].Pending()
  }

  ghost predicate SeatOk(seat: Seat, x: SeatId, rows: seq<CheckIn>) {
    match seat.status
    case Available => seat.heldBy.None? && seat.heldAt.None?
    case Held => && seat.heldBy.Some? && seat.heldAt.Some?
                 && HasPendingOwner(rows, x, seat.heldBy.value, seat.flight)
    case Confirmed => seat.heldBy.Some? ==> HasOwner(rows, x, seat.heldBy.value, seat.flight)
    case Cancelled => false
  }

  ghost predicate SeatsOk(seats: map<SeatId, Seat>, rows: seq<CheckIn>) {
    forall x :: x in seats ==> SeatOk(seats[x], x, rows)
  }

  datatype Acquisition = Acquisition(passenger: PassengerId, flight: FlightId, seat: SeatId)

  /** The acquisitions the audit log records, in order. */
  function Acquisitions(audit: seq<Audit>): seq<Acquisition> {
    if audit == [] then []
    else
      var before, last := Acquisitions(audit[..|audit| - 1]), audit[|audit| - 1];
      if last.IsAcquisition() then before + [Acquisition(last.passenger, last.flight, last.seat)] else before
  }

  /** The n-th acquisition in the log is the one that inserted the n-th check-in. */
  ghost predicate AcquisitionsOk(audit: seq<Audit>, rows: seq<CheckIn>) {
    && |Acquisitions(audit)| == |rows|
    && forall i :: 0 <= i < |rows| ==> Acquired(Acquisitions(audit)[i], rows[i])
  }

  predicate Acquired(a: Acquisition, row: CheckIn) {
    row.seat.Some? && a == Acquisition(row.passenger, row.flight, row.seat.value)
  }

  /** A logged release was of a seat its holder had acquired, and that holder does not hold it now. */
  ghost predicate ReleasesOk(db: Db) {
    forall k :: 0 <= k < |db.audit| && db.audit[k].SeatReleased? ==> ReleaseOk(db, db.audit[k])
  }

  ghost predicate ReleaseOk(db: Db, log: Audit)
    requires log.SeatReleased?
  {
    && log.holder.Some? && log.seat in db.seats && !db.seats[log.seat].HeldBy(log.holder.value)
    && HasOwner(db.checkIns, log.seat, log.holder.value, db.seats[log.seat].flight)
  }

  ghost predicate ReleasedOnce(audit: seq<Audit>) {
    forall j, k :: 0 <= j < k < |audit| && audit[j].SeatReleased? && audit[k].SeatReleased?
      ==> audit[j].seat != audit[k].seat || audit[j].holder != audit[k].holder
  }

  datatype SeatState = SeatState(status: SeatStatus, heldBy: Option<PassengerId>)

  function ReplayEntry(table: map<SeatId, SeatState>, log: Audit): map<SeatId, SeatState> {
    match log
    case SeatHeld(x, p, _, _) => table[x := SeatState(Held, Some(p))]
    case WaitlistAssigned(_, _, x, p, _) => table[x := SeatState(Held, Some(p))]
    case SeatConfirmed(x, _, _, _) => if x in table then table[x := SeatState(Confirmed, table[x].heldBy)] else table
    case SeatReleased(x, _, _) => table[x := SeatState(Available, None)]
    case SeatCancelled(x, _, _, _, _) => table[x := SeatState(Available, None)]
    case _ => table
  }

  /** The seat table that the audit log alone determines, from every seat free. */
  function Replay(audit: seq<Audit>, xs: set<SeatId>): map<SeatId, SeatState> {
    if audit == [] then map x | x in xs :: SeatState(Available, None)
    else ReplayEntry(Replay(audit[..|audit| - 1], xs), audit[|audit| - 1])
  }

  function SeatStates(seats: map<SeatId, Seat>): map<SeatId, SeatState> {
    map x | x in seats :: SeatState(seats[x].status, seats[x].heldBy)
  }

  ghost predicate ReplayOk(db: Db) {
    Replay(db.audit, db.seats.Keys) == SeatStates(db.seats)
  }

  ghost predicate DbOk(db: Db) {
    && RowsOk(db)
    && UniqueOk(db.checkIns)
    && SeatsOk(db.seats, db.checkIns)
    && AcquisitionsOk(db.audit, db.checkIns)
    && ReleasesOk(db)
    && ReleasedOnce(db.audit)
    && ReplayOk(db)
  }

  // ---- What a call in flight may rely on ----

  predicate SeatIn(db: Db, x: SeatId, f: FlightId) {
    x in db.seats && db.seats[x].flight == f
  }

  /** `row` is an earlier reading of check-in `id`. */
  predicate Reads(db: Db, id: CheckInId, row: CheckIn) {
    id < |db.checkIns| && db.checkIns[id].SameKey(row)
  }

  predicate EntryIn(db: Db, e: EntryId, p: PassengerId, f: FlightId) {
    e < |db.waitlist| && db.waitlist[e].flight == f && db.waitlist[e].passenger == p
  }

  /** If `p` still holds the seat, it is the hold that had lapsed when the call read it. */
  predicate StillLapsed(sys: System, x: SeatId, p: PassengerId) {
    x in sys.db.seats && (sys.db.seats[x].HeldBy(p) ==> sys.db.seats[x].Lapsed(sys.now))
  }

  ghost predicate CallOk(sys: System, call: Call) {
    var db := sys.db;
    match call
    case Starting(_, f, x) => SeatIn(db, x, f)
    case Found(_, f, x) => SeatIn(db, x, f)
    case Holding(_, f, x, heldAt) => SeatIn(db, x, f) && heldAt <= sys.now
    case Confirming(id, row, weight) => Reads(db, id, row) && weight >= 0.0
    case Validated(id, row, weight) => Reads(db, id, row) && weight >= 0.0 && row.Pending()
    case Paying(id, row, weight) =>
      Reads(db, id, row) && weight >= 0.0 && row.Pending() && CalculateFee(sys.config, weight).isOverweight
    case Paid(id, row, weight, transaction) =>
      && Reads(db, id, row) && weight >= 0.0 && row.Pending() && CalculateFee(sys.config, weight).isOverweight
      && Payment(transaction, id, CalculateFee(sys.config, weight).excessFee) in sys.payments
    case Cancelling(id, row) => Reads(db, id, row)
    case Permitted(id, row) => Reads(db, id, row)
    case Releasing(x, holder, f) =>
      && SeatIn(db, x, f) && holder.Some? && HasCheckIn(db.checkIns, holder.value, f)
      && StillLapsed(sys, x, holder.value)
    case Seating(e, p, f, x, heldAt) => EntryIn(db, e, p, f) && SeatIn(db, x, f) && heldAt <= sys.now
    case Heading(e, p, f, _) => EntryIn(db, e, p, f)
    case Offered(e, p, f, x) => EntryIn(db, e, p, f) && SeatIn(db, x, f)
    case _ => true
  }

  ghost predicate Inv(s: State) {
    DbOk(s.sys.db) && forall c :: c in s.calls ==> CallOk(s.sys, s.calls[c])
  }

  // ---- How shared state may evolve under a call's feet ----

  /** No passenger who already had a check-in on the flight has become the seat's holder. */
  ghost predicate NoReacquisition(a: Db, b: Db) {
    forall x, p :: x in a.seats && x in b.seats && b.seats[x].HeldBy(p) && HasCheckIn(a.checkIns, p, a.seats[x].flight)
      ==> a.seats[x].HeldBy(p) && a.seats[x].heldAt == b.seats[x].heldAt
  }

  /** Check-ins are only ever added, and never change passenger, flight or seat. */
  ghost predicate KeysKept(a: seq<CheckIn>, b: seq<CheckIn>) {
    |a| <= |b| && forall i :: 0 <= i < |a| ==> a[i].SameKey(b[i])
  }

  ghost predicate DbEvolves(a: Db, b: Db) {
    && a.passengers == b.passengers && a.flights == b.flights
    && a.seats.Keys == b.seats.Keys
    && (forall x :: x in a.seats ==> a.seats[x].flight == b.seats[x].flight)
    && KeysKept(a.checkIns, b.checkIns)
    && |a.waitlist| <= |b.waitlist|
    && (forall i :: 0 <= i < |a.waitlist| ==> a.waitlist[i].(status := b.waitlist[i].status) == b.waitlist[i])
    && NoReacquisition(a, b)
  }

  ghost predicate Evolves(a: System, b: System) {
    a.now <= b.now && a.config == b.config && a.payments <= b.payments && DbEvolves(a.db, b.db)
  }

  lemma HasCheckInStable(a: seq<CheckIn>, b: seq<CheckIn>, p: PassengerId, f: FlightId)
    requires KeysKept(a, b) && HasCheckIn(a, p, f)
    ensures HasCheckIn(b, p, f)
  {
  }

  lemma HasOwnerStable(a: seq<CheckIn>, b: seq<CheckIn>, x: SeatId, p: PassengerId, f: FlightId)
    requires KeysKept(a, b) && HasOwner(a, x, p, f)
    ensures HasOwner(b, x, p, f)
  {
    var i: CheckInId :| Owns(a, i, x, p, f);
    assert a[i].SameKey(b[i]) && Owns(b, i, x, p, f);
  }

  /** What a call has read stays usable, whatever other calls commit. */
  lemma CallOkStable(a: System, b: System, call: Call)
    requires CallOk(a, call) && Evolves(a, b)
    ensures CallOk(b, call)
  {
  }

  lemma EvolvesTransitive(a: System, b: System, c: System)
    requires Evolves(a, b) && Evolves(b, c)
    ensures Evolves(a, c)
  {
    forall x, p | x in a.db.seats && x in c.db.seats && c.db.seats[x].HeldBy(p)
                  && HasCheckIn(a.db.checkIns, p, a.db.seats[x].flight)
      ensures a.db.seats[x].HeldBy(p) && a.db.seats[x].heldAt == c.db.seats[x].heldAt
    {
      HasCheckInStable(a.db.checkIns, b.db.checkIns, p, a.db.seats[x].flight);
    }
  }
}
