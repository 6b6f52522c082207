/** Identifiers, enumerations, rows and constants of the check-in system. */
module Domain {

  datatype Option<+T> = None | Some(value: T)

  datatype Result<+T, +E> = Ok(value: T) | Err(error: E)

  // The source's keys are UUIDs; only their identity matters.  A row of check_in or
  // waitlist is identified by its position in the table, since no row is ever deleted.
  type PassengerId = nat
  type FlightId = nat
  type SeatId = nat
  type CheckInId = nat
  type EntryId = nat

  datatype SeatStatus = Available | Held | Confirmed | Cancelled
  datatype CheckInStatus = InProgress | AwaitingPayment | Completed | Cancelled
  datatype WaitStatus = Waiting | Assigned | Expired | Cancelled
  datatype FlightStatus = Scheduled | Boarding | Departed | Cancelled

  /** Clock readings are milliseconds. */
  const SEAT_HOLD_MS: nat := 120_000
  const SEAT_MAP_CACHE_MS: nat := 2_000
  const SWEEP_PERIOD_MS: nat := 30_000

  datatype Seat = Seat(
    flight: FlightId,
    row: nat,
    column: char,
    status: SeatStatus,
    heldBy: Option<PassengerId>,
    heldAt: Option<nat>)
  {
    predicate HeldBy(p: PassengerId) {
      status.Held? && heldBy == Some(p)
    }

    /** The test of the release path: heldAt, or 0 when absent, plus the hold time is not in the future. */
    predicate Lapsed(now: nat) {
      (if heldAt.Some? then heldAt.value else 0) + SEAT_HOLD_MS <= now
    }
  }

  datatype CheckIn = CheckIn(
    passenger: PassengerId,
    flight: FlightId,
    seat: Option<SeatId>,
    status: CheckInStatus,
    weight: Option<real>,
    fee: Option<real>,
    payment: Option<string>)
  {
    predicate SameKey(that: CheckIn) {
      passenger == that.passenger && flight == that.flight && seat == that.seat
    }

    /** The check-in still needs the seat's hold. */
    predicate Pending() {
      status.InProgress? || status.AwaitingPayment?
    }

    predicate Live() {
      Pending() || status.Completed?
    }
  }

  datatype Entry = Entry(
    flight: FlightId,
    passenger: PassengerId,
    position: nat,
    status: WaitStatus)

  /** Entries written inside a transaction; the best-effort ones are not modelled. */
  datatype Audit =
    | SeatHeld(seat: SeatId, passenger: PassengerId, flight: FlightId, checkIn: CheckInId)
    | SeatConfirmed(seat: SeatId, passenger: PassengerId, flight: FlightId, checkIn: CheckInId)
    | SeatReleased(seat: SeatId, holder: Option<PassengerId>, flight: FlightId)
    | SeatCancelled(seat: SeatId, passenger: PassengerId, flight: FlightId, checkIn: CheckInId, from: SeatStatus)
    | WaitlistAssigned(entry: EntryId, flight: FlightId, seat: SeatId, passenger: PassengerId, checkIn: CheckInId)
    | CheckInCompleted(checkIn: CheckInId, passenger: PassengerId, flight: FlightId,
                       was: CheckInStatus, payment: Option<string>)
    | CheckInCancelled(checkIn: CheckInId, passenger: PassengerId, flight: FlightId, was: CheckInStatus)
  {
    /** A seat changed from free to held by `passenger`. */
    predicate IsAcquisition() {
      SeatHeld? || WaitlistAssigned?
    }
  }

  /** The rows the database holds; audit is append-only. */
  datatype Db = Db(
    passengers: set<PassengerId>,
    flights: map<FlightId, FlightStatus>,
    seats: map<SeatId, Seat>,
    checkIns: seq<CheckIn>,
    waitlist: seq<Entry>,
    audit: seq<Audit>)
}
