# Seat allocation, verified

A Dafny model of the flight check-in service's seat-allocation protocol, with proofs about all its runs. A
passenger holds a seat for 120 seconds, confirms it (paying for excess baggage if need be) or cancels it; an
expired hold is released by whichever of two mechanisms notices first, a Redis keyspace event or a sweep every 30
seconds; a freed seat goes to the head of the flight's waitlist. All of this happens over shared tables, with
compare-and-swap updates, Redis keys with expiry times and a clock.

`dafny verify dfyconfig.toml` checks everything.

## How the model is laid out

* `Domain`, `Tables`: rows and the database transactions. A transaction is a function from one database to the
  next; `None` means that it changed nothing, because a compare-and-swap matched no row or because a unique
  constraint, a foreign key or a column bound rolled it back.
* `Machine`: every service call as a small program of atomic steps (a read, a transaction, one Redis command).
  A schedule is any sequence of events: the clock moves, a call opens, a call takes its next step, a call dies.
  Steps of different calls interleave freely. Lock leases may lapse, so locks exclude nothing unless a theorem
  says so; expiry events may be late, duplicated or stale; overlapping confirmations and repeated cancellations
  are allowed. `Exec` folds a schedule from an initial state.
* `Invariants`, `Preservation`, `Safety`: the invariant of every reachable state, its preservation by each
  transaction and step, and the theorems about whole runs that rest on it. These have no premise on the schedule.
* `Settlement`, `Requests` and `Gates`, with `Baggage` and `Fees`: the payment gate and the hold-key check, traced
  from a completed check-in back to the step that committed it and the request it came from.
* `Booking`, `AtomicBooking`, `SerialBooking`: seats and live check-ins stay in one-to-one correspondence exactly when
  certain steps do not happen, over all interleavings, with confirmations and cancellations as single steps, and
  with all calls as single steps.
* `HoldBounds`, `Fifo`, `BlockedHead`, `Freshness`: the time bound on holds, waitlist order, a blocked queue and
  seat-map staleness, over all interleavings.
* `Plays`, `DoubleBooking`, `Witnesses`: concrete runs from a seeded system that show why conditions and premises of
  these theorems are there.
* `Calls`, `Serial`: each service call as a single step; runs of such steps are schedules of the machine. Over these
  runs: `HoldKeys` (Redis index), `Gauge` (waitlist depth), `Sweeps` (the sweep's loop against its one-shot
  specification), `Recycling` (a seat passed down the queue).
* `Store` and the service classes (`CheckInServices`, `HoldExpiryServices`, `WaitlistServices`, `SeatServices`)
  work statement by statement on mutable fields. Each transaction is a method of its own, proved against the
  transaction function of `Tables` from any state, whatever has changed since its caller's reads: the
  compare-and-swap that matches no row and the rollback included. Each service method is proved to have exactly the
  effect and the answer of its single-step specification in `Calls`, and its contract spells out, on the tables and
  keys themselves, every answer and what has changed. (`Answers` does the latter for confirmations.)
* `Departures`: no cancellation on a departed flight, over all interleavings.
* `RateLimiter`, `Payments`: the sliding-window limiter and the payment retry loop.

Whether a lock is granted, which head or free seat a query without a total order returns, the order of the sweep's
list, and the payment service's answers are parameters, universally quantified in every theorem about runs. (The
method `ProcessWaitlist` has to pick one head and one seat, and says that they are among those the queries allow.)

## Where the code is weaker than its documentation

The model follows the code.

* `UQ_checkin_passenger_flight` covers CANCELLED rows, so a passenger who cancelled or lost a hold can never check
  in again on that flight: the service's own test lets the attempt through and the insert rolls it back. The
  absence of re-acquisition is what makes the release compare-and-swap safe (`Safety.HoldsNeverRestart`).
* A waitlist head who already has a check-in row makes every assignment roll back (`BlockedHead.HeadBlocks`) and
  never gets a seat (`BlockedHead.NeverAcquiresAgain`), but stays head: a passenger who cancels and then joins can
  block the queue in front of a free seat (`BlockedHead.HeadBlocksQueue`).
* Expiry cancels only IN_PROGRESS check-ins, and confirmation tests only that some hold key exists: a check-in that
  awaits payment can outlive its hold, and later complete on a seat that someone else holds
  (`DoubleBooking.TwoCompletionsOneSeat`).
* Cancellation does not look at the check-in's status and frees the seat by id
  (`DoubleBooking.SecondCancelFreesAnothersSeat`).
* Leaving and expiring update a waitlist entry by id, whatever it has become since it was read
  (`Witnesses.LeaveOverwritesAssignment`, `Witnesses.ExpiryOverwritesLeave`).
* Joins take no lock and can tie (`Witnesses.OverlappingJoinsTie`). An assignment does not look at its entry's
  status, so with a lapsed lease it can come out of order (`Witnesses.LapsedLeaseReordersAssignments`);
  `Fifo.AssignedInOrderExactly` says exactly when it does.
* A rate-limit member is its own timestamp, so the count is of distinct milliseconds, and the request that reaches
  the maximum is itself refused.
* The fee is charged on the declared weight, but the weight column keeps two decimals: the stored weight's fee can
  differ from the amount paid (`Gates.StoredFeeCanDiffer`, and `Gates.StoredWeightIsCharged` says exactly
  when). Under a limit of more than two decimals, such as 25.005 kg, a check-in stored over the limit can even go
  unpaid (`Gates.OverweightCanGoUnpaid`).
* A hold's time is read before its transaction, which takes no notice of how long ago: the 150 s by which the sweep
  bounds a hold fail as soon as commits may come 120 s late (`HoldBounds.LateHoldBreaksBound`), and hold for every
  smaller delay (`HoldBounds.BoundHoldsExactly`).

## Model

| member | source | states |
|---|---|---|
| Safety.NoEarlyRelease | src/check-in/hold-expiry.service.ts:124-146 | In every interleaving, a transaction that writes SEAT_RELEASED ends a hold whose own heldAt is at least 120 s old, although the compare-and-swap does not look at heldAt |
| Safety.HoldsNeverRestart | migrations/1771000615393-InitialSchema.ts:9 | Whoever had a check-in on the flight at one moment and holds the seat later has held it all along, since the same heldAt: no ABA |
| Safety.HeldMeansLive | src/check-in/check-in.service.ts:182-199 | Every HELD seat of every reachable state has a holder and a time, and the holder's only check-in on the flight points at that seat and is IN_PROGRESS or AWAITING_PAYMENT |
| Safety.AcquiresAtMostOnce | src/waitlist/waitlist.service.ts:279-302 | Over a whole run no two acquisitions, direct or from the waitlist, are of the same passenger on the same flight |
| Safety.HoldsAtMostOneSeat | src/check-in/check-in.service.ts:182-199 | At any time a passenger is heldBy of at most one seat of a flight |
| Safety.AcquisitionsBounded | migrations/1771000615393-InitialSchema.ts:9 | Seats ever acquired number at most passengers times flights |
| Safety.ReleasedAtMostOnce | src/check-in/hold-expiry.service.ts:106-171 | Keyspace handler and sweep together log at most one SEAT_RELEASED per acquisition |
| Safety.ReleasesWereAcquired | src/check-in/hold-expiry.service.ts:152-163 | Every SEAT_RELEASED in the log matches an acquisition of that seat by that holder |
| Safety.AuditReplaysTable | src/check-in/check-in.service.ts:200-211 | Folding the committed audit entries from the all-AVAILABLE table gives every seat's current status and holder |
| Gates.PaymentGate | src/check-in/check-in.service.ts:255-267 | In every interleaving, every COMPLETED check-in was completed by a step of a call that a confirmation request opened and that ran from there to here, and stores the weight declared in that request to the cent; over the limit a confirmed payment had by then been made for it at exactly the fee of that weight and its row carries it, within the limit it carries none; the row has not changed since |
| Gates.HoldKeyGate | src/check-in/check-in.service.ts:362-378 | In every interleaving, a COMPLETED check-in belonged to the requesting passenger and was IN_PROGRESS or AWAITING_PAYMENT when its confirmation read it, and between that request and the commit there was a moment at which the seat's hold key existed and had not expired |
| HoldKeys.ConfirmNeedsHold | src/check-in/check-in.service.ts:370-378 | After uninterrupted calls, a check-in whose seat is not HELD, or has been for 120 s or longer, has no live hold key |
| Answers.ConfirmAnswer | src/check-in/check-in.service.ts:244-268 | The answer of a confirmation, test by test on the tables and keys, and that an error changes nothing |
| Answers.ConfirmRow | src/check-in/check-in.service.ts:391-414 | The check-in's status, weight, fee and paymentId after a confirmation, and the payment made, with everything else it leaves alone |
| Answers.ConfirmSeat | src/check-in/check-in.service.ts:438-484 | The seat, the log, the hold key and the cached map after a confirmation: changed on completion and only then |
| Answers.FinaliseEffect | src/check-in/check-in.service.ts:427-484 | The whole effect of completeCheckIn, or a rejection of a weight the column cannot hold |
| Departures.NoneCancelledOnceDeparted | src/check-in/check-in.service.ts:283-291 | In every interleaving no SEAT_CANCELLED and no CHECKIN_CANCELLED entry is of a DEPARTED flight |
| Gates.StoredWeightIsCharged | src/check-in/check-in.service.ts:391-414 | For that request's weight: a COMPLETED check-in declared to the cent was charged exactly the fee of the weight it stores; for every weight the two fees agree if and only if the stored one's is the cent nearest to the declared one's charge, and with a limit of two decimals and a whole fee per kg if and only if the weight is within the limit or the kilograms lost or gained by rounding are worth less than half a cent |
| Gates.StoredOverweightIsPaid | src/check-in/check-in.service.ts:255-267 | A COMPLETED check-in stored over the limit went unpaid if and only if that request's weight was within the limit |
| Gates.OverweightAlwaysPaid | src/check-in/check-in.service.ts:255-267 | Under a limit that rounding to cents does not raise, no COMPLETED check-in stored over the limit is ever unpaid |
| Gates.OverweightCanGoUnpaid | src/check-in/check-in.service.ts:255-267 | Under every limit that rounding does raise, a run completes a check-in stored over the limit without payment |
| Gates.StoredFeeCanDiffer | src/check-in/check-in.service.ts:391-398 | A run under the default limits in which a check-in declared at 25.006 kg pays 0.06 and completes stored at 25.01 kg, whose fee is 0.10 |
| Settlement.LastCommit | src/check-in/check-in.service.ts:438-466 | Every COMPLETED row is as the last step that completed it left it |
| Requests.DeclaredInRequest | src/check-in/check-in.service.ts:244-267 | A confirmation under way was opened by a request on a free call id and has carried that request's check-in and weight after every event since; past its checks, it has read a pending check-in of the requesting passenger's and seen a live hold key |
| Preservation.AcquireKeeps | src/check-in/check-in.service.ts:182-213 | The transaction shared by hold and assignment keeps every invariant |
| Preservation.ReleaseKeeps | src/check-in/hold-expiry.service.ts:138-165 | The release transaction keeps every invariant |
| Preservation.CompleteKeeps | src/check-in/check-in.service.ts:438-479 | Completion keeps every invariant, even on a stale reading |
| Preservation.CancelKeeps | src/check-in/check-in.service.ts:292-332 | Cancellation keeps every invariant, even a second one |
| Preservation.AwaitKeeps | src/check-in/check-in.service.ts:391-398 | Recording the excess fee keeps every invariant |
| Settlement.CommitSettles | src/check-in/check-in.service.ts:405-414 | The step that completes a check-in stores the declared weight to the cent and the payment, which has been made over the limit and is absent within it |
| Preservation.StepKeeps | src/check-in/check-in.service.ts:165-213 | Every step of every call keeps the invariants, and only lets the shared state evolve |
| Preservation.ExecKeeps | src/check-in/check-in.service.ts:78-340 | Every schedule keeps the invariants |
| Booking.NoDoubleBookingExactly | src/check-in/check-in.service.ts:438-466 | Over all interleavings, live check-ins and occupied seats correspond one to one throughout a run if and only if no step overwrites by id a row that has moved on |
| Booking.StepBijective | src/check-in/check-in.service.ts:292-319 | One step keeps the correspondence if and only if it is such a safe step |
| Booking.OneCompletionPerSeat | src/check-in/check-in.service.ts:438-466 | In such a run no seat has two COMPLETED check-ins |
| Booking.AcquireBijective | src/check-in/check-in.service.ts:182-199 | Holds and assignments always keep the correspondence |
| Booking.CompleteBijective | src/check-in/check-in.service.ts:440-466 | A completion keeps it if and only if the check-in is still live |
| Booking.AwaitBijective | src/check-in/check-in.service.ts:391-398 | Moving to AWAITING_PAYMENT keeps it if and only if the check-in is still pending |
| Booking.CancelBijective | src/check-in/check-in.service.ts:293-319 | A cancellation keeps it if and only if the check-in is live or its seat is free |
| Booking.ReleaseBijective | src/check-in/hold-expiry.service.ts:138-151 | A release keeps it if and only if no check-in for the seat awaits payment |
| AtomicBooking.NoDoubleBookingAtomically | src/check-in/check-in.service.ts:244-319 | With confirmations and cancellations as single steps and holds, assignments, releases and all else interleaving, the correspondence holds throughout if and only if no cancellation of a cancelled check-in meets a seat taken by someone else and no hold lapses while its check-in awaits payment |
| AtomicBooking.OneCompletionPerSeat | src/check-in/check-in.service.ts:438-466 | In such a run no seat has two COMPLETED check-ins |
| AtomicBooking.RunIsSchedule | src/check-in/check-in.service.ts:244-340 | Such runs are schedules of the machine |
| SerialBooking.NoDoubleBookingSerially | src/check-in/check-in.service.ts:255-319 | When calls run one at a time, the correspondence holds throughout if and only if no second cancellation hits a seat taken by someone else and no hold lapses while its check-in awaits payment |
| SerialBooking.ConfirmBijects | src/check-in/check-in.service.ts:244-267 | An uninterrupted confirmation always keeps the correspondence |
| SerialBooking.CancelBijects | src/check-in/check-in.service.ts:275-340 | An uninterrupted cancellation keeps it if and only if it is safe |
| SerialBooking.FreedBijective | src/check-in/hold-expiry.service.ts:130-151 | Freeing a set of stale seats keeps it if and only if nobody was paying for one of them |
| DoubleBooking.TwoCompletionsOneSeat | src/check-in/check-in.service.ts:362-378 | A run in which one seat ends with two COMPLETED check-ins of different passengers |
| DoubleBooking.SecondCancelFreesAnothersSeat | src/check-in/check-in.service.ts:292-319 | A run in which a second cancellation frees the seat another passenger holds |
| Fifo.PositionsAreJoinOrder | src/waitlist/waitlist.service.ts:84-91 | A flight's positions are 1, 2, 3, ... in join order throughout a run if and only if every join inserts the position it would still read |
| Fifo.AssignedInOrder | src/waitlist/waitlist.service.ts:234-302 | With joins that do not overlap and the lock honoured, assigned positions are strictly increasing, whatever joins and leaves fall between the head read and the assignment |
| Fifo.NobodyOvertaken | src/waitlist/waitlist.service.ts:238-241 | In such a run nobody still waiting joined before anybody who was assigned |
| Fifo.AssignedInOrderExactly | src/waitlist/waitlist.service.ts:234-302 | With leases lapsing at will, throughout a run positions are in join order, assigned positions increase and nobody waiting stands before anybody assigned, if and only if every join inserts the position it would still read and every assignment that commits finds its entry still WAITING or after everything assigned so far |
| Fifo.StepOrderExactly | src/waitlist/waitlist.service.ts:279-295 | One event keeps that order if and only if it is such a join or assignment, or none |
| Fifo.GuardedAssignmentsInOrder | src/waitlist/waitlist.service.ts:291-295 | So with joins that do not overlap and a guard on WAITING, assigned positions are strictly increasing and nobody still waiting joined before anybody who was assigned |
| Fifo.MaxIsCount | src/waitlist/waitlist.service.ts:343-350 | With positions in join order, MAX(position) is the number of entries of the flight |
| BlockedHead.NeverAcquiresAgain | migrations/1771000615393-InitialSchema.ts:9 | In every interleaving, after a moment at which a passenger has a check-in row on a flight, whatever its status, no event acquires a seat of the flight for them |
| BlockedHead.HeadBlocks | src/waitlist/waitlist.service.ts:234-302 | In every reachable state, processing a head for an offered seat changes anything if and only if the head's passenger has no check-in row |
| BlockedHead.HeadBlocksQueue | src/waitlist/waitlist.service.ts:238-241 | A run after which a seat is free, a passenger without a check-in waits and no processing changes anything, because the passenger in front cancelled before joining |
| Witnesses.OverlappingJoinsTie | src/waitlist/waitlist.service.ts:84-91 | A run in which two overlapping joins get the same position |
| Witnesses.LapsedLeaseReordersAssignments | src/waitlist/waitlist.service.ts:279-295 | A run in which, the lease having lapsed, position 1 is assigned after position 2 although its passenger has left; its entry ends ASSIGNED |
| Witnesses.LeaveOverwritesAssignment | src/waitlist/waitlist.service.ts:119-133 | A run in which a leave that read WAITING cancels the entry after it was assigned, while the hold goes on |
| Witnesses.ExpiryOverwritesLeave | src/check-in/hold-expiry.service.ts:194-203 | A run in which an expiry that read ASSIGNED marks the entry EXPIRED after it was cancelled |
| Freshness.ServedMapsAreRecent | src/seat/seat.service.ts:32-75 | From any moment with no cached map and no reader under way, every map served later, at t, has exactly the seats of the flight that the table had at a moment since then and later than t - 2 s - d, each with its row, column and status then |
| Witnesses.InvalidationMissesReader | src/seat/seat.service.ts:50-74 | A run in which a map read before a hold and cached after its invalidation is served although the table says HELD |
| HoldKeys.HoldKeyMirrorsTable | src/common/redis/redis.service.ts:67-69 | With calls as single steps, a seat's hold key is live exactly while the seat is HELD for less than 120 s, and names the holder |
| Gauge.GaugeEqualsRecount | src/waitlist/waitlist.service.ts:101 | With calls as single steps, the depth gauge of a flight always equals its number of WAITING entries |
| Gauge.ReleaseExact | src/check-in/hold-expiry.service.ts:201-203 | Expiring an assigned entry leaves the gauge exact |
| Gauge.JoinExact | src/waitlist/waitlist.service.ts:85-101 | A join, refused, rolled back or not, leaves the gauge exact |
| Gauge.LeaveExact | src/waitlist/waitlist.service.ts:119-136 | A leave leaves the gauge exact |
| Gauge.ProcessExact | src/waitlist/waitlist.service.ts:279-331 | An assignment, failed or not, leaves the gauge exact |
| HoldBounds.BoundHoldsExactly | src/check-in/hold-expiry.service.ts:73-146 | Over all interleavings in which holds of a seat commit within d of reading the clock and a sweep whose query ran at most 30 s ago has passed the seat over or taken its release step: a HELD seat has always been held for less than 150 s if and only if d is under 120 s |
| HoldBounds.HoldsEndInTime | src/check-in/hold-expiry.service.ts:73-146 | In every interleaving: the bound holds if the holds of the seat that committed since that query had read the clock less than 120 s before it |
| HoldBounds.OutlastsExactly | src/check-in/check-in.service.ts:180-187 | From a moment at which the seat's hold, if any, outlasts t, it does so at every later one if and only if every hold that commits had read the clock late enough |
| HoldBounds.NextOutlasts | src/waitlist/waitlist.service.ts:278-287 | The same for one event |
| HoldBounds.SweptOutlasts | src/check-in/hold-expiry.service.ts:124-146 | However its steps interleave, a sweep leaves no hold of the seat that was over when its query ran |
| HoldBounds.LateHoldBreaksBound | src/check-in/check-in.service.ts:180-187 | For every delay d of 120 s or more, a run whose one hold commits d after reading the clock and breaks the bound although a sweep has just passed the seat over |
| Sweeps.SweepIsOneShot | src/check-in/hold-expiry.service.ts:73-93 | Whatever the order of the stale list, the sweep's loop frees exactly the HELD seats with heldAt at or before the cutoff and cancels exactly their IN_PROGRESS check-ins |
| Sweeps.LoopFrees | src/check-in/hold-expiry.service.ts:85-92 | The same for any list and any set of granted locks |
| Sweeps.SerialHoldsEndInTime | src/check-in/hold-expiry.service.ts:73-146 | With uninterrupted calls and full sweeps at most 30 s apart, every HELD seat has been held for less than 150 s, whatever events were missed |
| Recycling.SeatPassesDownTheQueue | src/check-in/hold-expiry.service.ts:138-208 | With n waiting and nobody confirming, whichever heads the queries return among equal positions: there are at most n rounds, and n rounds make exactly n assignments, in order of position, each followed by its release; all n entries end EXPIRED, the seat AVAILABLE and nobody waiting |
| Recycling.RoundsGoOn | src/waitlist/waitlist.service.ts:238-241 | As long as somebody waits there is a next round, so the n rounds exist |
| Recycling.RoundPasses | src/waitlist/waitlist.service.ts:234-302 | One round assigns the head it is given, releases the seat, expires that entry, leaves a cancelled check-in and signals the next round |
| Recycling.ReadyAgain | src/check-in/hold-expiry.service.ts:187-208 | A round keeps the next one possible and takes one from the number of WAITING entries |
| Recycling.FreeSeatIsReady | migrations/1771000615393-InitialSchema.ts:18 | The preconditions hold in every reachable state with the seat free and nobody waiting checked in |
| Recycling.EmptyQueueStaysPut | src/waitlist/waitlist.service.ts:242-247 | With nobody waiting a round changes nothing but the time |
| Calls.RunIsSchedule | src/check-in/check-in.service.ts:78-340 | A call given all its steps in a row is a schedule of the machine |
| Serial.SerialRunIsSchedule | src/check-in/check-in.service.ts:78-340 | Every run of single-step calls is a schedule of the machine, so the theorems about schedules hold of it |
| Calls.StartIsRun | src/check-in/check-in.service.ts:78-216 | The single-step startCheckIn is its program run to the end |
| Calls.ConfirmIsRun | src/check-in/check-in.service.ts:244-483 | The single-step confirmCheckIn is its program run to the end, for each answer of the payment service |
| Calls.CancelIsRun | src/check-in/check-in.service.ts:275-340 | The single-step cancelCheckIn is its program run to the end |
| Calls.ReleaseIsRun | src/check-in/hold-expiry.service.ts:106-208 | The single-step releaseSeat is its program run to the end |
| Calls.JoinIsRun | src/waitlist/waitlist.service.ts:61-101 | The single-step joinWaitlist is its program run to the end |
| Calls.LeaveIsRun | src/waitlist/waitlist.service.ts:112-136 | The single-step leaveWaitlist is its program run to the end |
| Calls.ProcessIsRun | src/waitlist/waitlist.service.ts:173-331 | The single-step processWaitlist is its program run to the end |
| CheckInServices.CheckInService.StartCheckIn | src/check-in/check-in.service.ts:78-149 | Every answer, in the order of the tests, and on success every table, key, cached map and log entry as it then is; an error changes nothing |
| CheckInServices.CheckInService.HoldSeatWithinLock | src/check-in/check-in.service.ts:165-222 | The same under the lock, from any state: seat gone or taken, check-in row existing or not |
| CheckInServices.CheckInService.HoldTransaction | src/check-in/check-in.service.ts:182-213 | From any state: takes the seat, inserts the check-in and logs, or changes nothing and says whether the compare-and-swap or the constraint failed |
| CheckInServices.CheckInService.ConfirmCheckIn | src/check-in/check-in.service.ts:244-268 | Every answer on the tables and keys, for every sequence of payment attempts: HoldExpired exactly when the check-in is not pending or its seat's key is missing or expired, and always, after uninterrupted calls, when the seat is not HELD or has been for 120 s; an error changes nothing |
| CheckInServices.CheckInService.HandleExcessBaggage | src/check-in/check-in.service.ts:382-425 | Stores weight and fee, asks for payment, and completes only when it is confirmed |
| CheckInServices.CheckInService.CompleteCheckIn | src/check-in/check-in.service.ts:427-484 | Completes, or answers the rejection; then drops key and cache |
| CheckInServices.CheckInService.CompleteTransaction | src/check-in/check-in.service.ts:438-479 | From any state: confirms seat and check-in by id together, or neither |
| CheckInServices.CheckInService.CancelTransaction | src/check-in/check-in.service.ts:292-332 | From any state: frees the seat and cancels the check-in by id |
| CheckInServices.CheckInService.CancelCheckIn | src/check-in/check-in.service.ts:275-340 | CancellationNotAllowed, with nothing changed, exactly when the found check-in's flight has DEPARTED; on success every table, key, cached map, log entry and event |
| HoldExpiryServices.HoldExpiryService.HandleHoldExpired | src/check-in/hold-expiry.service.ts:54-67 | A keyspace event does exactly what releaseSeat does |
| HoldExpiryServices.HoldExpiryService.ReleaseSeat | src/check-in/hold-expiry.service.ts:106-122 | Releases exactly when the lock is granted and the seat is HELD past its 120 s, with everything it then writes; otherwise changes nothing |
| HoldExpiryServices.HoldExpiryService.ReleaseSeatWithinLock | src/check-in/hold-expiry.service.ts:124-181 | The release itself, with everything it writes |
| HoldExpiryServices.HoldExpiryService.ReleaseTransaction | src/check-in/hold-expiry.service.ts:138-165 | From any state: frees the seat and cancels its IN_PROGRESS check-ins if it is still HELD by the holder read before, else changes nothing |
| Calls.OneEntryExpires | src/check-in/hold-expiry.service.ts:194-203 | Exactly one ASSIGNED entry of the holder on the flight becomes EXPIRED, if there is one |
| HoldExpiryServices.HoldExpiryService.MarkWaitlistEntryExpired | src/check-in/hold-expiry.service.ts:187-208 | Expires the holder's ASSIGNED entry and no other |
| HoldExpiryServices.HoldExpiryService.FindStaleSeats | src/check-in/hold-expiry.service.ts:74-79 | Lists exactly the HELD seats with heldAt at or before the cutoff |
| HoldExpiryServices.HoldExpiryService.SweepExpiredHolds | src/check-in/hold-expiry.service.ts:72-93 | Frees exactly the HELD seats with heldAt at or before the cutoff whose lock is granted, and cancels exactly their IN_PROGRESS check-ins, as if all at once |
| WaitlistServices.WaitlistService.JoinWaitlist | src/waitlist/waitlist.service.ts:61-106 | Every answer, in the order of the tests; on success one new WAITING entry right behind everybody on the flight, the gauge one up and nothing else; keeps the gauge exact |
| WaitlistServices.WaitlistService.GetNextPosition | src/waitlist/waitlist.service.ts:343-350 | A position above every entry of the flight, whatever its status, that is 1 or directly above some entry's |
| WaitlistServices.WaitlistService.LeaveWaitlist | src/waitlist/waitlist.service.ts:112-141 | Succeeds exactly for the passenger's own WAITING entry, which becomes CANCELLED with the gauge one down; otherwise changes nothing |
| WaitlistServices.WaitlistService.ProcessWaitlist | src/waitlist/waitlist.service.ts:173-266 | Offers a free seat, the hinted one if there is a hint, to a lowest-positioned waiting entry, ends early only when there is none, and assigns it with everything that follows unless a constraint forbids it; keeps the gauge exact |
| WaitlistServices.WaitlistService.AssignSeatToWaitlistPassenger | src/waitlist/waitlist.service.ts:268-341 | From any state, entry and seat as read before: assigns and follows up, or changes nothing |
| WaitlistServices.WaitlistService.AssignTransaction | src/waitlist/waitlist.service.ts:279-321 | From any state: holds the seat, marks the entry and inserts the check-in together, or rolls all of it back |
| SeatServices.SeatService.GetSeatMap | src/seat/seat.service.ts:32-65 | Answers the unexpired cached map, else exactly the flight's seats with their row, column and status in the table, cached for 2 s; a missing flight is an error |
| RateLimiter.CountIsRecent | src/common/redis/redis.service.ts:116-131 | The count from the pruned, expiring set equals the number of distinct milliseconds in (now - window, now] of the full history if and only if the window is positive |
| RateLimiter.AdmittedExactly | src/common/middleware/rate-limiter.middleware.ts:47-53 | A request is admitted if and only if fewer than maxRequests distinct milliseconds of the full history lie in the window ending at it |
| RateLimiter.MembersAreRecent | src/common/redis/redis.service.ts:116-131 | The stored set is that set of milliseconds |
| RateLimiter.EveryWindowIsLimited | src/common/middleware/rate-limiter.middleware.ts:47-85 | In every interval of the window's length requests get through at fewer than maxRequests distinct milliseconds |
| RateLimiter.SameMillisecondSameVerdict | src/common/redis/redis.service.ts:119 | Requests in the same millisecond get the same verdict |
| RateLimiter.RateLimitStore.AddRateLimitEntry | src/common/redis/redis.service.ts:116-131 | The pipeline's answer is the count of the window in the full history whenever that history's clock never went back and the window is positive, and the stored set always tracks the history |
| RateLimiter.RateLimiterMiddleware.Use | src/common/middleware/rate-limiter.middleware.ts:44-86 | On a clock that never goes back, passes a request on if and only if the history has fewer than maxRequests distinct milliseconds in the window, this request's included |
| Payments.PaymentService.CallPaymentServiceWithRetry | src/payment/payment.service.ts:126-183 | With k the first attempt that gets a response: min(k, maxRetries) + 1 calls; success if and only if such a k <= maxRetries exists and its status is confirmed, with its transaction; otherwise the error of the last attempt; and initialBackoff * (2^(calls - 1) - 1) ms of sleep in all |
| Payments.Doubling | src/payment/payment.service.ts:133-136 | One more wait, twice the last, turns the closed form for n waits into that for n + 1 |
| Payments.FirstResponse | src/payment/payment.service.ts:143-167 | The first attempt with a response: all before it threw |
| Fees.FeeIsNearestCent | src/baggage/baggage.service.ts:73-86 | The fee is the exact charge to the nearest cent, and zero within the limit; the excess weight is rounded likewise, and the weight is overweight exactly above the limit |
| Fees.CentsRound | src/baggage/baggage.service.ts:76-84 | Rounding to hundredths gives the nearest value of two decimals, halves upwards |
| Fees.FeeMonotone | src/baggage/baggage.service.ts:73-86 | A heavier bag never costs less |
| Fees.StoredFeeExact | src/baggage/baggage.service.ts:73-86 | For every limit and fee per kg, the fee of the declared weight is that of the stored weight if and only if the latter is the cent nearest to the declared weight's exact charge |
| Fees.WholeFeeExact | src/baggage/baggage.service.ts:73-86 | With a limit of two decimals and a whole fee per kg that is so if and only if the weight is within the limit or the rounded-off part is worth less than half a cent |
| Fees.StoredOverLimit | src/check-in/check-in.service.ts:391-398 | Weights stored over a limit were all declared over it if and only if the limit's own rounding does not raise it |

## Left out

- HTTP calls to the payment, weight and notification services: a payment attempt is an arbitrary response or exception; the weight service's answer is never used for the fee.
- Malformed payment responses: a confirmed response is taken to carry a transaction id of at most 100 characters; the source validates neither, and stores no paymentId when the id is missing.
- Redis and Redlock internals: a key is a value with an expiry time; a lock is granted or refused, and a granted lease may lapse at any moment.
- PostgreSQL isolation: transactions are serialised and all-or-nothing, with the unique constraints, foreign keys and numeric column bounds of the schema.
- Failures between steps: a call may stop after any step, which covers refused locks, exceptions and crashes; retries of whole requests are new calls.
- Audit entries written outside a transaction (joins, payments) and abuse events: best effort, so nothing can rest on them.
- Metrics other than the waitlist depth gauge, logging, tracing, controllers, DTO validation and authentication.
- Response DTOs, holdExpiresAt, creation timestamps and the reading endpoints getCheckIn and getFlightWaitlist: they change no state.
- JSON and the row and column order of a seat map: a map is a finite map from seat to its view.
- Changes of flight status during a run: the departed test is modelled, the departure is not.
- UUIDs: ids are natural numbers, and a check-in or waitlist row is named by its place in the table, which is append-only in the source too.
- Floating point: weights and fees are exact reals, rounded as Math.round does.
- handleWaitlistHoldExpiry: nothing in the source calls it; the live path is markWaitlistEntryExpired.
- releaseSeatHoldIfOwner, getSeatHold and ttl: nothing in the protocol calls them.
- The error path of the limiter's pipeline, which answers 0 when Redis fails.
- RateLimiter.RateLimitStore.AddRateLimitEntry: the service and Redis share one clock; if it goes back, a key that expired before counts as live again.
- Sweeps.SerialHoldsEndInTime: is over runs of uninterrupted calls; HoldBounds.HoldsEndInTime is the general bound.
- HoldKeys.HoldKeyMirrorsTable: is over runs of uninterrupted calls; between a transaction and its Redis command the key lags the table.
- Gauge.GaugeEqualsRecount: is for a single instance and uninterrupted calls; each instance has a gauge of its own.
- HoldExpiryServices.HoldExpiryService.SweepExpiredHolds: the clock does not move during one sweep, so the query's cutoff and the later check agree.
