/** The waitlist depth gauge, incremented and decremented call by call, against a recount of the table. */
module Gauge {
  import opened Domain
  import opened Baggage
  import opened Tables
  import opened Machine
  import opened Calls
  import opened Serial

  function CountWaiting(entries: seq<Entry>, f: FlightId): nat
  {
    if entries == [] then 0
    else
      var n := |entries| - 1;
      CountWaiting(entries[..n], f) + if IsWaiting(entries, f, n) then 1 else 0
  }

  lemma {:induction false} CountSet(entries: seq<Entry>, e: EntryId, status: WaitStatus, f: FlightId)
    requires e < |entries|
    ensures CountWaiting(SetEntry(entries, e, status), f) + (if IsWaiting(entries, f, e) then 1 else 0)
         == CountWaiting(entries, f) + if entries[e].flight == f && status.Waiting? then 1 else 0
    decreases |entries|
  {
    var n := |entries| - 1;
    var updated := SetEntry(entries, e, status);
    if e == n {
      assert updated[..n] == entries[..n];
    } else {
      assert updated[..n] == SetEntry(entries[..n], e, status);
      CountSet(entries[..n], e, status, f);
    }
  }

  lemma CountAppend(entries: seq<Entry>, entry: Entry, f: FlightId)
    ensures CountWaiting(entries + [entry], f)
         == CountWaiting(entries, f) + if entry.flight == f && entry.status.Waiting? then 1 else 0
  {
  }

  ghost predicate GaugeExact(sys: System) {
    forall f: FlightId :: Depth(sys.depth, f) == CountWaiting(sys.db.waitlist, f)
  }

  /** Marking an assigned entry as expired does not change who waits. */
  lemma ExpireCounts(entries: seq<Entry>, holder: Option<PassengerId>, f: FlightId, g: FlightId)
    ensures CountWaiting(ExpireEntry(entries, holder, f), g) == CountWaiting(entries, g)
  {
    if holder.Some? {
      var e := FindAssigned(entries, holder.value, f);
      if e.Some? {
        CountSet(entries, e.value, Expired, g);
      }
    }
  }

  lemma ReleaseExact(sys: System, lock: bool, x: SeatId)
    requires GaugeExact(sys)
    ensures GaugeExact(ReleaseSeat(sys, lock, x).0)
  {
    ReleaseForm(sys, lock, x);
    if lock && Stale(sys, x) {
      forall g: FlightId {
        ExpireCounts(sys.db.waitlist, sys.db.seats[x].heldBy, sys.db.seats[x].flight, g);
      }
    }
  }

  lemma {:induction false} SweepExact(sys: System, order: seq<SeatId>, granted: set<SeatId>)
    requires GaugeExact(sys)
    ensures GaugeExact(ReleaseEach(sys, order, granted))
    decreases |order|
  {
    if order != [] {
      var n := |order| - 1;
      SweepExact(sys, order[..n], granted);
      ReleaseExact(ReleaseEach(sys, order[..n], granted), order[n] in granted, order[n]);
    }
  }

  lemma FinaliseExact(sys: System, id: CheckInId, row: CheckIn, weight: real, payment: Option<string>)
    requires GaugeExact(sys)
    ensures GaugeExact(Finalise(sys, id, row, weight, payment).0)
  {
    FinaliseForm(sys, id, row, weight, payment);
  }

  lemma ConfirmExact(sys: System, id: CheckInId, p: PassengerId, weight: real, paid: Option<string>)
    requires GaugeExact(sys) && weight >= 0.0
    ensures GaugeExact(ConfirmCheckIn(sys, id, p, weight, paid).0)
  {
    if id < |sys.db.checkIns| {
      var row, fee := sys.db.checkIns[id], CalculateFee(sys.config, weight);
      FinaliseExact(sys, id, row, weight, None);
      var awaiting := AwaitPayment(sys.db, id, weight, fee.excessFee);
      if awaiting.Some? && paid.Some? {
        var paying := sys.(db := awaiting.value, payments := sys.payments + {Payment(paid.value, id, fee.excessFee)});
        assert paying.db.waitlist == sys.db.waitlist;
        FinaliseExact(paying, id, row, weight, paid);
      }
    }
  }

  lemma JoinExact(sys: System, p: PassengerId, f: FlightId)
    requires GaugeExact(sys)
    ensures GaugeExact(JoinWaitlist(sys, p, f).0)
  {
    var position := MaxPosition(sys.db.waitlist, f) + 1;
    var joined := InsertEntry(sys.db, p, f, position);
    if joined.Some? {
      CountEffect(sys.(db := joined.value), f, 1);
      forall g: FlightId {
        CountAppend(sys.db.waitlist, Entry(f, p, position, Waiting), g);
      }
    }
  }

  lemma LeaveExact(sys: System, e: EntryId, p: PassengerId)
    requires GaugeExact(sys)
    ensures GaugeExact(LeaveWaitlist(sys, e, p).0)
  {
    if e < |sys.db.waitlist| {
      var left := sys.(db := sys.db.(waitlist := SetEntry(sys.db.waitlist, e, WaitStatus.Cancelled)));
      CountEffect(left, sys.db.waitlist[e].flight, -1);
      forall g: FlightId {
        CountSet(sys.db.waitlist, e, WaitStatus.Cancelled, g);
      }
    }
  }

  lemma ProcessExact(sys: System, f: FlightId, hint: Option<SeatId>, head: Option<EntryId>, free: Option<SeatId>)
    requires GaugeExact(sys)
    ensures GaugeExact(ProcessWaitlist(sys, true, f, hint, head, free))
  {
    ProcessForm(sys, true, f, hint, head, free);
    if head.Some? && head.value < |sys.db.waitlist| {
      forall g: FlightId {
        CountSet(sys.db.waitlist, head.value, Assigned, g);
      }
    }
  }

  lemma DoExact(sys: System, call: SerialCall)
    requires GaugeExact(sys)
    ensures GaugeExact(Do(sys, call))
  {
    match call {
      case Wait(_) =>
      case Start(p, f, x) => StartForm(sys, true, p, f, x);
      case Confirm(id, p, weight, paid) => if weight >= 0.0 { ConfirmExact(sys, id, p, weight, paid); }
      case Cancel(id, p) => CancelForm(sys, id, p);
      case Release(x) => ReleaseExact(sys, true, x);
      case Sweep(order, granted) => SweepExact(sys, order, granted);
      case Join(p, f) => JoinExact(sys, p, f);
      case Leave(e, p) => LeaveExact(sys, e, p);
      case Process(f, hint, head, free) => ProcessExact(sys, f, hint, head, free);
    }
  }

  lemma {:induction false} ExactRun(sys: System, calls: seq<SerialCall>)
    requires GaugeExact(sys)
    ensures GaugeExact(DoAll(sys, calls))
    decreases |calls|
  {
    if calls != [] {
      ExactRun(sys, calls[..|calls| - 1]);
      DoExact(DoAll(sys, calls[..|calls| - 1]), calls[|calls| - 1]);
    }
  }

  /** The gauge of each flight always equals its number of WAITING entries. */
  lemma GaugeEqualsRecount(init: State, calls: seq<SerialCall>, f: FlightId)
    requires Init(init)
    ensures Depth(DoAll(init.sys, calls).depth, f) == CountWaiting(DoAll(init.sys, calls).db.waitlist, f)
  {
    ExactRun(init.sys, calls);
  }
}
