/** First come, first assigned: the waitlist of one flight over whole runs. */
module Fifo {
  import opened Domain
  import opened Tables
  import opened Machine

  function CountFlight(entries: seq<Entry>, f: FlightId): nat {
    if entries == [] then 0
    else CountFlight(entries[..|entries| - 1], f) + if entries[|entries| - 1].flight == f then 1 else 0
  }

  /** The entry is the n-th of its flight in join order, where n is its position. */
  ghost predicate InJoinOrder(entries: seq<Entry>, f: FlightId) {
    forall i :: 0 <= i < |entries| && entries[i].flight == f ==> entries[i].position == CountFlight(entries[..i], f) + 1
  }

  predicate IsAssignment(audit: seq<Audit>, k: nat, f: FlightId) {
    k < |audit| && audit[k].WaitlistAssigned? && audit[k].flight == f
  }

  predicate OnFlight(entries: seq<Entry>, e: EntryId, f: FlightId) {
    e < |entries| && entries[e].flight == f
  }

  /** The call is between reading the head of the flight's waitlist and its assignment transaction. */
  predicate Processes(call: Call, f: FlightId) {
    (call.Heading? || call.Offered? || call.Seating?) && call.flight == f
  }

  /** `e` comes after everything assigned so far. */
  ghost predicate AfterAssigned(entries: seq<Entry>, audit: seq<Audit>, f: FlightId, e: EntryId)
    requires e < |entries|
  {
    forall k: nat :: IsAssignment(audit, k, f) ==>
      OnFlight(entries, audit[k].entry, f) && entries[audit[k].entry].position < entries[e].position
  }

  ghost predicate AssignedOk(entries: seq<Entry>, audit: seq<Audit>, f: FlightId) {
    && (forall k: nat :: IsAssignment(audit, k, f) ==> OnFlight(entries, audit[k].entry, f))
    && (forall e: EntryId :: IsWaiting(entries, f, e) ==> AfterAssigned(entries, audit, f, e))
    && (forall j: nat, k: nat :: j < k && IsAssignment(audit, j, f) && IsAssignment(audit, k, f) ==>
          entries[audit[j].entry].position < entries[audit[k].entry].position)
  }

  /** Nobody waits before the entry that the call has read as head, though that entry itself may have left. */
  ghost predicate HeadOk(entries: seq<Entry>, f: FlightId, call: Call) {
    Processes(call, f) ==>
      && OnFlight(entries, call.entry, f)
      && forall e: EntryId :: IsWaiting(entries, f, e) ==> entries[call.entry].position <= entries[e].position
  }

  ghost predicate ProcessOk(entries: seq<Entry>, audit: seq<Audit>, f: FlightId, call: Call) {
    HeadOk(entries, f, call) && (Processes(call, f) ==> AfterAssigned(entries, audit, f, call.entry))
  }

  ghost predicate LockHonoured(calls: map<CallId, Call>, f: FlightId) {
    forall c, d :: c in calls && d in calls && Processes(calls[c], f) && Processes(calls[d], f) ==> c == d
  }

  ghost predicate FifoOk(s: State, f: FlightId) {
    var entries, audit := s.sys.db.waitlist, s.sys.db.audit;
    && InJoinOrder(entries, f)
    && AssignedOk(entries, audit, f)
    && LockHonoured(s.calls, f)
    && forall c :: c in s.calls ==> ProcessOk(entries, audit, f, s.calls[c])
  }

  /** An insert into the flight's queue uses the position that the join would read now. */
  ghost predicate InsertIsCurrent(db: Db, call: Call, f: FlightId) {
    call.Positioned? && call.flight == f && InsertEntry(db, call.passenger, f, call.position).Some? ==>
      call.position == MaxPosition(db.waitlist, f) + 1
  }

  /** The join that inserts, if the event is one, has not been overlapped by another. */
  ghost predicate JoinIsCurrent(s: State, e: Event, f: FlightId) {
    e.Advance? && e.c in s.calls ==> InsertIsCurrent(s.sys.db, s.calls[e.c], f)
  }

  /**
   * The premises: joins do not overlap, and the waitlist lock keeps a second call from reading the head while
   * another has read it and not finished.
   */
  ghost predicate Disciplined(s: State, e: Event, f: FlightId) {
    && JoinIsCurrent(s, e, f)
    && (e.Open? && e.request.ProcessRequest? && e.request.flight == f ==>
          forall c :: c in s.calls ==> !Processes(s.calls[c], f))
  }

  ghost predicate DisciplinedThroughout(s: State, es: seq<Event>, f: FlightId)
    decreases |es|
  {
    es == [] ||
    (var n := |es| - 1; DisciplinedThroughout(s, es[..n], f) && Disciplined(Exec(s, es[..n]), es[n], f))
  }

  // ---- Positions ----

  /** Rows keep flight, passenger and position. */
  ghost predicate SamePlaces(a: seq<Entry>, b: seq<Entry>) {
    |a| <= |b| && forall i :: 0 <= i < |a| ==> a[i].flight == b[i].flight && a[i].position == b[i].position
  }

  lemma {:induction false} CountSame(a: seq<Entry>, b: seq<Entry>, f: FlightId)
    requires |a| == |b| && SamePlaces(a, b)
    ensures CountFlight(a, f) == CountFlight(b, f)
    decreases |a|
  {
    if a != [] {
      CountSame(a[..|a| - 1], b[..|b| - 1], f);
    }
  }

  lemma {:induction false} CountMonotone(entries: seq<Entry>, f: FlightId, i: nat, j: nat)
    requires i < j <= |entries|
    ensures CountFlight(entries[..i], f) + (if entries[i].flight == f then 1 else 0) <= CountFlight(entries[..j], f)
    decreases j
  {
    assert entries[..j][..j - 1] == entries[..j - 1];
    if i < j - 1 {
      CountMonotone(entries, f, i, j - 1);
    }
  }

  /** Joined earlier exactly when positioned lower. */
  lemma PositionsIncrease(entries: seq<Entry>, f: FlightId, i: nat, j: nat)
    requires InJoinOrder(entries, f) && i < j && OnFlight(entries, i, f) && OnFlight(entries, j, f)
    ensures entries[i].position < entries[j].position
  {
    CountMonotone(entries, f, i, j);
  }

  lemma {:induction false} MaxIsCount(entries: seq<Entry>, f: FlightId)
    requires InJoinOrder(entries, f)
    ensures MaxPosition(entries, f) == CountFlight(entries, f)
    decreases |entries|
  {
    if entries != [] {
      var n := |entries| - 1;
      assert forall i :: 0 <= i < n ==> entries[..n][..i] == entries[..i];
      MaxIsCount(entries[..n], f);
    }
  }

  /** The only new entry, if there is one, is positioned right after all others of its flight. */
  predicate JoinsLast(a: seq<Entry>, b: seq<Entry>, f: FlightId) {
    |b| == |a| || (|b| == |a| + 1 && (b[|a|].flight == f ==> b[|a|].position == MaxPosition(a, f) + 1))
  }

  lemma JoinOrderCarry(a: seq<Entry>, b: seq<Entry>, f: FlightId)
    requires InJoinOrder(a, f) && SamePlaces(a, b) && |b| <= |a| + 1
    ensures InJoinOrder(b, f) <==> JoinsLast(a, b, f)
  {
    forall i | 0 <= i < |b| && b[i].flight == f
      ensures i < |a| ==> b[i].position == CountFlight(b[..i], f) + 1
      ensures i == |a| ==> CountFlight(b[..i], f) == MaxPosition(a, f)
    {
      CountSame(a[..i], b[..i], f);
      if i == |a| {
        assert a[..i] == a;
        MaxIsCount(a, f);
      }
    }
  }

  // ---- What a step does to the queue ----

  /** The log grows by entries that assign nothing from the waitlist. */
  ghost predicate NoAssignment(a: seq<Audit>, b: seq<Audit>) {
    |a| <= |b| && (forall k :: 0 <= k < |a| ==> b[k] == a[k])
    && forall k :: |a| <= k < |b| ==> !b[k].WaitlistAssigned?
  }

  lemma StepLog(sys: System, call: Call, reply: Reply)
    requires !call.Seating?
    ensures NoAssignment(sys.db.audit, Step(sys, call, reply).0.db.audit)
  {
    if call.Validated? || call.Paid? {
      CompletingLog(sys, call, reply);
    } else {
      OtherLog(sys, call, reply);
    }
  }

  lemma CompletingLog(sys: System, call: Call, reply: Reply)
    requires call.Validated? || call.Paid?
    ensures NoAssignment(sys.db.audit, Step(sys, call, reply).0.db.audit)
  {
    CompletionLog(sys, call.id, call.row, call.weight, if call.Paid? then Some(call.transaction) else None);
  }

  lemma OtherLog(sys: System, call: Call, reply: Reply)
    requires !call.Seating? && !call.Validated? && !call.Paid?
    ensures NoAssignment(sys.db.audit, Step(sys, call, reply).0.db.audit)
  {
  }

  predicate WritesQueue(call: Call) {
    call.Seating? || call.Expiring? || call.Positioned? || call.Leaving?
  }

  lemma StepEntries(sys: System, call: Call, reply: Reply)
    requires !WritesQueue(call)
    ensures Step(sys, call, reply).0.db.waitlist == sys.db.waitlist
  {
  }

  lemma CompletionLog(sys: System, id: CheckInId, row: CheckIn, weight: real, payment: Option<string>)
    ensures NoAssignment(sys.db.audit, FinishComplete(sys, id, row, weight, payment).0.db.audit)
    ensures FinishComplete(sys, id, row, weight, payment).0.db.waitlist == sys.db.waitlist
  {
  }

  /** No assignment, at most one new entry behind all others, and no entry waiting again. */
  ghost predicate QuietQueue(a: Db, b: Db, f: FlightId) {
    && NoAssignment(a.audit, b.audit)
    && SamePlaces(a.waitlist, b.waitlist)
    && JoinsLast(a.waitlist, b.waitlist, f)
    && forall e: EntryId :: e < |a.waitlist| && IsWaiting(b.waitlist, f, e) ==> IsWaiting(a.waitlist, f, e)
  }

  lemma StepQueue(sys: System, call: Call, reply: Reply, f: FlightId)
    requires !call.Seating? && InsertIsCurrent(sys.db, call, f)
    ensures QuietQueue(sys.db, Step(sys, call, reply).0.db, f)
  {
    StepLog(sys, call, reply);
    if !WritesQueue(call) {
      StepEntries(sys, call, reply);
    }
  }

  lemma AfterCarry(a: Db, b: Db, f: FlightId, e: EntryId)
    requires QuietQueue(a, b, f) && e < |a.waitlist| && AfterAssigned(a.waitlist, a.audit, f, e)
    ensures AfterAssigned(b.waitlist, b.audit, f, e)
  {
  }

  lemma NewcomerLast(a: Db, b: Db, f: FlightId)
    requires QuietQueue(a, b, f) && InJoinOrder(a.waitlist, f) && AssignedOk(a.waitlist, a.audit, f)
    requires |b.waitlist| == |a.waitlist| + 1 && b.waitlist[|a.waitlist|].flight == f
    ensures AfterAssigned(b.waitlist, b.audit, f, |a.waitlist|)
    ensures forall i :: 0 <= i < |a.waitlist| && a.waitlist[i].flight == f ==>
      a.waitlist[i].position < b.waitlist[|a.waitlist|].position
  {
  }

  lemma QuietAssigned(a: Db, b: Db, f: FlightId)
    requires QuietQueue(a, b, f) && InJoinOrder(a.waitlist, f) && AssignedOk(a.waitlist, a.audit, f)
    ensures InJoinOrder(b.waitlist, f) && AssignedOk(b.waitlist, b.audit, f)
  {
    JoinOrderCarry(a.waitlist, b.waitlist, f);
    assert forall k: nat :: IsAssignment(b.audit, k, f) ==> IsAssignment(a.audit, k, f) && a.audit[k] == b.audit[k];
    forall e: EntryId | IsWaiting(b.waitlist, f, e)
      ensures AfterAssigned(b.waitlist, b.audit, f, e)
    {
      if e < |a.waitlist| {
        AfterCarry(a, b, f, e);
      } else {
        NewcomerLast(a, b, f);
      }
    }
  }

  lemma QuietHead(a: Db, b: Db, f: FlightId, call: Call)
    requires QuietQueue(a, b, f) && InJoinOrder(a.waitlist, f) && AssignedOk(a.waitlist, a.audit, f)
    requires HeadOk(a.waitlist, f, call)
    ensures HeadOk(b.waitlist, f, call)
  {
    if |b.waitlist| > |a.waitlist| && b.waitlist[|a.waitlist|].flight == f {
      NewcomerLast(a, b, f);
    }
  }

  lemma QuietProcess(a: Db, b: Db, f: FlightId, call: Call)
    requires QuietQueue(a, b, f) && InJoinOrder(a.waitlist, f) && AssignedOk(a.waitlist, a.audit, f)
    requires ProcessOk(a.waitlist, a.audit, f, call)
    ensures ProcessOk(b.waitlist, b.audit, f, call)
  {
  }

  lemma QuietFifo(s: State, sys: System, f: FlightId)
    requires FifoOk(s, f) && QuietQueue(s.sys.db, sys.db, f)
    ensures FifoOk(s.(sys := sys), f)
  {
    QuietAssigned(s.sys.db, sys.db, f);
    forall c | c in s.calls
      ensures ProcessOk(sys.db.waitlist, sys.db.audit, f, s.calls[c])
    {
      QuietProcess(s.sys.db, sys.db, f, s.calls[c]);
    }
  }

  /** The assignment of entry `e`, which the call had read as head, on flight `g`. */
  lemma AssignFifo(a: Db, b: Db, e: EntryId, g: FlightId, log: Audit, f: FlightId)
    requires InJoinOrder(a.waitlist, f) && AssignedOk(a.waitlist, a.audit, f)
    requires b.waitlist == SetEntry(a.waitlist, e, Assigned) && b.audit == a.audit + [log]
    requires log.WaitlistAssigned? && log.entry == e && log.flight == g
    requires g == f ==> OnFlight(a.waitlist, e, f) && AfterAssigned(a.waitlist, a.audit, f, e)
    requires g == f ==>
      forall i: EntryId :: IsWaiting(a.waitlist, f, i) ==> a.waitlist[e].position <= a.waitlist[i].position
    ensures InJoinOrder(b.waitlist, f) && AssignedOk(b.waitlist, b.audit, f)
  {
    JoinOrderCarry(a.waitlist, b.waitlist, f);
    forall k: nat | IsAssignment(b.audit, k, f)
      ensures OnFlight(b.waitlist, b.audit[k].entry, f)
    {
      assert k < |a.audit| ==> IsAssignment(a.audit, k, f);
    }
    forall i: EntryId, k: nat | IsWaiting(b.waitlist, f, i) && IsAssignment(b.audit, k, f)
      ensures b.waitlist[b.audit[k].entry].position < b.waitlist[i].position
    {
      assert IsWaiting(a.waitlist, f, i);
      if k < |a.audit| {
        assert IsAssignment(a.audit, k, f);
      } else if i < e {
        PositionsIncrease(a.waitlist, f, i, e);
      } else {
        PositionsIncrease(a.waitlist, f, e, i);
      }
    }
    forall j: nat, k: nat | j < k && IsAssignment(b.audit, j, f) && IsAssignment(b.audit, k, f)
      ensures b.waitlist[b.audit[j].entry].position < b.waitlist[b.audit[k].entry].position
    {
      assert IsAssignment(a.audit, j, f);
      assert k < |a.audit| ==> IsAssignment(a.audit, k, f);
    }
  }

  /** An assignment on another flight leaves the flight's processing alone. */
  lemma AssignElsewhere(a: Db, b: Db, e: EntryId, log: Audit, f: FlightId, call: Call)
    requires b.waitlist == SetEntry(a.waitlist, e, Assigned) && b.audit == a.audit + [log]
    requires log.WaitlistAssigned? && log.flight != f && ProcessOk(a.waitlist, a.audit, f, call)
    ensures ProcessOk(b.waitlist, b.audit, f, call)
  {
    assert forall k: nat :: IsAssignment(b.audit, k, f) ==> IsAssignment(a.audit, k, f) && a.audit[k] == b.audit[k];
    assert forall i: EntryId :: IsWaiting(b.waitlist, f, i) ==> IsWaiting(a.waitlist, f, i);
  }

  lemma SeatingFifo(s: State, c: CallId, reply: Reply, f: FlightId)
    requires FifoOk(s, f) && c in s.calls && s.calls[c].Seating?
    ensures FifoOk(Next(s, Advance(c, reply)), f)
  {
    var s' := Next(s, Advance(c, reply));
    var Seating(e, p, g, x, heldAt) := s.calls[c];
    var a, b := s.sys.db, s'.sys.db;
    if AssignSeat(a, e, p, g, x, heldAt).Some? {
      var log := WaitlistAssigned(e, g, x, p, |a.checkIns|);
      assert ProcessOk(a.waitlist, a.audit, f, s.calls[c]);
      AssignFifo(a, b, e, g, log, f);
      forall d | d in s'.calls && Processes(s'.calls[d], f)
        ensures ProcessOk(b.waitlist, b.audit, f, s'.calls[d])
      {
        assert d != c && d in s.calls && g != f;
        AssignElsewhere(a, b, e, log, f, s.calls[d]);
      }
    }
  }

  /** After an assignment nobody waits before a head that was read for it earlier, either. */
  lemma AssignHead(a: seq<Entry>, e: EntryId, f: FlightId, call: Call)
    requires HeadOk(a, f, call)
    ensures HeadOk(SetEntry(a, e, Assigned), f, call)
  {
    assert forall i: EntryId :: IsWaiting(SetEntry(a, e, Assigned), f, i) ==> IsWaiting(a, f, i);
  }

  lemma AdvanceFifo(s: State, c: CallId, reply: Reply, f: FlightId)
    requires FifoOk(s, f) && c in s.calls && !s.calls[c].Seating? && Disciplined(s, Advance(c, reply), f)
    ensures FifoOk(Next(s, Advance(c, reply)), f)
  {
    var call := s.calls[c];
    var (sys, call') := Step(s.sys, call, reply);
    StepQueue(s.sys, call, reply, f);
    QuietFifo(s, sys, f);
    ProcessStays(s.sys, call, reply, f);
  }

  /** A call that processes the flight after a step did so before it, for the same entry. */
  lemma ProcessStays(sys: System, call: Call, reply: Reply, f: FlightId)
    ensures var call' := Step(sys, call, reply).1;
      call'.Some? && Processes(call'.value, f) ==> Processes(call, f) && call'.value.entry == call.entry
  {
  }

  lemma OpenFifo(s: State, c: CallId, request: Request, f: FlightId)
    requires FifoOk(s, f) && Disciplined(s, Open(c, request), f)
    ensures FifoOk(Next(s, Open(c, request)), f)
  {
    var call := Begin(s.sys, request);
    assert call.Some? && Processes(call.value, f) ==> request.ProcessRequest? && request.flight == f;
  }

  lemma NextFifo(s: State, e: Event, f: FlightId)
    requires FifoOk(s, f) && Disciplined(s, e, f)
    ensures FifoOk(Next(s, e), f)
  {
    match e
    case Tick(ms) =>
    case Open(c, request) => OpenFifo(s, c, request, f);
    case Advance(c, reply) =>
      if c in s.calls {
        if s.calls[c].Seating? {
          SeatingFifo(s, c, reply, f);
        } else {
          AdvanceFifo(s, c, reply, f);
        }
      }
    case Abandon(_) =>
  }

  lemma {:induction false} FifoRun(s: State, es: seq<Event>, f: FlightId)
    requires FifoOk(s, f) && DisciplinedThroughout(s, es, f)
    ensures FifoOk(Exec(s, es), f)
    decreases |es|
  {
    if es != [] {
      FifoRun(s, es[..|es| - 1], f);
      NextFifo(Exec(s, es[..|es| - 1]), es[|es| - 1], f);
    }
  }

  // ---- Positions over whole runs ----

  ghost predicate InJoinOrderThroughout(s: State, es: seq<Event>, f: FlightId)
    decreases |es|
  {
    InJoinOrder(Exec(s, es).sys.db.waitlist, f) && (es == [] || InJoinOrderThroughout(s, es[..|es| - 1], f))
  }

  ghost predicate JoinsCurrentThroughout(s: State, es: seq<Event>, f: FlightId)
    decreases |es|
  {
    es == [] ||
    (var n := |es| - 1; JoinsCurrentThroughout(s, es[..n], f) && JoinIsCurrent(Exec(s, es[..n]), es[n], f))
  }

  lemma StepPlaces(sys: System, call: Call, reply: Reply, f: FlightId)
    ensures var a, b := sys.db.waitlist, Step(sys, call, reply).0.db.waitlist;
      && SamePlaces(a, b) && |b| <= |a| + 1
      && (JoinsLast(a, b, f) <==> InsertIsCurrent(sys.db, call, f))
  {
    if !WritesQueue(call) {
      StepEntries(sys, call, reply);
    }
  }

  lemma NextPlaces(s: State, e: Event, f: FlightId)
    requires InJoinOrder(s.sys.db.waitlist, f)
    ensures InJoinOrder(Next(s, e).sys.db.waitlist, f) <==> JoinIsCurrent(s, e, f)
  {
    if e.Advance? && e.c in s.calls {
      StepPlaces(s.sys, s.calls[e.c], e.reply, f);
      JoinOrderCarry(s.sys.db.waitlist, Next(s, e).sys.db.waitlist, f);
    }
  }

  /**
   * Positions on a flight are 1, 2, 3, ... in join order throughout a run if and only if every join inserts the
   * position it would still read at that moment: no lock keeps joins apart.
   */
  lemma {:induction false} PositionsAreJoinOrder(init: State, es: seq<Event>, f: FlightId)
    requires Init(init)
    ensures InJoinOrderThroughout(init, es, f) <==> JoinsCurrentThroughout(init, es, f)
    decreases |es|
  {
    if es != [] {
      var n := |es| - 1;
      PositionsAreJoinOrder(init, es[..n], f);
      if InJoinOrderThroughout(init, es[..n], f) {
        NextPlaces(Exec(init, es[..n]), es[n], f);
      }
    }
  }

  /**
   * With joins that do not overlap and the lock honoured, seats are assigned in strictly increasing position,
   * however joins and leaves interleave.
   */
  lemma AssignedInOrder(init: State, es: seq<Event>, db: Db, f: FlightId, j: nat, k: nat)
    requires Init(init) && DisciplinedThroughout(init, es, f) && db == Exec(init, es).sys.db
    requires j < k && IsAssignment(db.audit, j, f) && IsAssignment(db.audit, k, f)
    ensures OnFlight(db.waitlist, db.audit[j].entry, f) && OnFlight(db.waitlist, db.audit[k].entry, f)
    ensures db.waitlist[db.audit[j].entry].position < db.waitlist[db.audit[k].entry].position
  {
    FifoRun(init, es, f);
  }

  /** ... and nobody who still waits had joined before anybody who was assigned a seat. */
  lemma NobodyOvertaken(init: State, es: seq<Event>, db: Db, f: FlightId, k: nat, e: EntryId)
    requires Init(init) && DisciplinedThroughout(init, es, f) && db == Exec(init, es).sys.db
    requires IsAssignment(db.audit, k, f) && IsWaiting(db.waitlist, f, e)
    ensures OnFlight(db.waitlist, db.audit[k].entry, f) && db.audit[k].entry < e
  {
    FifoRun(init, es, f);
    WaitingAfter(db, f, k, e);
  }

  // ---- Without the lock ----

  /** The event commits an assignment of `entry` on the flight. */
  predicate Assigns(s: State, e: Event, f: FlightId, entry: EntryId) {
    && e.Advance? && e.c in s.calls && s.calls[e.c].Seating?
    && var call := s.calls[e.c];
    && call.entry == entry && call.flight == f
    && AssignSeat(s.sys.db, entry, call.passenger, f, call.seat, call.heldAt).Some?
  }

  /** An assigned entry is still WAITING, or has left but comes after everything assigned so far. */
  ghost predicate AssignsNext(s: State, e: Event, f: FlightId) {
    var db := s.sys.db;
    forall entry: EntryId :: Assigns(s, e, f, entry) ==>
      entry < |db.waitlist| && (IsWaiting(db.waitlist, f, entry) || AfterAssigned(db.waitlist, db.audit, f, entry))
  }

  ghost predicate OrderlyThroughout(s: State, es: seq<Event>, f: FlightId)
    decreases |es|
  {
    es == [] ||
    (var n := |es| - 1;
     && OrderlyThroughout(s, es[..n], f)
     && JoinIsCurrent(Exec(s, es[..n]), es[n], f) && AssignsNext(Exec(s, es[..n]), es[n], f))
  }

  /** Positions are in join order, assigned positions increase, and nobody who waits stands before anybody assigned. */
  ghost predicate InOrder(db: Db, f: FlightId) {
    InJoinOrder(db.waitlist, f) && AssignedOk(db.waitlist, db.audit, f)
  }

  ghost predicate InOrderThroughout(s: State, es: seq<Event>, f: FlightId)
    decreases |es|
  {
    InOrder(Exec(s, es).sys.db, f) && (es == [] || InOrderThroughout(s, es[..|es| - 1], f))
  }

  ghost predicate OrderOk(s: State, f: FlightId) {
    InOrder(s.sys.db, f) && forall c :: c in s.calls ==> HeadOk(s.sys.db.waitlist, f, s.calls[c])
  }

  /** An entry assigned after one at a higher position. */
  lemma OutOfOrder(a: Db, b: Db, e: EntryId, log: Audit, f: FlightId)
    requires AssignedOk(a.waitlist, a.audit, f)
    requires OnFlight(a.waitlist, e, f) && !AfterAssigned(a.waitlist, a.audit, f, e)
    requires b.waitlist == SetEntry(a.waitlist, e, Assigned) && b.audit == a.audit + [log]
    requires log.WaitlistAssigned? && log.entry == e && log.flight == f
    ensures !AssignedOk(b.waitlist, b.audit, f)
  {
    var k: nat :| IsAssignment(a.audit, k, f) && a.waitlist[a.audit[k].entry].position >= a.waitlist[e].position;
    assert IsAssignment(b.audit, k, f) && IsAssignment(b.audit, |a.audit|, f);
    assert b.waitlist[b.audit[k].entry].position >= b.waitlist[b.audit[|a.audit|].entry].position;
  }

  lemma SeatingOrder(s: State, c: CallId, reply: Reply, f: FlightId)
    requires OrderOk(s, f) && c in s.calls && s.calls[c].Seating?
    ensures AssignsNext(s, Advance(c, reply), f) ==> OrderOk(Next(s, Advance(c, reply)), f)
    ensures InOrder(Next(s, Advance(c, reply)).sys.db, f) ==> AssignsNext(s, Advance(c, reply), f)
  {
    var s' := Next(s, Advance(c, reply));
    var Seating(e, p, g, x, heldAt) := s.calls[c];
    if AssignSeat(s.sys.db, e, p, g, x, heldAt).Some? {
      var log := WaitlistAssigned(e, g, x, p, |s.sys.db.checkIns|);
      assert HeadOk(s.sys.db.waitlist, f, s.calls[c]);
      if AssignsNext(s, Advance(c, reply), f) {
        assert Assigns(s, Advance(c, reply), g, e);
        AssignFifo(s.sys.db, s'.sys.db, e, g, log, f);
        HeadsStay(s, s', c, e, f);
      } else {
        OutOfOrder(s.sys.db, s'.sys.db, e, log, f);
      }
    }
  }

  lemma HeadsStay(s: State, s': State, c: CallId, e: EntryId, f: FlightId)
    requires OrderOk(s, f) && s'.sys.db.waitlist == SetEntry(s.sys.db.waitlist, e, Assigned)
    requires forall d :: d in s'.calls && d != c ==> d in s.calls && s'.calls[d] == s.calls[d]
    requires c in s'.calls ==> s'.calls[c].Tail?
    ensures forall d :: d in s'.calls ==> HeadOk(s'.sys.db.waitlist, f, s'.calls[d])
  {
    forall d | d in s'.calls && d != c
      ensures HeadOk(s'.sys.db.waitlist, f, s'.calls[d])
    {
      AssignHead(s.sys.db.waitlist, e, f, s.calls[d]);
    }
  }

  lemma AdvanceOrder(s: State, c: CallId, reply: Reply, f: FlightId)
    requires OrderOk(s, f) && c in s.calls && !s.calls[c].Seating? && JoinIsCurrent(s, Advance(c, reply), f)
    ensures OrderOk(Next(s, Advance(c, reply)), f)
  {
    var call := s.calls[c];
    var (sys, _) := Step(s.sys, call, reply);
    StepQueue(s.sys, call, reply, f);
    QuietAssigned(s.sys.db, sys.db, f);
    ProcessStays(s.sys, call, reply, f);
    forall d | d in s.calls
      ensures HeadOk(sys.db.waitlist, f, s.calls[d])
    {
      QuietHead(s.sys.db, sys.db, f, s.calls[d]);
    }
  }

  lemma OpenOrder(s: State, c: CallId, request: Request, f: FlightId)
    requires OrderOk(s, f)
    ensures OrderOk(Next(s, Open(c, request)), f)
  {
    var call := Begin(s.sys, request);
    assert call.Some? && Processes(call.value, f) ==> request.ProcessRequest? && request.flight == f;
  }

  lemma NextOrder(s: State, e: Event, f: FlightId)
    requires OrderOk(s, f)
    ensures JoinIsCurrent(s, e, f) && AssignsNext(s, e, f) ==> OrderOk(Next(s, e), f)
    ensures InOrder(Next(s, e).sys.db, f) ==> JoinIsCurrent(s, e, f) && AssignsNext(s, e, f)
  {
    NextPlaces(s, e, f);
    match e
    case Tick(ms) =>
    case Open(c, request) => OpenOrder(s, c, request, f);
    case Advance(c, reply) =>
      if c in s.calls {
        if s.calls[c].Seating? {
          SeatingOrder(s, c, reply, f);
        } else if JoinIsCurrent(s, e, f) {
          AdvanceOrder(s, c, reply, f);
        }
      }
    case Abandon(_) =>
  }

  /** One event keeps the order exactly when it joins nobody at a stale position and assigns nobody out of turn. */
  lemma StepOrderExactly(s: State, e: Event, f: FlightId)
    requires OrderOk(s, f)
    ensures OrderOk(Next(s, e), f) <==> JoinIsCurrent(s, e, f) && AssignsNext(s, e, f)
  {
    NextOrder(s, e, f);
  }

  lemma {:induction false} OrderRun(s: State, es: seq<Event>, f: FlightId)
    requires OrderOk(s, f)
    ensures InOrderThroughout(s, es, f) <==> OrderlyThroughout(s, es, f)
    ensures OrderlyThroughout(s, es, f) ==> OrderOk(Exec(s, es), f)
    decreases |es|
  {
    if es != [] {
      var n := |es| - 1;
      OrderRun(s, es[..n], f);
      if OrderlyThroughout(s, es[..n], f) {
        NextOrder(Exec(s, es[..n]), es[n], f);
      }
    }
  }

  /**
   * Leases may lapse at will, and any number of calls may process the flight at once: throughout a run positions
   * are in join order, seats are assigned in increasing position and nobody who waits stands before anybody who was
   * assigned, if and only if every join inserts the position it would still read and every assignment that commits
   * finds its entry still WAITING or, if it has left, after everything assigned so far.
   */
  lemma AssignedInOrderExactly(init: State, es: seq<Event>, f: FlightId)
    requires Init(init)
    ensures InOrderThroughout(init, es, f) <==> OrderlyThroughout(init, es, f)
  {
    OrderRun(init, es, f);
  }

  /** An assignment that commits finds its entry still WAITING: the guard that the update by id does not have. */
  ghost predicate FindsWaiting(s: State, e: Event, f: FlightId) {
    forall entry: EntryId :: Assigns(s, e, f, entry) ==> IsWaiting(s.sys.db.waitlist, f, entry)
  }

  ghost predicate GuardedThroughout(s: State, es: seq<Event>, f: FlightId)
    decreases |es|
  {
    es == [] ||
    (var n := |es| - 1;
     && GuardedThroughout(s, es[..n], f)
     && JoinIsCurrent(Exec(s, es[..n]), es[n], f) && FindsWaiting(Exec(s, es[..n]), es[n], f))
  }

  lemma {:induction false} GuardedIsOrderly(s: State, es: seq<Event>, f: FlightId)
    requires GuardedThroughout(s, es, f)
    ensures OrderlyThroughout(s, es, f)
    decreases |es|
  {
    if es != [] {
      GuardedIsOrderly(s, es[..|es| - 1], f);
    }
  }

  /** So with that guard alone seats are assigned in order, and nobody who still waits had joined before. */
  lemma GuardedAssignmentsInOrder(init: State, es: seq<Event>, db: Db, f: FlightId, k: nat)
    requires Init(init) && GuardedThroughout(init, es, f) && db == Exec(init, es).sys.db && IsAssignment(db.audit, k, f)
    ensures OnFlight(db.waitlist, db.audit[k].entry, f)
    ensures forall j: nat :: j < k && IsAssignment(db.audit, j, f) ==>
      OnFlight(db.waitlist, db.audit[j].entry, f)
      && db.waitlist[db.audit[j].entry].position < db.waitlist[db.audit[k].entry].position
    ensures forall e: EntryId :: IsWaiting(db.waitlist, f, e) ==> db.audit[k].entry < e
  {
    GuardedIsOrderly(init, es, f);
    OrderRun(init, es, f);
    forall e: EntryId | IsWaiting(db.waitlist, f, e)
      ensures db.audit[k].entry < e
    {
      WaitingAfter(db, f, k, e);
    }
  }

  lemma WaitingAfter(db: Db, f: FlightId, k: nat, e: EntryId)
    requires InJoinOrder(db.waitlist, f) && AssignedOk(db.waitlist, db.audit, f)
    requires IsAssignment(db.audit, k, f) && IsWaiting(db.waitlist, f, e)
    ensures OnFlight(db.waitlist, db.audit[k].entry, f) && db.audit[k].entry < e
  {
    assert AfterAssigned(db.waitlist, db.audit, f, e);
    if e < db.audit[k].entry {
      PositionsIncrease(db.waitlist, f, e, db.audit[k].entry);
    }
  }
}
