/** How long a seat can stay held when the calls of the system interleave freely. */
module HoldBounds {
  import opened Domain
  import opened Tables
  import opened Machine
  import opened Invariants
  import opened Preservation
  import opened Plays
  import opened Serial

  /** If the seat is held, its 120 s end after `t`. */
  predicate Outlasts(db: Db, x: SeatId, t: nat) {
    x in db.seats && db.seats[x].status.Held? ==>
      db.seats[x].heldAt.Some? && db.seats[x].heldAt.value + SEAT_HOLD_MS > t
  }

  /** The step of the call is a hold or an assignment of the seat, and it commits. */
  predicate Takes(db: Db, call: Call, x: SeatId) {
    match call
    case Holding(p, f, y, heldAt) => y == x && HoldSeat(db, p, f, y, heldAt).Some?
    case Seating(e, p, f, y, heldAt) => y == x && AssignSeat(db, e, p, f, y, heldAt).Some?
    case _ => false
  }

  /** A hold of the seat that commits had read the clock late enough for its 120 s to end after `t`. */
  predicate Fresh(s: State, e: Event, x: SeatId, t: nat) {
    e.Advance? && e.c in s.calls && Takes(s.sys.db, s.calls[e.c], x) ==> s.calls[e.c].heldAt + SEAT_HOLD_MS > t
  }

  /** A hold of the seat that commits does so within `d` of reading the clock. */
  predicate Within(s: State, e: Event, x: SeatId, d: nat) {
    e.Advance? && e.c in s.calls && Takes(s.sys.db, s.calls[e.c], x) ==> s.sys.now <= s.calls[e.c].heldAt + d
  }

  /** The seat is held in `b` as it was in `a`, if it is held in `b` at all. */
  predicate HeldAsBefore(a: Db, b: Db, x: SeatId) {
    x in b.seats && b.seats[x].status.Held? ==> x in a.seats && b.seats[x] == a.seats[x]
  }

  lemma OthersTakeNothing(sys: System, call: Call, reply: Reply, x: SeatId)
    requires !call.Holding? && !call.Seating?
    ensures HeldAsBefore(sys.db, Step(sys, call, reply).0.db, x)
  {
  }

  lemma TakersHold(sys: System, call: Call, reply: Reply, x: SeatId)
    requires call.Holding? || call.Seating?
    ensures var db := Step(sys, call, reply).0.db;
      if Takes(sys.db, call, x) then
        x in db.seats && db.seats[x].status.Held? && db.seats[x].heldAt == Some(call.heldAt)
      else HeldAsBefore(sys.db, db, x)
  {
  }

  /** A seat that is held after a step was so before it, unless the step took it. */
  lemma StepHolds(sys: System, call: Call, reply: Reply, x: SeatId)
    ensures var db := Step(sys, call, reply).0.db;
      if Takes(sys.db, call, x) then
        x in db.seats && db.seats[x].status.Held? && db.seats[x].heldAt == Some(call.heldAt)
      else HeldAsBefore(sys.db, db, x)
  {
    if call.Holding? || call.Seating? {
      TakersHold(sys, call, reply, x);
    } else {
      OthersTakeNothing(sys, call, reply, x);
    }
  }

  lemma StepClock(sys: System, call: Call, reply: Reply)
    ensures Step(sys, call, reply).0.now == sys.now
  {
  }

  lemma NextClock(s: State, e: Event)
    ensures s.sys.now <= Next(s, e).sys.now
  {
    if e.Advance? && e.c in s.calls {
      StepClock(s.sys, s.calls[e.c], e.reply);
    }
  }

  /** Without a commit of the seat the event leaves it held as before, or not at all. */
  lemma NextHolds(s: State, e: Event, x: SeatId, t: nat)
    requires Fresh(s, e, x, t)
    ensures Outlasts(Next(s, e).sys.db, x, t) || HeldAsBefore(s.sys.db, Next(s, e).sys.db, x)
  {
    if e.Advance? && e.c in s.calls {
      StepHolds(s.sys, s.calls[e.c], e.reply, x);
    } else {
      assert Next(s, e).sys.db == s.sys.db;
    }
  }

  /** An event keeps the hold of the seat outlasting `t` exactly when what it commits does. */
  lemma NextOutlasts(s: State, e: Event, x: SeatId, t: nat)
    requires Outlasts(s.sys.db, x, t)
    ensures Outlasts(Next(s, e).sys.db, x, t) <==> Fresh(s, e, x, t)
  {
    if Fresh(s, e, x, t) {
      NextHolds(s, e, x, t);
    } else {
      StepHolds(s.sys, s.calls[e.c], e.reply, x);
    }
  }

  predicate Concerns(e: Event, c: CallId) {
    !e.Tick? && e.c == c
  }

  /** The seat's hold outlasts `t`, or call `c` is about to release it. */
  predicate Watched(s: State, c: CallId, x: SeatId, t: nat) {
    Outlasts(s.sys.db, x, t) ||
    (&& c in s.calls && x in s.sys.db.seats
     && s.calls[c] == Releasing(x, s.sys.db.seats[x].heldBy, s.sys.db.seats[x].flight))
  }

  lemma NextWatched(s: State, e: Event, c: CallId, x: SeatId, t: nat)
    requires Fresh(s, e, x, t) && Watched(s, c, x, t) && !Concerns(e, c)
    ensures Watched(Next(s, e), c, x, t)
  {
    NextHolds(s, e, x, t);
  }

  /** The step of the call decides it: either the release commits, or the seat has changed hands since. */
  lemma ReleaseDecides(s: State, c: CallId, reply: Reply, x: SeatId, t: nat)
    requires Watched(s, c, x, t) && Fresh(s, Advance(c, reply), x, t)
    ensures Outlasts(Next(s, Advance(c, reply)).sys.db, x, t)
  {
    NextHolds(s, Advance(c, reply), x, t);
  }

  // ---- Runs, as the states they pass through ----

  predicate Follows(states: seq<State>, es: seq<Event>, i: nat) {
    i < |es| && i + 1 < |states| && states[i + 1] == Next(states[i], es[i])
  }

  ghost predicate IsRun(states: seq<State>, es: seq<Event>) {
    |states| == |es| + 1 && Init(states[0]) && forall i: nat :: i < |es| ==> Follows(states, es, i)
  }

  lemma {:induction false} RunInv(states: seq<State>, es: seq<Event>, i: nat)
    requires IsRun(states, es) && i <= |es|
    ensures Inv(states[i])
    decreases i
  {
    if i == 0 {
      InitInv(states[0]);
    } else {
      RunInv(states, es, i - 1);
      assert Follows(states, es, i - 1);
      NextKeeps(states[i - 1], es[i - 1]);
    }
  }

  /** Every schedule has its run. */
  lemma {:induction false} RunOf(init: State, es: seq<Event>) returns (states: seq<State>)
    requires Init(init)
    ensures IsRun(states, es) && states[0] == init && states[|es|] == Exec(init, es)
    decreases |es|
  {
    if es == [] {
      states := [init];
    } else {
      var n := |es| - 1;
      var before := RunOf(init, es[..n]);
      states := before + [Next(before[n], es[n])];
      forall i: nat | i < |es|
        ensures Follows(states, es, i)
      {
        assert i < n ==> Follows(before, es[..n], i);
      }
    }
  }

  lemma {:induction false} ClockRises(states: seq<State>, es: seq<Event>, k: nat, i: nat)
    requires IsRun(states, es) && k <= i <= |es|
    ensures states[k].sys.now <= states[i].sys.now
    decreases i
  {
    if k < i {
      ClockRises(states, es, k, i - 1);
      assert Follows(states, es, i - 1);
      NextClock(states[i - 1], es[i - 1]);
    }
  }

  predicate FreshAt(states: seq<State>, es: seq<Event>, x: SeatId, m: nat, t: nat) {
    m < |es| && m < |states| && Fresh(states[m], es[m], x, t)
  }

  /** Every hold of the seat that commits from event `k` on, before event `i`, had read the clock late enough. */
  ghost predicate FreshBetween(states: seq<State>, es: seq<Event>, x: SeatId, k: nat, i: nat, t: nat) {
    forall m: nat :: k <= m < i ==> FreshAt(states, es, x, m, t)
  }

  ghost predicate FreshSince(states: seq<State>, es: seq<Event>, x: SeatId, k: nat, t: nat) {
    FreshBetween(states, es, x, k, |es|, t)
  }

  ghost predicate WithinThroughout(states: seq<State>, es: seq<Event>, x: SeatId, d: nat)
    requires IsRun(states, es)
  {
    forall i :: 0 <= i < |es| ==> Within(states[i], es[i], x, d)
  }

  /** Holds that all commit within less than 120 s are fresh at any earlier moment. */
  lemma PromptIsFresh(states: seq<State>, es: seq<Event>, x: SeatId, d: nat, k: nat)
    requires IsRun(states, es) && WithinThroughout(states, es, x, d) && d < SEAT_HOLD_MS && k <= |es|
    ensures FreshSince(states, es, x, k, states[k].sys.now)
  {
    forall i: nat | k <= i < |es|
      ensures FreshAt(states, es, x, i, states[k].sys.now)
    {
      ClockRises(states, es, k, i);
      assert Within(states[i], es[i], x, d);
    }
  }

  /** The release of the seat opened by event `k` takes its transaction at event `m`, committing or not. */
  ghost predicate Releases(states: seq<State>, es: seq<Event>, x: SeatId, k: nat, m: nat)
    requires IsRun(states, es)
  {
    && k < m < |es|
    && es[k].Open? && es[k].request == ReleaseRequest(x) && es[k].c !in states[k].calls
    && es[m].Advance? && es[m].c == es[k].c
    && forall i :: k < i < m ==> !Concerns(es[i], es[k].c)
  }

  /** A sweep that queried the table just before event `k` has passed the seat over, or has dealt with it since. */
  ghost predicate Swept(states: seq<State>, es: seq<Event>, x: SeatId, k: nat)
    requires IsRun(states, es)
  {
    k <= |es| && (!Overdue(states[k].sys, x) || exists m: nat :: Releases(states, es, x, k, m))
  }

  lemma OpenWatches(s: State, c: CallId, x: SeatId)
    requires Inv(s) && c !in s.calls
    ensures Watched(Next(s, Open(c, ReleaseRequest(x))), c, x, s.sys.now)
  {
    if x in s.sys.db.seats {
      assert SeatOk(s.sys.db.seats[x], x, s.sys.db.checkIns);
    }
  }

  lemma PassedOver(s: State, x: SeatId)
    requires Inv(s) && !Overdue(s.sys, x)
    ensures Outlasts(s.sys.db, x, s.sys.now)
  {
    if x in s.sys.db.seats {
      assert SeatOk(s.sys.db.seats[x], x, s.sys.db.checkIns);
    }
  }

  lemma {:induction false} StaysWatched(states: seq<State>, es: seq<Event>, x: SeatId, k: nat, m: nat, i: nat)
    requires IsRun(states, es) && Releases(states, es, x, k, m) && k < i <= m
    requires FreshSince(states, es, x, k, states[k].sys.now)
    ensures Watched(states[i], es[k].c, x, states[k].sys.now)
    decreases i
  {
    assert Follows(states, es, i - 1);
    if i == k + 1 {
      RunInv(states, es, k);
      OpenWatches(states[k], es[k].c, x);
    } else {
      StaysWatched(states, es, x, k, m, i - 1);
      assert FreshAt(states, es, x, i - 1, states[k].sys.now);
      NextWatched(states[i - 1], es[i - 1], es[k].c, x, states[k].sys.now);
    }
  }

  ghost predicate OutlastsSince(states: seq<State>, es: seq<Event>, x: SeatId, k: nat, i: nat, t: nat)
    requires IsRun(states, es) && k <= i <= |es|
    decreases i
  {
    Outlasts(states[i].sys.db, x, t) && (k < i ==> OutlastsSince(states, es, x, k, i - 1, t))
  }

  /** From a hold that outlasts `t` on, the seat's holds all do exactly when every one that commits is fresh. */
  lemma {:induction false} OutlastsExactly(states: seq<State>, es: seq<Event>, x: SeatId, k: nat, i: nat, t: nat)
    requires IsRun(states, es) && k <= i <= |es| && Outlasts(states[k].sys.db, x, t)
    ensures OutlastsSince(states, es, x, k, i, t) <==> FreshBetween(states, es, x, k, i, t)
    decreases i
  {
    if k < i {
      OutlastsExactly(states, es, x, k, i - 1, t);
      if OutlastsSince(states, es, x, k, i - 1, t) {
        OutlastsNext(states, es, x, i - 1, t);
      }
      assert FreshBetween(states, es, x, k, i, t) <==>
        FreshBetween(states, es, x, k, i - 1, t) && FreshAt(states, es, x, i - 1, t);
    }
  }

  lemma OutlastsNext(states: seq<State>, es: seq<Event>, x: SeatId, m: nat, t: nat)
    requires IsRun(states, es) && m < |es| && Outlasts(states[m].sys.db, x, t)
    ensures Outlasts(states[m + 1].sys.db, x, t) <==> FreshAt(states, es, x, m, t)
  {
    assert Follows(states, es, m);
    NextOutlasts(states[m], es[m], x, t);
  }

  /** After a sweep the seat's hold, if it has one, ends later than the sweep's query. */
  lemma SweptOutlasts(states: seq<State>, es: seq<Event>, x: SeatId, k: nat)
    requires IsRun(states, es) && Swept(states, es, x, k) && FreshSince(states, es, x, k, states[k].sys.now)
    ensures Outlasts(states[|es|].sys.db, x, states[k].sys.now)
  {
    var t := states[k].sys.now;
    if !Overdue(states[k].sys, x) {
      RunInv(states, es, k);
      PassedOver(states[k], x);
      OutlastsExactly(states, es, x, k, |es|, t);
    } else {
      var m: nat :| Releases(states, es, x, k, m);
      StaysWatched(states, es, x, k, m, m);
      assert Follows(states, es, m) && FreshAt(states, es, x, m, t);
      ReleaseDecides(states[m], es[m].c, es[m].reply, x, t);
      OutlastsExactly(states, es, x, m + 1, |es|, t);
    }
  }

  /** The seat is not held, or has been for less than 150 s. */
  predicate InTime(sys: System, x: SeatId) {
    x in sys.db.seats && sys.db.seats[x].status.Held? ==>
      sys.db.seats[x].heldAt.Some? && sys.db.seats[x].heldAt.value + SEAT_HOLD_MS + SWEEP_PERIOD_MS > sys.now
  }

  /**
   * In every interleaving: if a sweep whose query ran no more than 30 s ago has passed the seat over or dealt with
   * it, and holds of the seat that committed since had read the clock less than 120 s before that query, a held seat
   * has been held for less than 150 s.  Everything else may happen in between, the sweep's own steps included.
   */
  lemma HoldsEndInTime(states: seq<State>, es: seq<Event>, x: SeatId, k: nat)
    requires IsRun(states, es) && Swept(states, es, x, k) && FreshSince(states, es, x, k, states[k].sys.now)
    requires states[|es|].sys.now <= states[k].sys.now + SWEEP_PERIOD_MS
    ensures InTime(states[|es|].sys, x)
  {
    SweptOutlasts(states, es, x, k);
  }

  // ---- How late a hold may commit ----

  /** Holds of the seat take at most `d` to commit, and a sweep that queried at most 30 s ago has looked at the seat. */
  ghost predicate Covered(states: seq<State>, es: seq<Event>, x: SeatId, k: nat, d: nat) {
    && IsRun(states, es) && WithinThroughout(states, es, x, d) && Swept(states, es, x, k)
    && states[|es|].sys.now <= states[k].sys.now + SWEEP_PERIOD_MS
  }

  /** With commits `d` late or less, held seats are in time in every interleaving if and only if `d` is under 120 s. */
  lemma BoundHoldsExactly(d: nat)
    ensures d < SEAT_HOLD_MS <==> forall states: seq<State>, es: seq<Event>, x: SeatId, k: nat ::
      Covered(states, es, x, k, d) ==> InTime(states[|es|].sys, x)
  {
    if d < SEAT_HOLD_MS {
      forall states: seq<State>, es: seq<Event>, x: SeatId, k: nat | Covered(states, es, x, k, d)
        ensures InTime(states[|es|].sys, x)
      {
        PromptIsFresh(states, es, x, d, k);
        HoldsEndInTime(states, es, x, k);
      }
    } else {
      var states, es := LateHoldBreaksBound(d);
    }
  }

  /** A passenger asks for the seat, and the hold commits `d` after reading the clock; then a sweep period passes. */
  function LateRun(d: nat): seq<Event> {
    [Open(0, StartRequest(1, 7, 1)), Advance(0, Ack), Advance(0, Ack), Tick(d), Advance(0, Ack), Tick(SWEEP_PERIOD_MS)]
  }

  /** The first three events leave the call about to hold the seat. */
  lemma LateRunStarts() returns (a: State, b: State)
    ensures a == Next(SEEDED, Open(0, StartRequest(1, 7, 1)))
    ensures a.sys == SEEDED.sys && a.calls == map[0 := Starting(1, 7, 1)]
    ensures b == Next(a, Advance(0, Ack)) && b.sys == SEEDED.sys && b.calls == map[0 := Found(1, 7, 1)]
    ensures Next(b, Advance(0, Ack)) == SEEDED.(calls := map[0 := Holding(1, 7, 1, 0)])
  {
    a := Next(SEEDED, Open(0, StartRequest(1, 7, 1)));
    b := Next(a, Advance(0, Ack));
  }

  /** Its commit, however late. */
  lemma LateRunCommits(s: State, d: nat) returns (taken: State)
    requires s == State(SEEDED.sys.(now := d), map[0 := Holding(1, 7, 1, 0)])
    ensures taken == Next(s, Advance(0, Ack)) && taken.sys.now == d
    ensures 1 in taken.sys.db.seats && taken.sys.db.seats[1].status.Held? && taken.sys.db.seats[1].heldAt == Some(0)
  {
    taken := Next(s, Advance(0, Ack));
  }

  /** Every delay of 120 s or more breaks the bound, although a sweep passes the seat over just before the commit. */
  lemma LateHoldBreaksBound(d: nat) returns (states: seq<State>, es: seq<Event>)
    requires d >= SEAT_HOLD_MS
    ensures states != [] && states[0] == SEEDED && es == LateRun(d)
    ensures Covered(states, es, 1, 4, d) && !InTime(states[|es|].sys, 1)
  {
    es := LateRun(d);
    Initially(DEFAULTS);
    var a, b := LateRunStarts();
    var holding := SEEDED.(calls := map[0 := Holding(1, 7, 1, 0)]);
    var late := State(SEEDED.sys.(now := d), holding.calls);
    var taken := LateRunCommits(late, d);
    states := [SEEDED, a, b, holding, late, taken, Next(taken, es[5])];
    forall i: nat | i < |es|
      ensures Follows(states, es, i) && Within(states[i], es[i], 1, d)
    {
      assert i == 0 || i == 1 || i == 2 || i == 3 || i == 4 || i == 5;
    }
    assert Init(SEEDED);
  }
}
