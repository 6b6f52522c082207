/** How stale a served seat map can be (src/seat/seat.service.ts). */
module Freshness {
  import opened Domain
  import opened Machine

  /** The seat map that an event hands to a client: a cache hit, or a map just built from the table. */
  function Served(s: State, e: Event, f: FlightId): Option<SeatMap> {
    if e.Open? && e.c !in s.calls && e.request.MapRequest? && e.request.flight == f && MapCached(s.sys, f) then
      Some(s.sys.seatMaps[f].seats)
    else if e.Advance? && e.c in s.calls && IsReader(s.calls[e.c], f) then
      Some(s.calls[e.c].seats)
    else
      None
  }

  /** The call has read the flight's seats and not yet written the cache. */
  predicate IsReader(call: Call, f: FlightId) {
    call.Mapping? && call.flight == f
  }

  /** After the first `k` events the table showed `m`, at time `t`. */
  ghost predicate Shows(s: State, es: seq<Event>, k: nat, f: FlightId, m: SeatMap, t: nat) {
    k <= |es| &&
    var seen := Exec(s, es[..k]).sys;
    Projection(seen.db.seats, f) == m && seen.now == t
  }

  /** No map of the flight is cached, and none is on its way to the cache. */
  ghost predicate Clear(s: State, f: FlightId) {
    f !in s.sys.seatMaps && forall c :: c in s.calls ==> !IsReader(s.calls[c], f)
  }

  /** A reader of the flight takes at most `d` between reading the table and writing the cache. */
  ghost predicate PromptThroughout(s: State, es: seq<Event>, f: FlightId, d: nat)
    decreases |es|
  {
    es == [] ||
    (var n := |es| - 1; PromptThroughout(s, es[..n], f, d) && Prompt(Exec(s, es[..n]), es[n], f, d))
  }

  predicate Prompt(s: State, e: Event, f: FlightId, d: nat) {
    e.Advance? && e.c in s.calls && IsReader(s.calls[e.c], f) ==> s.sys.now <= s.calls[e.c].readAt + d
  }

  ghost predicate CacheOk(s: State, es: seq<Event>, f: FlightId, d: nat, cached: CachedMap) {
    exists k: nat, t: nat :: Shows(s, es, k, f, cached.seats, t) && cached.expiresAt <= t + d + SEAT_MAP_CACHE_MS
  }

  ghost predicate ReaderOk(s: State, es: seq<Event>, f: FlightId, call: Call) {
    IsReader(call, f) ==> exists k: nat :: Shows(s, es, k, f, call.seats, call.readAt)
  }

  ghost predicate FreshOk(s: State, es: seq<Event>, f: FlightId, d: nat) {
    var now := Exec(s, es);
    && (f in now.sys.seatMaps ==> CacheOk(s, es, f, d, now.sys.seatMaps[f]))
    && forall c :: c in now.calls ==> ReaderOk(s, es, f, now.calls[c])
  }

  lemma ShowsCarry(s: State, es: seq<Event>, e: Event, k: nat, f: FlightId, m: SeatMap, t: nat)
    requires Shows(s, es, k, f, m, t)
    ensures Shows(s, es + [e], k, f, m, t)
  {
    assert (es + [e])[..k] == es[..k];
  }

  lemma ReaderCarry(s: State, es: seq<Event>, e: Event, f: FlightId, call: Call)
    requires ReaderOk(s, es, f, call)
    ensures ReaderOk(s, es + [e], f, call)
  {
    if IsReader(call, f) {
      var k: nat :| Shows(s, es, k, f, call.seats, call.readAt);
      ShowsCarry(s, es, e, k, f, call.seats, call.readAt);
    }
  }

  lemma CacheCarry(s: State, es: seq<Event>, e: Event, f: FlightId, d: nat, cached: CachedMap)
    requires CacheOk(s, es, f, d, cached)
    ensures CacheOk(s, es + [e], f, d, cached)
  {
    var k: nat, t: nat :| Shows(s, es, k, f, cached.seats, t) && cached.expiresAt <= t + d + SEAT_MAP_CACHE_MS;
    ShowsCarry(s, es, e, k, f, cached.seats, t);
  }

  /** Only a reader writes the cache entry of its flight. */
  lemma StepMaps(sys: System, call: Call, reply: Reply, f: FlightId)
    ensures var sys' := Step(sys, call, reply).0;
      f in sys'.seatMaps ==>
        if IsReader(call, f) then sys'.seatMaps[f] == CachedMap(call.seats, sys.now + SEAT_MAP_CACHE_MS)
        else f in sys.seatMaps && sys'.seatMaps[f] == sys.seatMaps[f]
    ensures var call' := Step(sys, call, reply).1; call'.Some? ==> !IsReader(call'.value, f)
  {
  }

  lemma NextCache(s: State, es: seq<Event>, e: Event, f: FlightId, d: nat)
    requires FreshOk(s, es, f, d) && Prompt(Exec(s, es), e, f, d)
    requires f in Next(Exec(s, es), e).sys.seatMaps
    ensures CacheOk(s, es + [e], f, d, Next(Exec(s, es), e).sys.seatMaps[f])
  {
    var before, after := Exec(s, es), Next(Exec(s, es), e);
    if e.Advance? && e.c in before.calls {
      StepMaps(before.sys, before.calls[e.c], e.reply, f);
    }
    if e.Advance? && e.c in before.calls && IsReader(before.calls[e.c], f) {
      var call := before.calls[e.c];
      assert ReaderOk(s, es, f, call);
      var k: nat :| Shows(s, es, k, f, call.seats, call.readAt);
      ShowsCarry(s, es, e, k, f, call.seats, call.readAt);
    } else {
      CacheCarry(s, es, e, f, d, before.sys.seatMaps[f]);
    }
  }

  lemma NextReader(s: State, es: seq<Event>, e: Event, f: FlightId, d: nat, c: CallId)
    requires FreshOk(s, es, f, d) && c in Next(Exec(s, es), e).calls
    ensures ReaderOk(s, es + [e], f, Next(Exec(s, es), e).calls[c])
  {
    var before, after := Exec(s, es), Next(Exec(s, es), e);
    if e.Advance? && e.c in before.calls {
      StepMaps(before.sys, before.calls[e.c], e.reply, f);
    }
    if c in before.calls && after.calls[c] == before.calls[c] {
      ReaderCarry(s, es, e, f, before.calls[c]);
    } else if IsReader(after.calls[c], f) {
      assert (es + [e])[..|es|] == es;
      assert Shows(s, es + [e], |es|, f, after.calls[c].seats, after.calls[c].readAt);
    }
  }

  lemma {:induction false} FreshRun(s: State, es: seq<Event>, f: FlightId, d: nat)
    requires Clear(s, f) && PromptThroughout(s, es, f, d)
    ensures FreshOk(s, es, f, d)
    decreases |es|
  {
    if es != [] {
      var before, e := es[..|es| - 1], es[|es| - 1];
      FreshRun(s, before, f, d);
      assert before + [e] == es;
      if f in Exec(s, es).sys.seatMaps {
        NextCache(s, before, e, f, d);
      }
      forall c | c in Exec(s, es).calls
        ensures ReaderOk(s, es, f, Exec(s, es).calls[c])
      {
        NextReader(s, before, e, f, d, c);
      }
    }
  }

  /**
   * From any moment at which no map of the flight is cached or on its way there (a fresh start, or an
   * invalidation that catches no reader between its read and its write), every map served later, at time t, is
   * what the table held at some moment since then and later than t - 2 s - d: exactly the flight's seats, each with
   * its row, column and status.
   */
  lemma ServedMapsAreRecent(s: State, es: seq<Event>, e: Event, f: FlightId, d: nat) returns (k: nat, t: nat)
    requires Clear(s, f) && PromptThroughout(s, es, f, d) && Prompt(Exec(s, es), e, f, d)
    requires Served(Exec(s, es), e, f).Some?
    ensures k <= |es| && Exec(s, es[..k]).sys.now == t
    ensures var m, seats := Served(Exec(s, es), e, f).value, Exec(s, es[..k]).sys.db.seats;
      && (forall x :: x in m <==> x in seats && seats[x].flight == f)
      && (forall x :: x in m ==>
            m[x].row == seats[x].row && m[x].column == seats[x].column && m[x].status == seats[x].status)
    ensures Exec(s, es).sys.now < t + d + 2_000
  {
    FreshRun(s, es, f, d);
    var now := Exec(s, es);
    if e.Advance? {
      var call := now.calls[e.c];
      assert ReaderOk(s, es, f, call);
      k :| Shows(s, es, k, f, call.seats, call.readAt);
      t := call.readAt;
    } else {
      k, t :| Shows(s, es, k, f, now.sys.seatMaps[f].seats, t)
              && now.sys.seatMaps[f].expiresAt <= t + d + SEAT_MAP_CACHE_MS;
    }
  }
}
