/** The sliding-window limiter: a pruned sorted set with a whole-key expiry, against the full request history. */
module RateLimiter {
  import opened Sets

  /** A sorted set of timestamps; the member is its own score, so equal timestamps are one member. */
  datatype Window = Window(members: set<nat>, expiresAt: nat)

  /** The members left by ZREMRANGEBYSCORE 0 (now - windowMs) and ZADD now. */
  function Slide(members: set<nat>, now: nat, windowMs: nat): set<nat> {
    (set t | t in members && !(t <= now - windowMs)) + {now}
  }

  predicate Sorted(times: seq<nat>) {
    forall i, j :: 0 <= i < j < |times| ==> times[i] <= times[j]
  }

  /** What Redis finds of one client's earlier requests at `now`: nothing if the key has expired since the last. */
  function Found(times: seq<nat>, now: nat, windowMs: nat): set<nat>
    decreases |times|
  {
    if times == [] || now >= times[|times| - 1] + windowMs then {}
    else Members(times, windowMs)
  }

  /** The sorted set just after the last request of the history. */
  function Members(times: seq<nat>, windowMs: nat): set<nat>
    requires times != []
    decreases |times|, 0
  {
    var n := |times| - 1;
    Slide(Found(times[..n], times[n], windowMs), times[n], windowMs)
  }

  /**
   * The distinct milliseconds of the unpruned history up to request `i` that lie in (times[i] - windowMs, times[i]].
   */
  function Recent(times: seq<nat>, windowMs: nat, i: nat): set<nat>
    requires i < |times|
  {
    set k | 0 <= k <= i && times[i] - windowMs < times[k] <= times[i] :: times[k]
  }

  /** The answer of addRateLimitEntry to request `i`. */
  function Count(times: seq<nat>, windowMs: nat, i: nat): nat
    requires i < |times|
  {
    |Members(times[..i + 1], windowMs)|
  }

  lemma {:induction false} MembersAreRecent(times: seq<nat>, windowMs: nat, i: nat)
    requires Sorted(times) && i < |times| && windowMs > 0
    ensures Members(times[..i + 1], windowMs) == Recent(times, windowMs, i)
    decreases i
  {
    assert times[..i + 1][..i] == times[..i];
    if i == 0 {
      assert Found([], times[0], windowMs) == {};
    } else {
      MembersAreRecent(times, windowMs, i - 1);
      SlideRecent(times, windowMs, i);
    }
  }

  /** One more request on top of the pruned set sees what it would see on top of the full history. */
  lemma SlideRecent(times: seq<nat>, windowMs: nat, i: nat)
    requires Sorted(times) && 0 < i < |times| && windowMs > 0
    ensures Slide(Recent(times, windowMs, i - 1), times[i], windowMs) == Recent(times, windowMs, i)
    ensures times[i] >= times[i - 1] + windowMs ==> Recent(times, windowMs, i) == {times[i]}
  {
  }

  /**
   * Neither pruning nor key expiry is observable: the answer is the number of distinct milliseconds in
   * (now - windowMs, now] over the unpruned history, exactly when the configured window is not empty.
   */
  lemma CountIsRecent(times: seq<nat>, windowMs: nat, i: nat)
    requires Sorted(times) && i < |times|
    ensures Count(times, windowMs, i) == |Recent(times, windowMs, i)| <==> windowMs > 0
  {
    if windowMs > 0 {
      MembersAreRecent(times, windowMs, i);
    } else {
      assert times[i] in Members(times[..i + 1], 0);
      assert Recent(times, 0, i) == {};
    }
  }

  /** Request `i` is let through: the count, itself included, is still below the maximum. */
  predicate Admitted(times: seq<nat>, windowMs: nat, maxRequests: nat, i: nat)
    requires i < |times|
  {
    Count(times, windowMs, i) < maxRequests
  }

  /** With the full history and no pruning: the distinct milliseconds of the window ending at the request. */
  lemma AdmittedExactly(times: seq<nat>, windowMs: nat, maxRequests: nat, i: nat)
    requires Sorted(times) && windowMs > 0 && i < |times|
    ensures Admitted(times, windowMs, maxRequests, i) <==>
      |set k | 0 <= k <= i && times[i] - windowMs < times[k] <= times[i] :: times[k]| < maxRequests
  {
    CountIsRecent(times, windowMs, i);
    assert Recent(times, windowMs, i) == set k | 0 <= k <= i && times[i] - windowMs < times[k] <= times[i] :: times[k];
  }

  /** The verdict on the request just made. */
  predicate LastAdmitted(times: seq<nat>, windowMs: nat, maxRequests: nat) {
    times != [] && Admitted(times, windowMs, maxRequests, |times| - 1)
  }

  predicate Passes(times: seq<nat>, windowMs: nat, maxRequests: nat, from: int, i: nat) {
    i < |times| && from < times[i] <= from + windowMs && Admitted(times, windowMs, maxRequests, i)
  }

  /** The milliseconds in (from, from + windowMs] at which a request was let through. */
  function PassedIn(times: seq<nat>, windowMs: nat, maxRequests: nat, from: int): set<nat> {
    set i | 0 <= i < |times| && Passes(times, windowMs, maxRequests, from, i) :: times[i]
  }

  lemma {:induction false} LastPassed(times: seq<nat>, windowMs: nat, maxRequests: nat, from: int,
                                          bound: nat, some: nat)
    returns (last: nat)
    requires some < bound && Passes(times, windowMs, maxRequests, from, some)
    ensures last < bound && Passes(times, windowMs, maxRequests, from, last)
    ensures forall i: nat :: last < i < bound ==> !Passes(times, windowMs, maxRequests, from, i)
    decreases bound
  {
    last := bound - 1;
    if !Passes(times, windowMs, maxRequests, from, last) {
      last := LastPassed(times, windowMs, maxRequests, from, bound - 1, some);
    }
  }

  /**
   * In every interval of the window's length, not only those ending at a request, requests are let through at
   * fewer than maxRequests distinct milliseconds.
   */
  lemma EveryWindowIsLimited(times: seq<nat>, windowMs: nat, maxRequests: nat, from: int)
    requires Sorted(times) && windowMs > 0
    ensures var passed := PassedIn(times, windowMs, maxRequests, from);
      passed == {} || |passed| < maxRequests
  {
    var passed := PassedIn(times, windowMs, maxRequests, from);
    if passed != {} {
      var t :| t in passed;
      var some: nat :| some < |times| && Passes(times, windowMs, maxRequests, from, some) && times[some] == t;
      var last := LastPassed(times, windowMs, maxRequests, from, |times|, some);
      PassedAreRecent(times, windowMs, maxRequests, from, last);
      SubsetSize(passed, Recent(times, windowMs, last));
      CountIsRecent(times, windowMs, last);
    }
  }

  lemma PassedAreRecent(times: seq<nat>, windowMs: nat, maxRequests: nat, from: int, last: nat)
    requires Sorted(times) && Passes(times, windowMs, maxRequests, from, last)
    requires forall i: nat :: last < i < |times| ==> !Passes(times, windowMs, maxRequests, from, i)
    ensures PassedIn(times, windowMs, maxRequests, from) <= Recent(times, windowMs, last)
  {
  }

  /** Requests in the same millisecond are all let through or all refused. */
  lemma SameMillisecondSameVerdict(times: seq<nat>, windowMs: nat, maxRequests: nat, i: nat, j: nat)
    requires Sorted(times) && windowMs > 0 && i < j < |times| && times[i] == times[j]
    ensures Admitted(times, windowMs, maxRequests, i) <==> Admitted(times, windowMs, maxRequests, j)
  {
    CountIsRecent(times, windowMs, i);
    CountIsRecent(times, windowMs, j);
    forall t | t in Recent(times, windowMs, j)
      ensures t in Recent(times, windowMs, i)
    {
      var k :| 0 <= k <= j && times[j] - windowMs < times[k] <= times[j] && times[k] == t;
      assert times[if k <= i then k else i] == t;
    }
    assert Recent(times, windowMs, i) == Recent(times, windowMs, j);
  }

  /** `count` is the number of distinct milliseconds that the whole history has in the window of its last request. */
  predicate CountsRecent(times: seq<nat>, windowMs: nat, count: nat) {
    times != [] && count == |Recent(times, windowMs, |times| - 1)|
  }

  /** One more request: what the pipeline stores and answers, in terms of the history. */
  lemma Appended(times: seq<nat>, now: nat, windowMs: nat)
    ensures Members(times + [now], windowMs) == Slide(Found(times, now, windowMs), now, windowMs)
    ensures Count(times + [now], windowMs, |times|) == |Members(times + [now], windowMs)|
    ensures Sorted(times + [now]) && windowMs > 0 ==>
      CountsRecent(times + [now], windowMs, Count(times + [now], windowMs, |times|))
  {
    var all := times + [now];
    assert all[..|times|] == times && all[..|times| + 1] == all;
    if Sorted(all) {
      CountIsRecent(all, windowMs, |times|);
    }
  }

  /** The stored window is what the pipeline leaves behind after the requests of the history. */
  predicate Tracks(times: seq<nat>, window: Window, windowMs: nat) {
    times != [] && window == Window(Members(times, windowMs), times[|times| - 1] + windowMs)
  }

  lemma RecentOfAll(times: seq<nat>, now: nat, windowMs: nat, count: nat)
    requires CountsRecent(times + [now], windowMs, count)
    ensures forall recent: set<nat> ::
      (forall t :: t in recent <==> t in times + [now] && now - windowMs < t <= now) ==> |recent| == count
  {
    forall recent: set<nat> | forall t :: t in recent <==> t in times + [now] && now - windowMs < t <= now
      ensures |recent| == count
    {
      RecentIs(times, now, windowMs, recent);
    }
  }

  lemma RecentIs(times: seq<nat>, now: nat, windowMs: nat, recent: set<nat>)
    requires forall t :: t in recent <==> t in times + [now] && now - windowMs < t <= now
    ensures recent == Recent(times + [now], windowMs, |times|)
  {
    var all := times + [now];
    forall t | t in recent
      ensures t in Recent(all, windowMs, |times|)
    {
      var k :| 0 <= k < |all| && all[k] == t;
    }
    assert recent == Recent(all, windowMs, |times|);
  }

  // ---- The services ----

  /** The sorted sets of the limiter, with every client's full history on the side. */
  class RateLimitStore {
    const windowMs: nat
    var windows: map<string, Window>
    ghost var history: map<string, seq<nat>>

    ghost function History(key: string): seq<nat>
      reads this
    {
      if key in history then history[key] else []
    }

    /** Every stored key is what Redis keeps of that client's history. */
    ghost predicate Valid()
      reads this
    {
      && windows.Keys == history.Keys
      && forall key :: key in history ==> Tracks(history[key], windows[key], windowMs)
    }

    constructor (windowMs: nat)
      ensures Valid() && this.windowMs == windowMs && history == map[]
    {
      this.windowMs := windowMs;
      windows := map[];
      history := map[];
    }

    /** The members the pipeline starts from: none once the key has expired. */
    method Existing(key: string, nowMs: nat) returns (members: set<nat>)
      requires Valid()
      ensures members == Found(History(key), nowMs, windowMs)
    {
      members := if key in windows && nowMs < windows[key].expiresAt then windows[key].members else {};
    }

    /** The pipeline of addRateLimitEntry.  On a clock that never goes back, it counts the whole history's window. */
    method AddRateLimitEntry(key: string, nowMs: nat) returns (count: nat)
      requires Valid()
      modifies this
      ensures Valid()
      ensures history == old(history)[key := old(History(key)) + [nowMs]]
      ensures Sorted(History(key)) && windowMs > 0 ==> CountsRecent(History(key), windowMs, count)
      ensures count == Count(History(key), windowMs, |History(key)| - 1)
    {
      ghost var before := History(key);
      ghost var times := before + [nowMs];
      Appended(before, nowMs, windowMs);
      var members := Existing(key, nowMs);
      members := Slide(members, nowMs, windowMs);
      count := |members|;
      var window := Window(members, nowMs + windowMs);
      assert Tracks(times, window, windowMs);
      windows := windows[key := window];
      history := history[key := times];
      assert History(key) == times;
    }
  }

  class RateLimiterMiddleware {
    const store: RateLimitStore
    const maxRequests: nat

    constructor (store: RateLimitStore, maxRequests: nat)
      ensures this.store == store && this.maxRequests == maxRequests
    {
      this.store := store;
      this.maxRequests := maxRequests;
    }

    /** Counts every request, and passes it on only below the maximum. */
    method Use(ip: string, nowMs: nat) returns (next: bool)
      requires store.Valid()
      modifies store
      ensures store.Valid()
      ensures store.history == old(store.history)[ip := old(store.History(ip)) + [nowMs]]
      ensures next <==> LastAdmitted(store.History(ip), store.windowMs, maxRequests)
      // On a clock that never goes back: fewer than maxRequests distinct milliseconds in the window, this one included.
      ensures var times := old(store.History(ip)) + [nowMs];
        store.windowMs > 0 && (forall i, j :: 0 <= i < j < |times| ==> times[i] <= times[j]) ==>
          forall recent: set<nat> ::
            (forall t :: t in recent <==> t in times && nowMs - store.windowMs < t <= nowMs) ==>
              (next <==> |recent| < maxRequests)
    {
      ghost var times := store.History(ip);
      var count := store.AddRateLimitEntry(ip, nowMs);
      if store.windowMs > 0 && Sorted(times + [nowMs]) {
        RecentOfAll(times, nowMs, store.windowMs, count);
      }
      if count >= maxRequests {
        return false;
      }
      return true;
    }
  }
}
