/**
 * The sliding-window admission shared by both `RateLimitedVKAPI` variants.
 *
 * The window is the deque of admission times (integer milliseconds). Under
 * the lock, entries at least 1000 ms old are evicted from the front; a call
 * is admitted (its time appended) while the window holds fewer than
 * `requests_per_second` entries, otherwise the caller sleeps
 * `1000 - age(oldest) + 500` ms and checks again. The clock is an input: one
 * reading per pass of the admission loop.
 */
module RateLimiting {
  import opened Wrappers
  import opened JsonValues
  import Text

  /** The window length and the safety margin added to every wait, in milliseconds. */
  const WindowMs: int := 1000
  const MarginMs: int := 500

  /** Admission times, oldest first, nondecreasing when the clock is. */
  predicate Sorted(w: seq<int>) {
    forall i, j :: 0 <= i < j < |w| ==> w[i] <= w[j]
  }

  /** How many entries at the front of `w` are at least 1000 ms older than `now`. */
  function StaleCount(w: seq<int>, now: int): (n: nat)
    ensures n <= |w|
    ensures n < |w| ==> now - w[n] < WindowMs
    decreases |w|
  {
    if |w| > 0 && now - w[0] >= WindowMs then 1 + StaleCount(w[1..], now) else 0
  }

  /** The window after dropping, from the front, every entry at least 1000 ms older than `now`. */
  function Evict(w: seq<int>, now: int): (r: seq<int>)
    ensures r == [] || now - r[0] < WindowMs
  {
    w[StaleCount(w, now)..]
  }

  /** Eviction removes only entries at least a second old. */
  lemma {:induction false} EvictDropsOnlyOld(w: seq<int>, now: int)
    ensures forall i :: 0 <= i < StaleCount(w, now) ==> now - w[i] >= WindowMs
    decreases |w|
  {
    if |w| > 0 && now - w[0] >= WindowMs {
      EvictDropsOnlyOld(w[1..], now);
      assert forall i :: 1 <= i < |w| ==> w[i] == w[1..][i - 1];
    }
  }

  /** Popping a stale entry off the front does not change the evicted window. */
  lemma EvictStep(w: seq<int>, now: int)
    requires |w| > 0 && now - w[0] >= WindowMs
    ensures Evict(w, now) == Evict(w[1..], now)
  {
    assert w[1..][StaleCount(w[1..], now)..] == w[1 + StaleCount(w[1..], now)..];
  }

  /** The wait computed for a full window: one second minus the oldest entry's age, plus the margin. */
  function WaitMs(e: seq<int>, now: int): int
    requires e != []
  {
    WindowMs - (now - e[0]) + MarginMs
  }

  datatype WaitOutcome =
    | Admitted(at: int)     // `now` was appended to the window
    | StillWaiting          // every clock reading found the window full
    | IndexError            // the window was full and empty at once (a limit <= 0)

  /** The end of `_wait_if_needed` over the clock readings `clock`: the outcome, the sleeps taken, the new window. */
  datatype Wait = Wait(outcome: WaitOutcome, sleeps: seq<int>, window: seq<int>)

  /** One pass per clock reading: evict, then admit, or sleep and look again. */
  function WaitSpec(w: seq<int>, limit: int, clock: seq<int>): Wait
    decreases |clock|
  {
    if clock == [] then Wait(StillWaiting, [], w)
    else
      var e := Evict(w, clock[0]);
      if |e| < limit then Wait(Admitted(clock[0]), [], e + [clock[0]])
      else if e == [] then Wait(IndexError, [], e)
      else
        var rest := WaitSpec(e, limit, clock[1..]);
        rest.(sleeps := [WaitMs(e, clock[0])] + rest.sleeps)
  }

  /** Every entry left after eviction is less than one second old (the deque is kept in time order). */
  lemma {:induction false} EvictLeavesOnlyFresh(w: seq<int>, now: int)
    requires Sorted(w)
    ensures forall t :: t in Evict(w, now) ==> now - t < WindowMs
  {
    var r := Evict(w, now);
    if r != [] {
      forall t | t in r
        ensures now - t < WindowMs
      {
        var k :| 0 <= k < |r| && r[k] == t;
        assert w[|w| - |r|] == r[0] && w[|w| - |r| + k] == t;
      }
    }
  }

  /** Evicting twice at the same time evicts nothing more. */
  lemma {:induction false} EvictIdempotent(w: seq<int>, now: int)
    ensures Evict(Evict(w, now), now) == Evict(w, now)
  {
  }

  /** A later eviction sees at least what an earlier one dropped. */
  lemma {:induction false} EvictLater(w: seq<int>, now: int, later: int)
    requires now <= later
    ensures Evict(Evict(w, now), later) == Evict(w, later)
    decreases |w|
  {
    if |w| > 0 && now - w[0] >= WindowMs {
      EvictStep(w, now);
      EvictStep(w, later);
      EvictLater(w[1..], now, later);
    }
  }

  /**
   * Every sleep is more than the 500 ms margin, because the oldest entry left
   * after eviction is younger than a second; so the source's "no need to
   * wait" return is never taken.
   */
  lemma {:induction false} SleepsExceedMargin(w: seq<int>, limit: int, clock: seq<int>)
    ensures var r := WaitSpec(w, limit, clock);
      |r.sleeps| <= |clock| && forall k :: 0 <= k < |r.sleeps| ==> r.sleeps[k] > MarginMs
    decreases |clock|
  {
    if clock != [] {
      var e := Evict(w, clock[0]);
      if |e| >= limit && e != [] {
        SleepsExceedMargin(e, limit, clock[1..]);
      }
    }
  }

  /**
   * A call is admitted only while the window is below the limit, so the
   * window after an admission holds at most `limit` entries and ends with
   * the admission time, which is one of the clock readings.
   */
  lemma {:induction false} AdmissionWithinLimit(w: seq<int>, limit: int, clock: seq<int>)
    ensures var r := WaitSpec(w, limit, clock);
      r.outcome.Admitted? ==>
        0 < |r.window| <= limit && r.window[|r.window| - 1] == r.outcome.at && r.outcome.at in clock
    decreases |clock|
  {
    if clock != [] {
      var e := Evict(w, clock[0]);
      if |e| >= limit && e != [] {
        var rest := WaitSpec(e, limit, clock[1..]);
        assert WaitSpec(w, limit, clock).outcome == rest.outcome;
        assert WaitSpec(w, limit, clock).window == rest.window;
        AdmissionWithinLimit(e, limit, clock[1..]);
        assert forall t :: t in clock[1..] ==> t in clock;
      }
    }
  }

  /** The IndexError of reading the oldest entry of an empty full window needs a limit of zero or less. */
  lemma {:induction false} IndexErrorNeedsNonPositiveLimit(w: seq<int>, limit: int, clock: seq<int>)
    ensures WaitSpec(w, limit, clock).outcome.IndexError? ==> limit <= 0
    decreases |clock|
  {
    if clock != [] {
      var e := Evict(w, clock[0]);
      if |e| >= limit && e != [] {
        IndexErrorNeedsNonPositiveLimit(e, limit, clock[1..]);
      }
    }
  }

  /**
   * Sleeping the computed wait is always enough: with no more entries than
   * the limit, a clock reading at least the wait later finds the oldest entry
   * evicted and admits the call.
   */
  lemma {:induction false} SleepThenAdmit(w: seq<int>, limit: int, clock: seq<int>)
    requires |w| <= limit && |clock| >= 2
    requires Evict(w, clock[0]) != [] && |Evict(w, clock[0])| >= limit
    requires clock[1] >= clock[0] + WaitMs(Evict(w, clock[0]), clock[0])
    ensures WaitSpec(w, limit, clock).outcome == Admitted(clock[1])
  {
    var e := Evict(w, clock[0]);
    var e2 := Evict(e, clock[1]);
    assert e2 == Evict(e[1..], clock[1]);
    assert |e2| < limit;
    var rest := WaitSpec(e, limit, clock[1..]);
    assert clock[1..][0] == clock[1];
    assert rest.outcome == Admitted(clock[1]);
  }

  /** With a clock that does not run backwards, the window stays in time order. */
  lemma {:induction false} WaitKeepsOrder(w: seq<int>, limit: int, clock: seq<int>)
    requires Sorted(w) && Sorted(clock)
    requires w != [] && clock != [] ==> w[|w| - 1] <= clock[0]
    ensures Sorted(WaitSpec(w, limit, clock).window)
    decreases |clock|
  {
    if clock != [] {
      var e := Evict(w, clock[0]);
      assert Sorted(e);
      if |e| < limit {
        assert e != [] ==> e[|e| - 1] == w[|w| - 1];
      } else if e != [] {
        assert e[|e| - 1] == w[|w| - 1];
        assert Sorted(clock[1..]);
        WaitKeepsOrder(e, limit, clock[1..]);
      }
    }
  }

  datatype Stats = Stats(requestsPerSecond: int, currentRequestsInWindow: nat, requestsRemaining: nat)

  /** What `get_stats` reports: the limit, the window size, and the admissions left, never below zero. */
  function StatsOf(limit: int, w: seq<int>): (s: Stats)
    ensures s.requestsRemaining == 0 <==> |w| >= limit
    ensures s.requestsRemaining > 0 ==> s.currentRequestsInWindow + s.requestsRemaining == limit
  {
    Stats(limit, |w|, if limit - |w| > 0 then limit - |w| else 0)
  }

  /** Reading the stats does not change the next admission decision at the same time. */
  lemma {:induction false} StatsDoNotChangeAdmission(w: seq<int>, limit: int, clock: seq<int>)
    requires clock != []
    ensures WaitSpec(Evict(w, clock[0]), limit, clock) == WaitSpec(w, limit, clock)
  {
    EvictIdempotent(w, clock[0]);
  }

  /** How one call to the VK API ended. */
  datatype Outcome =
    | Returned(value: Json)
    | TimedOut               // asyncio.TimeoutError from the timeout around the call
    | Raised(text: string)   // any other exception, by its `str`

  /**
   * The attribute path `_make_api_call` walks: the method name split on '.'
   * ("users.get" is `api.users.get`). The segments hold no '.', and joined
   * with '.' they give back the name.
   */
  function MethodPath(methodName: string): (path: seq<string>)
    ensures |path| >= 1
    ensures forall k :: 0 <= k < |path| ==> '.' !in path[k]
    ensures Text.Join(path, '.') == methodName
  {
    Text.Split(methodName, '.')
  }

  /** The admission state of one `RateLimitedVKAPI`: the limit and the deque of admission times. */
  class SlidingWindow {
    var requestsPerSecond: int
    var requestTimes: seq<int>

    /** A new limiter: the given limit (not checked here, as in the source) and an empty window. */
    constructor (requestsPerSecond: int)
      ensures this.requestsPerSecond == requestsPerSecond && requestTimes == []
    {
      this.requestsPerSecond := requestsPerSecond;
      requestTimes := [];
    }

    /** The eviction loop: pops entries at least a second old off the front. */
    method EvictOld(now: int)
      modifies this
      ensures requestTimes == Evict(old(requestTimes), now)
      ensures requestsPerSecond == old(requestsPerSecond)
    {
      while |requestTimes| > 0 && now - requestTimes[0] >= WindowMs
        invariant Evict(requestTimes, now) == Evict(old(requestTimes), now)
        invariant requestsPerSecond == old(requestsPerSecond)
        decreases |requestTimes|
      {
        EvictStep(requestTimes, now);
        requestTimes := requestTimes[1..];
      }
    }

    /** `_wait_if_needed`, reading the clock once per pass; `sleeps` are the waits taken. */
    method WaitIfNeeded(clock: seq<int>) returns (outcome: WaitOutcome, sleeps: seq<int>)
      modifies this
      ensures WaitSpec(old(requestTimes), requestsPerSecond, clock) == Wait(outcome, sleeps, requestTimes)
      ensures requestsPerSecond == old(requestsPerSecond)
    {
      sleeps := [];
      var i := 0;
      while i < |clock|
        invariant 0 <= i <= |clock|
        invariant requestsPerSecond == old(requestsPerSecond)
        invariant WaitSpec(old(requestTimes), requestsPerSecond, clock)
               == var rest := WaitSpec(requestTimes, requestsPerSecond, clock[i..]); rest.(sleeps := sleeps + rest.sleeps)
        decreases |clock| - i
      {
        var now := clock[i];
        assert clock[i..][1..] == clock[i + 1..];
        EvictOld(now);
        if |requestTimes| < requestsPerSecond {
          requestTimes := requestTimes + [now];
          outcome := Admitted(now);
          return;
        }
        if requestTimes == [] {
          outcome := IndexError;
          return;
        }
        sleeps := sleeps + [WaitMs(requestTimes, now)];
        i := i + 1;
      }
      outcome := StillWaiting;
    }

    /** The `requests_per_second` setter: a non-positive value raises ValueError and changes nothing. */
    method SetRequestsPerSecond(value: int) returns (r: Result<(), string>)
      modifies this
      ensures r.Ok? <==> value > 0
      ensures r.Ok? ==> requestsPerSecond == value
      ensures r.Err? ==> requestsPerSecond == old(requestsPerSecond) && r.error == "Requests per second must be positive"
      ensures requestTimes == old(requestTimes)
    {
      if value <= 0 {
        return Err("Requests per second must be positive");
      }
      requestsPerSecond := value;
      return Ok(());
    }

    /** `get_stats`: evicts at `now` first, then reports on the window that is left. */
    method GetStats(now: int) returns (stats: Stats)
      modifies this
      ensures requestTimes == Evict(old(requestTimes), now)
      ensures requestsPerSecond == old(requestsPerSecond)
      ensures stats == StatsOf(requestsPerSecond, requestTimes)
    {
      EvictOld(now);
      stats := StatsOf(requestsPerSecond, requestTimes);
    }
  }
}
