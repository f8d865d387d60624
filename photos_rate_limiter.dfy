/**
 * The downloaders' `RateLimitedVKAPI`: the same sliding window as the
 * archiver's limiter, but `call` waits for one admission and then makes
 * exactly one API invocation, with no retry, no backoff and no timeout.
 */
module PhotosRateLimiter {
  import opened JsonValues
  import opened RateLimiting

  datatype CallResult =
    | Success(value: Json)
    | Failure(error: Outcome)   // the API call raised; the exception propagates unchanged
    | Waiting                   // every clock reading found the window full
    | WindowIndexError          // a non-positive limit met an empty window

  /** What `call` does for an admission `a` and the API's answer `outcome`: the result and the number of API invocations. */
  function CallSpec(a: WaitOutcome, outcome: Outcome): (r: (CallResult, nat))
    ensures r.1 == 1 <==> a.Admitted?
    ensures r.1 <= 1
    ensures r.0.Success? <==> a.Admitted? && outcome.Returned?
    ensures r.0.Success? ==> r.0.value == outcome.value
    ensures r.0.Failure? ==> r.0.error == outcome
  {
    match a
    case Admitted(_) => (if outcome.Returned? then Success(outcome.value) else Failure(outcome), 1)
    case StillWaiting => (Waiting, 0)
    case IndexError => (WindowIndexError, 0)
  }

  class RateLimitedVKAPI {
    const window: SlidingWindow

    /** A new limiter with an empty window; the limit is stored unchecked, as in the source. */
    constructor (requestsPerSecond: int)
      ensures fresh(window) && window.requestsPerSecond == requestsPerSecond && window.requestTimes == []
    {
      window := new SlidingWindow(requestsPerSecond);
    }

    /**
     * `call(method_name, ...)`: one `_wait_if_needed`, then one call to the
     * method at `path`, whose answer is `outcome`. The window changes exactly
     * as the admission loop says and the API is invoked once, only when the
     * call was admitted.
     */
    method Call(methodName: string, clock: seq<int>, outcome: Outcome)
      returns (path: seq<string>, result: CallResult, invocations: nat, sleeps: seq<int>)
      modifies window
      ensures path == MethodPath(methodName)
      ensures var a := WaitSpec(old(window.requestTimes), window.requestsPerSecond, clock);
        window.requestTimes == a.window && sleeps == a.sleeps && (result, invocations) == CallSpec(a.outcome, outcome)
      ensures window.requestsPerSecond == old(window.requestsPerSecond)
    {
      var admission;
      admission, sleeps := window.WaitIfNeeded(clock);
      path := MethodPath(methodName);
      result, invocations := CallSpec(admission, outcome).0, CallSpec(admission, outcome).1;
    }
  }

  /**
   * A call is admitted and invoked exactly once as soon as a clock reading
   * finds the window below the limit after eviction, with no sleep.
   */
  lemma CallUnderLimitInvokesOnce(w: seq<int>, limit: int, clock: seq<int>, outcome: Outcome)
    requires clock != [] && |Evict(w, clock[0])| < limit
    ensures var a := WaitSpec(w, limit, clock);
      a.sleeps == [] && a.window == Evict(w, clock[0]) + [clock[0]] && CallSpec(a.outcome, outcome).1 == 1
  {
  }
}
