/**
 * The archiver's `RateLimitedVKAPI.call`: every attempt first goes through
 * the sliding-window admission, then invokes the API method. A timeout or
 * any other exception counts as a failed attempt; once the attempt counter
 * passes `max_retries` the last error is raised again, otherwise the call
 * sleeps `base * 2^(attempt - 1) + jitter` and tries again.
 *
 * The environment supplies, per attempt, the clock readings seen while
 * waiting for admission, what the API call did, and the jitter drawn.
 */
module ArchiverRateLimiter {
  import opened Wrappers
  import opened JsonValues
  import opened RateLimiting
  import Text

  /** The constructor's defaults, with seconds turned into milliseconds. */
  const DefaultRequestsPerSecond: int := 3
  const DefaultMaxRetries: int := 5
  const DefaultBackoffBaseMs: int := 500
  const DefaultBackoffJitterMs: int := 200
  const DefaultTimeoutMs: int := 30000

  /** The keyword argument that overrides the timeout of one call. */
  const TimeoutKey: string := "_rl_timeout"

  function Pow2(n: nat): (r: nat)
    ensures r >= 1
  {
    if n == 0 then 1 else 2 * Pow2(n - 1)
  }

  /** The exponential part of the wait before retry number `attempt` (counted from 1). */
  function ExponentialMs(baseMs: int, attempt: nat): int
    requires attempt >= 1
  {
    Pow2(attempt - 1) * baseMs
  }

  /** The message test that picks the "rate limited" log line, on the lower-cased error text. */
  predicate IsRateLimitMessage(text: string) {
    var m := Text.Lower(text);
    Text.Contains(m, "too many requests") || Text.Contains(m, "too many requests per second")
    || Text.Contains(m, "rate limit") || Text.Contains(m, "code 6")
  }

  /** Which warning a retry logs; it has no effect on the wait. */
  datatype LogLine = TimeoutLine | RateLimitedLine | TransientLine

  function LogLineFor(o: Outcome): LogLine
    requires !o.Returned?
  {
    if o.TimedOut? then TimeoutLine
    else if IsRateLimitMessage(o.text) then RateLimitedLine
    else TransientLine
  }

  /** One retry: the attempt counter after the failure, the sleep before the next attempt, the log line. */
  datatype Retry = Retry(attempt: nat, backoffMs: int, log: LogLine)

  datatype CallResult =
    | Success(value: Json)      // the value the API call returned
    | Failure(last: Outcome)    // the error of the last attempt, raised again
    | Waiting                   // an admission was still waiting when the clock readings ran out
    | WindowIndexError          // the admission raised IndexError (a limit <= 0)

  /** Per attempt: the clock readings during admission, the API call's outcome, the jitter drawn. */
  datatype Env = Env(clocks: seq<seq<int>>, outcomes: seq<Outcome>, jitters: seq<int>)

  /** How many times the API can be invoked: the first attempt plus `max_retries` retries. */
  function MaxAttempts(maxRetries: int): nat {
    if maxRetries < 0 then 1 else maxRetries + 1
  }

  /** The environment covers every possible attempt, and each jitter lies in `[0, jitter]`. */
  predicate Covers(env: Env, maxRetries: int, jitterMs: int) {
    |env.clocks| >= MaxAttempts(maxRetries) && |env.outcomes| >= MaxAttempts(maxRetries)
    && |env.jitters| >= MaxAttempts(maxRetries)
    && forall k :: 0 <= k < |env.jitters| ==> 0 <= env.jitters[k] <= jitterMs
  }

  /** The end of a call: its result, the retries made, the new window, and how many times the API ran. */
  datatype Trace = Trace(result: CallResult, retries: seq<Retry>, window: seq<int>, invocations: nat)

  /** The call from attempt `k` on (`k` failed attempts so far), with window `w`. */
  function CallFrom(w: seq<int>, limit: int, env: Env, maxRetries: int, baseMs: int, k: nat): Trace
    requires |env.clocks| >= MaxAttempts(maxRetries) && |env.outcomes| >= MaxAttempts(maxRetries)
    requires |env.jitters| >= MaxAttempts(maxRetries)
    requires k < MaxAttempts(maxRetries)
    decreases MaxAttempts(maxRetries) - k
  {
    var admission := WaitSpec(w, limit, env.clocks[k]);
    if admission.outcome.StillWaiting? then Trace(Waiting, [], admission.window, k)
    else if admission.outcome.IndexError? then Trace(WindowIndexError, [], admission.window, k)
    else
      var o := env.outcomes[k];
      if o.Returned? then Trace(Success(o.value), [], admission.window, k + 1)
      else if k + 1 > maxRetries then Trace(Failure(o), [], admission.window, k + 1)
      else
        var retry := Retry(k + 1, ExponentialMs(baseMs, k + 1) + env.jitters[k], LogLineFor(o));
        var rest := CallFrom(admission.window, limit, env, maxRetries, baseMs, k + 1);
        rest.(retries := [retry] + rest.retries)
  }

  /** One failed attempt with retries left: the retry is recorded and the call goes on from the next attempt. */
  lemma CallFromRetry(w: seq<int>, limit: int, env: Env, maxRetries: int, baseMs: int, k: nat)
    requires |env.clocks| >= MaxAttempts(maxRetries) && |env.outcomes| >= MaxAttempts(maxRetries)
    requires |env.jitters| >= MaxAttempts(maxRetries)
    requires k < MaxAttempts(maxRetries)
    requires WaitSpec(w, limit, env.clocks[k]).outcome.Admitted?
    requires !env.outcomes[k].Returned? && k + 1 <= maxRetries
    ensures var t := CallFrom(w, limit, env, maxRetries, baseMs, k);
      var rest := CallFrom(WaitSpec(w, limit, env.clocks[k]).window, limit, env, maxRetries, baseMs, k + 1);
      t.result == rest.result && t.window == rest.window && t.invocations == rest.invocations
      && t.retries == [Retry(k + 1, ExponentialMs(baseMs, k + 1) + env.jitters[k], LogLineFor(env.outcomes[k]))] + rest.retries
  {
  }

  /** An attempt that ends the call: the window's own end, a value, or the last error. */
  lemma CallFromEnds(w: seq<int>, limit: int, env: Env, maxRetries: int, baseMs: int, k: nat)
    requires |env.clocks| >= MaxAttempts(maxRetries) && |env.outcomes| >= MaxAttempts(maxRetries)
    requires |env.jitters| >= MaxAttempts(maxRetries)
    requires k < MaxAttempts(maxRetries)
    ensures var a := WaitSpec(w, limit, env.clocks[k]);
      var t := CallFrom(w, limit, env, maxRetries, baseMs, k);
      && (a.outcome.StillWaiting? ==> t == Trace(Waiting, [], a.window, k))
      && (a.outcome.IndexError? ==> t == Trace(WindowIndexError, [], a.window, k))
      && (a.outcome.Admitted? && env.outcomes[k].Returned? ==> t == Trace(Success(env.outcomes[k].value), [], a.window, k + 1))
      && (a.outcome.Admitted? && !env.outcomes[k].Returned? && k + 1 > maxRetries ==>
            t == Trace(Failure(env.outcomes[k]), [], a.window, k + 1))
  {
  }

  /**
   * Attempt counting: the API runs at most `max_retries + 1` times; a failure
   * is raised only after exactly that many invocations, and it is the last
   * invocation's error; a success is the first invocation that returned;
   * every invocation before the last one failed and was followed by a retry.
   */
  lemma {:induction false} CallAttempts(w: seq<int>, limit: int, env: Env, maxRetries: int, baseMs: int, k: nat)
    requires |env.clocks| >= MaxAttempts(maxRetries) && |env.outcomes| >= MaxAttempts(maxRetries)
    requires |env.jitters| >= MaxAttempts(maxRetries)
    requires k < MaxAttempts(maxRetries)
    ensures var t := CallFrom(w, limit, env, maxRetries, baseMs, k);
      k <= t.invocations <= MaxAttempts(maxRetries)
      && (t.result.Failure? ==> t.invocations == MaxAttempts(maxRetries) && t.result.last == env.outcomes[t.invocations - 1])
      && (t.result.Success? ==> t.invocations > k && env.outcomes[t.invocations - 1] == Returned(t.result.value))
      && (t.result.Waiting? || t.result.WindowIndexError? ==> |t.retries| == t.invocations - k)
      && (t.result.Success? || t.result.Failure? ==> |t.retries| == t.invocations - k - 1)
    decreases MaxAttempts(maxRetries) - k
  {
    var admission := WaitSpec(w, limit, env.clocks[k]);
    if admission.outcome.Admitted? {
      var o := env.outcomes[k];
      if !o.Returned? && k + 1 <= maxRetries {
        CallAttempts(admission.window, limit, env, maxRetries, baseMs, k + 1);
      }
    }
  }

  /**
   * Retry `r` follows failed attempt `i` (counted from 0): its counter is
   * `i + 1`, its wait `base * 2^i` plus that attempt's jitter, hence between
   * `base * 2^i` and that plus the jitter bound, and only its log line
   * depends on what the error was.
   */
  predicate RetryAfter(env: Env, baseMs: int, jitterMs: int, r: Retry, i: nat) {
    i < |env.outcomes| && i < |env.jitters| && !env.outcomes[i].Returned?
    && r.attempt == i + 1
    && r.backoffMs == ExponentialMs(baseMs, i + 1) + env.jitters[i]
    && ExponentialMs(baseMs, i + 1) <= r.backoffMs <= ExponentialMs(baseMs, i + 1) + jitterMs
    && r.log == LogLineFor(env.outcomes[i])
  }

  /** The retries `rs` follow the failed attempts `k`, `k + 1`, ... in order. */
  predicate RetriesFollow(env: Env, baseMs: int, jitterMs: int, rs: seq<Retry>, k: nat)
    decreases |rs|
  {
    rs == [] || (RetryAfter(env, baseMs, jitterMs, rs[0], k) && RetriesFollow(env, baseMs, jitterMs, rs[1..], k + 1))
  }

  lemma {:induction false} RetriesFollowAt(env: Env, baseMs: int, jitterMs: int, rs: seq<Retry>, k: nat)
    requires RetriesFollow(env, baseMs, jitterMs, rs, k)
    ensures forall j :: 0 <= j < |rs| ==> RetryAfter(env, baseMs, jitterMs, rs[j], k + j)
    decreases |rs|
  {
    if rs != [] {
      RetriesFollowAt(env, baseMs, jitterMs, rs[1..], k + 1);
      forall j | 1 <= j < |rs|
        ensures RetryAfter(env, baseMs, jitterMs, rs[j], k + j)
      {
        assert rs[j] == rs[1..][j - 1];
      }
    }
  }

  lemma {:induction false} CallRetriesFollow(w: seq<int>, limit: int, env: Env, maxRetries: int, baseMs: int, jitterMs: int, k: nat)
    requires Covers(env, maxRetries, jitterMs)
    requires k < MaxAttempts(maxRetries)
    ensures RetriesFollow(env, baseMs, jitterMs, CallFrom(w, limit, env, maxRetries, baseMs, k).retries, k)
    decreases MaxAttempts(maxRetries) - k
  {
    var admission := WaitSpec(w, limit, env.clocks[k]);
    if admission.outcome.Admitted? && !env.outcomes[k].Returned? && k + 1 <= maxRetries {
      CallFromRetry(w, limit, env, maxRetries, baseMs, k);
      CallRetriesFollow(admission.window, limit, env, maxRetries, baseMs, jitterMs, k + 1);
      var rs := CallFrom(w, limit, env, maxRetries, baseMs, k).retries;
      assert rs[1..] == CallFrom(admission.window, limit, env, maxRetries, baseMs, k + 1).retries;
    }
  }

  /**
   * Every retry of a call is the backoff after the failed attempt in its
   * position: the `j`-th retry follows attempt `j` (from 0), which failed,
   * and waits `base * 2^j` plus that attempt's jitter.
   */
  lemma {:induction false} CallBackoffs(w: seq<int>, limit: int, env: Env, maxRetries: int, baseMs: int, jitterMs: int)
    requires Covers(env, maxRetries, jitterMs)
    ensures var t := CallFrom(w, limit, env, maxRetries, baseMs, 0);
      forall j :: 0 <= j < |t.retries| ==> RetryAfter(env, baseMs, jitterMs, t.retries[j], j)
  {
    CallRetriesFollow(w, limit, env, maxRetries, baseMs, jitterMs, 0);
    RetriesFollowAt(env, baseMs, jitterMs, CallFrom(w, limit, env, maxRetries, baseMs, 0).retries, 0);
  }

  /** `kwargs` without the timeout override, other arguments kept in order. */
  function Without(kwargs: seq<(string, Json)>, key: string): (r: seq<(string, Json)>)
    ensures forall p :: p in r <==> p in kwargs && p.0 != key
  {
    if kwargs == [] then []
    else if kwargs[0].0 == key then Without(kwargs[1..], key)
    else [kwargs[0]] + Without(kwargs[1..], key)
  }

  /** The timeout of a call: the `_rl_timeout` argument unless absent or None, else the default. */
  function TimeoutFor(kwargs: seq<(string, Json)>, default: Json): (t: Json)
    ensures (forall p :: p in kwargs ==> p.0 != TimeoutKey) ==> t == default
    ensures Lookup(kwargs, TimeoutKey).Some? && Lookup(kwargs, TimeoutKey).value != Null ==>
      t == Lookup(kwargs, TimeoutKey).value
    ensures Lookup(kwargs, TimeoutKey) == Some(Null) ==> t == default
  {
    match Lookup(kwargs, TimeoutKey)
    case Some(v) => if v == Null then default else v
    case None => default
  }

  /** What reaches the VK API on every attempt: the attribute path, the keyword arguments and the timeout. */
  datatype Request = Request(path: seq<string>, kwargs: seq<(string, Json)>, timeout: Json)

  class RateLimitedVKAPI {
    const window: SlidingWindow
    const maxRetries: int
    const backoffBaseMs: int
    const backoffJitterMs: int
    const defaultTimeout: Json

    constructor (requestsPerSecond: int, maxRetries: int, backoffBaseMs: int, backoffJitterMs: int, defaultTimeout: Json)
      ensures fresh(window) && window.requestsPerSecond == requestsPerSecond && window.requestTimes == []
      ensures this.maxRetries == maxRetries && this.backoffBaseMs == backoffBaseMs
      ensures this.backoffJitterMs == backoffJitterMs && this.defaultTimeout == defaultTimeout
    {
      window := new SlidingWindow(requestsPerSecond);
      this.maxRetries := maxRetries;
      this.backoffBaseMs := backoffBaseMs;
      this.backoffJitterMs := backoffJitterMs;
      this.defaultTimeout := defaultTimeout;
    }

    /** `call(method_name, **kwargs)`: the timeout override is popped, then the attempts run. */
    method Call(methodName: string, kwargs: seq<(string, Json)>, env: Env)
      returns (request: Request, result: CallResult, retries: seq<Retry>)
      requires Covers(env, maxRetries, backoffJitterMs)
      modifies window
      ensures request == Request(MethodPath(methodName), Without(kwargs, TimeoutKey), TimeoutFor(kwargs, defaultTimeout))
      ensures var t := CallFrom(old(window.requestTimes), window.requestsPerSecond, env, maxRetries, backoffBaseMs, 0);
        result == t.result && retries == t.retries && window.requestTimes == t.window
      ensures window.requestsPerSecond == old(window.requestsPerSecond)
    {
      request := Request(MethodPath(methodName), Without(kwargs, TimeoutKey), TimeoutFor(kwargs, defaultTimeout));
      result, retries := Attempts(env);
    }

    /** The `while True` loop of `call`: one admission and one invocation per attempt until a result. */
    method Attempts(env: Env) returns (result: CallResult, retries: seq<Retry>)
      requires Covers(env, maxRetries, backoffJitterMs)
      modifies window
      ensures var t := CallFrom(old(window.requestTimes), window.requestsPerSecond, env, maxRetries, backoffBaseMs, 0);
        result == t.result && retries == t.retries && window.requestTimes == t.window
      ensures window.requestsPerSecond == old(window.requestsPerSecond)
    {
      retries := [];
      var attempt := 0;
      ghost var limit := window.requestsPerSecond;
      ghost var whole := CallFrom(window.requestTimes, limit, env, maxRetries, backoffBaseMs, 0);
      while true
        invariant 0 <= attempt < MaxAttempts(maxRetries)
        invariant window.requestsPerSecond == limit
        invariant var rest := CallFrom(window.requestTimes, limit, env, maxRetries, backoffBaseMs, attempt);
          whole.result == rest.result && whole.window == rest.window && whole.retries == retries + rest.retries
        decreases MaxAttempts(maxRetries) - attempt
      {
        ghost var before := window.requestTimes;
        var finished, retry := AttemptOnce(env, attempt);
        if finished.Some? {
          return finished.value, retries;
        }
        ghost var rest := CallFrom(window.requestTimes, limit, env, maxRetries, backoffBaseMs, attempt + 1);
        assert retries + ([retry] + rest.retries) == (retries + [retry]) + rest.retries;
        retries := retries + [retry];
        attempt := attempt + 1;
      }
    }

    /**
     * One pass of that loop: wait for admission, invoke, and either finish
     * (a value, the error raised again, or the admission's own end) or
     * count the failure and name the retry.
     */
    method AttemptOnce(env: Env, attempt: nat) returns (finished: Option<CallResult>, retry: Retry)
      requires Covers(env, maxRetries, backoffJitterMs) && attempt < MaxAttempts(maxRetries)
      modifies window
      ensures window.requestsPerSecond == old(window.requestsPerSecond)
      ensures var t := CallFrom(old(window.requestTimes), window.requestsPerSecond, env, maxRetries, backoffBaseMs, attempt);
        if finished.Some? then
          t.result == finished.value && t.window == window.requestTimes && t.retries == []
        else
          attempt + 1 < MaxAttempts(maxRetries)
          && var rest := CallFrom(window.requestTimes, window.requestsPerSecond, env, maxRetries, backoffBaseMs, attempt + 1);
          t.result == rest.result && t.window == rest.window && t.retries == [retry] + rest.retries
    {
      ghost var before := window.requestTimes;
      var admission, sleeps := window.WaitIfNeeded(env.clocks[attempt]);
      assert WaitSpec(before, window.requestsPerSecond, env.clocks[attempt]) == Wait(admission, sleeps, window.requestTimes);
      CallFromEnds(before, window.requestsPerSecond, env, maxRetries, backoffBaseMs, attempt);
      retry := Retry(attempt + 1, ExponentialMs(backoffBaseMs, attempt + 1) + env.jitters[attempt], TimeoutLine);
      if admission.StillWaiting? {
        return Some(Waiting), retry;
      }
      if admission.IndexError? {
        return Some(WindowIndexError), retry;
      }
      var o := env.outcomes[attempt];
      if o.Returned? {
        return Some(Success(o.value)), retry;
      }
      if attempt + 1 > maxRetries {
        return Some(Failure(o)), retry;
      }
      retry := Retry(attempt + 1, ExponentialMs(backoffBaseMs, attempt + 1) + env.jitters[attempt], LogLineFor(o));
      CallFromRetry(before, window.requestsPerSecond, env, maxRetries, backoffBaseMs, attempt);
      finished := None;
    }
  }
}
