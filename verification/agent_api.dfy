/**
 * Delivery policy of the agent client (`Api`): the bounded retry loop that
 * wraps every send, the one-time partial-flush diagnostic, and how the stats
 * and traces callbacks classify an HTTP exchange.
 *
 * Network I/O, `Task.Delay`, logging and JSON are left out: each attempt's
 * outcome and each response are inputs, and the delays the loop would sleep
 * are returned as a list of milliseconds.
 */
module AgentApi {
  import opened Wrappers
  import Versions

  /** Attempts made by one send before giving up. */
  const RetryLimit: nat := 5

  /** Back-off before the second attempt; it doubles after every retry. */
  const InitialSleepMs: nat := 100

  function Pow2(n: nat): (r: nat)
    ensures r >= 1
  {
    if n == 0 then 1 else 2 * Pow2(n - 1)
  }

  /**
   * An exception escaping a send callback, reduced to what the loop inspects:
   * whether a `SocketException` is somewhere in its inner-exception chain
   * (only changes logging) and whether its direct inner exception is an
   * `InvalidOperationException` (aborts the send in DEBUG builds).
   */
  datatype Exception = Exception(socketInChain: bool, innerIsInvalidOperation: bool)

  /** What one invocation of a send callback did. */
  datatype CallbackOutcome = Returned(success: bool) | Threw(exception: Exception)

  /** What happened at one attempt: building the request failed, or the callback ran. */
  datatype Attempt = RequestCreationFailed | Called(outcome: CallbackOutcome)

  /** Whether the assembly was compiled with the DEBUG symbol. */
  datatype Build = Debug | Release

  /**
   * The observable behaviour of one `SendWithRetry`: its result, the
   * `isFinalTry` flag passed to each callback invocation (so the number of
   * invocations is the length), and the delays slept between attempts.
   */
  datatype SendTrace = SendTrace(result: bool, finalTryFlags: seq<bool>, delays: seq<nat>)

  /** The DEBUG-only early exit for an exception wrapping an `InvalidOperationException`. */
  predicate AbortsInDebug(outcome: CallbackOutcome, build: Build) {
    build == Debug && outcome.Threw? && outcome.exception.innerIsInvalidOperation
  }

  /** An attempt that leads to another one unless it was the final try. */
  predicate IsRetryable(attempt: Attempt, build: Build) {
    attempt.Called? && attempt.outcome != Returned(true) && !AbortsInDebug(attempt.outcome, build)
  }

  /** `n` back-off delays starting at `sleepMs`, each twice the one before. */
  function Backoff(sleepMs: nat, n: nat): (r: seq<nat>)
    ensures |r| == n
    decreases n
  {
    if n == 0 then [] else [sleepMs] + Backoff(2 * sleepMs, n - 1)
  }

  /** The `i`-th back-off delay is `sleepMs * 2^i`. */
  lemma {:induction false} BackoffDoubles(sleepMs: nat, n: nat, i: nat)
    requires i < n
    ensures Backoff(sleepMs, n)[i] == sleepMs * Pow2(i)
    decreases i
  {
    if i > 0 {
      BackoffDoubles(2 * sleepMs, n - 1, i - 1);
      assert Backoff(sleepMs, n)[i] == Backoff(2 * sleepMs, n - 1)[i - 1];
      assert 2 * sleepMs * Pow2(i - 1) == sleepMs * (2 * Pow2(i - 1));
    }
  }

  /**
   * The loop from attempt number `retryCount` on, sleeping `sleepMs` before
   * the next attempt: the reference definition of `SendWithRetry`.
   */
  function Attempts(outcomes: nat -> Attempt, build: Build, retryCount: nat, sleepMs: nat): (t: SendTrace)
    requires 1 <= retryCount <= RetryLimit
    decreases RetryLimit - retryCount
  {
    var attempt := outcomes(retryCount - 1);
    if attempt.RequestCreationFailed? then SendTrace(false, [], [])
    else if !IsRetryable(attempt, build) || retryCount == RetryLimit then
      // a success, a DEBUG abort, or a failure on the final try ends the loop
      SendTrace(attempt.outcome == Returned(true), [retryCount == RetryLimit], [])
    else
      var rest := Attempts(outcomes, build, retryCount + 1, 2 * sleepMs);
      SendTrace(rest.result, [false] + rest.finalTryFlags, [sleepMs] + rest.delays)
  }

  /**
   * At most one callback invocation per remaining attempt, one delay between
   * consecutive invocations, no delay after the final try, and no invocation
   * at all exactly when building the first request fails.
   */
  lemma {:induction false} AttemptsBounds(outcomes: nat -> Attempt, build: Build, retryCount: nat, sleepMs: nat)
    requires 1 <= retryCount <= RetryLimit
    ensures var t := Attempts(outcomes, build, retryCount, sleepMs);
            && |t.finalTryFlags| <= RetryLimit - retryCount + 1
            && |t.finalTryFlags| - 1 <= |t.delays| <= |t.finalTryFlags|
            && (t.result ==> |t.delays| == |t.finalTryFlags| - 1)
            && (|t.finalTryFlags| == RetryLimit - retryCount + 1 ==> |t.delays| == |t.finalTryFlags| - 1)
            && (|t.finalTryFlags| == 0 <==> outcomes(retryCount - 1).RequestCreationFailed?)
    decreases RetryLimit - retryCount
  {
    if retryCount < RetryLimit && IsRetryable(outcomes(retryCount - 1), build) {
      AttemptsBounds(outcomes, build, retryCount + 1, 2 * sleepMs);
    }
  }

  /**
   * Only the fifth attempt is told it is the final try, and the delays are
   * the doubling back-off sequence starting at `sleepMs`.
   */
  lemma {:induction false} AttemptsShape(outcomes: nat -> Attempt, build: Build, retryCount: nat, sleepMs: nat)
    requires 1 <= retryCount <= RetryLimit
    ensures var t := Attempts(outcomes, build, retryCount, sleepMs);
            && (forall i :: 0 <= i < |t.finalTryFlags| ==> (t.finalTryFlags[i] <==> retryCount + i == RetryLimit))
            && t.delays == Backoff(sleepMs, |t.delays|)
    decreases RetryLimit - retryCount
  {
    var t := Attempts(outcomes, build, retryCount, sleepMs);
    if retryCount < RetryLimit && IsRetryable(outcomes(retryCount - 1), build) {
      AttemptsShape(outcomes, build, retryCount + 1, 2 * sleepMs);
      var rest := Attempts(outcomes, build, retryCount + 1, 2 * sleepMs);
      assert t.finalTryFlags == [false] + rest.finalTryFlags;
      assert t.delays == [sleepMs] + rest.delays;
    }
  }

  /** An attempt that ends the loop: one last flag and no further delay. */
  lemma LastStep(outcomes: nat -> Attempt, build: Build, retryCount: nat, sleepMs: nat)
    requires 1 <= retryCount <= RetryLimit
    requires outcomes(retryCount - 1).Called?
    requires !IsRetryable(outcomes(retryCount - 1), build) || retryCount == RetryLimit
    ensures Attempts(outcomes, build, retryCount, sleepMs)
         == SendTrace(outcomes(retryCount - 1).outcome == Returned(true), [retryCount == RetryLimit], [])
  {
  }

  /** One retried attempt: a non-final flag and the current delay, then the rest of the loop. */
  lemma RetryStep(outcomes: nat -> Attempt, build: Build, retryCount: nat, sleepMs: nat)
    requires 1 <= retryCount < RetryLimit
    requires IsRetryable(outcomes(retryCount - 1), build)
    ensures var t := Attempts(outcomes, build, retryCount, sleepMs);
            var rest := Attempts(outcomes, build, retryCount + 1, 2 * sleepMs);
            && t.result == rest.result
            && t.finalTryFlags == [false] + rest.finalTryFlags
            && t.delays == [sleepMs] + rest.delays
  {
  }

  /** Moving the head of the pending part onto the accumulated part keeps the whole. */
  lemma ShiftOne<T>(whole: seq<T>, done: seq<T>, x: T, pending: seq<T>)
    requires whole == done + ([x] + pending)
    ensures whole == (done + [x]) + pending
  {
    assert done + ([x] + pending) == (done + [x]) + pending;
  }

  /**
   * `SendWithRetry`: the loop computes exactly the recursive reference
   * definition, so `AttemptsBounds`, `AttemptsShape` and the lemmas below
   * describe it: at most five attempts, doubling back-off from 100 ms, and a
   * request-construction failure ends the send at once.
   */
  method SendWithRetry(outcomes: nat -> Attempt, build: Build) returns (t: SendTrace)
    ensures t == Attempts(outcomes, build, 1, InitialSleepMs)
  {
    ghost var whole := Attempts(outcomes, build, 1, InitialSleepMs);
    var retryCount := 1;
    var sleepMs := InitialSleepMs;
    var flags: seq<bool> := [];
    var delays: seq<nat> := [];
    while true
      invariant 1 <= retryCount <= RetryLimit
      invariant whole.result == Attempts(outcomes, build, retryCount, sleepMs).result
      invariant whole.finalTryFlags == flags + Attempts(outcomes, build, retryCount, sleepMs).finalTryFlags
      invariant whole.delays == delays + Attempts(outcomes, build, retryCount, sleepMs).delays
      decreases RetryLimit - retryCount
    {
      var attempt := outcomes(retryCount - 1);
      var isFinalTry := retryCount >= RetryLimit;
      if attempt.RequestCreationFailed? {
        t := SendTrace(false, flags, delays);
        assert whole.finalTryFlags == flags + [];
        assert whole.delays == delays + [];
        return;
      }
      if !IsRetryable(attempt, build) || isFinalTry {
        // the callback succeeded, threw in a DEBUG build, or failed on the final try
        t := SendTrace(attempt.outcome == Returned(true), flags + [isFinalTry], delays);
        LastStep(outcomes, build, retryCount, sleepMs);
        assert whole.delays == delays + [];
        return;
      }
      RetryStep(outcomes, build, retryCount, sleepMs);
      ghost var rest := Attempts(outcomes, build, retryCount + 1, 2 * sleepMs);
      ShiftOne(whole.finalTryFlags, flags, false, rest.finalTryFlags);
      ShiftOne(whole.delays, delays, sleepMs, rest.delays);
      flags := flags + [isFinalTry];
      delays := delays + [sleepMs];
      retryCount := retryCount + 1;
      sleepMs := 2 * sleepMs;
    }
  }

  /** If the request factory throws, the send fails at once: no callback, no retry, no delay. */
  lemma RequestCreationFailureIsTerminal(outcomes: nat -> Attempt, build: Build)
    requires outcomes(0) == RequestCreationFailed
    ensures Attempts(outcomes, build, 1, InitialSleepMs) == SendTrace(false, [], [])
  {
  }

  /**
   * A callback that always fails is called exactly five times, only the
   * fifth call is the final try, the back-off is 100, 200, 400, 800 ms and
   * the send fails.
   */
  lemma AlwaysFailingCallback(outcomes: nat -> Attempt, build: Build)
    requires forall i :: outcomes(i) == Called(Returned(false))
    ensures Attempts(outcomes, build, 1, InitialSleepMs)
      == SendTrace(false, [false, false, false, false, true], [100, 200, 400, 800])
  {
    LastStep(outcomes, build, 5, 1600);
    RetryStep(outcomes, build, 4, 800);
    RetryStep(outcomes, build, 3, 400);
    RetryStep(outcomes, build, 2, 200);
    RetryStep(outcomes, build, 1, 100);
  }

  /**
   * A callback first succeeding `k` attempts after attempt `retryCount`
   * yields true after exactly `k + 1` calls and the next `k` back-off delays.
   */
  lemma {:induction false} FirstSuccessAfter(outcomes: nat -> Attempt, build: Build, retryCount: nat, sleepMs: nat, k: nat)
    requires 1 <= retryCount && retryCount + k <= RetryLimit
    requires forall j :: retryCount - 1 <= j < retryCount - 1 + k ==> IsRetryable(outcomes(j), build)
    requires outcomes(retryCount - 1 + k) == Called(Returned(true))
    ensures var t := Attempts(outcomes, build, retryCount, sleepMs);
            && t.result
            && |t.finalTryFlags| == k + 1
            && t.delays == Backoff(sleepMs, k)
    decreases k
  {
    if k == 0 {
      LastStep(outcomes, build, retryCount, sleepMs);
    } else {
      assert IsRetryable(outcomes(retryCount - 1), build);
      RetryStep(outcomes, build, retryCount, sleepMs);
      FirstSuccessAfter(outcomes, build, retryCount + 1, 2 * sleepMs, k - 1);
    }
  }

  /** A callback first succeeding at attempt `k + 1` of a send yields true after `k` delays. */
  lemma FirstSuccessAt(outcomes: nat -> Attempt, build: Build, k: nat)
    requires k < RetryLimit
    requires forall j :: 0 <= j < k ==> IsRetryable(outcomes(j), build)
    requires outcomes(k) == Called(Returned(true))
    ensures var t := Attempts(outcomes, build, 1, InitialSleepMs);
            && t.result
            && |t.finalTryFlags| == k + 1
            && t.delays == Backoff(InitialSleepMs, k)
  {
    FirstSuccessAfter(outcomes, build, 1, InitialSleepMs, k);
  }

  /**
   * In release builds an exception from the callback never escapes: the
   * send behaves exactly as if the callback had returned false.
   */
  lemma {:induction false} ReleaseExceptionIsFailedAttempt(outcomes: nat -> Attempt, outcomes': nat -> Attempt, retryCount: nat, sleepMs: nat)
    requires 1 <= retryCount <= RetryLimit
    requires forall i :: outcomes'(i) == (if outcomes(i).Called? && outcomes(i).outcome.Threw? then Called(Returned(false)) else outcomes(i))
    ensures Attempts(outcomes, Release, retryCount, sleepMs) == Attempts(outcomes', Release, retryCount, sleepMs)
    decreases RetryLimit - retryCount
  {
    if retryCount < RetryLimit {
      ReleaseExceptionIsFailedAttempt(outcomes, outcomes', retryCount + 1, 2 * sleepMs);
    }
  }

  /** A send returns true only if one of its attempts returned true. */
  lemma {:induction false} SuccessNeedsASuccessfulAttempt(outcomes: nat -> Attempt, build: Build, retryCount: nat, sleepMs: nat)
    requires 1 <= retryCount <= RetryLimit
    ensures Attempts(outcomes, build, retryCount, sleepMs).result ==>
              exists k :: retryCount - 1 <= k < RetryLimit && outcomes(k) == Called(Returned(true))
    decreases RetryLimit - retryCount
  {
    var attempt := outcomes(retryCount - 1);
    if attempt.Called? && IsRetryable(attempt, build) && retryCount < RetryLimit {
      RetryStep(outcomes, build, retryCount, sleepMs);
      SuccessNeedsASuccessfulAttempt(outcomes, build, retryCount + 1, 2 * sleepMs);
    } else if attempt.Called? {
      LastStep(outcomes, build, retryCount, sleepMs);
    }
  }

  // ----- Partial-flush diagnostic -----

  /** The first agent version that supports partial flush. */
  const PartialFlushMinimumVersion: Versions.Version := Versions.Version3(7, 26, 0)

  /** The version is missing, unparsable or older than 7.26.0. */
  predicate BelowPartialFlushVersion(agentVersion: Option<string>, tryParse: string -> Option<Versions.Version>) {
    || agentVersion.None?
    || tryParse(agentVersion.value).None?
    || Versions.Less(tryParse(agentVersion.value).value, PartialFlushMinimumVersion)
  }

  /** Whether the warning was logged, and the agent version `Api` remembers afterwards. */
  datatype WarningCheck = WarningCheck(warned: bool, storedVersion: Option<string>)

  /** `LogPartialFlushWarningIfRequired`, with `Version.TryParse` as `tryParse`. */
  function LogPartialFlushWarningIfRequired(
    stored: Option<string>, partialFlushEnabled: bool,
    tryParse: string -> Option<Versions.Version>, agentVersion: Option<string>): (r: WarningCheck)
    ensures r.warned <==> agentVersion != stored && partialFlushEnabled && BelowPartialFlushVersion(agentVersion, tryParse)
    ensures r.storedVersion == agentVersion
  {
    if agentVersion != stored then
      WarningCheck(partialFlushEnabled && BelowPartialFlushVersion(agentVersion, tryParse), agentVersion)
    else
      WarningCheck(false, stored)
  }

  /** The warning fires at most once per agent-version change: asking again with the same version never warns. */
  lemma RepeatedVersionNeverWarns(
    stored: Option<string>, partialFlushEnabled: bool,
    tryParse: string -> Option<Versions.Version>, agentVersion: Option<string>)
    ensures var first := LogPartialFlushWarningIfRequired(stored, partialFlushEnabled, tryParse, agentVersion);
            !LogPartialFlushWarningIfRequired(first.storedVersion, partialFlushEnabled, tryParse, agentVersion).warned
  {
  }

  /** Number of warnings logged over a series of checks on one `Api`. */
  function WarningsLogged(
    stored: Option<string>, partialFlushEnabled: bool,
    tryParse: string -> Option<Versions.Version>, versions: seq<Option<string>>): nat
    decreases |versions|
  {
    if |versions| == 0 then 0
    else
      var check := LogPartialFlushWarningIfRequired(stored, partialFlushEnabled, tryParse, versions[0]);
      (if check.warned then 1 else 0) + WarningsLogged(check.storedVersion, partialFlushEnabled, tryParse, versions[1..])
  }

  /** Number of times the version differs from the one before it. */
  function VersionChanges(stored: Option<string>, versions: seq<Option<string>>): nat
    decreases |versions|
  {
    if |versions| == 0 then 0
    else (if versions[0] != stored then 1 else 0) + VersionChanges(versions[0], versions[1..])
  }

  /** Over any series of checks, warnings never outnumber version changes. */
  lemma {:induction false} WarningsBoundedByChanges(
    stored: Option<string>, partialFlushEnabled: bool,
    tryParse: string -> Option<Versions.Version>, versions: seq<Option<string>>)
    ensures WarningsLogged(stored, partialFlushEnabled, tryParse, versions) <= VersionChanges(stored, versions)
    ensures !partialFlushEnabled ==> WarningsLogged(stored, partialFlushEnabled, tryParse, versions) == 0
    decreases |versions|
  {
    if |versions| > 0 {
      WarningsBoundedByChanges(versions[0], partialFlushEnabled, tryParse, versions[1..]);
    }
  }

  // ----- Stats and traces callbacks -----

  /** The agent's answer to a POST: status, the agent-version header, the declared content length,
      the body (`None` when reading it throws) and whether the body deserialises. */
  datatype Response = Response(
    statusCode: int, agentVersionHeader: Option<string>, contentLength: int,
    body: Option<string>, bodyDeserializes: bool)

  /** `request.PostAsync`: it either throws or yields a response. */
  datatype PostResult = PostThrew(exception: Exception) | Responded(response: Response)

  /** Extra request headers the callbacks add. */
  datatype Header = TraceCountHeader(count: int) | ContainerIdHeader(id: string) | ComputedStatsHeader

  /** statsd counters incremented by the traces callback. */
  datatype Metric = ApiRequests | ApiErrors | ApiResponses(statusCode: int)

  /** Fixed configuration of an `Api` instance; a missing statsd client or sample-rate callback is `false`. */
  datatype ApiConfig = ApiConfig(
    containerId: Option<string>, hasStatsd: bool, hasUpdateSampleRates: bool,
    partialFlushEnabled: bool, tracerStatsEnabled: bool)

  /** Mutable state of an `Api` instance: the detected agent version and the last sample-rate body. */
  datatype ApiState = ApiState(agentVersion: Option<string>, cachedResponse: Option<string>)

  predicate IsSuccessStatus(statusCode: int) {
    200 <= statusCode < 300
  }

  function ContainerHeaders(config: ApiConfig): seq<Header> {
    if config.containerId.Some? then [ContainerIdHeader(config.containerId.value)] else []
  }

  /** `SendStatsAsyncImpl`: adds the container header, posts, succeeds exactly on a 2xx status. */
  function SendStats(config: ApiConfig, post: PostResult): (r: (seq<Header>, CallbackOutcome))
    ensures r.1.Threw? <==> post.PostThrew?
    ensures post.PostThrew? ==> r.1.exception == post.exception
    ensures post.Responded? ==> r.1 == Returned(IsSuccessStatus(post.response.statusCode))
    ensures config.containerId.Some? ==> r.0 == [ContainerIdHeader(config.containerId.value)]
    ensures config.containerId.None? ==> r.0 == []
  {
    var headers := ContainerHeaders(config);
    match post
    case PostThrew(e) => (headers, Threw(e))
    case Responded(response) => (headers, Returned(IsSuccessStatus(response.statusCode)))
  }

  /** The attempts of a stats send whose successive posts are `posts`. */
  function StatsAttempts(config: ApiConfig, posts: nat -> PostResult): nat -> Attempt {
    (i: nat) => Called(SendStats(config, posts(i)).1)
  }

  /**
   * A stats send through the retry loop: a 2xx on the first post ends it at
   * once with success; it succeeds only if some post within five got a 2xx,
   * so a post that always throws never succeeds, in either build.
   */
  lemma StatsSendOutcome(config: ApiConfig, posts: nat -> PostResult, build: Build)
    ensures var t := Attempts(StatsAttempts(config, posts), build, 1, InitialSleepMs);
            && (posts(0).Responded? && IsSuccessStatus(posts(0).response.statusCode) ==> t == SendTrace(true, [false], []))
            && (t.result ==> exists k :: 0 <= k < RetryLimit && posts(k).Responded? && IsSuccessStatus(posts(k).response.statusCode))
            && ((forall k :: posts(k).PostThrew?) ==> !t.result)
  {
    var outcomes := StatsAttempts(config, posts);
    SuccessNeedsASuccessfulAttempt(outcomes, build, 1, InitialSleepMs);
    if posts(0).Responded? && IsSuccessStatus(posts(0).response.statusCode) {
      LastStep(outcomes, build, 1, InitialSleepMs);
    }
    if Attempts(outcomes, build, 1, InitialSleepMs).result {
      var k :| 0 <= k < RetryLimit && outcomes(k) == Called(Returned(true));
      assert SendStats(config, posts(k)).1 == Returned(true);
    }
  }

  /** Everything one traces callback invocation produces. `sampleRatesFrom` is the body whose rates were pushed. */
  datatype TracesSend = TracesSend(
    outcome: CallbackOutcome, headers: seq<Header>, metrics: seq<Metric>,
    state: ApiState, sampleRatesFrom: Option<string>, warned: bool)

  /** `SendTracesAsyncImpl` for one attempt, with `Version.TryParse` as `tryParse`. */
  function SendTraces(
    config: ApiConfig, state: ApiState, tryParse: string -> Option<Versions.Version>,
    numberOfTraces: int, post: PostResult): (s: TracesSend)
    ensures s.outcome.Threw? <==> post.PostThrew?
    ensures s.outcome == Returned(true) <==> post.Responded? && IsSuccessStatus(post.response.statusCode)
    ensures s.outcome == Returned(false) <==> post.Responded? && !IsSuccessStatus(post.response.statusCode)
    ensures ApiErrors in s.metrics <==> config.hasStatsd && post.PostThrew?
    ensures !config.hasStatsd ==> s.metrics == []
    ensures |s.headers| > 0 && s.headers[0] == TraceCountHeader(numberOfTraces)
    ensures s.sampleRatesFrom.Some? ==> s.sampleRatesFrom != state.cachedResponse && s.state.cachedResponse == s.sampleRatesFrom
    ensures s.sampleRatesFrom.None? ==> s.state.cachedResponse == state.cachedResponse
    ensures s.warned ==> state.agentVersion.None? && config.partialFlushEnabled
    ensures s.warned <==> && post.Responded? && IsSuccessStatus(post.response.statusCode) && state.agentVersion.None?
                          && LogPartialFlushWarningIfRequired(state.agentVersion, config.partialFlushEnabled, tryParse,
                                                              Some(post.response.agentVersionHeader.GetOr(""))).warned
    ensures s.outcome == Returned(true) ==> s.state.agentVersion.Some?
    ensures post.PostThrew? ==> s.state == state && s.sampleRatesFrom.None? && !s.warned
    ensures post.Responded? && IsSuccessStatus(post.response.statusCode) && state.agentVersion.None?
            ==> s.state.agentVersion == Some(post.response.agentVersionHeader.GetOr(""))
    ensures s.sampleRatesFrom.Some? ==> post.Responded? && s.sampleRatesFrom == post.response.body
    ensures s.headers == [TraceCountHeader(numberOfTraces)] + ContainerHeaders(config)
                         + (if config.tracerStatsEnabled then [ComputedStatsHeader] else [])
    ensures config.hasStatsd && post.PostThrew? ==> s.metrics == [ApiRequests, ApiErrors]
    ensures config.hasStatsd && post.Responded? ==> s.metrics == [ApiRequests, ApiResponses(post.response.statusCode)]
    ensures state.agentVersion.Some? ==> s.state.agentVersion == state.agentVersion
  {
    var headers := [TraceCountHeader(numberOfTraces)] + ContainerHeaders(config)
      + (if config.tracerStatsEnabled then [ComputedStatsHeader] else []);
    var requests := if config.hasStatsd then [ApiRequests] else [];
    match post
    case PostThrew(e) =>
      TracesSend(Threw(e), headers, requests + (if config.hasStatsd then [ApiErrors] else []), state, None, false)
    case Responded(response) =>
      var metrics := requests + (if config.hasStatsd then [ApiResponses(response.statusCode)] else []);
      if !IsSuccessStatus(response.statusCode) then
        TracesSend(Returned(false), headers, metrics, state, None, false)
      else
        var check :=
          if state.agentVersion.None? then
            LogPartialFlushWarningIfRequired(
              state.agentVersion, config.partialFlushEnabled, tryParse, Some(response.agentVersionHeader.GetOr("")))
          else WarningCheck(false, state.agentVersion);
        var versioned := state.(agentVersion := check.storedVersion);
        var readsBody := response.contentLength != 0 && config.hasUpdateSampleRates;
        if readsBody && response.body.Some? && response.body != state.cachedResponse && response.bodyDeserializes then
          TracesSend(Returned(true), headers, metrics, versioned.(cachedResponse := response.body), response.body, check.warned)
        else
          // no body to read, an unchanged body, or a read/deserialise failure, which is logged and swallowed
          TracesSend(Returned(true), headers, metrics, versioned, None, check.warned)
  }

  /** A non-2xx response is a failed attempt that the API-errors counter never sees. */
  lemma ErrorStatusIsNotAnApiError(
    config: ApiConfig, state: ApiState, tryParse: string -> Option<Versions.Version>,
    numberOfTraces: int, response: Response)
    requires !IsSuccessStatus(response.statusCode)
    ensures var s := SendTraces(config, state, tryParse, numberOfTraces, Responded(response));
            s.outcome == Returned(false) && ApiErrors !in s.metrics && s.state == state
  {
  }

  /** After a 2xx, a body that cannot be read or deserialised still yields success and leaves the cache alone. */
  lemma UnreadableBodyStillSucceeds(
    config: ApiConfig, state: ApiState, tryParse: string -> Option<Versions.Version>,
    numberOfTraces: int, response: Response)
    requires IsSuccessStatus(response.statusCode)
    requires response.body.None? || !response.bodyDeserializes
    ensures var s := SendTraces(config, state, tryParse, numberOfTraces, Responded(response));
            s.outcome == Returned(true) && s.sampleRatesFrom.None? && s.state.cachedResponse == state.cachedResponse
  {
  }

  /** Sample rates are pushed exactly when a readable, deserialisable body differs from the cached one. */
  lemma SampleRatesPushedOnlyOnChange(
    config: ApiConfig, state: ApiState, tryParse: string -> Option<Versions.Version>,
    numberOfTraces: int, response: Response)
    requires IsSuccessStatus(response.statusCode)
    ensures var s := SendTraces(config, state, tryParse, numberOfTraces, Responded(response));
            s.sampleRatesFrom.Some? <==>
              && response.contentLength != 0 && config.hasUpdateSampleRates
              && response.body.Some? && response.body != state.cachedResponse && response.bodyDeserializes
  {
  }

  /**
   * The partial-flush check runs on the first successful traces send only:
   * once an agent version is known, later sends never warn and keep it.
   */
  lemma {:induction false} PartialFlushCheckedOnce(
    config: ApiConfig, state: ApiState, tryParse: string -> Option<Versions.Version>,
    n1: int, r1: Response, n2: int, post2: PostResult)
    requires IsSuccessStatus(r1.statusCode)
    ensures var s1 := SendTraces(config, state, tryParse, n1, Responded(r1));
            var s2 := SendTraces(config, s1.state, tryParse, n2, post2);
            !s2.warned && s2.state.agentVersion == s1.state.agentVersion
  {
    var s1 := SendTraces(config, state, tryParse, n1, Responded(r1));
    assert s1.state.agentVersion.Some?;
  }
}
