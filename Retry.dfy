/**
 * Retry with exponential backoff (`retryWithBackoff` in utils/axiosConfig.js).
 *
 * The wrapped call `fn` is given by what each of its invocations does: `fn(k)`
 * is the outcome of the k-th invocation (0-based). Sleeping is not performed;
 * the delays slept between attempts are returned in order.
 */
module Retry {
  import opened Wrappers

  /** A thrown error; `status` is `error.response.status` when the error carries a response. */
  datatype HttpError = HttpError(status: Option<int>)

  /** What one invocation of `fn` did. */
  datatype CallOutcome<T> = Resolved(value: T) | Rejected(error: HttpError)

  /**
   * How `retryWithBackoff` ends: it returns a value, or it throws. `Thrown(None)`
   * is the `throw lastError` of a loop that never ran, which throws `undefined`.
   */
  datatype RetryResult<T> = Returned(value: T) | Thrown(error: Option<HttpError>)

  const DefaultMaxRetries: int := 3
  const DefaultBaseDelay: int := 1000

  /** A client error (HTTP 4xx) is never retried. */
  predicate IsClientError(e: HttpError) {
    e.status.Some? && 400 <= e.status.value < 500
  }

  /** A failure that is worth another attempt: thrown, and not a client error. */
  predicate IsTransient<T>(o: CallOutcome<T>) {
    o.Rejected? && !IsClientError(o.error)
  }

  /** What the caller sees when an attempt's outcome is passed straight through. */
  function Surfaced<T>(o: CallOutcome<T>): RetryResult<T> {
    match o
    case Resolved(v) => Returned(v)
    case Rejected(e) => Thrown(Some(e))
  }

  /** `Math.pow(2, k)`. */
  function Pow2(k: nat): (p: nat)
    ensures p >= 1
  {
    if k == 0 then 1 else 2 * Pow2(k - 1)
  }

  function Sum(xs: seq<int>): int {
    if xs == [] then 0 else Sum(xs[..|xs| - 1]) + xs[|xs| - 1]
  }

  /** The first `n` backoff delays `baseDelay * 2^k`. */
  predicate IsBackoffSchedule(delays: seq<int>, baseDelay: int) {
    forall k :: 0 <= k < |delays| ==> delays[k] == baseDelay * Pow2(k)
  }

  /** The delays of a backoff schedule add up to `baseDelay * (2^n - 1)`. */
  lemma {:induction false} BackoffTotal(delays: seq<int>, baseDelay: int)
    requires IsBackoffSchedule(delays, baseDelay)
    ensures Sum(delays) == baseDelay * (Pow2(|delays|) - 1)
  {
    if delays != [] {
      var n := |delays| - 1;
      BackoffTotal(delays[..n], baseDelay);
      calc {
        Sum(delays);
        Sum(delays[..n]) + delays[n];
        baseDelay * (Pow2(n) - 1) + baseDelay * Pow2(n);
        baseDelay * (2 * Pow2(n) - 1);
      }
    }
  }

  /**
   * The backoff delays at the default base delay, when there are at most as
   * many as the default budget of 3 attempts leaves room for: 1 s, then 2 s,
   * 3 s in all.
   */
  lemma DefaultSchedule(delays: seq<int>)
    requires |delays| <= DefaultMaxRetries - 1 && IsBackoffSchedule(delays, DefaultBaseDelay)
    ensures delays == [1000, 2000][..|delays|]
    ensures Sum(delays) <= 3000
  {
    BackoffTotal(delays, DefaultBaseDelay);
    assert Pow2(1) == 2 && Pow2(2) == 4;
  }

  /**
   * `retryWithBackoff(fn, maxRetries, baseDelay)`. `calls` is how many times
   * `fn` was invoked and `delays` the sleeps taken, in order.
   */
  method RetryWithBackoff<T>(fn: nat -> CallOutcome<T>, maxRetries: int, baseDelay: int)
    returns (result: RetryResult<T>, calls: nat, delays: seq<int>)
    // fn is invoked at most maxRetries times, and never when maxRetries <= 0
    ensures calls <= maxRetries || calls == 0
    ensures calls == 0 <==> maxRetries <= 0
    ensures calls == 0 ==> result == Thrown(None)
    // every attempt but the last failed transiently ...
    ensures forall k :: 0 <= k < calls - 1 ==> IsTransient(fn(k))
    // ... and the last one's outcome is what the caller sees, unchanged
    ensures calls > 0 ==> result == Surfaced(fn(calls - 1))
    // a failed last attempt is a client error or the attempt budget's end
    ensures calls > 0 && fn(calls - 1).Rejected? ==>
              IsClientError(fn(calls - 1).error) || calls == maxRetries
    // one sleep after each retried failure, never after the last attempt
    ensures |delays| == if calls == 0 then 0 else calls - 1
    ensures IsBackoffSchedule(delays, baseDelay)
    ensures Sum(delays) == baseDelay * (Pow2(|delays|) - 1)
    // with the default arguments a caller sleeps at most twice, 1 s and then 2 s
    ensures maxRetries == DefaultMaxRetries && baseDelay == DefaultBaseDelay ==>
              |delays| <= 2 && delays == [1000, 2000][..|delays|] && Sum(delays) <= 3000
    // when every attempt fails transiently, all maxRetries are made and the last error surfaces
    ensures maxRetries > 0 && (forall k :: 0 <= k < maxRetries ==> IsTransient(fn(k))) ==>
              calls == maxRetries && result == Thrown(Some(fn(maxRetries - 1).error))
  {
    var lastError: Option<HttpError> := None;
    var attempt := 0;
    calls, delays := 0, [];
    while attempt < maxRetries
      invariant attempt == 0 || attempt < maxRetries
      invariant calls == attempt
      invariant forall k :: 0 <= k < attempt ==> IsTransient(fn(k))
      invariant lastError == if attempt == 0 then None else Some(fn(attempt - 1).error)
      invariant |delays| == attempt && IsBackoffSchedule(delays, baseDelay)
    {
      var outcome := fn(attempt);
      calls := calls + 1;
      match outcome {
        case Resolved(v) =>
          result := Returned(v);
          BackoffTotal(delays, baseDelay);
          DefaultsCapSleeps(delays, maxRetries, baseDelay);
          return;
        case Rejected(e) =>
          lastError := Some(e);
          if IsClientError(e) {
            result := Thrown(Some(e));
            BackoffTotal(delays, baseDelay);
            DefaultsCapSleeps(delays, maxRetries, baseDelay);
            return;
          }
          if attempt == maxRetries - 1 {
            result := Thrown(Some(e));
            BackoffTotal(delays, baseDelay);
            DefaultsCapSleeps(delays, maxRetries, baseDelay);
            return;
          }
          delays := delays + [baseDelay * Pow2(attempt)];
          attempt := attempt + 1;
      }
    }
    result := Thrown(lastError);
  }

  /** The sleeps taken before an attempt inside the budget, at the default arguments. */
  lemma DefaultsCapSleeps(delays: seq<int>, maxRetries: int, baseDelay: int)
    requires |delays| < maxRetries && IsBackoffSchedule(delays, baseDelay)
    ensures maxRetries == DefaultMaxRetries && baseDelay == DefaultBaseDelay ==>
              |delays| <= 2 && delays == [1000, 2000][..|delays|] && Sum(delays) <= 3000
  {
    if maxRetries == DefaultMaxRetries && baseDelay == DefaultBaseDelay {
      DefaultSchedule(delays);
    }
  }
}
