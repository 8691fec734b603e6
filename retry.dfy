/** The retry policy both crawlers put around their request methods:
    tenacity's `@retry(wait=wait_fixed(1), stop=stop_after_attempt(5))`.
    Every exception is retried; after the fifth failed attempt the call fails
    with a `RetryError` that carries the last attempt's exception. */
module Retry {
  import opened Wrappers
  import opened Document

  /** `stop_after_attempt(5)`. */
  const MAX_ATTEMPTS: nat := 5

  /** What a retried call ends with: the first successful result, or the
      `RetryError` raised after the last attempt failed. */
  datatype Outcome<T> = Done(value: T) | GaveUp(last: Error)

  /** `r` and `attempts` are what retrying `step` produces: attempts are made
      one after the other (attempt `k` is `step(k)`), every attempt before the
      last one failed, and the last one either succeeded or was the fifth. */
  ghost predicate RetriedAs<T>(step: nat -> Result<T, Error>, r: Outcome<T>, attempts: nat) {
    && 1 <= attempts <= MAX_ATTEMPTS
    && (forall k :: 0 <= k < attempts - 1 ==> step(k).Failure?)
    && match r
       case Done(v) => step(attempts - 1) == Success(v)
       case GaveUp(e) => attempts == MAX_ATTEMPTS && step(attempts - 1) == Failure(e)
  }

  /** The decorator's loop around one fallible step. */
  method Call<T>(step: nat -> Result<T, Error>) returns (r: Outcome<T>, attempts: nat)
    ensures RetriedAs(step, r, attempts)
  {
    attempts := 0;
    while true
      invariant attempts < MAX_ATTEMPTS
      invariant forall k :: 0 <= k < attempts ==> step(k).Failure?
      decreases MAX_ATTEMPTS - attempts
    {
      var outcome := step(attempts);
      attempts := attempts + 1;
      if outcome.Success? {
        return Done(outcome.value), attempts;
      }
      if attempts == MAX_ATTEMPTS {
        return GaveUp(outcome.error), attempts;
      }
      // wait_fixed(1): the one-second pause before the next attempt
    }
  }

  /** A step that fails `n - 1` times and then succeeds (with `n <= 5`) is
      attempted exactly `n` times, and the call returns that success. */
  lemma FirstSuccessWins<T>(step: nat -> Result<T, Error>, n: nat, r: Outcome<T>, attempts: nat)
    requires 1 <= n <= MAX_ATTEMPTS
    requires forall k :: 0 <= k < n - 1 ==> step(k).Failure?
    requires step(n - 1).Success?
    requires RetriedAs(step, r, attempts)
    ensures attempts == n && r == Done(step(n - 1).value)
  {
  }

  /** A step that always fails is attempted exactly five times, and the call
      fails with the fifth attempt's error. */
  lemma AllFailuresGiveUp<T>(step: nat -> Result<T, Error>, r: Outcome<T>, attempts: nat)
    requires forall k :: 0 <= k < MAX_ATTEMPTS ==> step(k).Failure?
    requires RetriedAs(step, r, attempts)
    ensures attempts == MAX_ATTEMPTS && r == GaveUp(step(MAX_ATTEMPTS - 1).error)
  {
  }

  /** The outcome is determined by the step alone. */
  lemma RetriedAsUnique<T>(step: nat -> Result<T, Error>, r1: Outcome<T>, a1: nat, r2: Outcome<T>, a2: nat)
    requires RetriedAs(step, r1, a1) && RetriedAs(step, r2, a2)
    ensures r1 == r2 && a1 == a2
  {
  }
}
