/**
 The gateway's retry loop around the circuit breaker. The k-th fire's outcome is an oracle; a
 failure also says whether response headers had been sent by then. Waiting is the list of
 delays requested from the timer.
 */
module GatewayRetry {
  import opened Wrappers

  datatype GatewayError = GatewayError(kind: Option<string>, message: Option<string>)

  datatype Outcome = Success | Failure(error: GatewayError, headersSent: bool)

  const IDEMPOTENT_METHODS: seq<string> := ["GET", "HEAD", "OPTIONS"]

  predicate Includes(s: string, part: string) {
    part <= s || (s != [] && Includes(s[1..], part))
  }

  /** The breaker is open or the bulkhead is exhausted. */
  predicate Fatal(error: GatewayError) {
    || error.kind == Some("open")
    || error.kind == Some("system-overload")
    || (error.message.Some? && Includes(error.message.value, "Bulkhead"))
  }

  function Pow2(k: nat): (p: nat)
    ensures p >= 1
  {
    if k == 0 then 1 else 2 * Pow2(k - 1)
  }

  function Sum(xs: seq<int>): int {
    if xs == [] then 0 else Sum(xs[..|xs| - 1]) + xs[|xs| - 1]
  }

  predicate IsBackoff(delays: seq<int>, baseMs: int) {
    forall k :: 0 <= k < |delays| ==> delays[k] == baseMs * Pow2(k)
  }

  /** Doubling delays add up to one base less than the next delay. */
  lemma {:induction false} BackoffTotal(delays: seq<int>, baseMs: int)
    requires IsBackoff(delays, baseMs)
    ensures Sum(delays) == baseMs * (Pow2(|delays|) - 1)
  {
    if delays != [] {
      var n := |delays| - 1;
      BackoffTotal(delays[..n], baseMs);
      assert delays[n] == baseMs * Pow2(n);
    }
  }

  // ---------------------------------------------------------------------------------------
  // What the loop must do, without reference to how it decides

  /** Only these verbs are retried at all. */
  ghost function RetryLimit(verb: string, retryCount: int): int {
    if verb == "GET" || verb == "HEAD" || verb == "OPTIONS" then retryCount else 0
  }

  /** No retry follows a success, an open or overloaded breaker, a full bulkhead or headers already sent. */
  ghost predicate MustStop(o: Outcome) {
    || o.Success?
    || o.headersSent
    || o.error.kind == Some("open") || o.error.kind == Some("system-overload")
    || (o.error.message.Some? && exists before, after :: o.error.message.value == before + "Bulkhead" + after)
  }

  /** Every fire before the last allowed a retry; the last one did not, or used up the retries. */
  ghost predicate StopsAfter(outcomes: nat -> Outcome, maxRetries: nat, fired: nat) {
    && 1 <= fired <= maxRetries + 1
    && (forall k: nat :: k < fired - 1 ==> !MustStop(outcomes(k)))
    && (!MustStop(outcomes(fired - 1)) ==> fired == maxRetries + 1)
  }

  /** The oracle and the retry limit determine where the loop stops. */
  lemma {:induction false} StopIsUnique(outcomes: nat -> Outcome, maxRetries: nat, a: nat, b: nat)
    requires StopsAfter(outcomes, maxRetries, a) && StopsAfter(outcomes, maxRetries, b)
    ensures a == b
  {
    var lastA: nat, lastB: nat := a - 1, b - 1;
    assert !MustStop(outcomes(lastA)) || lastB <= lastA;
    assert !MustStop(outcomes(lastB)) || lastA <= lastB;
  }

  /** A string includes another exactly if it splits around it. */
  lemma {:induction false} IncludesMeans(s: string, part: string)
    ensures Includes(s, part) <==> exists before, after :: s == before + part + after
  {
    if part <= s {
      assert s == [] + part + s[|part|..];
    } else if s != [] {
      IncludesMeans(s[1..], part);
      if before, after :| s[1..] == before + part + after {
        assert s == ([s[0]] + before) + part + after;
      }
    }
    if before, after :| s == before + part + after {
      SplitIncludes(before, part, after);
    }
  }

  lemma {:induction false} SplitIncludes(before: string, part: string, after: string)
    ensures Includes(before + part + after, part)
  {
    if before != [] {
      assert (before + part + after)[1..] == before[1..] + part + after;
      SplitIncludes(before[1..], part, after);
    }
  }

  lemma {:induction false} FatalMustStop(o: Outcome)
    requires o.Failure?
    ensures MustStop(o) <==> Fatal(o.error) || o.headersSent
  {
    if o.error.message.Some? {
      IncludesMeans(o.error.message.value, "Bulkhead");
    }
  }

  /**
   Returns exactly when the last fired attempt succeeded and otherwise throws that attempt's
   error. A negative limit, which the configuration does not exclude, fires nothing and returns.
   */
  method ExecuteWithRetry(verb: string, retryCount: int, retryDelayMs: int, outcomes: nat -> Outcome)
    returns (result: Result<(), GatewayError>, fired: nat, delays: seq<int>)
    ensures RetryLimit(verb, retryCount) < 0 ==> fired == 0 && result == Ok(()) && delays == []
    ensures RetryLimit(verb, retryCount) >= 0 ==>
              && StopsAfter(outcomes, RetryLimit(verb, retryCount), fired)
              && result == (match outcomes(fired - 1) case Success => Ok(()) case Failure(e, _) => Err(e))
              && |delays| == fired - 1
              && IsBackoff(delays, retryDelayMs)
              && Sum(delays) == retryDelayMs * (Pow2(fired - 1) - 1)
    ensures fired != 1 ==> verb == "GET" || verb == "HEAD" || verb == "OPTIONS"
  {
    var maxRetries := if verb in IDEMPOTENT_METHODS then retryCount else 0;
    fired, delays := 0, [];
    var attempt: nat := 0;
    while attempt <= maxRetries
      invariant fired == attempt == |delays|
      invariant maxRetries >= 0 ==> attempt <= maxRetries
      invariant maxRetries < 0 ==> attempt == 0
      invariant forall k: nat :: k < attempt ==> !MustStop(outcomes(k))
      invariant IsBackoff(delays, retryDelayMs)
      decreases maxRetries - attempt
    {
      BackoffTotal(delays, retryDelayMs);
      var outcome := outcomes(fired);
      fired := fired + 1;
      if outcome.Success? {
        return Ok(()), fired, delays;
      }
      FatalMustStop(outcome);
      if Fatal(outcome.error) {
        return Err(outcome.error), fired, delays;
      }
      if attempt >= maxRetries {
        return Err(outcome.error), fired, delays;
      }
      if outcome.headersSent {
        return Err(outcome.error), fired, delays;
      }
      delays := delays + [retryDelayMs * Pow2(attempt)];
      attempt := attempt + 1;
    }
    result := Ok(());
  }
}
