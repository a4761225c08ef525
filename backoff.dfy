/** `retryWithBackoff`, the loop each model adapter wraps its request in: call `fn`, and on a
    rate-limit (429) or unavailable (503) status wait an exponentially growing delay plus random
    jitter and call again, at most `retries` more times; any other error, or one error too many,
    is rethrown. The adapters differ only in where they read the status. */
module Backoff {
  import opened Common

  /** The two places a thrown error may carry an HTTP status: `err.status` (the Anthropic SDK)
      and `err.response.status` (axios). */
  datatype Error = Error(status: Option<int>, responseStatus: Option<int>)

  datatype StatusField = ErrStatus | ResponseStatus

  /** What one call of `fn` does: resolve with a value or throw. */
  datatype Outcome<T> = Ok(value: T) | Failed(error: Error)

  function StatusOf(e: Error, field: StatusField): Option<int> {
    match field
    case ErrStatus => e.status
    case ResponseStatus => e.responseStatus
  }

  predicate Retryable(status: Option<int>) {
    status == Some(429) || status == Some(503)
  }

  function Pow2(n: nat): (r: nat)
    ensures r >= 1
  {
    if n == 0 then 1 else 2 * Pow2(n - 1)
  }

  /** `Math.floor(baseDelay * Math.pow(2, attempt - 1))` for an integer base delay. */
  function DelayBefore(baseDelay: int, attempt: nat): int
    requires attempt >= 1
  {
    baseDelay * Pow2(attempt - 1)
  }

  /** `j` is a possible `Math.floor(Math.random() * delay)` for a random number in [0, 1). */
  predicate JitterFor(delay: int, j: int) {
    if delay > 0 then 0 <= j < delay
    else if delay == 0 then j == 0
    else delay <= j <= 0
  }

  /** `fn(k)` is what the (k+1)-th call does; the jitter is chosen nondeterministically and
      `waits` lists the sleeps in order. The caller's options carry no retry predicate that the
      loop would read, so nothing but the status decides; a `shouldRetry` option is ignored. */
  method RetryWithBackoff<T>(fn: nat -> Outcome<T>, retries: int, baseDelay: int, field: StatusField)
    returns (result: Outcome<T>, calls: nat, waits: seq<int>)
    ensures 1 <= calls <= Max(retries, 0) + 1
    ensures result == fn(calls - 1)
    ensures forall k :: 0 <= k < calls - 1 ==> fn(k).Failed? && Retryable(StatusOf(fn(k).error, field))
    ensures result.Failed? ==> calls > retries || !Retryable(StatusOf(result.error, field))
    ensures |waits| == calls - 1
    ensures forall k :: 0 <= k < |waits| ==>
              JitterFor(DelayBefore(baseDelay, k + 1), waits[k] - DelayBefore(baseDelay, k + 1))
  {
    var attempt: nat := 0;
    waits := [];
    while true
      invariant attempt <= Max(retries, 0)
      invariant |waits| == attempt
      invariant forall k :: 0 <= k < attempt ==> fn(k).Failed? && Retryable(StatusOf(fn(k).error, field))
      invariant forall k :: 0 <= k < |waits| ==>
                  JitterFor(DelayBefore(baseDelay, k + 1), waits[k] - DelayBefore(baseDelay, k + 1))
      decreases Max(retries, 0) - attempt
    {
      var outcome := fn(attempt);
      if outcome.Ok? {
        return outcome, attempt + 1, waits;
      }
      attempt := attempt + 1;
      var status := StatusOf(outcome.error, field);
      if attempt > retries || (status != Some(429) && status != Some(503)) {
        return outcome, attempt, waits;
      }
      var delay := baseDelay * Pow2(attempt - 1);
      assert JitterFor(delay, 0);
      var jitter :| JitterFor(delay, jitter);
      waits := waits + [delay + jitter];
    }
  }

  /** Sum of a list of waits. */
  function TotalWait(ws: seq<int>): int {
    if ws == [] then 0 else TotalWait(ws[..|ws| - 1]) + ws[|ws| - 1]
  }

  /** With a non-negative base, the total sleep before the n-th retry lies between
      base·(2^n − 1) and twice that, exclusive once anything is waited. */
  lemma {:induction false} TotalWaitBounds(ws: seq<int>, baseDelay: int)
    requires baseDelay >= 0
    requires forall k :: 0 <= k < |ws| ==>
               JitterFor(DelayBefore(baseDelay, k + 1), ws[k] - DelayBefore(baseDelay, k + 1))
    ensures baseDelay * (Pow2(|ws|) - 1) <= TotalWait(ws) <= 2 * baseDelay * (Pow2(|ws|) - 1)
    ensures baseDelay > 0 && ws != [] ==> TotalWait(ws) < 2 * baseDelay * (Pow2(|ws|) - 1)
  {
    if ws != [] {
      var n := |ws|;
      var front := ws[..n - 1];
      assert forall k :: 0 <= k < |front| ==> front[k] == ws[k];
      TotalWaitBounds(front, baseDelay);
      assert TotalWait(ws) == TotalWait(front) + ws[n - 1];
      assert Pow2(n) == 2 * Pow2(n - 1);
      DoublingStep(baseDelay, Pow2(n - 1), TotalWait(front), ws[n - 1]);
    }
  }

  /** One induction step of `TotalWaitBounds` as plain arithmetic: a prefix total for p − 1
      delays plus one wait in [b·p, 2·b·p) gives a total for 2p − 1. */
  lemma DoublingStep(b: int, p: int, front: int, w: int)
    requires b >= 0 && p >= 1
    requires b * (p - 1) <= front <= 2 * b * (p - 1)
    requires JitterFor(b * p, w - b * p)
    ensures b * (2 * p - 1) <= front + w <= 2 * b * (2 * p - 1)
    ensures b > 0 ==> front + w < 2 * b * (2 * p - 1)
  {
    assert b * p >= 0;
    assert b * (2 * p - 1) == b * (p - 1) + b * p;
    assert b > 0 ==> b * p > 0;
  }

  /** The delays the adapters' settings (base 500 ms, five retries) produce. */
  lemma DefaultDelays()
    ensures DelayBefore(500, 1) == 500 && DelayBefore(500, 2) == 1000 && DelayBefore(500, 3) == 2000
    ensures DelayBefore(500, 4) == 4000 && DelayBefore(500, 5) == 8000
    ensures 500 * (Pow2(5) - 1) == 15500
  {
    assert Pow2(1) == 2 && Pow2(2) == 4 && Pow2(3) == 8 && Pow2(4) == 16 && Pow2(5) == 32;
  }
}
