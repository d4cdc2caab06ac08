/**
 * `post_with_retry`: a POST to the language-model service that is repeated
 * with exponential back-off while the service answers 429 (Too Many
 * Requests). The network is an oracle giving the outcome of the n-th request
 * (1-based); the random jitter is chosen nondeterministically; the sleeps are
 * returned in milliseconds instead of being slept.
 */
module Retry {
  import opened Wrappers

  datatype PostError =
    | Transport          // `requests.post` itself raised (timeout, connection refused)
    | HttpStatus(code: int)  // `raise_for_status` raised on a 4xx or 5xx answer
    | RateLimited        // ModelError: every attempt answered 429

  const TooManyRequests := 429
  /** `random.uniform(0, 0.5)` seconds, in milliseconds. */
  const JitterMaxMs := 500

  function Pow2(n: nat): (r: nat)
    ensures r >= 1
  {
    if n == 0 then 1 else 2 * Pow2(n - 1)
  }

  /** The deterministic part of the wait after the attempt numbered `j + 1`. */
  function Backoff(baseDelayMs: nat, j: nat): nat {
    baseDelayMs * Pow2(j)
  }

  /** What one answer makes of the call: a transport failure, an HTTP error status, or the response. */
  function Respond(answer: Option<int>): (r: Result<int, PostError>)
    ensures answer.None? ==> r == Err(Transport)
    ensures answer.Some? && 400 <= answer.value < 600 ==> r == Err(HttpStatus(answer.value))
    ensures answer.Some? && !(400 <= answer.value < 600) ==> r == Ok(answer.value)
  {
    match answer
    case None => Err(Transport)
    case Some(c) => if 400 <= c < 600 then Err(HttpStatus(c)) else Ok(c)
  }

  /** The first attempt in `i..last` whose answer is not 429. */
  function FirstNotRateLimited(answers: nat -> Option<int>, i: nat, last: int): (r: Option<nat>)
    ensures r.Some? ==> i <= r.value <= last && answers(r.value) != Some(TooManyRequests)
    ensures r.Some? ==> forall j :: i <= j < r.value ==> answers(j) == Some(TooManyRequests)
    ensures r.None? ==> forall j :: i <= j <= last ==> answers(j) == Some(TooManyRequests)
    decreases last - i
  {
    if i > last then None
    else if answers(i) != Some(TooManyRequests) then Some(i)
    else FirstNotRateLimited(answers, i + 1, last)
  }

  function MaxRequests(maxRetries: int): nat {
    if maxRetries < 0 then 0 else maxRetries
  }

  /**
   * `post_with_retry(url, payload, headers, max_retries, base_delay)`. The
   * first answer other than 429 decides the call; each 429 is followed by a
   * wait of `base * 2^(n-1)` plus up to 0.5 s of jitter, also after the last
   * attempt; when all `max_retries` attempts are 429 the call fails with
   * RateLimited.
   */
  method PostWithRetry(answers: nat -> Option<int>, maxRetries: int, baseDelayMs: nat)
    returns (r: Result<int, PostError>, sent: nat, sleeps: seq<nat>)
    ensures var first := FirstNotRateLimited(answers, 1, maxRetries);
      first.Some? ==> sent == first.value && |sleeps| == sent - 1 && r == Respond(answers(sent))
    ensures var first := FirstNotRateLimited(answers, 1, maxRetries);
      first.None? ==> sent == MaxRequests(maxRetries) && |sleeps| == sent && r == Err(RateLimited)
    ensures sent <= MaxRequests(maxRetries)
    ensures forall j :: 0 <= j < |sleeps| ==>
      Backoff(baseDelayMs, j) <= sleeps[j] <= Backoff(baseDelayMs, j) + JitterMaxMs
  {
    sent := 0;
    sleeps := [];
    var attempt := 1;
    while attempt <= maxRetries
      invariant 1 <= attempt <= MaxRequests(maxRetries) + 1
      invariant sent == attempt - 1 && |sleeps| == sent
      invariant forall j :: 1 <= j < attempt ==> answers(j) == Some(TooManyRequests)
      invariant forall j :: 0 <= j < |sleeps| ==>
        Backoff(baseDelayMs, j) <= sleeps[j] <= Backoff(baseDelayMs, j) + JitterMaxMs
    {
      var answer := answers(attempt);
      sent := sent + 1;
      if answer != Some(TooManyRequests) {
        r := Respond(answer);
        return;
      }
      var jitter :| 0 <= jitter <= JitterMaxMs;
      sleeps := sleeps + [baseDelayMs * Pow2(attempt - 1) + jitter];
      attempt := attempt + 1;
    }
    r := Err(RateLimited);
  }

  function Sum(xs: seq<nat>): nat {
    if xs == [] then 0 else xs[0] + Sum(xs[1..])
  }

  function BackoffTotal(baseDelayMs: nat, n: nat): nat {
    if n == 0 then 0 else BackoffTotal(baseDelayMs, n - 1) + Backoff(baseDelayMs, n - 1)
  }

  /** The deterministic waits double each time, so `n` of them add up to `base * (2^n - 1)`. */
  lemma {:induction false} BackoffTotalClosedForm(baseDelayMs: nat, n: nat)
    ensures BackoffTotal(baseDelayMs, n) == baseDelayMs * (Pow2(n) - 1)
  {
    if n > 0 {
      BackoffTotalClosedForm(baseDelayMs, n - 1);
      var p := Pow2(n - 1);
      assert BackoffTotal(baseDelayMs, n) == baseDelayMs * (p - 1) + baseDelayMs * p;
      DoublingStep(baseDelayMs, p);
      assert Pow2(n) == 2 * p;
    }
  }

  lemma DoublingStep(b: int, p: int)
    ensures b * (p - 1) + b * p == b * (2 * p - 1)
  {
  }

  lemma SumAppend(xs: seq<nat>, x: nat)
    ensures Sum(xs + [x]) == Sum(xs) + x
  {
    if xs != [] {
      assert (xs + [x])[1..] == xs[1..] + [x];
      SumAppend(xs[1..], x);
    }
  }

  /**
   * Any sleep schedule the call can produce totals between the deterministic
   * back-off and that plus the maximal jitter of every wait.
   */
  lemma {:induction false} TotalSleepBounds(baseDelayMs: nat, sleeps: seq<nat>)
    requires forall j :: 0 <= j < |sleeps| ==>
      Backoff(baseDelayMs, j) <= sleeps[j] <= Backoff(baseDelayMs, j) + JitterMaxMs
    ensures baseDelayMs * (Pow2(|sleeps|) - 1) <= Sum(sleeps) <= baseDelayMs * (Pow2(|sleeps|) - 1) + JitterMaxMs * |sleeps|
    decreases |sleeps|
  {
    BackoffTotalClosedForm(baseDelayMs, |sleeps|);
    if sleeps != [] {
      var init := sleeps[..|sleeps| - 1];
      assert sleeps == init + [sleeps[|sleeps| - 1]];
      TotalSleepBounds(baseDelayMs, init);
      SumAppend(init, sleeps[|sleeps| - 1]);
      BackoffTotalClosedForm(baseDelayMs, |init|);
    }
  }
}
