/** The retry loop of the GitHub client: what is sent again, how often, and for how long it sleeps. */
module GitHubRetry {
  import opened Wrappers

  datatype RetryPolicy = RetryPolicy(maxAttempts: int, baseDelay: real, maxDelay: real, maxRateLimitWait: real)

  /** The parts of an answer the loop looks at. */
  datatype Answer =
    | TransportFailed(timeout: bool)
    | Response(status: int, remaining: Option<string>, retryAfter: Option<string>, reset: Option<string>, mentionsRateLimit: bool)

  datatype SendError = Unavailable(timeout: bool) | RateLimited(wait: real) | ServerError(status: int) | OtherError(status: int)

  function Max(a: real, b: real): real {
    if a >= b then a else b
  }

  function Min(a: real, b: real): real {
    if a <= b then a else b
  }

  /** `text.isascii() and text.isdigit()`, and then its value. */
  function DigitsValue(text: string): Option<nat> {
    if text == "" then None
    else if |text| == 1 then DigitValue(text[0])
    else
      var rest, last := DigitsValue(text[..|text| - 1]), DigitValue(text[|text| - 1]);
      if rest.Some? && last.Some? then Some(rest.value * 10 + last.value) else None
  }

  function DigitValue(c: char): Option<nat> {
    if '0' <= c <= '9' then Some(c as int - '0' as int) else None
  }

  /** `_rate_limit_wait`: how long GitHub asks to wait, if the answer is a rate limit. */
  function RateLimitWait(answer: Answer, now: real): Option<real>
    requires answer.Response?
  {
    var limited := answer.status == 429
      || (answer.status == 403 && (answer.remaining == Some("0") || answer.retryAfter.Some? || answer.mentionsRateLimit));
    if !limited then None
    else
      var retryAfter := DigitsValue(answer.retryAfter.GetOr(""));
      var reset := DigitsValue(answer.reset.GetOr(""));
      if retryAfter.Some? then Some(retryAfter.value as real)
      else if answer.remaining == Some("0") && reset.Some? then Some(Max(0.0, reset.value as real - now))
      else Some(60.0)
  }

  function PowerOfTwo(n: nat): real {
    if n == 0 then 1.0 else 2.0 * PowerOfTwo(n - 1)
  }

  /** `_backoff` for the attempt that just failed (counted from 1). */
  function Backoff(policy: RetryPolicy, jitter: real -> real, attempt: nat): real
    requires attempt > 0
  {
    Max(0.0, jitter(Min(policy.maxDelay, policy.baseDelay * PowerOfTwo(attempt - 1))))
  }

  function Attempts(policy: RetryPolicy): nat {
    if policy.maxAttempts > 1 then policy.maxAttempts else 1
  }

  predicate Succeeded(answer: Answer) {
    answer.Response? && 200 <= answer.status < 300
  }

  /** The sleep after which an answer is tried again, if it may be. */
  function RetrySleep(policy: RetryPolicy, jitter: real -> real, idempotent: bool, answer: Answer, now: real, attempt: nat): Option<real>
    requires attempt > 0
  {
    if attempt >= Attempts(policy) || Succeeded(answer) then None
    else if answer.TransportFailed? then (if idempotent then Some(Backoff(policy, jitter, attempt)) else None)
    else
      var wait := RateLimitWait(answer, now);
      if wait.Some? then (if wait.value <= policy.maxRateLimitWait then Some(Max(wait.value, 1.0)) else None)
      else if answer.status >= 500 && idempotent then Some(Backoff(policy, jitter, attempt))
      else None
  }

  /** What the caller gets for the last answer. */
  function Outcome(answer: Answer, now: real): Result<int, SendError> {
    if answer.TransportFailed? then Err(Unavailable(answer.timeout))
    else if Succeeded(answer) then Ok(answer.status)
    else
      var wait := RateLimitWait(answer, now);
      if wait.Some? then Err(RateLimited(wait.value))
      else if answer.status >= 500 then Err(ServerError(answer.status))
      else Err(OtherError(answer.status))
  }

  function Total(sleeps: seq<real>): real {
    if sleeps == [] then 0.0 else Total(sleeps[..|sleeps| - 1]) + sleeps[|sleeps| - 1]
  }

  /** No single sleep is longer than this. */
  function LongestSleep(policy: RetryPolicy): (longest: real)
    ensures longest >= 1.0
  {
    Max(Max(policy.maxRateLimitWait, policy.maxDelay), 1.0)
  }

  ghost predicate Shortens(jitter: real -> real) {
    forall delay :: jitter(delay) <= delay
  }

  /** An answer was a rate limit. */
  predicate IsRateLimit(answer: Answer, now: real) {
    answer.Response? && !Succeeded(answer) && RateLimitWait(answer, now).Some?
  }

  lemma SleepIsBounded(policy: RetryPolicy, jitter: real -> real, idempotent: bool, answer: Answer, now: real, attempt: nat)
    requires attempt > 0 && Shortens(jitter)
    ensures
      var sleep := RetrySleep(policy, jitter, idempotent, answer, now, attempt);
      sleep.Some? ==> 0.0 <= sleep.value <= LongestSleep(policy) && (idempotent || IsRateLimit(answer, now))
  {
  }

  lemma {:induction false} TotalIsBounded(sleeps: seq<real>, longest: real)
    requires longest >= 0.0 && forall i :: 0 <= i < |sleeps| ==> sleeps[i] <= longest
    ensures Total(sleeps) <= |sleeps| as real * longest
  {
    if sleeps != [] {
      TotalIsBounded(sleeps[..|sleeps| - 1], longest);
      var n := |sleeps|;
      assert n as real * longest == (n - 1) as real * longest + longest;
    }
  }

  lemma FewerSleeps(n: nat, most: nat, longest: real)
    requires n <= most && longest >= 0.0
    ensures n as real * longest <= most as real * longest
  {
  }

  /**
   `_send`: `answers[k]` and `clock[k]` are what attempt k + 1 would get. It
   sends at most the allowed number of times, sends again exactly while the
   answers may be retried, never re-sends a request that is not idempotent except
   after a rate limit, and sleeps for a bounded time in all.
   */
  method Send(policy: RetryPolicy, jitter: real -> real, idempotent: bool, answers: seq<Answer>, clock: seq<real>)
    returns (result: Result<int, SendError>, sends: nat, sleeps: seq<real>)
    requires |answers| == |clock| == Attempts(policy) && Shortens(jitter)
    ensures 1 <= sends <= Attempts(policy) && |sleeps| == sends - 1
    ensures result == Outcome(answers[sends - 1], clock[sends - 1])
    ensures forall k :: 0 <= k < sends - 1 ==> Some(sleeps[k]) == RetrySleep(policy, jitter, idempotent, answers[k], clock[k], k + 1)
    ensures RetrySleep(policy, jitter, idempotent, answers[sends - 1], clock[sends - 1], sends) == None
    ensures !idempotent ==> forall k :: 0 <= k < sends - 1 ==> IsRateLimit(answers[k], clock[k])
    ensures Total(sleeps) <= (Attempts(policy) - 1) as real * LongestSleep(policy)
  {
    hide RateLimitWait, Backoff, Total, LongestSleep, Max, IsRateLimit, DigitsValue;
    var attempts := if policy.maxAttempts > 1 then policy.maxAttempts else 1;
    sleeps := [];
    for attempt := 1 to attempts + 1
      invariant attempt <= attempts && |sleeps| == attempt - 1
      invariant forall k :: 0 <= k < attempt - 1 ==>
        Some(sleeps[k]) == RetrySleep(policy, jitter, idempotent, answers[k], clock[k], k + 1) && sleeps[k] <= LongestSleep(policy)
      invariant !idempotent ==> forall k :: 0 <= k < attempt - 1 ==> IsRateLimit(answers[k], clock[k])
    {
      sends := attempt;
      var answer, now := answers[attempt - 1], clock[attempt - 1];
      SleepIsBounded(policy, jitter, idempotent, answer, now, attempt);
      BoundedSoFar(sleeps, LongestSleep(policy), attempts - 1);
      if answer.TransportFailed? {
        if idempotent && attempt < attempts {
          sleeps := sleeps + [Backoff(policy, jitter, attempt)];
          continue;
        }
        return Err(Unavailable(answer.timeout)), sends, sleeps;
      }
      if 200 <= answer.status < 300 {
        return Ok(answer.status), sends, sleeps;
      }
      var wait := RateLimitWait(answer, now);
      if wait.Some? {
        if attempt < attempts && wait.value <= policy.maxRateLimitWait {
          sleeps := sleeps + [Max(wait.value, 1.0)];
          continue;
        }
        return Err(RateLimited(wait.value)), sends, sleeps;
      }
      if answer.status >= 500 {
        if idempotent && attempt < attempts {
          sleeps := sleeps + [Backoff(policy, jitter, attempt)];
          continue;
        }
        return Err(ServerError(answer.status)), sends, sleeps;
      }
      return Err(OtherError(answer.status)), sends, sleeps;
    }
    assert false;
  }

  lemma BoundedSoFar(sleeps: seq<real>, longest: real, most: nat)
    requires longest >= 0.0 && |sleeps| <= most && forall i :: 0 <= i < |sleeps| ==> sleeps[i] <= longest
    ensures Total(sleeps) <= most as real * longest
  {
    TotalIsBounded(sleeps, longest);
    FewerSleeps(|sleeps|, most, longest);
  }
}
