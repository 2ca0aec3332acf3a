/** Which answers of GitHub are tried again, after how long, and what the caller is told. */
module RetryOutcomes {
  import opened Wrappers
  import opened GitHubRetry

  // ---------------------------------------------------------------- what GitHub asks for

  /** Too many requests, or forbidden for a reason that says so. */
  predicate SaysRateLimit(answer: Answer) {
    && answer.Response?
    && (answer.status == 429
        || (answer.status == 403
            && (answer.remaining == Some("0") || answer.retryAfter != None || answer.mentionsRateLimit)))
  }

  predicate IsNumber(text: Option<string>) {
    text.Some? && text.value != "" && forall i :: 0 <= i < |text.value| ==> '0' <= text.value[i] <= '9'
  }

  function Digit(d: nat): char
    requires d < 10
  {
    ('0' as int + d) as char
  }

  function Decimal(n: nat): string {
    if n < 10 then [Digit(n)] else Decimal(n / 10) + [Digit(n % 10)]
  }

  lemma {:induction false} NumbersHaveValues(text: string)
    ensures DigitsValue(text).Some? <==> IsNumber(Some(text))
  {
    if |text| > 1 {
      var rest := text[..|text| - 1];
      NumbersHaveValues(rest);
      assert text == rest + [text[|text| - 1]];
    }
  }

  /** Reading a decimal number back gives the number. */
  lemma {:induction false} DecimalComesBack(n: nat)
    ensures DigitsValue(Decimal(n)) == Some(n) && Decimal(n) != ""
  {
    assert DigitValue(Digit(n % 10)) == Some(n % 10);
    if n >= 10 {
      DecimalComesBack(n / 10);
      assert Decimal(n)[..|Decimal(n)| - 1] == Decimal(n / 10);
    }
  }

  /**
   How long a rate limit asks to wait: the number of seconds it names, else the time
   until the limit is reset if nothing is left, else a minute.
   */
  lemma AskedWait(answer: Answer, now: real, seconds: nat)
    requires answer.Response?
    ensures RateLimitWait(answer, now).Some? <==> SaysRateLimit(answer)
    ensures SaysRateLimit(answer) && answer.retryAfter == Some(Decimal(seconds)) ==> RateLimitWait(answer, now) == Some(seconds as real)
    ensures
      SaysRateLimit(answer) && !IsNumber(answer.retryAfter) && answer.remaining == Some("0") && answer.reset == Some(Decimal(seconds)) ==>
        RateLimitWait(answer, now).Some?
        && RateLimitWait(answer, now).value == if seconds as real >= now then seconds as real - now else 0.0
    ensures
      SaysRateLimit(answer) && !IsNumber(answer.retryAfter) && !(answer.remaining == Some("0") && IsNumber(answer.reset)) ==>
        RateLimitWait(answer, now) == Some(60.0)
  {
    hide DigitsValue, Decimal;
    DecimalComesBack(seconds);
    NumbersHaveValues(answer.retryAfter.GetOr(""));
    NumbersHaveValues(answer.reset.GetOr(""));
  }

  // ---------------------------------------------------------------- which answers are tried again

  /** No answer at all, or an error of the server's own. */
  predicate ServerFailed(answer: Answer) {
    answer.TransportFailed? || (answer.status >= 500 && !SaysRateLimit(answer))
  }

  predicate Fine(answer: Answer) {
    answer.Response? && 200 <= answer.status <= 299
  }

  /**
   An answer is tried again if and only if attempts are left and it is a rate limit
   that asks for no more than the longest wait, or a failure of the server, which is
   only tried again if the request may be repeated.
   */
  lemma TriedAgainIff(policy: RetryPolicy, jitter: real -> real, idempotent: bool, answer: Answer, now: real, attempt: nat)
    requires attempt > 0
    ensures RetrySleep(policy, jitter, idempotent, answer, now, attempt).Some? <==>
      && attempt < policy.maxAttempts
      && ((SaysRateLimit(answer) && RateLimitWait(answer, now).value <= policy.maxRateLimitWait)
          || (ServerFailed(answer) && idempotent))
  {
    hide RateLimitWait, Backoff;
    if answer.Response? {
      AskedWait(answer, now, 0);
    }
  }

  /** A wait is never shorter than a rate limit asks, and at least a second; it is exactly one of the two. */
  lemma RateLimitIsRespected(policy: RetryPolicy, jitter: real -> real, idempotent: bool, answer: Answer, now: real, attempt: nat)
    requires attempt > 0 && SaysRateLimit(answer)
    ensures
      var sleep := RetrySleep(policy, jitter, idempotent, answer, now, attempt);
      sleep.Some? ==>
        && RateLimitWait(answer, now).Some? && sleep.value >= RateLimitWait(answer, now).value && sleep.value >= 1.0
        && (sleep.value == RateLimitWait(answer, now).value || sleep.value == 1.0)
  {
    hide RateLimitWait, Backoff;
    AskedWait(answer, now, 0);
  }

  function Undelayed(policy: RetryPolicy, attempt: nat): real
    requires attempt > 0
  {
    if attempt == 1 then policy.baseDelay else 2.0 * Undelayed(policy, attempt - 1)
  }

  function Least(a: real, b: real): (least: real)
    ensures least <= a && least <= b && (least == a || least == b)
  {
    if b < a then b else a
  }

  /** The delay before the jitter: the base delay, doubled with every attempt, up to the longest. */
  function Delay(policy: RetryPolicy, attempt: nat): real
    requires attempt > 0
  {
    Least(policy.maxDelay, Undelayed(policy, attempt))
  }

  lemma {:induction false} DoubledPowers(policy: RetryPolicy, attempt: nat)
    requires attempt > 0
    ensures policy.baseDelay * PowerOfTwo(attempt - 1) == Undelayed(policy, attempt)
  {
    if attempt > 1 {
      DoubledPowers(policy, attempt - 1);
      Rearranged(policy.baseDelay, PowerOfTwo(attempt - 2));
      assert PowerOfTwo(attempt - 1) == 2.0 * PowerOfTwo(attempt - 2);
    }
  }

  lemma Rearranged(base: real, power: real)
    ensures base * (2.0 * power) == 2.0 * (base * power)
  {
  }

  /** After a failure of the server the sleep is the jittered delay of that attempt, never negative. */
  lemma BackoffDoubles(policy: RetryPolicy, jitter: real -> real, answer: Answer, now: real, attempt: nat)
    requires 0 < attempt < policy.maxAttempts && ServerFailed(answer)
    ensures
      var sleep := RetrySleep(policy, jitter, true, answer, now, attempt);
      && sleep.Some? && sleep.value >= 0.0
      && (jitter(Delay(policy, attempt)) >= 0.0 ==> sleep.value == jitter(Delay(policy, attempt)))
      && (jitter(Delay(policy, attempt)) < 0.0 ==> sleep.value == 0.0)
  {
    hide RateLimitWait;
    DoubledPowers(policy, attempt);
    var product := policy.baseDelay * PowerOfTwo(attempt - 1);
    assert product == Undelayed(policy, attempt);
    assert Min(policy.maxDelay, product) == Delay(policy, attempt);
    if answer.Response? {
      AskedWait(answer, now, 0);
    }
  }

  // ---------------------------------------------------------------- what the caller is told

  /** The caller gets the answer if it is fine, and otherwise an error that says what it was. */
  lemma OutcomeIsTrue(answer: Answer, now: real)
    ensures
      match Outcome(answer, now)
      case Ok(status) => Fine(answer) && status == answer.status
      case Err(Unavailable(timeout)) => answer.TransportFailed? && timeout == answer.timeout
      case Err(RateLimited(wait)) => !Fine(answer) && SaysRateLimit(answer) && RateLimitWait(answer, now) == Some(wait)
      case Err(ServerError(status)) => answer.Response? && ServerFailed(answer) && status == answer.status
      case Err(OtherError(status)) =>
        answer.Response? && !Fine(answer) && !SaysRateLimit(answer) && !ServerFailed(answer) && status == answer.status
  {
    hide RateLimitWait;
    if answer.Response? {
      AskedWait(answer, now, 0);
    }
  }
}
