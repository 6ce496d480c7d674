/**
 The retry loop of the metrics reporter (internal/metrics/reporter.go): a request is posted again, after waits that
 double, until it is accepted, refused, fails in transport, or too much time has been spent waiting.

 The replies and the random draws are arbitrary. The timeout is in nanoseconds, the waits in milliseconds.
 */
module MetricsRetry {
  import opened Arithmetic
  import opened Bits
  import opened Wrappers

  const SECOND_IN_MILLIS := 1000
  const NANOS_IN_A_MILLI := 1_000_000
  const NANOS_IN_A_SECOND := 1_000_000_000

  const STATUS_OK := 200
  const STATUS_REQUEST_TIMEOUT := 408
  const STATUS_TOO_MANY_REQUESTS := 429
  const STATUS_BAD_GATEWAY := 502
  const STATUS_SERVICE_UNAVAILABLE := 503
  const STATUS_GATEWAY_TIMEOUT := 504

  /** What `client.Do` comes back with: an error, which includes the end of the context, or a status. */
  datatype Reply = TransportError | Status(code: int)

  datatype SendResult = Sent | NotSent | Refused(code: int) | TooManyRetries

  /** A random draw below a second. */
  type Draw = n: nat | n < 1000

  predicate Retryable(code: int) {
    || code == STATUS_TOO_MANY_REQUESTS
    || code == STATUS_BAD_GATEWAY
    || code == STATUS_GATEWAY_TIMEOUT
    || code == STATUS_SERVICE_UNAVAILABLE
    || code == STATUS_REQUEST_TIMEOUT
  }

  predicate AsksForRetry(reply: Reply) {
    reply.Status? && Retryable(reply.code)
  }

  function CalculateBackoff(retries: nat, draw: Draw): nat
    requires retries > 0
  {
    var multiplier := Pow2(retries - 1);
    multiplier * draw + multiplier * SECOND_IN_MILLIS
  }

  /** The milliseconds waited in the first `k` backoffs. */
  function Waited(draws: nat -> Draw, k: nat): nat {
    if k == 0 then 0 else Waited(draws, k - 1) + CalculateBackoff(k, draws(k - 1))
  }

  predicate TimeIsUp(timeout: nat, waited: nat) {
    waited * NANOS_IN_A_MILLI > timeout
  }

  /** How the loop ends on this reply, if it does. */
  function Verdict(timeout: nat, reply: Reply, waited: nat): Option<SendResult> {
    if reply.TransportError? then Some(NotSent)
    else if reply.code == STATUS_OK then Some(Sent)
    else if !Retryable(reply.code) then Some(Refused(reply.code))
    else if TimeIsUp(timeout, waited) then Some(TooManyRetries)
    else None
  }

  datatype Sending = Sending(result: SendResult, retries: nat)

  /** The outcome of the loop after `k` retries. */
  function SendAfter(timeout: nat, replies: nat -> Reply, draws: nat -> Draw, k: nat): Sending
    decreases timeout - Waited(draws, k) * NANOS_IN_A_MILLI
  {
    var verdict := Verdict(timeout, replies(k), Waited(draws, k));
    if verdict.Some? then
      Sending(verdict.value, k)
    else
      BackoffIsLong(k + 1, draws(k));
      SendAfter(timeout, replies, draws, k + 1)
  }

  function SendAll(timeout: nat, replies: nat -> Reply, draws: nat -> Draw): Sending {
    SendAfter(timeout, replies, draws, 0)
  }

  lemma BackoffIsLong(retries: nat, draw: Draw)
    requires retries > 0
    ensures SECOND_IN_MILLIS * Pow2(retries - 1) <= CalculateBackoff(retries, draw) <= 1999 * Pow2(retries - 1)
  {
    var multiplier := Pow2(retries - 1);
    MulMonotone(0, draw, multiplier);
    MulMonotone(draw, 999, multiplier);
  }

  method Send(timeout: nat, replies: nat -> Reply, draws: nat -> Draw)
    returns (result: SendResult, retries: nat, waited: nat)
    ensures Sending(result, retries) == SendAll(timeout, replies, draws)
    ensures waited == Waited(draws, retries)
    ensures result == Sent ==> replies(retries) == Status(200)
    ensures result.Refused? ==>
      replies(retries) == Status(result.code) && result.code !in {200, 408, 429, 502, 503, 504}
    ensures result == NotSent <==> replies(retries) == TransportError
    ensures forall i: nat :: i < retries ==> replies(i).Status? && replies(i).code in {408, 429, 502, 503, 504}
  {
    retries, waited := 0, 0;
    while true
      invariant waited == Waited(draws, retries)
      invariant SendAll(timeout, replies, draws) == SendAfter(timeout, replies, draws, retries)
      invariant forall i: nat :: i < retries ==> replies(i).Status? && replies(i).code in {408, 429, 502, 503, 504}
      decreases timeout - waited * NANOS_IN_A_MILLI
    {
      var res := replies(retries);
      if res.TransportError? {
        return NotSent, retries, waited;
      }
      if res.code == STATUS_OK {
        return Sent, retries, waited;
      }
      if !Retryable(res.code) {
        return Refused(res.code), retries, waited;
      }
      if waited * NANOS_IN_A_MILLI > timeout {
        return TooManyRetries, retries, waited;
      }
      var draw := draws(retries);
      retries := retries + 1;
      var backoff := CalculateBackoff(retries, draw);
      BackoffIsLong(retries, draw);
      waited := waited + backoff;
    }
  }

  /** After `k` backoffs, between 1000 and 1999 times 2^k - 1 milliseconds have been waited. */
  lemma {:induction false} WaitedBounds(draws: nat -> Draw, k: nat)
    ensures SECOND_IN_MILLIS * (Pow2(k) - 1) <= Waited(draws, k) <= 1999 * (Pow2(k) - 1)
  {
    if k > 0 {
      WaitedBounds(draws, k - 1);
      BackoffIsLong(k, draws(k - 1));
    }
  }

  lemma {:induction false} SendStopsAtFirstVerdict(timeout: nat, replies: nat -> Reply, draws: nat -> Draw, k: nat)
    ensures
      var sending := SendAfter(timeout, replies, draws, k);
      && k <= sending.retries
      && Verdict(timeout, replies(sending.retries), Waited(draws, sending.retries)) == Some(sending.result)
      && forall i :: k <= i < sending.retries ==>
           AsksForRetry(replies(i)) && !TimeIsUp(timeout, Waited(draws, i))
    decreases timeout - Waited(draws, k) * NANOS_IN_A_MILLI
  {
    if Verdict(timeout, replies(k), Waited(draws, k)) == None {
      BackoffIsLong(k + 1, draws(k));
      SendStopsAtFirstVerdict(timeout, replies, draws, k + 1);
    }
  }

  /**
   The loop always ends, and not late: the number of retries is bounded by the logarithm of the timeout, and the time
   spent waiting is less than three timeouts and two seconds.
   */
  lemma WaitingIsBounded(timeout: nat, replies: nat -> Reply, draws: nat -> Draw)
    ensures
      var k := SendAll(timeout, replies, draws).retries;
      && SECOND_IN_MILLIS * (Pow2(k) - 1) <= Waited(draws, k) <= 1999 * (Pow2(k) - 1)
      && (k > 0 ==> SECOND_IN_MILLIS * (Pow2(k - 1) - 1) * NANOS_IN_A_MILLI <= timeout)
      && Waited(draws, k) * NANOS_IN_A_MILLI < 3 * timeout + 2 * NANOS_IN_A_SECOND
  {
    var k := SendAll(timeout, replies, draws).retries;
    SendStopsAtFirstVerdict(timeout, replies, draws, 0);
    WaitedBounds(draws, k);
    if k > 0 {
      assert !TimeIsUp(timeout, Waited(draws, k - 1));
      WaitedBounds(draws, k - 1);
      BackoffIsLong(k, draws(k - 1));
    }
  }

  /** The first `k` replies ask for a retry, and time is not up at any of them. */
  ghost predicate RetriesUntil(timeout: nat, replies: nat -> Reply, draws: nat -> Draw, k: nat) {
    forall i: nat :: i < k ==> AsksForRetry(replies(i)) && !TimeIsUp(timeout, Waited(draws, i))
  }

  lemma FirstVerdictEnds(timeout: nat, replies: nat -> Reply, draws: nat -> Draw, k: nat)
    requires RetriesUntil(timeout, replies, draws, k)
    requires Verdict(timeout, replies(k), Waited(draws, k)).Some?
    ensures SendAll(timeout, replies, draws) == Sending(Verdict(timeout, replies(k), Waited(draws, k)).value, k)
  {
    var end := SendAll(timeout, replies, draws).retries;
    SendStopsAtFirstVerdict(timeout, replies, draws, 0);
    assert k <= end;
  }

  /** The request is accepted exactly when some reply accepts it and all before it ask, in time, for a retry. */
  lemma SentIff(timeout: nat, replies: nat -> Reply, draws: nat -> Draw)
    ensures
      SendAll(timeout, replies, draws).result == Sent <==>
      exists k: nat :: RetriesUntil(timeout, replies, draws, k) && replies(k) == Status(STATUS_OK)
  {
    SendStopsAtFirstVerdict(timeout, replies, draws, 0);
    var end := SendAll(timeout, replies, draws).retries;
    assert RetriesUntil(timeout, replies, draws, end);
    forall k: nat | RetriesUntil(timeout, replies, draws, k) && replies(k) == Status(STATUS_OK)
      ensures SendAll(timeout, replies, draws).result == Sent
    {
      FirstVerdictEnds(timeout, replies, draws, k);
    }
  }

  /**
   Under any context: a request is given up on exactly when the first reply after time is up, and all before it, ask
   for a retry.
   */
  lemma GivenUpIff(timeout: nat, replies: nat -> Reply, draws: nat -> Draw)
    ensures
      SendAll(timeout, replies, draws).result == TooManyRetries <==>
      exists k: nat :: && RetriesUntil(timeout, replies, draws, k) && AsksForRetry(replies(k))
                       && TimeIsUp(timeout, Waited(draws, k))
  {
    SendStopsAtFirstVerdict(timeout, replies, draws, 0);
    var end := SendAll(timeout, replies, draws).retries;
    assert RetriesUntil(timeout, replies, draws, end);
    forall k: nat | && RetriesUntil(timeout, replies, draws, k) && AsksForRetry(replies(k))
                    && TimeIsUp(timeout, Waited(draws, k))
      ensures SendAll(timeout, replies, draws).result == TooManyRetries
    {
      FirstVerdictEnds(timeout, replies, draws, k);
    }
  }

  /** The five statuses after which a request is posted again. */
  const RETRIED := {408, 429, 502, 503, 504}

  /**
   What the loop does after any number of retries, on the status codes themselves: it goes on exactly after one of the
   five in time, is done after 200, and reports any other status.
   */
  lemma GoesOnIff(timeout: nat, replies: nat -> Reply, draws: nat -> Draw, k: nat)
    requires k <= SendAll(timeout, replies, draws).retries
    ensures
      var sending := SendAll(timeout, replies, draws);
      && (k < sending.retries <==>
            replies(k).Status? && replies(k).code in RETRIED && Waited(draws, k) * 1_000_000 <= timeout)
      && (k == sending.retries ==>
            match sending.result
            case Sent => replies(k) == Status(200)
            case NotSent => replies(k) == TransportError
            case Refused(code) => replies(k) == Status(code) && code !in RETRIED && code != 200
            case TooManyRetries =>
              replies(k).Status? && replies(k).code in RETRIED && Waited(draws, k) * 1_000_000 > timeout)
  {
    SendStopsAtFirstVerdict(timeout, replies, draws, 0);
  }

  /** Exactly how long is waited, when every draw is the same: that many milliseconds and a second, times 2^k - 1. */
  lemma {:induction false} SteadyDraws(draw: Draw, k: nat)
    ensures Waited(_ => draw, k) == (1000 + draw) * (Pow2(k) - 1)
  {
    if k > 0 {
      SteadyDraws(draw, k - 1);
      DoubledAndOne(1000 + draw, Pow2(k - 1), draw);
    }
  }

  lemma DoubledAndOne(n: nat, p: nat, draw: nat)
    requires n == 1000 + draw
    ensures n * (p - 1) + (p * draw + p * 1000) == n * (2 * p - 1)
  {
  }

  // ---------------------------------------------------------------------------------------------------------------
  // Under the deadline that `Measure` sets

  /**
   `Measure` gives the request a context that ends after the timeout, counted from before the first request. The waits
   lie within that time, so a request after more waiting than the timeout only gets the context's error.
   */
  ghost predicate UnderDeadline(timeout: nat, replies: nat -> Reply, draws: nat -> Draw) {
    forall k: nat :: TimeIsUp(timeout, Waited(draws, k)) ==> replies(k) == TransportError
  }

  /** So the check for too many retries is never true: the context ends before it can be. */
  lemma NeverTooManyRetries(timeout: nat, replies: nat -> Reply, draws: nat -> Draw)
    requires UnderDeadline(timeout, replies, draws)
    ensures SendAll(timeout, replies, draws).result != TooManyRetries
  {
    GivenUpIff(timeout, replies, draws);
  }

  /** A server that asks for a retry as long as it is asked ends in the context's error, when time is up. */
  lemma EndlessRetriesEndWithTheContext(timeout: nat, replies: nat -> Reply, draws: nat -> Draw)
    requires UnderDeadline(timeout, replies, draws)
    requires forall k: nat :: !TimeIsUp(timeout, Waited(draws, k)) ==> AsksForRetry(replies(k))
    ensures
      var sending := SendAll(timeout, replies, draws);
      && sending.result == NotSent
      && TimeIsUp(timeout, Waited(draws, sending.retries))
      && forall k: nat :: k < sending.retries ==> !TimeIsUp(timeout, Waited(draws, k))
  {
    SendStopsAtFirstVerdict(timeout, replies, draws, 0);
  }

  /**
   How it ends, for all replies under the deadline: with the first reply that does not ask for a retry. It is accepted,
   refused, or an error, and nothing else.
   */
  lemma FirstFinalReplyDecides(timeout: nat, replies: nat -> Reply, draws: nat -> Draw)
    requires UnderDeadline(timeout, replies, draws)
    ensures
      var sending := SendAll(timeout, replies, draws);
      var reply := replies(sending.retries);
      && !AsksForRetry(reply)
      && (forall k: nat :: k < sending.retries ==> AsksForRetry(replies(k)))
      && sending.result ==
         match reply
         case TransportError => NotSent
         case Status(code) => if code == STATUS_OK then Sent else Refused(code)
  {
    SendStopsAtFirstVerdict(timeout, replies, draws, 0);
    NeverTooManyRetries(timeout, replies, draws);
  }

  // ---------------------------------------------------------------------------------------------------------------
  // Go's 64-bit arithmetic

  lemma Pow2Of34() returns (k: nat)
    ensures 33 < k < 35 && Pow2(k) == 0x4_0000_0000
  {
    k := 34;
    assert Pow2(8) == 0x100;
    Pow2Adds(8, 8);
    Pow2Adds(16, 16);
    Pow2Adds(32, 2);
  }

  /**
   For every timeout that 64 bits hold: the waited milliseconds are below 2^45 throughout, and wherever a reply asks for
   a retry, so that they are compared with the timeout, they fit 64 bits in nanoseconds too.
   */
  lemma WaitedFits(timeout: nat, replies: nat -> Reply, draws: nat -> Draw, k: nat)
    requires timeout < TWO_63 && UnderDeadline(timeout, replies, draws)
    requires k <= SendAll(timeout, replies, draws).retries
    ensures Waited(draws, k) < 0x2000_0000_0000
    ensures AsksForRetry(replies(k)) ==> Waited(draws, k) * NANOS_IN_A_MILLI <= timeout
  {
    SendStopsAtFirstVerdict(timeout, replies, draws, 0);
    WaitedBounds(draws, k);
    if k > 0 {
      WaitedBounds(draws, k - 1);
      assert !TimeIsUp(timeout, Waited(draws, k - 1));
      FewDoublings(timeout, k);
    }
  }

  lemma FewDoublings(timeout: nat, k: nat)
    requires 0 < k && SECOND_IN_MILLIS * (Pow2(k - 1) - 1) * NANOS_IN_A_MILLI <= timeout < TWO_63
    ensures Pow2(k) <= 0x4_0000_0000
  {
    var limit := Pow2Of34();
    if k > limit {
      Pow2Grows(limit, k - 1);
    } else {
      Pow2Grows(k, limit);
    }
  }
}
