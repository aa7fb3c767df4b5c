/** The retry loop around the hosted model (internal/minimax/client.go). */
module RetryLoop {
  import opened Int64
  import opened Backoff

  /** The outcome of one request: no response, or a status with a body. */
  datatype Reply = Transport | Response(status: int, body: string)

  datatype Result = Body(raw: string) | TransportError | BadStatus(status: int) | Cancelled | Nothing

  predicate IsRetryable(status: int) {
    status in {500, 502, 503, 504, 529}
  }

  const WAIT_CAP := 16 * SECOND

  /** The wait before jitter: the base shifted left in 64 bits, then clamped. */
  function Wait(base: int, attempt: int): int
    requires attempt >= 1
  {
    Scaled(base, WAIT_CAP, attempt - 1)
  }

  function TotalWait(base: int, attempts: nat): int {
    if attempts == 0 then 0 else TotalWait(base, attempts - 1) + Wait(base, attempts)
  }

  function TotalHalfWait(base: int, attempts: nat): int {
    if attempts == 0 then 0 else TotalHalfWait(base, attempts - 1) + Wait(base, attempts) / 2
  }

  /** Half of the wait, plus a random amount up to as much again. */
  method BackoffDelay(base: int, attempt: int) returns (d: int)
    requires attempt >= 1
    ensures Wait(base, attempt) / 2 <= d <= Wait(base, attempt) <= 16_000_000_000
  {
    var wait := Wrap(base * Pow2(attempt - 1));
    if wait > WAIT_CAP || wait <= 0 {
      wait := WAIT_CAP;
    }
    var half := wait / 2;
    var random: int := *;
    d := half + if 0 <= random <= half then random else 0;
  }

  /** What the last reply means; cancelled is the context during the wait after it. */
  predicate Ends(r: Result, reply: Reply, attempt: int, maxAttempts: int, cancelled: bool) {
    match reply
    case Transport => r == TransportError
    case Response(status, body) =>
      if status == 200 then r == Body(body)
      else if !IsRetryable(status) || attempt == maxAttempts then r == BadStatus(status)
      else cancelled && r == Cancelled
  }

  /** Requests are sent one by one, at most maxAttempts of them; each but the last
    got a retryable status, and the last one decides the result. */
  method Do(base: int, maxAttempts: int, replies: int -> Reply, cancelled: int -> bool)
    returns (r: Result, sent: nat, waited: int)
    ensures maxAttempts <= 0 ==> sent == 0 && r == Nothing
    ensures maxAttempts > 0 ==> 1 <= sent <= maxAttempts && Ends(r, replies(sent), sent, maxAttempts, cancelled(sent))
    ensures forall i :: 1 <= i < sent ==> replies(i).Response? && IsRetryable(replies(i).status) && !cancelled(i)
    ensures sent > 0 ==> TotalHalfWait(base, sent - 1) <= waited <= TotalWait(base, sent - 1)
    // Which statuses lead to another request, and what the last one means.
    ensures forall i :: 1 <= i < sent ==> replies(i).Response? && replies(i).status in {500, 502, 503, 504, 529}
    ensures r.BadStatus? ==> replies(sent).Response? && r.status == replies(sent).status != 200
    ensures r.BadStatus? && sent < maxAttempts ==> r.status !in {500, 502, 503, 504, 529}
    ensures r.Cancelled? ==> sent < maxAttempts && replies(sent).Response? && cancelled(sent)
                             && replies(sent).status in {500, 502, 503, 504, 529}
    ensures r.Body? <==> sent > 0 && replies(sent).Response? && replies(sent).status == 200
    ensures r.Body? ==> r.raw == replies(sent).body
    ensures r.TransportError? <==> sent > 0 && replies(sent).Transport?
  {
    r, sent, waited := Nothing, 0, 0;
    var attempt := 1;
    while attempt <= maxAttempts
      invariant attempt == sent + 1 && r == Nothing && (maxAttempts > 0 ==> attempt <= maxAttempts)
      invariant maxAttempts <= 0 ==> sent == 0
      invariant forall i :: 1 <= i < attempt ==> replies(i).Response? && IsRetryable(replies(i).status) && !cancelled(i)
      invariant TotalHalfWait(base, sent) <= waited <= TotalWait(base, sent)
      decreases maxAttempts - attempt
    {
      var reply := replies(attempt);
      sent := sent + 1;
      if reply.Transport? {
        return TransportError, sent, waited;
      }
      if reply.status == 200 {
        return Body(reply.body), sent, waited;
      }
      if !IsRetryable(reply.status) || attempt == maxAttempts {
        return BadStatus(reply.status), sent, waited;
      }
      var d := BackoffDelay(base, attempt);
      if cancelled(attempt) {
        return Cancelled, sent, waited;
      }
      waited := waited + d;
      attempt := attempt + 1;
    }
  }

  /** From the 65th attempt on the shift leaves nothing and the wait is the cap. */
  lemma {:induction false} LateShift(base: nat, cap: int, e: nat)
    requires 0 < base && 0 < cap < TWO_63 && e >= 64
    ensures Scaled(base, cap, e) == cap == Ideal(base, cap, e)
  {
    PowAdd(64, e - 64);
    Pow2Of64();
    var k := base * Pow2(e - 64);
    assert base * Pow2(e) == k * TWO_64 + 0;
    ModAdd(k, 0, TWO_64);
    MulLess(0, base, Pow2(e - 64));
    MulMonotone(1, k, TWO_64);
  }

  /** For any base, every wait is min(base * 2^(attempt - 1), 16 s) exactly when
    the low bits of base are safe. */
  lemma {:induction false} EveryWaitExactly(base: nat)
    requires 0 < base < TWO_63
    ensures (forall attempt: int :: attempt >= 1 ==> Wait(base, attempt) == Ideal(base, 16_000_000_000, attempt - 1))
            <==> SafeBelow(base, 16_000_000_000, 64)
  {
    if SafeBelow(base, WAIT_CAP, 64) {
      forall attempt: int | attempt >= 1 ensures Wait(base, attempt) == Ideal(base, WAIT_CAP, attempt - 1) {
        if attempt - 1 >= 64 {
          LateShift(base, WAIT_CAP, attempt - 1);
        } else {
          assert SafeAt(base, WAIT_CAP, attempt - 1);
          ScaledExactly(base, WAIT_CAP, attempt - 1);
        }
      }
    }
    if forall attempt: int :: attempt >= 1 ==> Wait(base, attempt) == Ideal(base, WAIT_CAP, attempt - 1) {
      forall e | 0 <= e < 64 ensures SafeAt(base, WAIT_CAP, e) {
        assert Wait(base, e + 1) == Ideal(base, WAIT_CAP, e + 1 - 1);
        ScaledExactly(base, WAIT_CAP, e);
      }
    }
  }

  /** With the 1 s base every wait is the documented one, for any attempt count. */
  lemma {:induction false} DefaultWaits(attempt: int)
    requires attempt >= 1
    ensures Wait(1_000_000_000, attempt) == Ideal(1_000_000_000, 16_000_000_000, attempt - 1)
  {
    SecondIsRound(1);
    PowersForSeconds();
    RoundBasesAreSafe(1_953_125, 9, 27, WAIT_CAP, 64);
    EveryWaitExactly(SECOND);
  }

  /** Five attempts with the 1 s base wait between 7.5 s and 15 s in all. */
  lemma {:induction false} DefaultTotals()
    ensures TotalWait(1_000_000_000, 4) == 15_000_000_000 && TotalHalfWait(1_000_000_000, 4) == 7_500_000_000
  {
    assert Pow2(3) == 8 && Pow2(2) == 4;
    DefaultWaits(1);
    DefaultWaits(2);
    DefaultWaits(3);
    DefaultWaits(4);
    assert TotalWait(SECOND, 2) == 3 * SECOND;
    assert TotalHalfWait(SECOND, 2) == 3 * SECOND / 2;
    assert TotalWait(SECOND, 3) == 7 * SECOND;
    assert TotalHalfWait(SECOND, 3) == 7 * SECOND / 2;
  }

  /** No retry waits longer than the cap, so n attempts wait at most n - 1 caps. */
  lemma {:induction false} TotalBounded(base: int, attempts: nat)
    ensures 0 <= TotalHalfWait(base, attempts) <= TotalWait(base, attempts) <= attempts * 16_000_000_000
  {
    if attempts > 0 {
      TotalBounded(base, attempts - 1);
    }
  }
}
