/**
 The wait after a message's failures: a doubling backoff with a ceiling, in
 Go's time.Duration, a signed 64-bit count of nanoseconds.
 */
module Retry {
  import opened Powers

  const MAX_INT64 := 0x7fff_ffff_ffff_ffff

  function Min(a: int, b: int): int {
    if a < b then a else b
  }

  /** Once the doubled backoff has reached the ceiling, doubling further changes nothing. */
  lemma CeilingStays(backoff: nat, maxBackoff: nat, m: nat, n: nat)
    requires m <= n && maxBackoff <= backoff * Pow2(m)
    ensures Min(backoff * Pow2(n), maxBackoff) == maxBackoff
  {
  }

  lemma Scale(k: nat, a: nat, b: nat)
    requires a <= b
    ensures k * a <= k * b
  {
  }

  /** The wait after the n-th failure. */
  function Wait(backoff: nat, maxBackoff: nat, n: nat): (d: int)
    requires 1 <= n
    ensures 0 <= d <= maxBackoff
  {
    var doubled := backoff * Pow2(n - 1);
    if doubled < maxBackoff then doubled else maxBackoff
  }

  /** The first failure waits the backoff, and each one after it twice as long, but none longer than the ceiling. */
  lemma WaitDoubles(backoff: nat, maxBackoff: nat, n: nat)
    requires 1 <= n
    ensures Wait(backoff, maxBackoff, 1) == if backoff < maxBackoff then backoff else maxBackoff
    ensures var doubled := 2 * Wait(backoff, maxBackoff, n);
            Wait(backoff, maxBackoff, n + 1) == if doubled < maxBackoff then doubled else maxBackoff
  {
    assert backoff * Pow2(n) == 2 * (backoff * Pow2(n - 1));
    assert backoff * Pow2(0) == backoff;
  }

  /** A later failure never waits less. */
  lemma WaitGrows(backoff: nat, maxBackoff: nat, m: nat, n: nat)
    requires 1 <= m <= n
    ensures Wait(backoff, maxBackoff, m) <= Wait(backoff, maxBackoff, n)
  {
    Pow2Grows(m - 1, n - 1);
    Scale(backoff, Pow2(m - 1), Pow2(n - 1));
  }

  /**
   retryPolicy.delay. Every value of d on the way, the doubled one included,
   is a 64-bit duration, and the result is min(backoff * 2^(n-1), maxBackoff).
   */
  method Delay(backoff: nat, maxBackoff: nat, n: nat) returns (d: nat)
    requires 1 <= n
    requires backoff <= MAX_INT64 && maxBackoff <= MAX_INT64
    ensures d == Wait(backoff, maxBackoff, n)
  {
    d := backoff;
    var i := 1;
    while i < n && d < maxBackoff
      invariant 1 <= i <= n
      invariant d == backoff * Pow2(i - 1) <= MAX_INT64
    {
      if d > maxBackoff / 2 {
        assert backoff * Pow2(i) == 2 * d;
        CeilingStays(backoff, maxBackoff, i, n - 1);
        return maxBackoff;
      }
      assert backoff * Pow2(i) == 2 * d;
      d := d * 2;
      assert d <= MAX_INT64;
      i := i + 1;
    }
    if maxBackoff <= d {
      CeilingStays(backoff, maxBackoff, i - 1, n - 1);
    }
    d := Min(d, maxBackoff);
  }
}
