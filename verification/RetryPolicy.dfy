/** The retry and heartbeat arithmetic of outbox-processor.options.schema.ts. */
module RetryPolicy {
  import opened Prelude

  datatype Retry = Retry(baseSeconds: nat, maxSeconds: nat)

  function Pow2(n: nat): nat {
    if n == 0 then 1 else 2 * Pow2(n - 1)
  }

  function RetryDelaySeconds(r: Retry, attempt: nat): nat {
    Min(Pow2(attempt) * r.baseSeconds, r.maxSeconds)
  }

  function LockHeartbeatIntervalMs(lockTtlMs: nat): nat {
    Max(lockTtlMs / 3, 1000)
  }

  /** All the delays imposed by the first `failures` failures together. */
  function TotalDelaySeconds(r: Retry, failures: nat): nat {
    if failures == 0 then 0 else TotalDelaySeconds(r, failures - 1) + RetryDelaySeconds(r, failures)
  }

  lemma {:induction false} Pow2Grows(m: nat, n: nat)
    requires m <= n
    ensures 1 <= Pow2(m) <= Pow2(n)
    decreases n
  {
    if m < n {
      Pow2Grows(m, n - 1);
    } else if n > 0 {
      Pow2Grows(m - 1, n - 1);
    }
  }

  lemma ScaledGrows(x: nat, y: nat, b: nat)
    requires x <= y
    ensures x * b <= y * b
  {
  }

  /** A later attempt never waits less, and with `max >= base` every delay is within [base, max]. */
  lemma DelayGrowsWithinBounds(r: Retry, a: nat, b: nat)
    requires a <= b
    ensures RetryDelaySeconds(r, a) <= RetryDelaySeconds(r, b) <= r.maxSeconds
    ensures r.baseSeconds <= r.maxSeconds ==> r.baseSeconds <= RetryDelaySeconds(r, a)
  {
    Pow2Grows(a, b);
    Pow2Grows(0, a);
    ScaledGrows(Pow2(a), Pow2(b), r.baseSeconds);
    ScaledGrows(1, Pow2(a), r.baseSeconds);
  }

  /** While the cap is not reached, the delays of all failures but the last of `n` sum to base * (2^n - 2). */
  lemma {:induction false} UncappedTotal(r: Retry, n: nat)
    requires 1 <= n && Pow2(n - 1) * r.baseSeconds <= r.maxSeconds
    ensures TotalDelaySeconds(r, n - 1) == r.baseSeconds * (Pow2(n) - 2)
  {
    if n > 1 {
      Pow2Grows(n - 2, n - 1);
      ScaledGrows(Pow2(n - 2), Pow2(n - 1), r.baseSeconds);
      UncappedTotal(r, n - 1);
      calc {
        TotalDelaySeconds(r, n - 1);
        r.baseSeconds * (Pow2(n - 1) - 2) + Pow2(n - 1) * r.baseSeconds;
        r.baseSeconds * (2 * Pow2(n - 1) - 2);
        r.baseSeconds * (Pow2(n) - 2);
      }
    } else {
      assert Pow2(1) == 2;
    }
  }
}
