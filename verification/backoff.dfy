/** The exponential backoff applied after an unexpected failure in the loop. */
module Backoff {

  /** `MAX_RETRY_DELAY`: the longest pause, in seconds. */
  const MaxRetryDelay: nat := 300

  /** `2 ** n` on Python's unbounded integers. */
  function Pow2(n: nat): (p: nat)
    ensures p > n
    ensures n >= 1 ==> p % 2 == 0
  {
    if n == 0 then 1 else 2 * Pow2(n - 1)
  }

  lemma {:induction false} Pow2Monotone(m: nat, n: nat)
    requires m <= n
    ensures Pow2(m) <= Pow2(n)
    decreases n
  {
    if m < n {
      Pow2Monotone(m, n - 1);
    }
  }

  /** Where the powers of two cross the cap: at most 256 up to 8, at least
      512 from 9, and at least 2 from 1. */
  lemma Pow2Thresholds(n: nat)
    ensures n <= 8 ==> Pow2(n) <= 256
    ensures n >= 9 ==> Pow2(n) >= 512
    ensures n >= 1 ==> Pow2(n) >= 2
  {
    if n <= 8 {
      Pow2Monotone(n, 8);
    } else {
      Pow2Monotone(9, n);
    }
  }

  /** `min(2 ** error_count, MAX_RETRY_DELAY)`: doubles from 2 seconds after
      the first failure and is clamped at 300 seconds from the ninth on. */
  function Delay(count: nat): (d: nat)
    ensures d <= MaxRetryDelay
    ensures count >= 1 ==> d >= 2
    ensures count <= 8 ==> d == Pow2(count)
    ensures count >= 9 ==> d == MaxRetryDelay
  {
    Pow2Thresholds(count);
    if Pow2(count) <= MaxRetryDelay then Pow2(count) else MaxRetryDelay
  }

  /** More consecutive failures never shorten the pause. */
  lemma DelayMonotone(m: nat, n: nat)
    requires m <= n
    ensures Delay(m) <= Delay(n)
  {
    if n <= 8 {
      Pow2Monotone(m, n);
    }
  }

  /** The pauses after the first nine consecutive failures. */
  lemma DelaySchedule()
    ensures [Delay(1), Delay(2), Delay(3), Delay(4), Delay(5), Delay(6), Delay(7), Delay(8), Delay(9)]
            == [2, 4, 8, 16, 32, 64, 128, 256, 300]
  {
  }
}
