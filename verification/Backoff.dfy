/** The delays between activation retries (packages/cli/src/active-workflow-manager.ts, constants.ts). */
module Backoff {
  const INITIAL_TIMEOUT: nat := 1000
  const MAX_TIMEOUT: nat := 24 * 60 * 60 * 1000

  function Min(a: int, b: int): int {
    if a < b then a else b
  }

  /** The delay after one more failure. */
  function NextTimeout(lastTimeout: nat): nat {
    if lastTimeout < MAX_TIMEOUT then Min(lastTimeout * 2, MAX_TIMEOUT) else lastTimeout
  }

  /** The delay after `n` failures in a row. */
  function Delay(n: nat): nat {
    if n == 0 then INITIAL_TIMEOUT else NextTimeout(Delay(n - 1))
  }

  function Pow2(n: nat): nat {
    if n == 0 then 1 else 2 * Pow2(n - 1)
  }

  lemma {:induction false} Pow2Monotone(m: nat, n: nat)
    requires m <= n
    ensures Pow2(m) <= Pow2(n)
    decreases n
  {
    if m < n {
      Pow2Monotone(m, n - 1);
    }
  }

  lemma Pow2At16()
    ensures Pow2(16) == 65536 && Pow2(17) == 131072
  {
    assert Pow2(4) == 16;
    assert Pow2(8) == 256;
    assert Pow2(12) == 4096;
  }

  /** The delay doubles up to the cap. */
  lemma {:induction false} DelayClosedForm(n: nat)
    ensures Delay(n) == Min(1000 * Pow2(n), 86400000)
  {
    if n > 0 {
      DelayClosedForm(n - 1);
    }
  }

  /**
    It never decreases, stays between one second and one day, and is one day exactly from the seventeenth failure on.
   */
  lemma DelayBounds(n: nat)
    ensures 1000 <= Delay(n) <= Delay(n + 1) <= 86400000
    ensures Delay(n) == 86400000 <==> n >= 17
  {
    DelayClosedForm(n);
    DelayClosedForm(n + 1);
    Pow2At16();
    Pow2Monotone(0, n);
    if n >= 17 {
      Pow2Monotone(17, n);
    } else {
      Pow2Monotone(n, 16);
    }
  }

  /** The time from queueing to the start of the `m`-th retry. */
  function TotalWait(m: nat): nat {
    if m == 0 then 0 else TotalWait(m - 1) + Delay(m - 1)
  }

  lemma {:induction false} TotalWaitRising(m: nat)
    requires m <= 17
    ensures TotalWait(m) == INITIAL_TIMEOUT * (Pow2(m) - 1)
  {
    if m > 0 {
      var p := Pow2(m - 1);
      TotalWaitRising(m - 1);
      DelayBounds(m - 1);
      DelayClosedForm(m - 1);
      assert Delay(m - 1) == INITIAL_TIMEOUT * p && Pow2(m) == 2 * p;
      assert TotalWait(m) == TotalWait(m - 1) + Delay(m - 1);
    }
  }

  lemma {:induction false} TotalWaitCapped(from: nat, k: nat)
    requires from >= 17
    ensures TotalWait(from + k) == TotalWait(from) + k * MAX_TIMEOUT
  {
    if k > 0 {
      TotalWaitCapped(from, k - 1);
      DelayBounds(from + k - 1);
    }
  }

  /** The geometric sum while the delay doubles, one day for each retry after that. */
  lemma TotalWaitClosedForm(m: nat)
    ensures m <= 17 ==> TotalWait(m) == 1000 * (Pow2(m) - 1)
    ensures m >= 17 ==> TotalWait(m) == 131071000 + (m - 17) * 86400000
  {
    if m <= 17 {
      TotalWaitRising(m);
    }
    if m >= 17 {
      TotalWaitRising(17);
      Pow2At16();
      TotalWaitCapped(17, m - 17);
    }
  }
}
