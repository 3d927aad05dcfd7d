/** Retry and idle delays: saturating machine arithmetic against the plain formula. */
module Backoff {
  import opened Types

  const U128_MAX: nat := 0xFFFF_FFFF_FFFF_FFFF_FFFF_FFFF_FFFF_FFFF

  function Min(a: nat, b: nat): nat {
    if a <= b then a else b
  }

  function Max(a: nat, b: nat): nat {
    if a >= b then a else b
  }

  function Pow(b: nat, e: nat): nat {
    if e == 0 then 1 else b * Pow(b, e - 1)
  }

  /** `u128::checked_pow`, with overflow read as the largest value. */
  function SaturatingPow(b: nat, e: nat): nat {
    Min(Pow(b, e), U128_MAX)
  }

  /** `u128::saturating_mul`. */
  function SaturatingMul(a: nat, b: nat): nat {
    Min(a * b, U128_MAX)
  }

  /** `RetryPolicy::delay_for`, in nanoseconds. */
  function DelayFor(base: nat, factor: nat, cap: nat, attempts: nat): nat {
    var scaled := SaturatingMul(base, SaturatingPow(factor, attempts));
    var capped := Min(scaled, cap);
    Min(Min(capped, U64_MAX), cap)
  }

  lemma MulGrows(a: nat, b: nat, c: nat)
    requires b <= c
    ensures a * b <= a * c
  {
  }

  /** No saturation shows: the delay is the documented minimum, over all inputs. */
  lemma DelayIsFormula(base: nat, factor: nat, cap: nat, attempts: nat)
    requires cap <= DURATION_MAX
    ensures DelayFor(base, factor, cap, attempts) == Min(Min(base * Pow(factor, attempts), cap), U64_MAX)
  {
    var p := Pow(factor, attempts);
    if p > U128_MAX && base > 0 {
      MulGrows(base, U128_MAX, p);
      MulGrows(U128_MAX, 1, base);
    }
  }

  lemma {:induction false} PowGrows(b: nat, m: nat, n: nat)
    requires b >= 1 && m <= n
    ensures 1 <= Pow(b, m) <= Pow(b, n)
    decreases n
  {
    if m < n {
      PowGrows(b, m, n - 1);
      MulGrows(Pow(b, n - 1), 1, b);
    } else if n > 0 {
      PowGrows(b, m - 1, n - 1);
      MulGrows(Pow(b, n - 1), 1, b);
    }
  }

  /** Later retries never wait less. */
  lemma DelayGrows(base: nat, factor: nat, cap: nat, m: nat, n: nat)
    requires cap <= DURATION_MAX && factor >= 1 && m <= n
    ensures DelayFor(base, factor, cap, m) <= DelayFor(base, factor, cap, n) <= cap
  {
    DelayIsFormula(base, factor, cap, m);
    DelayIsFormula(base, factor, cap, n);
    PowGrows(factor, m, n);
    MulGrows(base, Pow(factor, m), Pow(factor, n));
  }

  /** `Duration::saturating_mul(2)`. */
  function Doubled(d: nat): nat {
    Min(2 * d, DURATION_MAX)
  }

  /** Doubling with an early stop at the cap. */
  method IdleWait(pollInterval: nat, backoffCap: nat, empties: nat) returns (wait: nat)
    requires pollInterval <= DURATION_MAX && backoffCap <= DURATION_MAX
    ensures wait == Min(pollInterval * Pow(2, empties), Max(backoffCap, pollInterval))
  {
    var cap := Max(backoffCap, pollInterval);
    wait := pollInterval;
    for i := 0 to empties
      invariant wait == Min(pollInterval * Pow(2, i), DURATION_MAX)
    {
      if wait >= cap {
        PowGrows(2, i, empties);
        MulGrows(pollInterval, Pow(2, i), Pow(2, empties));
        return cap;
      }
      assert pollInterval * Pow(2, i + 1) == 2 * (pollInterval * Pow(2, i));
      wait := Doubled(wait);
    }
    wait := Min(wait, cap);
  }
}
