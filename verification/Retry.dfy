/** Powers of two: the retry delay of both trend senders and the depth of a bisection. */
module Retry {
  function Pow2(n: nat): nat {
    if n == 0 then 1 else 2 * Pow2(n - 1)
  }

  function Min(a: int, b: int): int {
    if a <= b then a else b
  }

  /** `min(cap, base * 2 ** min(6, prior))`. */
  function RetrySeconds(prior: nat, base: nat, cap: nat): nat {
    Min(cap, base * Pow2(Min(6, prior)))
  }

  lemma {:induction false} Pow2Grows(a: nat, b: nat)
    requires a <= b
    ensures 1 <= Pow2(a) <= Pow2(b)
  {
    if a < b {
      Pow2Grows(a, b - 1);
    } else if a > 0 {
      Pow2Grows(a - 1, a - 1);
    }
  }

  /** The delay never shrinks from one failure to the next, starts at the base and ends at the cap. */
  lemma RetryBacksOff(prior: nat, later: nat, base: nat, cap: nat)
    requires prior <= later
    ensures Min(cap, base) <= RetrySeconds(prior, base, cap) <= RetrySeconds(later, base, cap) <= cap
    ensures RetrySeconds(later, base, cap) <= 64 * base
  {
    var p, l := Pow2(Min(6, prior)), Pow2(Min(6, later));
    Pow2Grows(0, Min(6, prior));
    Pow2Grows(Min(6, prior), Min(6, later));
    Pow2Grows(Min(6, later), 6);
    assert Pow2(6) == 64;
    Scales(1, p, base);
    Scales(p, l, base);
    Scales(l, 64, base);
  }

  function Capped(delay: nat, cap: nat): nat {
    if delay <= cap then delay else cap
  }

  lemma DelayIs(prior: nat, base: nat, cap: nat, delay: nat)
    requires delay == base * Pow2(Min(6, prior))
    ensures RetrySeconds(prior, base, cap) == Capped(delay, cap)
  {
  }

  lemma Doubles(base: nat, prior: nat)
    ensures base * Pow2(prior + 1) == 2 * (base * Pow2(prior))
  {
  }

  /** The delay starts at the base and doubles with each of the first six failures, under the cap. */
  lemma RetryDoubles(prior: nat, base: nat, cap: nat)
    ensures RetrySeconds(0, base, cap) == Capped(base, cap)
    ensures var now, next := RetrySeconds(prior, base, cap), RetrySeconds(prior + 1, base, cap);
      next == if prior >= 6 then now else Capped(2 * now, cap)
  {
    DelayIs(0, base, cap, base);
    if prior < 6 {
      var delay := base * Pow2(prior);
      Doubles(base, prior);
      DelayIs(prior, base, cap, delay);
      DelayIs(prior + 1, base, cap, 2 * delay);
    }
  }

  lemma Scales(a: nat, b: nat, base: nat)
    requires a <= b
    ensures base * a <= base * b
  {
  }

  /** The least `d` with `n <= 2^d`. */
  function CeilLog2(n: nat): nat {
    if n <= 1 then 0 else 1 + CeilLog2((n + 1) / 2)
  }

  lemma {:induction false} CeilLog2Exact(n: nat)
    ensures n <= Pow2(CeilLog2(n))
    ensures n > 1 ==> Pow2(CeilLog2(n) - 1) < n
  {
    if n > 1 {
      var half := (n + 1) / 2;
      CeilLog2Exact(half);
      if half == 1 {
        assert CeilLog2(half) == 0 && Pow2(0) == 1;
      } else {
        assert Pow2(CeilLog2(half)) == 2 * Pow2(CeilLog2(half) - 1);
      }
    }
  }

  lemma {:induction false} CeilLog2Grows(a: nat, b: nat)
    requires a <= b
    ensures CeilLog2(a) <= CeilLog2(b)
    decreases b
  {
    if a > 1 {
      CeilLog2Grows((a + 1) / 2, (b + 1) / 2);
    }
  }
}
