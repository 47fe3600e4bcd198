/** `Math.round` of a ratio of naturals, as the views compute averages and percentages, and the
    value a page displays when such a ratio divides by zero. */
module Rounding {
  import opened Seqs

  /** `Math.round(p / q)`: the integer nearest to p/q, halves rounded up. */
  function RoundDiv(p: nat, q: nat): (r: nat)
    requires q > 0
    ensures q * (2 * r - 1) <= 2 * p     // p/q >= r - 1/2
    ensures 2 * p < q * (2 * r + 1)      // p/q <  r + 1/2
  {
    var r := (2 * p + q) / (2 * q);
    assert 2 * q * r <= 2 * p + q < 2 * q * r + 2 * q;
    r
  }

  /** Cancelling a positive factor preserves order. */
  lemma CancelFactor(q: nat, a: int, b: int)
    requires q > 0 && q * a < q * b
    ensures a < b
  {
  }

  /** An exact multiple rounds to its quotient. */
  lemma RoundDivExact(k: nat, q: nat)
    requires q > 0
    ensures RoundDiv(k * q, q) == k
  {
    var r: int := RoundDiv(k * q, q);
    assert q * (2 * k + 1) == 2 * (k * q) + q;
    assert q * (2 * k - 1) == 2 * (k * q) - q;
    CancelFactor(q, 2 * r - 1, 2 * k + 1);
    CancelFactor(q, 2 * k - 1, 2 * r + 1);
  }

  /** Rounding is monotone in the numerator. */
  lemma RoundDivMonotone(p1: nat, p2: nat, q: nat)
    requires q > 0 && p1 <= p2
    ensures RoundDiv(p1, q) <= RoundDiv(p2, q)
  {
    var r1: int, r2: int := RoundDiv(p1, q), RoundDiv(p2, q);
    assert q * (2 * r1 - 1) < q * (2 * r2 + 1);
    CancelFactor(q, 2 * r1 - 1, 2 * r2 + 1);
  }

  /** A ratio of at most `bound` rounds to at most `bound`. */
  lemma RoundDivAtMost(p: nat, q: nat, bound: nat)
    requires q > 0 && p <= bound * q
    ensures RoundDiv(p, q) <= bound
  {
    var r: int := RoundDiv(p, q);
    assert q * (2 * r - 1) < q * (2 * bound + 1);
    CancelFactor(q, 2 * r - 1, 2 * bound + 1);
  }

  /** An average shown as `n > 0 ? Math.round(total / n) : 0`. */
  function RoundedMean(total: nat, n: nat): nat
  {
    if n == 0 then 0 else RoundDiv(total, n)
  }

  /** A rounded mean of terms that are each at most `bound` is at most `bound`. */
  lemma MeanAtMost<T>(xs: seq<T>, f: T -> nat, bound: nat)
    requires forall i :: 0 <= i < |xs| ==> f(xs[i]) <= bound
    ensures RoundedMean(Sum(xs, f), |xs|) <= bound
  {
    SumBounded(xs, f, bound);
    if |xs| > 0 {
      RoundDivAtMost(Sum(xs, f), |xs|, bound);
    }
  }

  /** A percentage shown as `n > 0 ? Math.round(count / n * 100) : 0`. */
  function Percent(count: nat, n: nat): nat
  {
    if n == 0 then 0 else RoundDiv(100 * count, n)
  }

  /** A share of at most the whole is at most 100 percent. */
  lemma PercentAtMost100(count: nat, n: nat)
    requires count <= n
    ensures Percent(count, n) <= 100
  {
    if n > 0 {
      RoundDivAtMost(100 * count, n, 100);
    }
  }

  /** A larger count never shows a smaller percentage. */
  lemma PercentMonotone(c1: nat, c2: nat, n: nat)
    requires c1 <= c2
    ensures Percent(c1, n) <= Percent(c2, n)
  {
    if n > 0 {
      RoundDivMonotone(100 * c1, 100 * c2, n);
    }
  }

  /** What a page displays for a JavaScript number that is the result of `Math.round`. */
  datatype Shown = Num(n: nat) | Infinity | NaN

  /** `Math.round(p / q)` without a guard: dividing a positive number by zero gives `Infinity`,
      and 0 / 0 gives `NaN`. */
  function RoundDivShown(p: nat, q: nat): (r: Shown)
    ensures q > 0 ==> r == Num(RoundDiv(p, q))
    ensures q == 0 ==> (r == Infinity <==> p > 0) && (r == NaN <==> p == 0)
  {
    if q > 0 then Num(RoundDiv(p, q)) else if p > 0 then Infinity else NaN
  }
}
