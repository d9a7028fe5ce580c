/** Sums and averages of integer columns, as `reduce((sum, x) => sum + x, 0)`
    and that sum divided by the count. */
module Totals {

  function Sum(xs: seq<int>): int
    decreases |xs|
  {
    if xs == [] then 0 else Sum(xs[..|xs| - 1]) + xs[|xs| - 1]
  }

  predicate Within(xs: seq<int>, lo: int, hi: int) {
    forall k :: 0 <= k < |xs| ==> lo <= xs[k] <= hi
  }

  /** A sum of entries within [lo, hi] lies within count times each bound. */
  lemma {:induction false} SumBounds(xs: seq<int>, lo: int, hi: int)
    requires Within(xs, lo, hi)
    ensures |xs| * lo <= Sum(xs) <= |xs| * hi
    decreases |xs|
  {
    if xs != [] {
      var front := xs[..|xs| - 1];
      assert Within(front, lo, hi) by {
        forall k | 0 <= k < |front| ensures lo <= front[k] <= hi {
          assert front[k] == xs[k];
        }
      }
      SumBounds(front, lo, hi);
      assert lo <= xs[|xs| - 1] <= hi;
    }
  }

  /** The mean, and 0 for an empty column. */
  function Average(xs: seq<int>): (a: real)
    ensures xs == [] ==> a == 0.0
    ensures xs != [] ==> a * (|xs| as real) == Sum(xs) as real
  {
    if xs == [] then 0.0 else Sum(xs) as real / (|xs| as real)
  }

  /** A factor of a non-negative product with a positive factor is
      non-negative. */
  lemma NonNegativeFactor(x: real, n: real)
    requires n > 0.0 && x * n >= 0.0
    ensures x >= 0.0
  {
  }

  /** A quotient by n of a value between n * l and n * h lies between l
      and h. */
  lemma QuotientBetween(a: real, n: real, s: real, l: real, h: real)
    requires n > 0.0 && a * n == s && n * l <= s <= n * h
    ensures l <= a <= h
  {
    assert (a - l) * n == a * n - l * n;
    assert (h - a) * n == h * n - a * n;
    NonNegativeFactor(a - l, n);
    NonNegativeFactor(h - a, n);
  }

  /** Converting a product to a real converts each factor. */
  lemma {:induction false} ProductAsReal(k: nat, x: int)
    ensures (k * x) as real == (k as real) * (x as real)
  {
    if k > 0 {
      ProductAsReal(k - 1, x);
      assert k * x == (k - 1) * x + x;
      assert (k as real) * (x as real) == ((k - 1) as real) * (x as real) + x as real;
    }
  }

  /** The mean of entries within [lo, hi] lies within [lo, hi]. */
  lemma AverageBounds(xs: seq<int>, lo: int, hi: int)
    requires xs != [] && Within(xs, lo, hi)
    ensures lo as real <= Average(xs) <= hi as real
  {
    RealSumBounds(xs, lo, hi);
    QuotientBetween(Average(xs), |xs| as real, Sum(xs) as real, lo as real, hi as real);
  }

  lemma RealSumBounds(xs: seq<int>, lo: int, hi: int)
    requires Within(xs, lo, hi)
    ensures (|xs| as real) * (lo as real) <= Sum(xs) as real <= (|xs| as real) * (hi as real)
  {
    SumBounds(xs, lo, hi);
    ProductAtMost(|xs|, lo, Sum(xs));
    ProductAtLeast(|xs|, hi, Sum(xs));
  }

  lemma ProductAtMost(k: nat, x: int, t: int)
    requires k * x <= t
    ensures (k as real) * (x as real) <= t as real
  {
    ProductAsReal(k, x);
  }

  lemma ProductAtLeast(k: nat, x: int, t: int)
    requires t <= k * x
    ensures t as real <= (k as real) * (x as real)
  {
    ProductAsReal(k, x);
  }
}
