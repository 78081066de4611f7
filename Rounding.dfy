/** JavaScript's `Math.round` on exact real numbers. */
module Rounding {

  /** `Math.round(x)`: the nearest integer, a half rounding toward positive infinity. */
  function Round(x: real): (r: int)
    ensures r as real - 0.5 <= x < r as real + 0.5
  {
    (x + 0.5).Floor
  }

  /** The contract of `Round` fixes its result: it is the one integer within a half below or under a half above. */
  lemma RoundIsNearest(x: real, n: int)
    ensures Round(x) == n <==> n as real - 0.5 <= x < n as real + 0.5
  {
  }

  /** An integral argument comes back unchanged. */
  lemma RoundOfInteger(n: int)
    ensures Round(n as real) == n
  {
  }

  lemma RoundMonotonic(x: real, y: real)
    requires x <= y
    ensures Round(x) <= Round(y)
  {
  }

  /** Halves go up, also for negative arguments; for non-negative ones this is rounding half away from zero. */
  lemma HalvesRoundUp()
    ensures Round(2.5) == 3 && Round(0.5) == 1
    ensures Round(-2.5) == -2 && Round(-0.5) == 0
  {
  }

  /** The rounded mean of `n` integers that all lie in `lo..hi` lies in `lo..hi` too. */
  lemma MeanWithin(sum: int, n: int, lo: int, hi: int)
    requires n > 0
    requires n * lo <= sum <= n * hi
    ensures lo <= Round(sum as real / n as real) <= hi
  {
    var q := sum as real / n as real;
    assert q * n as real == sum as real;
    assert lo as real <= q <= hi as real;
    RoundMonotonic(lo as real, q);
    RoundMonotonic(q, hi as real);
    RoundOfInteger(lo);
    RoundOfInteger(hi);
  }
}
