/** The statistical outlier filter of src/utils/helper.ts (`filterOutliers`). */
module OutlierFilter {
  import Seqs

  function Sum(xs: seq<real>): real
  {
    if xs == [] then 0.0 else Sum(xs[..|xs| - 1]) + xs[|xs| - 1]
  }

  /** The similarities of the results, in order. */
  function Similarities<T>(results: seq<T>, similarity: T -> real): (xs: seq<real>)
    ensures |xs| == |results|
    ensures forall k :: 0 <= k < |xs| ==> xs[k] == similarity(results[k])
  {
    seq(|results|, k requires 0 <= k < |results| => similarity(results[k]))
  }

  /** Arithmetic mean. */
  function Mean(xs: seq<real>): real
    requires |xs| > 0
  {
    Sum(xs) / |xs| as real
  }

  /** Population variance: the mean squared deviation from the mean. */
  function Variance(xs: seq<real>): real
    requires |xs| > 0
  {
    var m := Mean(xs);
    Sum(seq(|xs|, k requires 0 <= k < |xs| => (xs[k] - m) * (xs[k] - m))) / |xs| as real
  }

  /**
   * `s >= mean - 0.5 * sqrt(variance)`, written without the square root:
   * either `s` is at least the mean, or twice its shortfall squared is at most the variance.
   */
  predicate AboveLowerBound(s: real, mean: real, variance: real)
  {
    s >= mean || 4.0 * (mean - s) * (mean - s) <= variance
  }

  /** `filterOutliers`: fewer than two results pass through; otherwise keep those not below mean - 0.5 sigma. */
  function FilterOutliers<T>(results: seq<T>, similarity: T -> real): (kept: seq<T>)
    ensures |results| < 2 ==> kept == results
  {
    if |results| < 2 then results else Seqs.Filter(results, KeepTest(results, similarity))
  }

  /** The per-result test `filterOutliers` applies, with mean and variance taken over all results. */
  function KeepTest<T>(results: seq<T>, similarity: T -> real): T -> bool
    requires |results| > 0
  {
    var xs := Similarities(results, similarity);
    var mean, variance := Mean(xs), Variance(xs);
    (r: T) => AboveLowerBound(similarity(r), mean, variance)
  }

  /** For non-negative numbers, comparing squares is comparing the numbers. */
  lemma SquareMonotone(x: real, y: real)
    requires 0.0 <= x && 0.0 <= y
    ensures x <= y <==> x * x <= y * y
  {
    assert y * y - x * x == (y - x) * (y + x);
    if x < y {
      MulPositive(y - x, y + x);
    } else if y < x {
      MulPositive(x - y, x + y);
      assert x * x - y * y == (x - y) * (x + y);
    }
  }

  lemma MulPositive(a: real, b: real)
    requires 0.0 < a && 0.0 < b
    ensures 0.0 < a * b
  {
  }

  lemma MulStrict(c: real, a: real, b: real)
    requires 0.0 < c && a < b
    ensures a * c < b * c
  {
    assert b * c - a * c == c * (b - a);
  }

  /** The square-root-free test agrees with `s >= mean - stdDev * 0.5` for the true standard deviation. */
  lemma AboveLowerBoundIsSqrtFree(s: real, mean: real, variance: real, stdDev: real)
    requires 0.0 <= stdDev && stdDev * stdDev == variance
    ensures AboveLowerBound(s, mean, variance) <==> s >= mean - stdDev * 0.5
  {
    if s < mean {
      var shortfall := 2.0 * (mean - s);
      SquareMonotone(shortfall, stdDev);
      assert shortfall * shortfall == 4.0 * (mean - s) * (mean - s);
    }
  }

  /**
   * With two or more results, the output is an order-preserving subsequence of the input, and a
   * result is kept exactly when its similarity is at least mean - 0.5 * stdDev.
   */
  lemma FilterOutliersSpec<T>(results: seq<T>, similarity: T -> real, stdDev: real)
    requires |results| >= 2
    requires 0.0 <= stdDev && stdDev * stdDev == Variance(Similarities(results, similarity))
    ensures Seqs.IsSubsequence(FilterOutliers(results, similarity), results)
    ensures forall k :: 0 <= k < |results| ==>
              (results[k] in FilterOutliers(results, similarity) <==>
               similarity(results[k]) >= Mean(Similarities(results, similarity)) - stdDev * 0.5)
  {
    var xs := Similarities(results, similarity);
    var mean, variance := Mean(xs), Variance(xs);
    var p := KeepTest(results, similarity);
    Seqs.FilterIsSubsequence(results, p);
    forall k | 0 <= k < |results|
      ensures results[k] in FilterOutliers(results, similarity) <==> similarity(results[k]) >= mean - stdDev * 0.5
    {
      Seqs.FilterMember(results, p, k);
      AboveLowerBoundIsSqrtFree(similarity(results[k]), mean, variance, stdDev);
    }
  }

  /** A sum of values none above `bound` is at most `bound` times their number. */
  lemma {:induction false} SumAtMost(xs: seq<real>, bound: real)
    requires forall k :: 0 <= k < |xs| ==> xs[k] <= bound
    ensures Sum(xs) <= |xs| as real * bound
  {
    if xs != [] {
      SumAtMost(xs[..|xs| - 1], bound);
    }
  }

  /** The maximum-similarity result is never filtered out. */
  lemma MaximumKept<T>(results: seq<T>, similarity: T -> real, m: nat)
    requires m < |results|
    requires forall k :: 0 <= k < |results| ==> similarity(results[k]) <= similarity(results[m])
    ensures results[m] in FilterOutliers(results, similarity)
  {
    if |results| >= 2 {
      var xs := Similarities(results, similarity);
      SumAtMost(xs, similarity(results[m]));
      DivAtMost(Sum(xs), |xs| as real, similarity(results[m]));
      Seqs.FilterMember(results, KeepTest(results, similarity), m);
    }
  }

  lemma DivAtMost(a: real, n: real, b: real)
    requires 0.0 < n && a <= n * b
    ensures a / n <= b
  {
    var q := a / n;
    assert q * n == a;
    if q > b {
      MulStrict(n, b, q);
      assert false;
    }
  }

  /** Index of a result of maximal similarity. */
  function ArgMax<T>(results: seq<T>, similarity: T -> real): (m: nat)
    requires |results| > 0
    ensures m < |results|
    ensures forall k :: 0 <= k < |results| ==> similarity(results[k]) <= similarity(results[m])
  {
    if |results| == 1 then 0
    else
      var m := ArgMax(results[..|results| - 1], similarity);
      if similarity(results[|results| - 1]) > similarity(results[m]) then |results| - 1 else m
  }

  /** A non-empty input gives a non-empty output. */
  lemma FilterOutliersNonEmpty<T>(results: seq<T>, similarity: T -> real)
    requires |results| > 0
    ensures |FilterOutliers(results, similarity)| > 0
  {
    MaximumKept(results, similarity, ArgMax(results, similarity));
  }

  /**
   * Similarities 0.9, 0.85 and 0.2 have mean 0.65 and variance 0.305 / 3, so the bound
   * 0.65 - 0.5 * sigma lies near 0.49: the two high results stay and 0.2 goes.
   */
  lemma FilterOutliersExample()
    ensures FilterOutliers([0.9, 0.85, 0.2], (s: real) => s) == [0.9, 0.85]
  {
    var xs := [0.9, 0.85, 0.2];
    var id := (s: real) => s;
    assert Similarities(xs, id) == xs;
    assert xs[..2][..1] == [0.9] && [0.9][..0] == [];
    assert Sum([0.9]) == 0.9;
    assert Sum(xs[..2]) == 1.75;
    assert Sum(xs) == 1.95;
    assert Mean(xs) == 0.65;
    var sq := seq(3, k requires 0 <= k < 3 => (xs[k] - 0.65) * (xs[k] - 0.65));
    assert sq == [0.0625, 0.04, 0.2025];
    assert sq[..2][..1] == [0.0625] && [0.0625][..0] == [];
    assert Sum([0.0625]) == 0.0625;
    assert Sum(sq[..2]) == 0.1025;
    assert Sum(sq) == 0.305;
    var p := KeepTest(xs, id);
    assert p(0.9) && p(0.85) && !p(0.2);
    assert xs[1..][1..] == [0.2];
  }
}
