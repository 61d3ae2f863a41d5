/** The pairwise LD estimator `linkage_disequilibrium`: with p_i the
    product of the two standardised genotypes of sample i, it returns
    ((sum p)^2 - sum p^2) / (n (n - 1)). In exact arithmetic that is the
    mean of p_i p_j over the ordered pairs of distinct samples, which is
    the reference definition the estimator is proved against. */
module LdEstimator {
  import opened Sums

  function Products(a: seq<real>, b: seq<real>): (p: seq<real>)
    requires |a| == |b|
    ensures |p| == |a|
  {
    seq(|a|, i requires 0 <= i < |a| => a[i] * b[i])
  }

  /** Sum over j < k, j != i, of s[i] * s[j]. */
  function RowExcept(s: seq<real>, i: nat, k: nat): real
    requires i < |s| && k <= |s|
  {
    if k == 0 then 0.0
    else RowExcept(s, i, k - 1) + (if k - 1 == i then 0.0 else s[i] * s[k - 1])
  }

  /** Sum over i < m and j != i of s[i] * s[j]. */
  function OffDiagonal(s: seq<real>, m: nat): real
    requires m <= |s|
  {
    if m == 0 then 0.0 else OffDiagonal(s, m - 1) + RowExcept(s, m - 1, |s|)
  }

  /** The mean of s[i] * s[j] over the n (n - 1) ordered pairs i != j. */
  function PairMean(s: seq<real>): real
    requires |s| >= 2
  {
    OffDiagonal(s, |s|) / (|s| as real * (|s| as real - 1.0))
  }

  /** Sum over j < k, j != i, of s[j]. */
  function SumExcept(s: seq<real>, i: nat, k: nat): real
    requires i < |s| && k <= |s|
  {
    if k == 0 then 0.0 else SumExcept(s, i, k - 1) + (if k - 1 == i then 0.0 else s[k - 1])
  }

  lemma {:induction false} SumExceptValue(s: seq<real>, i: nat, k: nat)
    requires i < |s| && k <= |s|
    ensures SumExcept(s, i, k) == Sum(s[..k]) - (if i < k then s[i] else 0.0)
  {
    if k > 0 {
      SumExceptValue(s, i, k - 1);
      SumPrefixStep(s, k);
    }
  }

  lemma SumPrefixStep(s: seq<real>, k: nat)
    requires 0 < k <= |s|
    ensures Sum(s[..k]) == Sum(s[..k - 1]) + s[k - 1]
  {
    assert s[..k][..k - 1] == s[..k - 1];
  }

  /** Each term of row i carries the factor s[i]. */
  lemma {:induction false} RowFactor(s: seq<real>, i: nat, k: nat)
    requires i < |s| && k <= |s|
    ensures RowExcept(s, i, k) == s[i] * SumExcept(s, i, k)
  {
    if k > 0 {
      RowFactor(s, i, k - 1);
      if k - 1 == i {
      } else {
        Distribute(s[i], SumExcept(s, i, k - 1), s[k - 1]);
      }
    }
  }

  lemma Distribute(a: real, b: real, c: real)
    ensures a * (b + c) == a * b + a * c
  {
  }

  /** A full row: s[i] times the sum of all the others. */
  lemma RowValue(s: seq<real>, i: nat)
    requires i < |s|
    ensures RowExcept(s, i, |s|) == s[i] * Sum(s) - s[i] * s[i]
  {
    RowFactor(s, i, |s|);
    SumExceptValue(s, i, |s|);
    assert s[..|s|] == s;
    Distribute(s[i], Sum(s), -s[i]);
  }

  lemma OffDiagonalStep(s: seq<real>, m: nat)
    requires 0 < m <= |s|
    requires RowExcept(s, m - 1, |s|) == s[m - 1] * Sum(s) - s[m - 1] * s[m - 1]
    requires OffDiagonal(s, m - 1) == Sum(s[..m - 1]) * Sum(s) - SumSquares(s[..m - 1])
    ensures OffDiagonal(s, m) == Sum(s[..m]) * Sum(s) - SumSquares(s[..m])
  {
    var a, x, q := Sum(s[..m - 1]), s[m - 1], SumSquares(s[..m - 1]);
    assert Sum(s[..m]) == a + x && SumSquares(s[..m]) == q + x * x by {
      assert s[..m][..m - 1] == s[..m - 1];
    }
  }

  /** The double sum over distinct pairs is (sum s)^2 - sum s^2. */
  lemma {:induction false} OffDiagonalValue(s: seq<real>, m: nat)
    requires m <= |s|
    ensures OffDiagonal(s, m) == Sum(s[..m]) * Sum(s) - SumSquares(s[..m])
  {
    if m > 0 {
      OffDiagonalValue(s, m - 1);
      RowValue(s, m - 1);
      OffDiagonalStep(s, m);
    } else {
      assert s[..0] == [];
    }
  }

  /** linkage_disequilibrium over the first `n` entries of both buffers. */
  method LinkageDisequilibrium(genotypes1: array<real>, genotypes2: array<real>, n: nat)
    returns (r: real)
    requires genotypes1.Length >= n && genotypes2.Length >= n
    requires n >= 2
    ensures r == PairMean(Products(genotypes1[..n], genotypes2[..n]))
  {
    ghost var p := Products(genotypes1[..n], genotypes2[..n]);
    var s := n as real;
    var ld := 0.0;
    var ldSquare := 0.0;
    var i := 0;
    while i < n
      invariant 0 <= i <= n
      invariant ld == Sum(p[..i]) && ldSquare == SumSquares(p[..i])
    {
      var a := genotypes1[i];
      var b := genotypes2[i];
      var prod := a * b;
      assert p[i] == prod;
      PrefixStep(p, i);
      ld := ld + prod;
      ldSquare := ldSquare + prod * prod;
      i := i + 1;
    }
    assert p[..n] == p;
    EstimatorValue(p, ld, ldSquare, s);
    r := (ld * ld - ldSquare) / (s * (s - 1.0));
  }

  lemma PrefixStep(p: seq<real>, i: nat)
    requires i < |p|
    ensures Sum(p[..i + 1]) == Sum(p[..i]) + p[i]
    ensures SumSquares(p[..i + 1]) == SumSquares(p[..i]) + p[i] * p[i]
  {
    assert p[..i + 1] == p[..i] + [p[i]];
    SumAppend(p[..i], p[i]);
  }

  /** The closed form the loop computes is the mean over distinct pairs. */
  lemma EstimatorValue(p: seq<real>, total: real, squares: real, n: real)
    requires |p| >= 2 && total == Sum(p) && squares == SumSquares(p) && n == |p| as real
    ensures (total * total - squares) / (n * (n - 1.0)) == PairMean(p)
  {
    OffDiagonalFull(p);
  }

  lemma OffDiagonalFull(p: seq<real>)
    ensures OffDiagonal(p, |p|) == Sum(p) * Sum(p) - SumSquares(p)
  {
    OffDiagonalValue(p, |p|);
    assert p[..|p|] == p;
  }

  /** The estimate does not depend on which record is the first. */
  lemma PairMeanSymmetric(a: seq<real>, b: seq<real>)
    requires |a| == |b| >= 2
    ensures PairMean(Products(a, b)) == PairMean(Products(b, a))
  {
    assert Products(a, b) == Products(b, a);
  }
}
