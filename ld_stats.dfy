/** The running per-bin statistics of the LD binning tool
    (`SufficientSummaryStats`): for every bin the number of pair LD values
    seen, their running mean, and the running sum of squared deviations
    from that mean, updated one value at a time by Welford's method. */
module LdStats {
  import opened Sums
  import opened LdBins

  const U32_LIMIT: nat := 0x1_0000_0000

  /** The mean of the values, 0 before the first one (a bin's initial value). */
  function RunningMean(xs: seq<real>): (m: real)
    ensures m * |xs| as real == Sum(xs)
  {
    if |xs| == 0 then 0.0 else Mean(xs)
  }

  /** The mean is the one value that, taken |xs| times, makes up the sum. */
  lemma MeanFromTotal(xs: seq<real>, c: real)
    requires |xs| > 0 && c * |xs| as real == Sum(xs)
    ensures c == RunningMean(xs)
  {
  }

  /** The sum of (x - c)^2 over the values, in order. */
  function SquaredDeviations(xs: seq<real>, c: real): real
  {
    if |xs| == 0 then 0.0
    else SquaredDeviations(xs[..|xs| - 1], c) + (xs[|xs| - 1] - c) * (xs[|xs| - 1] - c)
  }

  lemma {:induction false} SquaredDeviationsNonNegative(xs: seq<real>, c: real)
    ensures SquaredDeviations(xs, c) >= 0.0
  {
    if |xs| > 0 {
      SquaredDeviationsNonNegative(xs[..|xs| - 1], c);
      var d := xs[|xs| - 1] - c;
      assert d * d >= 0.0;
    }
  }

  /** The squared deviations from any centre, in terms of the sum and the
      sum of squares. */
  lemma {:induction false} SquaredDeviationsExpand(xs: seq<real>, c: real)
    ensures SquaredDeviations(xs, c) == SumSquares(xs) - 2.0 * c * Sum(xs) + |xs| as real * c * c
  {
    if |xs| > 0 {
      var init := xs[..|xs| - 1];
      var x := xs[|xs| - 1];
      SquaredDeviationsExpand(init, c);
      ExpandStep(SumSquares(init), Sum(init), |init| as real, x, c);
    }
  }

  /** The squared deviations from `c` in closed form, from the count, the
      sum and the sum of squares (SquaredDeviationsExpand shows the two
      agree); the running statistics are stated with it. */
  function Spread(xs: seq<real>, c: real): real
  {
    SumSquares(xs) - 2.0 * c * Sum(xs) + |xs| as real * c * c
  }

  lemma ExpandStep(q: real, s: real, k: real, x: real, c: real)
    ensures q - 2.0 * c * s + k * c * c + (x - c) * (x - c)
         == (q + x * x) - 2.0 * c * (s + x) + (k + 1.0) * c * c
  {
  }

  /** The mean after one more value, as the update computes it: taken
      k + 1 times it makes up the old total plus the new value. */
  lemma UpdatedMean(m: real, v: real, k: nat)
    ensures (m + (v - m) / (k + 1) as real) * (k + 1) as real == m * k as real + v
  {
    var d := (k + 1) as real;
    assert (v - m) / d * d == v - m;
  }

  /** The arithmetic of one Welford step on the sum, the sum of squares and
      the two means. */
  lemma WelfordArithmetic(k: real, k': real, s: real, s': real, q: real, q': real,
                          m: real, v: real, m': real, dev: real, dev': real)
    ensures && k' == k + 1.0 && s' == s + v && q' == q + v * v
            && m * k == s && m' * k' == s'
            && dev == q - 2.0 * m * s + k * m * m
            && dev' == q' - 2.0 * m' * s' + k' * m' * m'
            ==> dev' == dev + (v - m) * (v - m')
  {
    if && k' == k + 1.0 && s' == s + v && q' == q + v * v
       && m * k == s && m' * k' == s'
       && dev == q - 2.0 * m * s + k * m * m
       && dev' == q' - 2.0 * m' * s' + k' * m' * m'
    {
      assert k' * m' * m' == (s + v) * m';
      assert k * (m' - m) == v - m';
    }
  }

  /** The update of a bin's mean, `m + (v - m) / (k + 1)`, gives the mean
      of its values with the new value added. */
  lemma WelfordMean(xs: seq<real>, v: real)
    ensures RunningMean(xs) + (v - RunningMean(xs)) / (|xs| + 1) as real == RunningMean(xs + [v])
  {
    UpdatedMean(RunningMean(xs), v, |xs|);
    SumAppend(xs, v);
    assert |xs + [v]| == |xs| + 1;
    MeanFromTotal(xs + [v], RunningMean(xs) + (v - RunningMean(xs)) / (|xs| + 1) as real);
  }

  /** One update of a bin keeps the squared deviations from its mean
      exact: they grow by (v - m)(v - m'), m and m' being the means before
      and after `v` is added. */
  lemma WelfordStep(xs: seq<real>, v: real)
    ensures Spread(xs + [v], RunningMean(xs + [v]))
         == Spread(xs, RunningMean(xs)) + (v - RunningMean(xs)) * (v - RunningMean(xs + [v]))
  {
    SumAppend(xs, v);
    WelfordDeviations(xs, v, RunningMean(xs + [v]));
  }

  lemma WelfordDeviations(xs: seq<real>, v: real, m': real)
    requires m' * |xs + [v]| as real == Sum(xs + [v])
    requires Sum(xs + [v]) == Sum(xs) + v && SumSquares(xs + [v]) == SumSquares(xs) + v * v
    ensures Spread(xs + [v], m') == Spread(xs, RunningMean(xs)) + (v - RunningMean(xs)) * (v - m')
  {
    WelfordArithmetic(|xs| as real, |xs + [v]| as real, Sum(xs), Sum(xs + [v]),
                      SumSquares(xs), SumSquares(xs + [v]), RunningMean(xs), v, m',
                      Spread(xs, RunningMean(xs)), Spread(xs + [v], m'));
  }

  /** The squared deviations from the mean are the sum of squares less n
      times the squared mean, so divided by the count (as the tool does
      before reporting a bin) they give the mean square less the squared
      mean: the population variance. */
  lemma VarianceIdentity(xs: seq<real>)
    requires |xs| > 0
    ensures SquaredDeviations(xs, Mean(xs)) == SumSquares(xs) - |xs| as real * Mean(xs) * Mean(xs)
  {
    SquaredDeviationsExpand(xs, Mean(xs));
    VarianceArithmetic(|xs| as real, Sum(xs), SumSquares(xs), Mean(xs), SquaredDeviations(xs, Mean(xs)));
  }

  lemma VarianceArithmetic(n: real, s: real, q: real, m: real, dev: real)
    ensures m * n == s && dev == q - 2.0 * m * s + n * m * m ==> dev == q - n * m * m
  {
    if m * n == s {
      assert m * s == n * m * m;
    }
  }

  class SummaryStats {
    var counts: seq<nat>
    var ld: seq<real>
    var ldSquare: seq<real>
    /** Every LD value added to each bin, in order. */
    ghost var values: seq<seq<real>>

    /** Each bin holds the count, the mean and the squared deviations of
        the values added to it. */
    ghost predicate Valid()
      reads this
    {
      && |counts| == |ld| == |ldSquare| == |values|
      && forall i :: 0 <= i < |values| ==>
           && counts[i] == |values[i]|
           && ld[i] == RunningMean(values[i])
           && ldSquare[i] == Spread(values[i], ld[i])
    }

    /** In a valid state every bin's `ldSquare` is the sum of squared
        deviations of its values from their mean, hence never negative. */
    lemma BinDeviations(i: nat)
      requires Valid() && i < |values|
      ensures ldSquare[i] == SquaredDeviations(values[i], ld[i])
      ensures ldSquare[i] >= 0.0
    {
      SquaredDeviationsExpand(values[i], ld[i]);
      SquaredDeviationsNonNegative(values[i], ld[i]);
    }

    /** SufficientSummaryStats::new: one empty bin per bin of `bins`. */
    constructor (bins: Bins)
      ensures Valid()
      ensures values == seq(bins.nbins, _ => [])
      ensures counts == seq(bins.nbins, _ => 0)
      ensures ld == seq(bins.nbins, _ => 0.0) && ldSquare == seq(bins.nbins, _ => 0.0)
    {
      counts := seq(bins.nbins, _ => 0);
      ld := seq(bins.nbins, _ => 0.0);
      ldSquare := seq(bins.nbins, _ => 0.0);
      values := seq(bins.nbins, _ => []);
    }

    /** The update of the scan loop: count the new value in its bin, move
        the bin's mean towards it and grow its squared deviations. Only
        that bin changes. */
    method Add(index: nat, value: real)
      requires Valid() && index < |counts|
      modifies this
      ensures Valid()
      ensures values == old(values)[index := old(values)[index] + [value]]
      ensures counts == old(counts)[index := old(counts)[index] + 1]
      ensures forall j :: 0 <= j < |ld| && j != index ==>
        ld[j] == old(ld[j]) && ldSquare[j] == old(ldSquare[j])
    {
      WelfordMean(values[index], value);
      WelfordStep(values[index], value);
      counts := counts[index := counts[index] + 1];
      var delta := value - ld[index];
      ld := ld[index := ld[index] + delta / counts[index] as real];
      var delta2 := value - ld[index];
      ldSquare := ldSquare[index := ldSquare[index] + delta * delta2];
      values := values[index := values[index] + [value]];
    }

    /** should_stop: every bin has at least `minLoci` values (compared as
        a u32, so `minLoci` is truncated to 32 bits) and passes the
        confidence-interval test on its count and squared deviations. */
    method ShouldStop(minLoci: nat, withinTolerance: (nat, real) -> bool) returns (stop: bool)
      requires Valid()
      ensures stop <==>
        && (forall i :: 0 <= i < |counts| ==> counts[i] >= minLoci % U32_LIMIT)
        && (forall i :: 0 <= i < |counts| ==> withinTolerance(counts[i], ldSquare[i]))
    {
      var minimum := minLoci % U32_LIMIT;
      var i := 0;
      while i < |counts|
        invariant 0 <= i <= |counts|
        invariant forall j :: 0 <= j < i ==> counts[j] >= minimum
      {
        if counts[i] < minimum {
          return false;
        }
        i := i + 1;
      }
      i := 0;
      while i < |ld|
        invariant 0 <= i <= |ld|
        invariant forall j :: 0 <= j < i ==> withinTolerance(counts[j], ldSquare[j])
      {
        if !withinTolerance(counts[i], ldSquare[i]) {
          return false;
        }
        i := i + 1;
      }
      return true;
    }
  }
}
