/** The HapNe distance bins of the LD binning tool (`Bins::hapne_default`)
    and the bin search of its scan loop. Bin edges are in centimorgans and
    in base pairs (cM / 100 / recombination rate); `f64` is `real`. */
module LdBins {

  const NBINS: nat := 19

  datatype Bins = Bins(
    nbins: nat,
    leftCm: seq<real>,
    rightCm: seq<real>,
    leftBp: seq<real>,
    rightBp: seq<real>,
    minimum: int,
    maximum: int)

  /** Rust's `f64::round`: the nearest integer, halves away from zero. */
  function Round(x: real): (r: int)
    ensures x - 0.5 <= r as real <= x + 0.5
    ensures r as real == x + 0.5 ==> x > 0.0
    ensures r as real == x - 0.5 ==> x < 0.0
  {
    if x >= 0.0 then (x + 0.5).Floor else -((-x + 0.5).Floor)
  }

  /** Equal-length edge lists, each bin non-empty, each bin starting where
      the previous one ends. */
  predicate WellFormed(b: Bins)
  {
    && b.nbins > 0
    && |b.leftCm| == |b.rightCm| == |b.leftBp| == |b.rightBp| == b.nbins
    && (forall i :: 0 <= i < b.nbins ==> b.leftBp[i] < b.rightBp[i])
    && (forall i :: 0 <= i < b.nbins - 1 ==> b.rightBp[i] == b.leftBp[i + 1])
  }

  /** The pair range [minimum, maximum] lies within the bins, so that every
      distance the scan accepts belongs to some bin. */
  predicate SearchSafe(b: Bins)
    requires WellFormed(b)
  {
    b.leftBp[0] <= b.minimum as real && b.maximum as real <= b.rightBp[b.nbins - 1]
  }

  function LeftEdgesCm(): seq<real>
  {
    seq(NBINS, i requires 0 <= i < NBINS => 0.5 + 0.5 * i as real)
  }

  function RightEdgesCm(): seq<real>
  {
    seq(NBINS, i requires 0 <= i < NBINS => 1.0 + 0.5 * i as real)
  }

  function ToBp(cm: seq<real>, rate: real): (bp: seq<real>)
    requires rate > 0.0
    ensures |bp| == |cm|
  {
    seq(|cm|, i requires 0 <= i < |cm| => cm[i] / 100.0 / rate)
  }

  /** hapne_default: 19 contiguous bins from 0.5 cM to 10 cM; the pair
      range is the rounded outer edges in base pairs. */
  function HapneBins(rate: real): (b: Bins)
    requires rate > 0.0
    ensures WellFormed(b) && b.nbins == NBINS
  {
    var leftBp := ToBp(LeftEdgesCm(), rate);
    var rightBp := ToBp(RightEdgesCm(), rate);
    BpEdges(rate);
    Bins(NBINS, LeftEdgesCm(), RightEdgesCm(), leftBp, rightBp,
         Round(leftBp[0]), Round(rightBp[NBINS - 1]))
  }

  /** Every default bin is 0.5 cM wide and they tile 0.5 cM to 10 cM. */
  lemma HapneBinsCm(rate: real)
    requires rate > 0.0
    ensures var b := HapneBins(rate);
      && b.leftCm[0] == 0.5 && b.rightCm[NBINS - 1] == 10.0
      && (forall i :: 0 <= i < NBINS ==> b.rightCm[i] - b.leftCm[i] == 0.5)
      && (forall i :: 0 <= i < NBINS - 1 ==> b.rightCm[i] == b.leftCm[i + 1])
  {
    var b := HapneBins(rate);
    assert b.leftCm == LeftEdgesCm() && b.rightCm == RightEdgesCm();
  }

  /** The base-pair edges keep the order and the contiguity of the cM edges. */
  lemma BpEdges(rate: real)
    requires rate > 0.0
    ensures var l := ToBp(LeftEdgesCm(), rate); var r := ToBp(RightEdgesCm(), rate);
      && (forall i :: 0 <= i < NBINS ==> l[i] < r[i])
      && (forall i :: 0 <= i < NBINS - 1 ==> r[i] == l[i + 1])
  {
    var l := ToBp(LeftEdgesCm(), rate);
    var r := ToBp(RightEdgesCm(), rate);
    forall i | 0 <= i < NBINS ensures l[i] < r[i] {
      DivideMonotone(LeftEdgesCm()[i] / 100.0, RightEdgesCm()[i] / 100.0, rate);
    }
    forall i | 0 <= i < NBINS - 1 ensures r[i] == l[i + 1] {
      assert RightEdgesCm()[i] == LeftEdgesCm()[i + 1];
    }
  }

  lemma DivideMonotone(x: real, y: real, rate: real)
    requires x < y && rate > 0.0
    ensures x / rate < y / rate
  {
    assert y / rate - x / rate == (y - x) / rate;
  }

  /** hapne_default, pushing the edges one bin at a time. */
  method HapneDefault(recombinationRate: real) returns (b: Bins)
    requires recombinationRate > 0.0
    ensures b == HapneBins(recombinationRate)
  {
    var nbins := NBINS;
    var leftEdgesCm: seq<real> := [];
    var rightEdgesCm: seq<real> := [];
    var i := 0;
    while i < nbins
      invariant 0 <= i <= nbins
      invariant leftEdgesCm == LeftEdgesCm()[..i] && rightEdgesCm == RightEdgesCm()[..i]
    {
      leftEdgesCm := leftEdgesCm + [0.5 + 0.5 * i as real];
      rightEdgesCm := rightEdgesCm + [1.0 + 0.5 * i as real];
      i := i + 1;
    }
    assert leftEdgesCm == LeftEdgesCm() && rightEdgesCm == RightEdgesCm();
    var leftEdgesBp := ToBp(leftEdgesCm, recombinationRate);
    var rightEdgesBp := ToBp(rightEdgesCm, recombinationRate);
    var minimum := Round(leftEdgesBp[0]);
    var maximum := Round(rightEdgesBp[nbins - 1]);
    b := Bins(nbins, leftEdgesCm, rightEdgesCm, leftEdgesBp, rightEdgesBp, minimum, maximum);
  }

  /** At the default recombination rate 1e-8 the bins span 500 kb to 10 Mb
      exactly and the pair range is safe. */
  lemma DefaultBinsSafe()
    ensures HapneBins(0.00000001).minimum == 500000
    ensures HapneBins(0.00000001).maximum == 10000000
    ensures SearchSafe(HapneBins(0.00000001))
  {
    var b := HapneBins(0.00000001);
    assert b.leftBp[0] == 500000.0;
    assert b.rightBp[NBINS - 1] == 10000000.0;
  }

  /** The lowest bin from `k` on whose right edge is at or beyond `d`. */
  function FirstBinFrom(right: seq<real>, d: real, k: nat): (j: nat)
    requires k < |right| && d <= right[|right| - 1]
    ensures k <= j < |right| && d <= right[j]
    ensures forall i :: k <= i < j ==> right[i] < d
    decreases |right| - k
  {
    if d <= right[k] then k else FirstBinFrom(right, d, k + 1)
  }

  /** The bin of a distance: the lowest one whose right edge reaches it (a
      distance on an inner edge belongs to the lower of its two bins). */
  function BinOf(b: Bins, d: real): (j: nat)
    requires WellFormed(b) && b.leftBp[0] <= d <= b.rightBp[b.nbins - 1]
    ensures j < b.nbins && b.leftBp[j] <= d <= b.rightBp[j]
  {
    var j := FirstBinFrom(b.rightBp, d, 0);
    assert j > 0 ==> b.leftBp[j] == b.rightBp[j - 1];
    j
  }

  /** The bins cover an interval: every right edge lies beyond the first left edge. */
  lemma {:induction false} BinsSpan(b: Bins, k: nat)
    requires WellFormed(b) && k < b.nbins
    ensures b.leftBp[0] < b.rightBp[k]
  {
    if k > 0 {
      BinsSpan(b, k - 1);
      assert b.rightBp[k - 1] == b.leftBp[k];
    }
  }

  /** The bin search: advance `index` while the distance is beyond its bin.
      The index never decreases and stops at a bin containing the distance. */
  method FindBin(b: Bins, distance: real, start: nat) returns (index: nat)
    requires WellFormed(b)
    requires start < b.nbins && b.leftBp[start] <= distance <= b.rightBp[b.nbins - 1]
    ensures start <= index < b.nbins
    ensures b.leftBp[index] <= distance <= b.rightBp[index]
    ensures index == FirstBinFrom(b.rightBp, distance, start)
  {
    index := start;
    while distance > b.rightBp[index]
      invariant start <= index < b.nbins
      invariant b.leftBp[index] <= distance
      invariant FirstBinFrom(b.rightBp, distance, index) == FirstBinFrom(b.rightBp, distance, start)
      decreases b.nbins - index
    {
      index := index + 1;
    }
  }

  /** Carrying the index from a nearer pair still lands in the right bin:
      starting at the bin of any distance not beyond `d` finds the bin of `d`. */
  lemma {:induction false} SearchFromEarlierBin(b: Bins, earlier: real, d: real)
    requires WellFormed(b) && b.leftBp[0] <= earlier <= d <= b.rightBp[b.nbins - 1]
    ensures FirstBinFrom(b.rightBp, d, BinOf(b, earlier)) == BinOf(b, d)
  {
    SkipBelow(b.rightBp, d, 0, BinOf(b, earlier));
  }

  lemma {:induction false} SkipBelow(right: seq<real>, d: real, k: nat, m: nat)
    requires k <= m < |right| && d <= right[|right| - 1]
    requires forall i :: k <= i < m ==> right[i] < d
    ensures FirstBinFrom(right, d, k) == FirstBinFrom(right, d, m)
    decreases m - k
  {
    if k < m {
      SkipBelow(right, d, k + 1, m);
    }
  }

  // ---------------------------------------------------------------------
  // Rounding the pair range

  /** With rounding to nearest, the pair range can reach outside the bins:
      at a recombination rate of 1/1005 per bp the first left edge is
      5.025 bp and rounds to 5, the last right edge is 100.5 bp and rounds
      to 101, so a partner 5 bp or 101 bp away passes the range check and
      then fails the bin assertions. */
  lemma RoundedRangeEscapesBins()
    ensures HapneBins(1.0 / 1005.0).leftBp[0] == 5.025
    ensures HapneBins(1.0 / 1005.0).minimum == 5
    ensures HapneBins(1.0 / 1005.0).rightBp[NBINS - 1] == 100.5
    ensures HapneBins(1.0 / 1005.0).maximum == 101
    ensures !SearchSafe(HapneBins(1.0 / 1005.0))
  {
    var b := HapneBins(1.0 / 1005.0);
    assert b.leftBp[0] == 5.025;
    assert b.rightBp[NBINS - 1] == 100.5;
    assert (5.025 + 0.5).Floor == 5;
    assert (100.5 + 0.5).Floor == 101;
  }

  function Ceil(x: real): (r: int)
    ensures x <= r as real < x + 1.0
  {
    -((-x).Floor)
  }

  /** The bins with the pair range rounded inwards: the smallest whole
      distance not below the first left edge and the largest not beyond
      the last right edge. */
  function HapneBinsInward(rate: real): (b: Bins)
    requires rate > 0.0
    ensures WellFormed(b)
  {
    var b := HapneBins(rate);
    b.(minimum := Ceil(b.leftBp[0]), maximum := b.rightBp[b.nbins - 1].Floor)
  }

  /** Rounded inwards, the range is always safe, and a whole distance is in
      the pair range exactly when it lies within the bins. */
  lemma InwardRangeIsExact(rate: real, d: int)
    requires rate > 0.0
    ensures SearchSafe(HapneBinsInward(rate))
    ensures var b := HapneBinsInward(rate);
      b.minimum <= d <= b.maximum <==> b.leftBp[0] <= d as real <= b.rightBp[b.nbins - 1]
  {
  }
}
