/** Per-record genotype preparation of the LD binning tool
    (`precompute_standarized_genotypes`): per-sample allele dosages summed
    into a reused buffer, the allele frequency, the minor-allele-frequency
    filter and the standardisation of the buffer. `f64` is `real`. The
    standardisation `(g - 2 af) / sqrt(2 af (1 - af))` is taken as a
    parameter `standardize(g, af)`, since it needs a floating-point square
    root. */
module LdGenotypes {
  import opened Wrappers
  import opened Sums

  /** One sample's diploid call: the two allele indices, None when missing. */
  datatype Call = Call(first: Option<nat>, second: Option<nat>)

  /** `Ok(Some(()))`, `Ok(None)` and `Err("Missing genotype")`. */
  datatype Outcome = Kept | Skipped | MissingGenotype

  predicate Complete(c: Call)
  {
    c.first.Some? && c.second.Some?
  }

  predicate AllComplete(calls: seq<Call>)
  {
    forall i :: 0 <= i < |calls| ==> Complete(calls[i])
  }

  /** A sample's dosage: the sum of its two allele indices. */
  function Dosage(c: Call): nat
    requires Complete(c)
  {
    c.first.value + c.second.value
  }

  function Dosages(calls: seq<Call>): (r: seq<real>)
    requires AllComplete(calls)
    ensures |r| == |calls|
  {
    seq(|calls|, i requires 0 <= i < |calls| => Dosage(calls[i]) as real)
  }

  /** The sum of all allele indices of the record. */
  function Total(calls: seq<Call>): nat
    requires AllComplete(calls)
  {
    if |calls| == 0 then 0 else Total(calls[..|calls| - 1]) + Dosage(calls[|calls| - 1])
  }

  /** total / (2 n). */
  function AlleleFreq(calls: seq<Call>): real
    requires AllComplete(calls) && |calls| > 0
  {
    Total(calls) as real / (2 * |calls|) as real
  }

  /** The minor allele frequency: never above one half, and one of af and 1 - af. */
  function Maf(af: real): (m: real)
    ensures m <= 0.5
    ensures m == af || m == 1.0 - af
    ensures 0.0 <= af <= 1.0 ==> 0.0 <= m
  {
    if af > 0.5 then 1.0 - af else af
  }

  /** The first sample with a missing allele. */
  function FirstMissing(calls: seq<Call>): (i: nat)
    requires !AllComplete(calls)
    ensures i < |calls| && !Complete(calls[i]) && AllComplete(calls[..i])
  {
    if !Complete(calls[0]) then 0
    else
      assert !AllComplete(calls[1..]) by {
        var k :| 0 <= k < |calls| && !Complete(calls[k]);
        assert calls[1..][k - 1] == calls[k];
      }
      var j := FirstMissing(calls[1..]);
      var pre := calls[..j + 1];
      assert AllComplete(pre) by {
        forall k | 0 <= k < |pre| ensures Complete(pre[k]) {
          if k > 0 {
            assert pre[k] == calls[1..][..j][k - 1];
          }
        }
      }
      j + 1
  }

  /** What the buffer slot of a sample holds when its call is incomplete:
      the first allele if that one was read, else zero. */
  function PartialDosage(c: Call): real
  {
    if c.first.Some? then c.first.value as real else 0.0
  }

  /** The decision precompute makes for a record: a missing allele is an
      error, a frequency whose MAF is under the threshold skips the record,
      anything else keeps it. */
  function Classify(calls: seq<Call>, mafThreshold: real): Outcome
  {
    if !AllComplete(calls) then MissingGenotype
    else if |calls| > 0 && Maf(AlleleFreq(calls)) < mafThreshold then Skipped
    else Kept
  }

  /** The standardised dosages a kept record leaves in the buffer. */
  function Standardized(calls: seq<Call>, standardize: (real, real) -> real): (r: seq<real>)
    requires AllComplete(calls) && |calls| > 0
    ensures |r| == |calls|
  {
    seq(|calls|, i requires 0 <= i < |calls| => standardize(Dosages(calls)[i], AlleleFreq(calls)))
  }

  /** precompute_standarized_genotypes on a record's `calls`, writing into
      the reused buffer `genotypes` (one slot per sample). With no samples
      the frequency is 0/0, a NaN that no comparison accepts, so the record
      is kept. */
  method Precompute(calls: seq<Call>, mafThreshold: real, standardize: (real, real) -> real,
                    genotypes: array<real>)
    returns (outcome: Outcome)
    requires |calls| == genotypes.Length
    modifies genotypes
    ensures outcome == Classify(calls, mafThreshold)
    ensures outcome == MissingGenotype <==> !AllComplete(calls)
    ensures outcome == MissingGenotype ==>
      var i := FirstMissing(calls);
      && genotypes[..i] == Dosages(calls[..i])
      && genotypes[i] == PartialDosage(calls[i])
      && genotypes[i + 1..] == old(genotypes[i + 1..])
    ensures outcome == Skipped ==>
      AllComplete(calls) && |calls| > 0 && genotypes[..] == Dosages(calls)
    ensures AllComplete(calls) && |calls| > 0 ==>
      (outcome == Skipped <==> Maf(AlleleFreq(calls)) < mafThreshold)
    ensures outcome == Kept ==>
      AllComplete(calls) &&
      forall i :: 0 <= i < |calls| ==>
        genotypes[i] == standardize(Dosages(calls)[i], AlleleFreq(calls))
    ensures outcome == Kept && |calls| > 0 ==> genotypes[..] == Standardized(calls, standardize)
  {
    var n := genotypes.Length;
    var total: nat := 0;
    var i := 0;
    while i < n
      invariant 0 <= i <= n
      invariant AllComplete(calls[..i])
      invariant total == Total(calls[..i])
      invariant genotypes[..i] == Dosages(calls[..i])
      invariant genotypes[i..] == old(genotypes[i..])
    {
      assert calls[..i + 1][..i] == calls[..i];
      genotypes[i] := 0.0;
      var c := calls[i];
      if c.first.None? {
        assert !AllComplete(calls);
        assert FirstMissing(calls) == i by { FirstMissingAt(calls, i); }
        assert genotypes[i + 1..] == old(genotypes[i + 1..]) by {
          assert genotypes[i + 1..] == genotypes[i..][1..];
        }
        return MissingGenotype;
      }
      genotypes[i] := genotypes[i] + c.first.value as real;
      total := total + c.first.value;
      if c.second.None? {
        assert !AllComplete(calls);
        assert FirstMissing(calls) == i by { FirstMissingAt(calls, i); }
        assert genotypes[i + 1..] == old(genotypes[i + 1..]) by {
          assert genotypes[i + 1..] == old(genotypes[i..])[1..];
        }
        return MissingGenotype;
      }
      genotypes[i] := genotypes[i] + c.second.value as real;
      total := total + c.second.value;
      assert genotypes[i + 1..] == old(genotypes[i..])[1..];
      i := i + 1;
    }
    assert calls[..i] == calls;
    if n == 0 {
      return Kept;
    }
    var alleleFreq := total as real / (2 * n) as real;
    var maf := if alleleFreq > 0.5 then 1.0 - alleleFreq else alleleFreq;
    if maf < mafThreshold {
      return Skipped;
    }
    ghost var dosages := genotypes[..];
    i := 0;
    while i < n
      invariant 0 <= i <= n
      invariant forall k :: 0 <= k < i ==> genotypes[k] == standardize(dosages[k], alleleFreq)
      invariant genotypes[i..] == dosages[i..]
    {
      genotypes[i] := standardize(genotypes[i], alleleFreq);
      assert genotypes[i + 1..] == dosages[i + 1..] by {
        assert dosages[i + 1..] == dosages[i..][1..];
      }
      i := i + 1;
    }
    outcome := Kept;
  }

  lemma FirstMissingAt(calls: seq<Call>, i: nat)
    requires i < |calls| && AllComplete(calls[..i]) && !Complete(calls[i])
    ensures !AllComplete(calls) && FirstMissing(calls) == i
  {
    assert !AllComplete(calls);
  }

  /** The allele frequency is half the mean dosage. */
  lemma {:induction false} TotalIsSumOfDosages(calls: seq<Call>)
    requires AllComplete(calls)
    ensures Total(calls) as real == Sum(Dosages(calls))
  {
    if |calls| > 0 {
      var init := calls[..|calls| - 1];
      TotalIsSumOfDosages(init);
      assert Dosages(calls)[..|calls| - 1] == Dosages(init);
    }
  }

  lemma AlleleFreqIsHalfMeanDosage(calls: seq<Call>)
    requires AllComplete(calls) && |calls| > 0
    ensures AlleleFreq(calls) == Mean(Dosages(calls)) / 2.0
  {
    TotalIsSumOfDosages(calls);
  }

  /** At a biallelic record (every allele index 0 or 1) the frequency lies
      in [0, 1], so the minor allele frequency lies in [0, 1/2]. */
  lemma {:induction false} BiallelicTotalBound(calls: seq<Call>)
    requires AllComplete(calls)
    requires forall i :: 0 <= i < |calls| ==> calls[i].first.value <= 1 && calls[i].second.value <= 1
    ensures Total(calls) <= 2 * |calls|
  {
    if |calls| > 0 {
      BiallelicTotalBound(calls[..|calls| - 1]);
    }
  }

  lemma BiallelicMafRange(calls: seq<Call>)
    requires AllComplete(calls) && |calls| > 0
    requires forall i :: 0 <= i < |calls| ==> calls[i].first.value <= 1 && calls[i].second.value <= 1
    ensures 0.0 <= AlleleFreq(calls) <= 1.0
    ensures 0.0 <= Maf(AlleleFreq(calls)) <= 0.5
  {
    BiallelicTotalBound(calls);
    FractionInUnit(Total(calls) as real, (2 * |calls|) as real);
  }

  lemma FractionInUnit(t: real, d: real)
    requires 0.0 <= t <= d && d > 0.0
    ensures 0.0 <= t / d <= 1.0
  {
    assert t / d * d == t;
  }
}
