/** The driver pieces of the LD binning tool: its default hyper-parameters,
    the lookup of a contig's length in the VCF/BCF header, and the scan of
    the partner records of one record, which bins each pair by distance
    and adds its LD value to the bin's running statistics. */
module LdScan {
  import opened Wrappers
  import opened Decimal
  import opened LdGenotypes
  import opened LdEstimator
  import opened LdBins
  import opened LdStats

  // ---------------------------------------------------------------------
  // Hyper-parameters

  datatype HyperParameters = HyperParameters(recombinationRate: real, mafThreshold: real)

  /** HyperParameters::default: 1e-8 per bp and a MAF threshold of 0.25. */
  function DefaultHyperParameters(): (p: HyperParameters)
    ensures p.recombinationRate > 0.0
  {
    HyperParameters(0.00000001, 0.25)
  }

  /** With the default rate the bins cover 500 kb to 10 Mb and every pair
      distance in the range has a bin. */
  lemma DefaultBins()
    ensures var b := HapneBins(DefaultHyperParameters().recombinationRate);
      b.minimum == 500000 && b.maximum == 10000000 && SearchSafe(b)
  {
    DefaultBinsSafe();
  }

  /** With the default threshold a complete record is kept exactly when its
      alternate allele frequency lies in [0.25, 0.75]. */
  lemma DefaultThresholdKeeps(calls: seq<Call>)
    requires AllComplete(calls) && |calls| > 0
    ensures Classify(calls, DefaultHyperParameters().mafThreshold) == Kept
        <==> 0.25 <= AlleleFreq(calls) <= 0.75
  {
  }

  // ---------------------------------------------------------------------
  // Contig length

  /** A header record: a `##contig` line with its key/value pairs, or any
      other kind of header line. */
  datatype HeaderRecord = ContigRecord(values: map<string, string>) | OtherRecord

  datatype ContigError = LengthNotFound | ContigNotFound | LengthNotANumber

  /** find_contig_length as written, from the state where `seen` contig
      records have been passed over. */
  function ContigLengthFrom(records: seq<HeaderRecord>, rid: nat, seen: nat): Result<nat, ContigError>
  {
    if |records| == 0 then Err(ContigNotFound)
    else match records[0]
      case OtherRecord => ContigLengthFrom(records[1..], rid, seen)
      case ContigRecord(values) =>
        if seen < rid then ContigLengthFrom(records[1..], rid, seen + 1)
        else if seen > rid then Err(ContigNotFound)
        else if "length" !in values then Err(LengthNotFound)
        else match ParseU64(values["length"])
          case Some(n) => Ok(n)
          case None => ContigLengthFrom(records[1..], rid, seen)
  }

  function ContigLengthAsWritten(records: seq<HeaderRecord>, rid: nat): Result<nat, ContigError>
  {
    ContigLengthFrom(records, rid, 0)
  }

  /** find_contig_length: skip `rid` contig records, then read the `length`
      of the next one. */
  method FindContigLength(records: seq<HeaderRecord>, rid: nat) returns (r: Result<nat, ContigError>)
    ensures r == ContigLengthAsWritten(records, rid)
    ensures r.Ok? ==> r.value < U64_LIMIT
  {
    var seen := 0;
    var i := 0;
    while i < |records|
      invariant 0 <= i <= |records|
      invariant ContigLengthFrom(records[i..], rid, seen) == ContigLengthAsWritten(records, rid)
    {
      assert records[i..][1..] == records[i + 1..];
      var record := records[i];
      if record.ContigRecord? {
        if seen < rid {
          seen := seen + 1;
          i := i + 1;
          continue;
        }
        if seen > rid {
          break;
        }
        if "length" !in record.values {
          return Err(LengthNotFound);
        }
        var parsed := ParseU64(record.values["length"]);
        if parsed.Some? {
          return Ok(parsed.value);
        }
      }
      i := i + 1;
    }
    r := Err(ContigNotFound);
  }

  /** The key/value maps of the contig records, in header order. */
  function Contigs(records: seq<HeaderRecord>): (r: seq<map<string, string>>)
    ensures |r| <= |records|
  {
    if |records| == 0 then []
    else match records[0]
      case OtherRecord => Contigs(records[1..])
      case ContigRecord(values) => [values] + Contigs(records[1..])
  }

  /** The intended lookup: the length of the contig record with index
      `rid`, an error when it is missing or is not a u64. */
  function ContigLength(records: seq<HeaderRecord>, rid: nat): (r: Result<nat, ContigError>)
    ensures r.Ok? <==> rid < |Contigs(records)| && "length" in Contigs(records)[rid]
                       && ParseU64(Contigs(records)[rid]["length"]).Some?
    ensures r == Err(ContigNotFound) <==> rid >= |Contigs(records)|
  {
    var contigs := Contigs(records);
    if rid >= |contigs| then Err(ContigNotFound)
    else if "length" !in contigs[rid] then Err(LengthNotFound)
    else match ParseU64(contigs[rid]["length"])
      case Some(n) => Ok(n)
      case None => Err(LengthNotANumber)
  }

  /** As written, the lookup agrees with the intended one whenever the
      chosen contig's length is present and a number, or it is absent. */
  lemma {:induction false} AsWrittenAgrees(records: seq<HeaderRecord>, rid: nat, seen: nat)
    requires seen <= rid
    requires ContigLength(records, rid - seen) != Err(LengthNotANumber)
    ensures ContigLengthFrom(records, rid, seen) == ContigLength(records, rid - seen)
  {
    if |records| > 0 {
      match records[0]
      case OtherRecord =>
        AsWrittenAgrees(records[1..], rid, seen);
      case ContigRecord(values) =>
        if seen < rid {
          AsWrittenAgrees(records[1..], rid, seen + 1);
        }
    }
  }

  lemma ContigLengthAsWrittenAgrees(records: seq<HeaderRecord>, rid: nat)
    requires ContigLength(records, rid) != Err(LengthNotANumber)
    ensures ContigLengthAsWritten(records, rid) == ContigLength(records, rid)
  {
    AsWrittenAgrees(records, rid, 0);
  }

  /** When the chosen contig's length is not a number, the code goes on to
      the next contig record and returns its length instead. */
  lemma UnparsableLengthFallsThrough()
    ensures var records := [ContigRecord(map["length" := "abc"]), ContigRecord(map["length" := "100"])];
      && ContigLengthAsWritten(records, 0) == Ok(100)
      && ContigLength(records, 0) == Err(LengthNotANumber)
  {
    var records := [ContigRecord(map["length" := "abc"]), ContigRecord(map["length" := "100"])];
    assert !IsDigit('a');
    assert ParseU64("abc") == None;
    assert DigitsValue("100") == 100 by {
      assert "100"[..2] == "10" && "10"[..1] == "1";
    }
    assert ParseU64("100") == Some(100);
    assert records[1..] == [ContigRecord(map["length" := "100"])];
    assert Contigs(records) == [map["length" := "abc"], map["length" := "100"]] by {
      assert records[1..][1..] == [];
    }
  }

  // ---------------------------------------------------------------------
  // The scan over the partners of one record

  /** A partner record: its position on the contig and its genotype calls. */
  datatype Record = Record(pos: int, calls: seq<Call>)

  /** The LD values the scan adds, each with its bin, in order, and
      whether a missing genotype stopped it. */
  datatype ScanResult = ScanResult(adds: seq<(nat, real)>, failed: bool)

  /** The distance of a partner from the first record, in bp. */
  function Distance(pos1: int, r: Record): real
  {
    (r.pos - pos1) as real
  }

  /** What the scan requires of the partner list: sorted by position, as
      an indexed reader returns them, none nearer than the bins' minimum
      (the fetch starts there) and one call per sample each. */
  predicate PartnersOk(bins: Bins, pos1: int, partners: seq<Record>, nsamples: nat)
  {
    && (forall k :: 0 <= k < |partners| ==>
          partners[k].pos - pos1 >= bins.minimum && |partners[k].calls| == nsamples)
    && (forall k :: 0 <= k < |partners| - 1 ==> partners[k].pos <= partners[k + 1].pos)
  }

  /** Every partner within the maximum distance lies within the bins, so
      the bin search finds it a bin and its three assertions hold. */
  predicate PartnersInBins(bins: Bins, pos1: int, partners: seq<Record>)
    requires WellFormed(bins)
  {
    forall k :: 0 <= k < |partners| && Distance(pos1, partners[k]) <= bins.maximum as real ==>
      bins.leftBp[0] <= Distance(pos1, partners[k]) <= bins.rightBp[bins.nbins - 1]
  }

  /** When the pair range lies within the bins, as with the default rate
      and with inward-rounded bins, every partner the fetch returns does. */
  lemma SafeBinsHoldPartners(bins: Bins, pos1: int, partners: seq<Record>, nsamples: nat)
    requires WellFormed(bins) && SearchSafe(bins) && PartnersOk(bins, pos1, partners, nsamples)
    ensures PartnersInBins(bins, pos1, partners)
  {
  }

  /** At a rate whose rounded range escapes the bins, a partner inside the
      bins is still scanned; only one at the escaped distance (5 bp, below
      the first left edge of 5.025 bp) fails the bin assertions. */
  lemma EscapedRangeScansInside()
    ensures var b := HapneBins(1.0 / 1005.0);
      && !SearchSafe(b)
      && PartnersOk(b, 0, [Record(6, [])], 0) && PartnersInBins(b, 0, [Record(6, [])])
      && PartnersOk(b, 0, [Record(5, [])], 0) && !PartnersInBins(b, 0, [Record(5, [])])
  {
    var b := HapneBins(1.0 / 1005.0);
    RoundedRangeEscapesBins();
    var inside, escaped := [Record(6, [])], [Record(5, [])];
    assert Distance(0, inside[0]) == 6.0 && Distance(0, escaped[0]) == 5.0;
    assert PartnersInBins(b, 0, inside);
    assert !PartnersInBins(b, 0, escaped);
  }

  /** The contributions of the partners from the `from`-th on: each partner
      within the maximum distance that precompute keeps adds the LD of the
      pair to the bin of its distance; a skipped partner adds nothing; the
      first partner beyond the maximum ends the scan; a missing genotype
      aborts it. */
  function Contributions(bins: Bins, g1: seq<real>, pos1: int, partners: seq<Record>, from: nat,
                         mafThreshold: real, standardize: (real, real) -> real): (r: ScanResult)
    requires WellFormed(bins) && |g1| >= 2
    requires PartnersOk(bins, pos1, partners, |g1|) && PartnersInBins(bins, pos1, partners)
    requires from <= |partners|
    ensures forall k :: 0 <= k < |r.adds| ==> r.adds[k].0 < bins.nbins
    decreases |partners| - from
  {
    if from == |partners| then ScanResult([], false)
    else
      var d := Distance(pos1, partners[from]);
      if d > bins.maximum as real then ScanResult([], false)
      else
        var rest := Contributions(bins, g1, pos1, partners, from + 1, mafThreshold, standardize);
        match Classify(partners[from].calls, mafThreshold)
        case MissingGenotype => ScanResult([], true)
        case Skipped => rest
        case Kept =>
          var ld := PairMean(Products(g1, Standardized(partners[from].calls, standardize)));
          ScanResult([(BinOf(bins, d), ld)] + rest.adds, rest.failed)
  }

  /** The values of each bin after adding `adds` in order. */
  function AddAll(values: seq<seq<real>>, adds: seq<(nat, real)>): (r: seq<seq<real>>)
    requires forall k :: 0 <= k < |adds| ==> adds[k].0 < |values|
    ensures |r| == |values|
    decreases |adds|
  {
    if |adds| == 0 then values
    else AddAll(values[adds[0].0 := values[adds[0].0] + [adds[0].1]], adds[1..])
  }

  /** One partner within range that is kept or skipped carries the scan's
      invariant over to the next partner: the values after its update, with
      the rest of the scan's additions, reach the same final values. */
  lemma ScanAdvance(bins: Bins, g1: seq<real>, pos1: int, partners: seq<Record>, i: nat,
                    mafThreshold: real, standardize: (real, real) -> real,
                    before: seq<seq<real>>, after: seq<seq<real>>, final: seq<seq<real>>)
    requires WellFormed(bins) && |g1| >= 2 && |before| == bins.nbins
    requires PartnersOk(bins, pos1, partners, |g1|) && PartnersInBins(bins, pos1, partners)
    requires i < |partners|
    requires Distance(pos1, partners[i]) <= bins.maximum as real
    requires Classify(partners[i].calls, mafThreshold) != MissingGenotype
    requires AddAll(before, Contributions(bins, g1, pos1, partners, i, mafThreshold, standardize).adds) == final
    requires Classify(partners[i].calls, mafThreshold) == Skipped ==> after == before
    requires Classify(partners[i].calls, mafThreshold) == Kept ==>
      && bins.leftBp[0] <= Distance(pos1, partners[i]) <= bins.rightBp[bins.nbins - 1]
      && AllComplete(partners[i].calls) && |partners[i].calls| > 0
      && var b := BinOf(bins, Distance(pos1, partners[i]));
         after == before[b := before[b] + [PairMean(Products(g1, Standardized(partners[i].calls, standardize)))]]
    ensures Contributions(bins, g1, pos1, partners, i + 1, mafThreshold, standardize).failed
         == Contributions(bins, g1, pos1, partners, i, mafThreshold, standardize).failed
    ensures AddAll(after, Contributions(bins, g1, pos1, partners, i + 1, mafThreshold, standardize).adds) == final
  {
  }

  /** The distance the bin search has reached before the `i`-th partner:
      that of the partner before it, or the first left edge at the start. */
  function Reached(bins: Bins, pos1: int, partners: seq<Record>, i: nat): real
    requires WellFormed(bins) && i <= |partners|
  {
    if i == 0 then bins.leftBp[0] else Distance(pos1, partners[i - 1])
  }

  /** Within the maximum distance, the partners' distances never go back
      and stay within the bins. */
  lemma ReachedGrows(bins: Bins, pos1: int, partners: seq<Record>, nsamples: nat, i: nat)
    requires WellFormed(bins) && PartnersOk(bins, pos1, partners, nsamples)
    requires PartnersInBins(bins, pos1, partners) && i < |partners|
    requires Distance(pos1, partners[i]) <= bins.maximum as real
    ensures bins.leftBp[0] <= Reached(bins, pos1, partners, i) <= Distance(pos1, partners[i])
  {
    if i > 0 {
      assert partners[i - 1].pos <= partners[i].pos;
      assert Distance(pos1, partners[i - 1]) <= bins.maximum as real;
    }
  }

  /** The work the scan does for one partner within the maximum distance:
      advance the bin index to the partner's bin, precompute the partner's
      genotypes into `genotypes2` and, when it is kept, add the LD of the
      pair to that bin. `previous` is the distance of the partner before. */
  method AddPair(stats: SummaryStats, bins: Bins, genotypes1: array<real>, distance: real,
                 ghost previous: real, index: nat, calls: seq<Call>, mafThreshold: real,
                 standardize: (real, real) -> real, genotypes2: array<real>)
    returns (outcome: Outcome, bin: nat)
    requires stats.Valid() && |stats.values| == bins.nbins
    requires WellFormed(bins)
    requires genotypes1 != genotypes2 && genotypes1.Length == genotypes2.Length >= 2
    requires |calls| == genotypes1.Length
    requires bins.leftBp[0] <= previous <= distance <= bins.maximum as real
    requires distance <= bins.rightBp[bins.nbins - 1]
    requires index == BinOf(bins, previous)
    modifies stats, genotypes2
    ensures stats.Valid() && |stats.values| == bins.nbins
    ensures genotypes1[..] == old(genotypes1[..])
    ensures outcome == Classify(calls, mafThreshold)
    ensures bin == BinOf(bins, distance)
    ensures outcome == Kept ==>
      && AllComplete(calls) && |calls| > 0
      && stats.values == old(stats.values)[bin := old(stats.values)[bin]
           + [PairMean(Products(old(genotypes1[..]), Standardized(calls, standardize)))]]
    ensures outcome != Kept ==> stats.values == old(stats.values)
  {
    SearchFromEarlierBin(bins, previous, distance);
    bin := FindBin(bins, distance, index);
    outcome := Precompute(calls, mafThreshold, standardize, genotypes2);
    if outcome == Kept {
      var n := genotypes1.Length;
      var value := LinkageDisequilibrium(genotypes1, genotypes2, n);
      assert genotypes1[..n] == genotypes1[..] && genotypes2[..n] == Standardized(calls, standardize);
      stats.Add(bin, value);
    }
  }

  /** The inner loop of the LD binning tool for a record at `pos1` whose
      standardised genotypes are in `genotypes1`: find each partner's bin
      by advancing the bin index, precompute its genotypes into
      `genotypes2`, and add the pair's LD to the bin. Returns whether a
      missing genotype aborted the scan. */
  method ScanPartners(stats: SummaryStats, bins: Bins, genotypes1: array<real>, pos1: int,
                      partners: seq<Record>, mafThreshold: real,
                      standardize: (real, real) -> real, genotypes2: array<real>)
    returns (failed: bool)
    requires stats.Valid() && |stats.values| == bins.nbins
    requires WellFormed(bins)
    requires genotypes1 != genotypes2 && genotypes1.Length == genotypes2.Length >= 2
    requires PartnersOk(bins, pos1, partners, genotypes1.Length)
    requires PartnersInBins(bins, pos1, partners)
    modifies stats, genotypes2
    ensures stats.Valid() && |stats.values| == bins.nbins
    ensures var r := Contributions(bins, genotypes1[..], pos1, partners, 0, mafThreshold, standardize);
      failed == r.failed && stats.values == AddAll(old(stats.values), r.adds)
  {
    ghost var g1 := genotypes1[..];
    ghost var full := Contributions(bins, g1, pos1, partners, 0, mafThreshold, standardize);
    var index := 0;
    BinsSpan(bins, bins.nbins - 1);
    var i := 0;
    while i < |partners|
      invariant 0 <= i <= |partners|
      invariant stats.Valid() && |stats.values| == bins.nbins
      invariant genotypes1[..] == g1
      invariant bins.leftBp[0] <= Reached(bins, pos1, partners, i) <= bins.rightBp[bins.nbins - 1]
      invariant index == BinOf(bins, Reached(bins, pos1, partners, i))
      invariant var rest := Contributions(bins, g1, pos1, partners, i, mafThreshold, standardize);
        && rest.failed == full.failed
        && AddAll(stats.values, rest.adds) == AddAll(old(stats.values), full.adds)
      decreases |partners| - i
    {
      var partner := partners[i];
      var distance := Distance(pos1, partner);
      if distance > bins.maximum as real {
        break;
      }
      ReachedGrows(bins, pos1, partners, |g1|, i);
      ghost var before := stats.values;
      var outcome;
      outcome, index := AddPair(stats, bins, genotypes1, distance, Reached(bins, pos1, partners, i),
                                index, partner.calls,
                                mafThreshold, standardize, genotypes2);
      if outcome == MissingGenotype {
        return true;
      }
      ScanAdvance(bins, g1, pos1, partners, i, mafThreshold, standardize,
                  before, stats.values, AddAll(old(stats.values), full.adds));
      i := i + 1;
    }
    failed := false;
  }
}
