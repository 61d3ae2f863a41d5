# A Dafny model of the simulation-and-LD pipeline core

This project models the computational core of a population-genetics
pipeline that simulates genomes and estimates effective population size
from linkage disequilibrium (LD):

- **The SLiM wrapper** (`SlimConstants`, `SlimModel`). Python values
  become SLiM `-d` constant definitions: `key=asX(c(...))` for scalars and
  vectors, and `key=matrix(asX(c(...)), nrow=R, ncol=C, byrow=T)` for
  matrices. The `SLiMModel` class checks its constructor arguments and
  builds the `slim -s SEED -d DEF ... SCRIPT` argument list.
- **The PLINK map writer** (`PlinkMap`). It collects `ID` and `length` from
  the `##contig` lines of a VCF header until the `#CHROM` line, and writes
  two `.map` rows per contig.
- **The LD binning tool**, in both of its versions:
  - `LdGenotypes`: per-record genotype dosages, the allele frequency, the
    minor-allele-frequency (MAF) filter and standardisation, all into a
    reused buffer.
  - `LdEstimator`: the pairwise LD estimator.
  - `LdBins`: the 19 HapNe distance bins and the bin search.
  - `LdStats`: the per-bin running count, mean and squared deviations
    (Welford's update), and the stopping rule.
  - `LdScan`: the default hyper-parameters, the contig-length lookup in
    the header, and the scan over the partners of one record.
- **The IBD table builder** (`IbdRows`). It turns the IBD segments of
  node pairs into rows of (individual, haplotype) pairs, and drops pairs
  that are two haplotypes of one individual.

`f64` arithmetic is modelled as exact `real` arithmetic. Python strings
and Rust `&str` are `seq<char>`. Lines read from standard input and rows
printed are sequences. The seed drawn at random, the verdict of
`slim -c`, the outcome of the `slim` process and the temporary file name
are all parameters.

The two versions of the LD binning tool are `external/ld_binning` (older)
and `external/ld_binning_src` (newer). Their `precompute_standarized_genotypes`,
`linkage_disequilibrium`, `Bins::hapne_default`, `SufficientSummaryStats::new`
and their accumulator update are identical in behaviour; they differ only
in layout and in the type of the argument structure they read the
parameters from. These are modelled
once, and the table cites the newer file. Only the older file has
`HyperParameters::default` and the inner scan that ends with `break`; only
the newer file has `find_contig_length` and `should_stop`.

`ScanPartners` models the inner scan of both versions:
- the older scan fetches every record from the minimum distance on and
  breaks at the first partner beyond the maximum;
- the newer scan fetches only up to the maximum, so that break never fires
  for the records it sees.

The scan is modelled for any bins in which every partner within the
maximum distance lies between the first left edge and the last right
edge (`PartnersInBins`), which is exactly when the bin search's
assertions hold. With the older version's fixed rate, and with
inward-rounded bins, that holds for every partner the fetch returns
(`SafeBinsHoldPartners`). At rates whose rounded range escapes the
bins, the newer tool still bins every partner inside them.

## Model

| member | source | states |
|---|---|---|
| SlimConstants.ParseNdarray | src/slim/slimwrap.py:21-39 | succeeds exactly for dtype kinds f, i, b, U, S and otherwise fails with the key and the kind; on success the text is `key=` followed by the kind's conversion function applied to `c(...)` of the comma-joined element texts |
| SlimConstants.ParseMatrix | src/slim/slimwrap.py:42-64 | succeeds exactly for the five supported kinds; an unsupported kind gives the dtype error naming the key and the kind |
| SlimConstants.MatrixWrapsVector | src/slim/slimwrap.py:42-64 | a 2-d definition is the vector definition of the row-major flattening, wrapped in `matrix(..., nrow=R, ncol=C, byrow=T)`; it lists exactly R times C elements |
| SlimConstants.ParseKeyValue | src/slim/slimwrap.py:67-90 | succeeds exactly when `np.asarray` converts the value to a supported kind with at most two dimensions and at least one element; every failure is the "Unsupported type" error for the key; a success is the `parse_ndarray` definition of the data for a scalar or vector and the `parse_matrix` definition for a 2-d array |
| SlimConstants.ScalarAsVector | src/slim/slimwrap.py:70-71 | a 0-d value serialises exactly like the one-element vector that holds it |
| SlimConstants.VectorRoundTrip | src/slim/slimwrap.py:21-39 | decoding a vector definition gives back the kind's conversion function and every element text, in order |
| SlimConstants.ConstantRoundTrip | src/slim/slimwrap.py:21-39 | float texts pass through `asFloat` unchanged; integers, booleans and strings free of quotes and backslashes read back as the same elements of the same kind; a string holding a quote, and every byte-string vector, does not read back at all |
| SlimConstants.IntsRoundTrip | src/slim/slimwrap.py:26-28 | the `str()` texts of integers read back through `asInteger` as the same integers |
| SlimConstants.BoolsRoundTrip | src/slim/slimwrap.py:29-31 | the `T`/`F` texts read back through `asLogical` as the same booleans |
| SlimConstants.QuotedRoundTrip | src/slim/slimwrap.py:32-34 | strings free of quotes and backslashes, written between single quotes, read back through `asString` as the same strings |
| SlimConstants.QuoteEndsLiteral | src/slim/slimwrap.py:32-34 | a unicode element holding a quote ends its literal early, so the vector does not read back |
| SlimConstants.BytesTextHasQuote | src/slim/slimwrap.py:34 | Python's `str()` of any bytes value holds a single quote: its delimiter, or a quote byte between double quotes |
| SlimConstants.BytesNeverReadBack | src/slim/slimwrap.py:32-34 | byte-string elements, written as `'b'...''`, never read back through `asString` |
| SlimConstants.BytesElementAsWritten | src/slim/slimwrap.py:34 | b"abc" is written `k=asString(c('b'abc''))`, which does not read back |
| SlimConstants.ParseNdarrayDecoded | src/slim/slimwrap.py:32-34 | the corrected serialiser: succeeds for the same kinds with the same error; byte strings are decoded before quoting, and every other kind gives exactly the `parse_ndarray` text |
| SlimConstants.DecodedBytesRoundTrip | src/slim/slimwrap.py:32-34 | decoded byte strings free of quotes, backslashes and commas read back as their text |
| SlimConstants.BytesElementDecoded | src/slim/slimwrap.py:34 | decoded, b"abc" is written `k=asString(c('abc'))` and reads back as "abc" |
| SlimConstants.IntsAndBoolsCommaFree | src/slim/slimwrap.py:26-31 | integer and boolean element texts never contain the separating comma |
| Decimal.IntTextRoundTrip | src/slim/slimwrap.py:178 | the decimal text of any integer (the seed argument) reads back as that integer |
| Decimal.NatTextRoundTrip | src/utils/plink_map.py:24 | the decimal text of a natural number reads back as that number |
| Decimal.ParseU64OfText | external/ld_binning_src/src/main.rs:198 | the decimal text of every value below 2^64 parses as a u64 to that value |
| SlimModel.DefinitionsShape | src/slim/slimwrap.py:179-180 | the constants serialise exactly when each one does; then there are two arguments per constant in dict order, `-d` and that constant's definition |
| SlimModel.DefinitionsFirstError | src/slim/slimwrap.py:179-180 | when some constant fails, the error is the "Unsupported type" error of the first failing key |
| SlimModel.DefinitionsStep | src/slim/slimwrap.py:179-180 | one more constant that serialises appends its `-d` pair after the earlier ones |
| SlimModel.DefinitionsFirstErrorFrom | src/slim/slimwrap.py:179-180 | if the constants before position i serialise and the i-th does not, the whole definition list fails with the i-th error |
| SlimModel.CommandShape | src/slim/slimwrap.py:169-181 | the argument list is `slim -s SEED`, then one `-d DEF` pair per constant in dict order, then the script path: 4 + 2n arguments |
| SlimModel.SLiMModel.constructor | src/slim/slimwrap.py:117-136 | a new model holds its temporary path and script, and has no last seed and no last result |
| SlimModel.SLiMModel.Create | src/slim/slimwrap.py:110-135 | TypeError when both sources or neither are given, or when the source is neither a str nor a Path; otherwise a ValueError exactly when the script check fails; on success the script is the code or the file text |
| SlimModel.SLiMModel.AssembleCommand | src/slim/slimwrap.py:169-181 | the loop builds exactly the argument list `Command` describes, or stops with the first constant's error |
| SlimModel.SLiMModel.Run | src/slim/slimwrap.py:165-190 | a non-dict argument raises a TypeError and a non-integer seed a ValueError, both before any state changes; otherwise `last_seed` is set first, `_last_seed` only after the command is built, and the last result only when the process is not a failure under `check=True` |
| PlinkMap.DigitPrefix | src/utils/plink_map.py:11 | `\d+` takes the longest run of digits: the next character, if any, is not a digit |
| PlinkMap.MatchAt | src/utils/plink_map.py:11 | a match at a position has a non-empty ID with no comma in it |
| PlinkMap.MatchAtReads | src/utils/plink_map.py:11-13 | text `ID=<id>,length=<digits>` at a position, with a valid ID and a maximal non-empty digit run, matches there with the ID and the digits' value as its groups |
| PlinkMap.MatchAtOnlyFrom | src/utils/plink_map.py:11-13 | whatever matches at a position was read from such text: some valid ID and maximal digit run give exactly the reported contig |
| PlinkMap.DigitPrefixOf | src/utils/plink_map.py:11 | `\d+` captures exactly a maximal run of digits |
| PlinkMap.SearchFindsLeftmost | src/utils/plink_map.py:11 | the search reports the match at the leftmost matching position |
| PlinkMap.SearchNoneMeansNoMatch | src/utils/plink_map.py:11-13 | a line yields no contig only when no position matches |
| PlinkMap.SearchValid | src/utils/plink_map.py:11-13 | every reported contig has a non-empty, comma-free ID |
| PlinkMap.HeaderContigs | src/utils/plink_map.py:7-16 | every contig the header yields has a non-empty, comma-free ID |
| PlinkMap.ParseVcfHeader | src/utils/plink_map.py:7-16 | the loop returns exactly the contigs of the matching `##contig` lines before the first `#CHROM` line, in order |
| PlinkMap.ChromLineEndsHeader | src/utils/plink_map.py:14-15 | nothing from the first `#CHROM` line on affects the result |
| PlinkMap.IgnoredLine | src/utils/plink_map.py:9-15 | a line that is neither a contig line nor `#CHROM`, or a contig line without a match, contributes nothing |
| PlinkMap.HeaderContigsAppend | src/utils/plink_map.py:9-13 | contigs come out in the order of their lines: the contigs of a header prefix without `#CHROM` come before the rest |
| PlinkMap.WriteMap | src/utils/plink_map.py:19-24 | two rows per contig, in header order: `ID rs1 0 0` and then `ID rs2 cM LENGTH` |
| PlinkMap.FirstRowStartsWithId | src/utils/plink_map.py:23 | the first field of the first row is the contig ID |
| PlinkMap.SecondRowEndsWithLength | src/utils/plink_map.py:24 | the last field of the second row is all digits and reads back as the contig length |
| LdGenotypes.Maf | external/ld_binning_src/src/main.rs:39-43 | the MAF is af or 1 - af, never above 1/2, and not negative when af is in [0, 1] |
| LdGenotypes.FirstMissing | external/ld_binning_src/src/main.rs:26-37 | the sample at which the dosage loop stops: the first one with a missing allele |
| LdGenotypes.Precompute | external/ld_binning_src/src/main.rs:13-53 | a missing allele gives the error exactly when some call is incomplete; the buffer then holds the full dosages before the first incomplete sample, its partial dosage at that slot, and old contents after it; a complete record is skipped exactly when its MAF is below the threshold (the buffer then holds the dosages) and is otherwise kept, with every slot standardised |
| LdGenotypes.TotalIsSumOfDosages | external/ld_binning_src/src/main.rs:25-37 | the running allele total equals the sum of the per-sample dosages written to the buffer |
| LdGenotypes.AlleleFreqIsHalfMeanDosage | external/ld_binning_src/src/main.rs:25-38 | the allele frequency is half the mean dosage |
| LdGenotypes.BiallelicTotalBound | external/ld_binning_src/src/main.rs:25-37 | with allele indices 0 or 1 the total is at most 2n |
| LdGenotypes.BiallelicMafRange | external/ld_binning_src/src/main.rs:38-43 | at a biallelic record the allele frequency lies in [0, 1] and the MAF in [0, 1/2] |
| LdEstimator.OffDiagonalValue | external/ld_binning_src/src/main.rs:65-73 | the sum of p_i p_j over distinct ordered pairs equals (sum p)^2 minus sum p^2 |
| LdEstimator.EstimatorValue | external/ld_binning_src/src/main.rs:73 | the closed form `(ld^2 - ld_square) / (n (n - 1))` is the mean of p_i p_j over the n(n-1) ordered pairs of distinct samples |
| LdEstimator.LinkageDisequilibrium | external/ld_binning_src/src/main.rs:55-74 | the loop over the first n samples returns the mean over distinct sample pairs of the products of the two records' standardised genotypes |
| LdEstimator.PairMeanSymmetric | external/ld_binning_src/src/main.rs:55-74 | the estimate does not depend on which record comes first |
| LdBins.Round | external/ld_binning_src/src/main.rs:107-108 | `f64::round` lands within 1/2 of its argument, and a tie goes away from zero |
| LdBins.HapneBins | external/ld_binning_src/src/main.rs:88-119 | the default bins are 19 in number, each non-empty, each starting where the previous one ends, with equal-length edge lists |
| LdBins.HapneBinsCm | external/ld_binning_src/src/main.rs:93-97 | the cM edges run from 0.5 to 10, each bin 0.5 cM wide and contiguous with the next |
| LdBins.BpEdges | external/ld_binning_src/src/main.rs:98-106 | converting to base pairs keeps every bin non-empty and the bins contiguous |
| LdBins.HapneDefault | external/ld_binning_src/src/main.rs:88-119 | the edge-pushing loop builds exactly the default bins |
| LdBins.DefaultBinsSafe | external/ld_binning_src/src/main.rs:107-108 | at rate 1e-8 the pair range is exactly 500000 to 10000000 bp and lies within the bins |
| LdBins.FirstBinFrom | external/ld_binning_src/src/main.rs:269-271 | the search stops at the first bin from the start whose right edge reaches the distance |
| LdBins.BinOf | external/ld_binning_src/src/main.rs:269-274 | a distance within the bins has a bin whose left edge is at or below it and whose right edge is at or above it |
| LdBins.FindBin | external/ld_binning_src/src/main.rs:269-274 | the index never decreases, stays below nbins, and ends at a bin whose edges enclose the distance: the three assertions hold |
| LdBins.SearchFromEarlierBin | external/ld_binning_src/src/main.rs:260-274 | carrying the index over from a nearer partner still finds the partner's own bin |
| LdBins.RoundedRangeEscapesBins | external/ld_binning_src/src/main.rs:107-108 | at rate 1/1005 per bp the rounded minimum 5 lies below the first left edge 5.025, and the rounded maximum 101 lies above the last right edge 100.5 |
| LdBins.HapneBinsInward | external/ld_binning_src/src/main.rs:107-108 | the bins with the pair range rounded inwards are well formed |
| LdBins.InwardRangeIsExact | external/ld_binning_src/src/main.rs:107-108 | rounded inwards, the pair range lies within the bins, and a whole distance is in the range exactly when it lies within the bins |
| LdStats.RunningMean | external/ld_binning_src/src/main.rs:285-288 | a bin's mean, taken count times, makes up the sum of its values |
| LdStats.WelfordMean | external/ld_binning_src/src/main.rs:287-288 | the update `m + (v - m) / (k + 1)` yields the mean of the values with v added |
| LdStats.SquaredDeviationsExpand | external/ld_binning_src/src/main.rs:285-290 | the squared deviations from any centre c equal sum x^2 - 2c sum x + n c^2 |
| LdStats.WelfordStep | external/ld_binning_src/src/main.rs:287-290 | adding v grows the squared deviations from the mean by (v - m)(v - m'), where m and m' are the means before and after |
| LdStats.VarianceIdentity | external/ld_binning_src/src/main.rs:301-302 | the squared deviations from the mean are sum x^2 - n m^2, so dividing by the count gives the population variance |
| LdStats.SummaryStats.BinDeviations | external/ld_binning_src/src/main.rs:285-290 | in a valid state each bin's `ld_square` is the sum of squared deviations of its values from their mean, hence never negative |
| LdStats.SummaryStats.constructor | external/ld_binning_src/src/main.rs:128-134 | one empty bin per bin: zero counts, zero means, zero squared deviations |
| LdStats.SummaryStats.Add | external/ld_binning_src/src/main.rs:285-290 | the value is added to its bin only; the count goes up by one and the mean and squared deviations stay exact for the bin's values |
| LdStats.SummaryStats.ShouldStop | external/ld_binning_src/src/main.rs:135-151 | stop exactly when every bin holds at least `min_loci` values (with `min_loci` truncated to u32) and every bin passes the confidence-interval test |
| LdScan.DefaultHyperParameters | external/ld_binning/src/main.rs:142-149 | the default recombination rate is positive, so the default bins can be built from it |
| LdScan.DefaultBins | external/ld_binning/src/main.rs:142-149 | with the default rate the pair range is 500 kb to 10 Mb and lies within the bins |
| LdScan.DefaultThresholdKeeps | external/ld_binning/src/main.rs:142-149 | with the default threshold a complete record is kept exactly when its allele frequency lies in [0.25, 0.75] |
| LdScan.FindContigLength | external/ld_binning_src/src/main.rs:186-204 | the loop computes the as-written lookup, and any length it returns is below 2^64 |
| LdScan.ContigLength | external/ld_binning_src/src/main.rs:186-204 | the intended lookup succeeds exactly when contig record `rid` exists, has a `length` and that length parses as a u64; "not found" exactly when there are at most `rid` contig records |
| LdScan.AsWrittenAgrees | external/ld_binning_src/src/main.rs:186-204 | from any point in the scan, the as-written lookup agrees with the intended one unless the chosen length fails to parse |
| LdScan.ContigLengthAsWrittenAgrees | external/ld_binning_src/src/main.rs:186-204 | `find_contig_length` agrees with the intended lookup unless the chosen contig's length fails to parse |
| LdScan.UnparsableLengthFallsThrough | external/ld_binning_src/src/main.rs:197-200 | with contigs of length "abc" and "100", index 0 returns 100 where the intended lookup reports a bad length |
| LdScan.Contributions | external/ld_binning/src/main.rs:198-228 | every LD value the scan adds goes to a valid bin index, for any bins holding every partner within the maximum |
| LdScan.SafeBinsHoldPartners | external/ld_binning_src/src/main.rs:107-108 | when the rounded pair range lies within the bins, every partner the fetch returns lies within them |
| LdScan.EscapedRangeScansInside | external/ld_binning_src/src/main.rs:264-274 | at a rate whose rounded range escapes the bins, a partner inside the bins can still be scanned, and only one at the escaped distance fails the bin assertions |
| LdScan.AddPair | external/ld_binning_src/src/main.rs:268-290 | one partner at a distance within the bins: its bin is found from the carried index, its genotypes are precomputed, and only when it is kept the pair's LD is added to that bin; the first record's buffer is untouched |
| LdScan.ScanPartners | external/ld_binning/src/main.rs:193-229 | the scan aborts exactly when the specification's scan meets a missing genotype first; otherwise each bin ends with its old values plus, in order, the LD of every kept partner up to the first one beyond the maximum |
| IbdRows.SegmentRowReadsBack | src/ibd_arg.py:17-28 | a row's haplotype indices are 1 or 2, each node is 2 times its individual plus its haplotype minus 1, the chromosome is 1, and the start and end are the segment's |
| IbdRows.BuildRows | src/ibd_arg.py:11-28 | the loops build exactly the rows of every pair of different individuals, segment by segment, pair after pair |
| IbdRows.RowCount | src/ibd_arg.py:12-28 | there is one row per segment of every pair that is not a run of homozygosity |
| IbdRows.RowsAppend | src/ibd_arg.py:12-28 | rows come pair by pair in the order of the pairs |
| IbdRows.SameIndividualPairDropped | src/ibd_arg.py:13-15 | a pair of haplotypes of one individual contributes no rows, wherever it stands |
| IbdRows.RowsWellFormed | src/ibd_arg.py:13-28 | every row names two different individuals, haplotypes 1 or 2 and chromosome 1 |
| IbdRows.RowsTraceBack | src/ibd_arg.py:12-28 | every row is the row of some input pair of different individuals and one of its segments |

## Left out

- Reading standard input and files, printing, the temporary script file,
  `subprocess`, the `slim -c` check and `slim` runs, numpy's random seed
  draw, and `_repr_html_`. The model takes their results as parameters.
- `check_slim_script` is not part of this model: its verdict is the
  `scriptOk` parameter of `SLiMModel.Create`.
- What `np.asarray` makes of an arbitrary Python object, and what `int(seed)`
  accepts. The model is handed the converted array (or a conversion failure)
  and the converted seed.
- Float element texts are carried as the text Python's `str()` gives
  them. Float formatting is not modelled, and neither is the
  `:.6f` formatting of the cM length, which is the `fixed6` parameter of
  `PlinkMap.WriteMap`.
- Error messages are modelled by their key and dtype kind only:
  `UnsupportedDtype` carries the kind character where the source prints
  the full dtype, and `UnsupportedType` leaves out the value and type
  parts of the message.
- SlimConstants.ConstantRoundTrip: promises a round trip only for strings
  free of quotes and backslashes. The reader of `asString` literals does
  not model Eidos escape sequences, so a string with a backslash is left
  unstated. Byte strings do not round trip as written (see Findings).
- SlimConstants.QuotedRoundTrip: requires strings free of quotes and
  backslashes, for the same reason; QuoteEndsLiteral covers quotes.
- numpy's stripping of trailing NUL bytes from `S` elements is not
  modelled: a byte-string element is its bytes as numpy yields them.
- SlimConstants.ParseNdarrayDecoded: decodes one byte per character
  (Latin-1); the source names no encoding.
- SlimConstants.ConstantRoundTrip: element texts holding a comma are
  excluded, because a `c(...)` list with such elements is ambiguous to read
  back.
- PlinkMap.DigitPrefix: reads ASCII digits only. Python's `\d` also
  matches other Unicode decimal digits.
- The precise byte-level handling of htslib records. The header arrives as
  a sequence of records, and partners arrive as (position, calls) pairs.
- LdGenotypes.Precompute: the standardisation
  `(g - 2af) / sqrt(2af(1 - af))` is the `standardize` parameter, since it
  needs a floating-point square root.
- LdGenotypes.Precompute: the u32 allele total is unbounded here, so its
  overflow at very many samples is not modelled.
- LdGenotypes.Precompute: haploid or multi-ploid calls are not modelled;
  every sample has two allele slots.
- LdEstimator.LinkageDisequilibrium: requires at least two samples. With
  fewer, the source divides 0 by 0 and gets NaN, which real arithmetic
  cannot represent; the scan carries the same requirement.
- LdBins.HapneBins: the rounded edges are unbounded integers. The
  saturating `as i64` cast of the source only matters when an edge exceeds
  2^63 bp, at absurdly small rates.
- LdBins.HapneBins: requires a positive recombination rate. A zero or
  negative rate gives infinite or negative edges in `f64`, which reals
  cannot represent.
- LdStats.SummaryStats.Add: the u32 bin count is unbounded, so its
  wrap-around after 2^32 values is not modelled.
- LdStats.SummaryStats.ShouldStop: the confidence-interval test (sample
  standard deviation, square roots and the 1.96 × half-width against
  epsilon) is the `withinTolerance` parameter. The truncation of `min_loci`
  to u32 is modelled.
- The outer loops of both LD binning versions are not modelled: the newer
  one samples random positions until `should_stop`, and the older one runs
  over every record. So are the progress bar, the final division of
  `ld_square` by the count and the printed table. LdStats.VarianceIdentity
  states what that division yields.
- LdScan.ScanPartners: the partner list must be sorted by position, with
  none nearer than the bins' minimum, as the indexed fetch returns them
  (`PartnersOk`). A nearer partner would hit the source's `unreachable!`.
- LdScan.ScanPartners: requires every partner within the maximum to lie
  within the bins (`PartnersInBins`). A partner at a distance that the
  rounded range admits but no bin holds makes the source panic at the bin
  assertions, or index past the last bin; that panic is not modelled (see
  Findings).
- LdScan.ScanPartners: in the newer version, a partner beyond the maximum
  panics, but its bounded fetch never returns one. The model breaks there,
  as the older version does.
- Errors while reading records (`record2.context(...)?`) are not modelled;
  the records are given.
- IbdRows: the `length_cm` column is computed in exact arithmetic, not
  `f64`. `int(ibd.left)` is taken as already integral: segments have
  integer ends here.
- `ts.ibd_segments` itself (finding IBD segments in the tree sequence) is
  not modelled. The pairs and their segments are given in the order it
  lists them.

## Findings

| source | as written | input that shows it | evidently intended | confidence | as-written member | corrected member |
|---|---|---|---|---|---|---|
| external/ld_binning_src/src/main.rs:197-200 | when contig `rid`'s `length` does not parse as a u64, the loop goes on and returns the length of the next contig record | contig records with lengths "abc" then "100", index 0: returns 100 | an error for contig `rid` (its length is not a number) | high; not executed | LdScan.UnparsableLengthFallsThrough (on LdScan.ContigLengthAsWritten) | LdScan.ContigLength, with LdScan.ContigLengthAsWrittenAgrees |
| external/ld_binning_src/src/main.rs:107-108 | the pair range is the outer bin edges rounded to nearest, so the minimum can fall below the first left edge and the maximum above the last right edge; a partner at such a distance passes the range check and then fails the bin assertions | recombination rate 1/1005 per bp: edges 5.025 and 100.5, range 5 to 101 | the range rounded inwards (ceiling of the first left edge, floor of the last right edge), so every accepted distance lies within a bin | medium; not executed | LdBins.RoundedRangeEscapesBins (on LdBins.HapneBins) | LdBins.HapneBinsInward, with LdBins.InwardRangeIsExact |
| src/slim/slimwrap.py:32-34 | a byte-string element is formatted with `f"'{x}'"`, and `str()` of a bytes value is its repr `b'...'`, so the SLiM literal is `'b'...''`; the inner quote ends the literal | b"abc" gives `k=asString(c('b'abc''))` | the decoded text between quotes, `k=asString(c('abc'))` | medium; not executed | SlimConstants.BytesElementAsWritten, with SlimConstants.BytesNeverReadBack (on SlimConstants.ParseNdarray) | SlimConstants.ParseNdarrayDecoded, with SlimConstants.DecodedBytesRoundTrip and SlimConstants.BytesElementDecoded |
