/** The IBD table builder of the ARG simulation tools: from the IBD
    segments of every pair of sample nodes (haplotypes) it writes one row
    per segment, naming each node by its diploid individual (node / 2) and
    its haplotype within it (node % 2 + 1), and it leaves out pairs of the
    two haplotypes of one individual (runs of homozygosity). The segments
    are given as integer positions; loading the tree sequence and writing
    the table are not modelled. */
module IbdRows {

  datatype Segment = Segment(left: int, right: int)

  /** A pair of sample nodes with its IBD segments, in the order the IBD
      result lists them. */
  datatype NodePair = NodePair(first: nat, second: nat, segments: seq<Segment>)

  datatype Row = Row(
    sample1: nat,
    hap1: nat,
    sample2: nat,
    hap2: nat,
    chromosome: nat,
    start: int,
    end: int,
    lengthCm: real)

  /** Both nodes are haplotypes of the same diploid individual. */
  predicate SameIndividual(a: nat, b: nat)
  {
    a / 2 == b / 2
  }

  /** The row of one segment of the pair (a, b). */
  function SegmentRow(a: nat, b: nat, s: Segment): Row
  {
    Row(a / 2, a % 2 + 1, b / 2, b % 2 + 1, 1, s.left, s.right,
        (s.right - s.left) as real / 1000000.0)
  }

  /** A segment's row names haplotype 1 or 2 of each individual, and each
      node reads back from its individual and haplotype; the row carries
      the segment's ends on chromosome 1. */
  lemma SegmentRowReadsBack(a: nat, b: nat, s: Segment)
    ensures var r := SegmentRow(a, b, s);
      && r.hap1 in {1, 2} && r.hap2 in {1, 2}
      && 2 * r.sample1 + r.hap1 - 1 == a && 2 * r.sample2 + r.hap2 - 1 == b
      && r.chromosome == 1
      && r.start == s.left && r.end == s.right
  {
  }

  /** The rows of one pair's segments, in segment order. */
  function PairRows(p: NodePair): (r: seq<Row>)
    ensures |r| == |p.segments|
  {
    seq(|p.segments|, k requires 0 <= k < |p.segments| => SegmentRow(p.first, p.second, p.segments[k]))
  }

  /** The table: the rows of every pair of different individuals, pair
      after pair. */
  function Rows(pairs: seq<NodePair>): seq<Row>
  {
    if |pairs| == 0 then []
    else if SameIndividual(pairs[0].first, pairs[0].second) then Rows(pairs[1..])
    else PairRows(pairs[0]) + Rows(pairs[1..])
  }

  /** main's loops: skip same-individual pairs, append one row per segment. */
  method BuildRows(pairs: seq<NodePair>) returns (tableRows: seq<Row>)
    ensures tableRows == Rows(pairs)
  {
    tableRows := [];
    var i := 0;
    while i < |pairs|
      invariant 0 <= i <= |pairs|
      invariant tableRows == Rows(pairs[..i])
    {
      RowsSnoc(pairs, i);
      var pair := pairs[i];
      var isRoh := pair.first / 2 == pair.second / 2;
      if isRoh {
        i := i + 1;
        continue;
      }
      var j := 0;
      while j < |pair.segments|
        invariant 0 <= j <= |pair.segments|
        invariant tableRows == Rows(pairs[..i]) + PairRows(pair)[..j]
      {
        var ibd := pair.segments[j];
        tableRows := tableRows + [SegmentRow(pair.first, pair.second, ibd)];
        assert PairRows(pair)[..j + 1] == PairRows(pair)[..j] + [PairRows(pair)[j]];
        j := j + 1;
      }
      assert PairRows(pair)[..j] == PairRows(pair);
      i := i + 1;
    }
    assert pairs[..i] == pairs;
  }

  /** The table of the first i + 1 pairs extends that of the first i. */
  lemma RowsSnoc(pairs: seq<NodePair>, i: nat)
    requires i < |pairs|
    ensures SameIndividual(pairs[i].first, pairs[i].second) ==> Rows(pairs[..i + 1]) == Rows(pairs[..i])
    ensures !SameIndividual(pairs[i].first, pairs[i].second) ==>
      Rows(pairs[..i + 1]) == Rows(pairs[..i]) + PairRows(pairs[i])
  {
    assert pairs[..i + 1] == pairs[..i] + [pairs[i]];
    RowsAppend(pairs[..i], [pairs[i]]);
    assert [pairs[i]][1..] == [];
  }

  /** The number of segments of the pairs of different individuals. */
  function KeptSegments(pairs: seq<NodePair>): nat
  {
    if |pairs| == 0 then 0
    else if SameIndividual(pairs[0].first, pairs[0].second) then KeptSegments(pairs[1..])
    else |pairs[0].segments| + KeptSegments(pairs[1..])
  }

  /** One row per segment of every pair that is not a run of homozygosity. */
  lemma {:induction false} RowCount(pairs: seq<NodePair>)
    ensures |Rows(pairs)| == KeptSegments(pairs)
  {
    if |pairs| > 0 {
      RowCount(pairs[1..]);
    }
  }

  /** Rows come pair by pair in the order of the pairs. */
  lemma {:induction false} RowsAppend(a: seq<NodePair>, b: seq<NodePair>)
    ensures Rows(a + b) == Rows(a) + Rows(b)
  {
    if |a| == 0 {
      assert a + b == b;
    } else {
      assert (a + b)[1..] == a[1..] + b;
      RowsAppend(a[1..], b);
    }
  }

  /** A pair of haplotypes of one individual contributes no rows. */
  lemma SameIndividualPairDropped(pre: seq<NodePair>, p: NodePair, post: seq<NodePair>)
    requires SameIndividual(p.first, p.second)
    ensures Rows(pre + [p] + post) == Rows(pre + post)
  {
    RowsAppend(pre, [p] + post);
    RowsAppend(pre, post);
    assert ([p] + post)[1..] == post;
    assert pre + [p] + post == pre + ([p] + post);
  }

  /** Every row names two different individuals, haplotype indices 1 or 2
      and chromosome 1 (RowsTraceBack and SegmentRowReadsBack give the
      node pair each row reads back to). */
  lemma {:induction false} RowsWellFormed(pairs: seq<NodePair>)
    ensures forall r :: r in Rows(pairs) ==>
      && r.sample1 != r.sample2
      && r.hap1 in {1, 2} && r.hap2 in {1, 2}
      && r.chromosome == 1
  {
    if |pairs| > 0 {
      RowsWellFormed(pairs[1..]);
      if !SameIndividual(pairs[0].first, pairs[0].second) {
        forall r | r in PairRows(pairs[0])
          ensures && r.sample1 != r.sample2
                  && r.hap1 in {1, 2} && r.hap2 in {1, 2}
                  && r.chromosome == 1
        {
          var k :| 0 <= k < |pairs[0].segments| && PairRows(pairs[0])[k] == r;
          SegmentRowReadsBack(pairs[0].first, pairs[0].second, pairs[0].segments[k]);
        }
      }
    }
  }

  /** Each row records a node pair of the input and one of its segments. */
  lemma {:induction false} RowsTraceBack(pairs: seq<NodePair>, r: Row)
    requires r in Rows(pairs)
    ensures exists k, s ::
              && 0 <= k < |pairs| && s in pairs[k].segments
              && !SameIndividual(pairs[k].first, pairs[k].second)
              && r == SegmentRow(pairs[k].first, pairs[k].second, s)
  {
    if SameIndividual(pairs[0].first, pairs[0].second) || r !in PairRows(pairs[0]) {
      RowsTraceBack(pairs[1..], r);
      var k, s :|
        && 0 <= k < |pairs[1..]| && s in pairs[1..][k].segments
        && !SameIndividual(pairs[1..][k].first, pairs[1..][k].second)
        && r == SegmentRow(pairs[1..][k].first, pairs[1..][k].second, s);
      assert pairs[1..][k] == pairs[k + 1];
    } else {
      var j :| 0 <= j < |pairs[0].segments| && PairRows(pairs[0])[j] == r;
      assert pairs[0].segments[j] in pairs[0].segments;
    }
  }
}
