/** The VCF-header-to-PLINK-map converter: it collects the `ID` and
    `length` of every `##contig=<...>` meta-line (the contig field of the
    VCFv4.2 header, section 1.4.7 of that specification) up to the
    `#CHROM` line, and writes two `.map` rows per contig. The header is
    given as a sequence of lines instead of standard input, and printed
    rows are appended to a sequence. */
module PlinkMap {
  import opened Wrappers
  import opened Text
  import opened Decimal

  datatype Contig = Contig(id: string, length: nat)

  predicate ValidId(id: string)
  {
    |id| > 0 && ',' !in id
  }

  /** The longest run of ASCII digits at the start of `s`. */
  function DigitPrefix(s: string): (r: string)
    ensures |r| <= |s| && r == s[..|r|] && AllDigits(r)
    ensures |r| < |s| ==> !IsDigit(s[|r|])
  {
    if |s| == 0 || !IsDigit(s[0]) then "" else [s[0]] + DigitPrefix(s[1..])
  }

  /** The match of `ID=([^,]+),length=(\d+)` that starts at position `p`,
      with its two groups: the greedy comma-free run can only be followed
      by the comma when it is maximal, so no other split of the line can
      match from `p`. */
  function MatchAt(line: string, p: nat): (r: Option<Contig>)
    requires p <= |line|
    ensures r.Some? ==> ValidId(r.value.id)
  {
    var rest := line[p..];
    if !StartsWith(rest, "ID=") then None
    else
      var id := PrefixBefore(rest[3..], ',');
      var after := rest[3 + |id|..];
      if |id| == 0 || !StartsWith(after, ",length=") then None
      else
        var digits := DigitPrefix(after[8..]);
        if |digits| == 0 then None else Some(Contig(id, DigitsValue(digits)))
  }

  /** The text from `p` on reads `ID=<id>,length=<digits>`, with `id` a
      valid ID and `digits` a maximal non-empty run of digits. */
  predicate MatchesAt(line: string, p: nat, id: string, digits: string)
    requires p <= |line|
  {
    && StartsWith(line[p..], "ID=" + id + ",length=" + digits)
    && ValidId(id) && |digits| > 0 && AllDigits(digits)
    && (p + 11 + |id| + |digits| < |line| ==> !IsDigit(line[p + 11 + |id| + |digits|]))
  }

  /** `ID=<id>,length=<digits>` at `p` is matched with `id` and the value of
      `digits` as its two groups. */
  lemma MatchAtReads(line: string, p: nat, id: string, digits: string)
    requires p <= |line| && MatchesAt(line, p, id, digits)
    ensures MatchAt(line, p) == Some(Contig(id, DigitsValue(digits)))
  {
    var rest := line[p..];
    var text := "ID=" + id + ",length=" + digits;
    assert rest[..|text|] == text;
    assert rest[..3] == "ID=";
    var tail := rest[3..];
    assert tail == id + [','] + tail[|id| + 1..] by {
      assert tail[..|id|] == id;
      assert tail[|id|] == ',';
    }
    PrefixBeforeOf(id, ',', tail[|id| + 1..]);
    var after := rest[3 + |id|..];
    assert after[..8] == ",length=";
    var number := after[8..];
    assert number[..|digits|] == digits;
    assert |digits| < |number| ==> number[|digits|] == line[p + 11 + |id| + |digits|];
    DigitPrefixOf(number, digits);
  }

  /** Only such text matches: whatever `MatchAt` reports was read from
      `ID=<id>,length=<digits>` at `p`. */
  lemma MatchAtOnlyFrom(line: string, p: nat)
    requires p <= |line| && MatchAt(line, p).Some?
    ensures exists id, digits :: MatchesAt(line, p, id, digits)
              && MatchAt(line, p) == Some(Contig(id, DigitsValue(digits)))
  {
    var rest := line[p..];
    var id := PrefixBefore(rest[3..], ',');
    var after := rest[3 + |id|..];
    var digits := DigitPrefix(after[8..]);
    assert rest[..3] == "ID=" && after[..8] == ",length=";
    assert rest[3..][..|id|] == id;
    var text := "ID=" + id + ",length=" + digits;
    assert rest[..|text|] == text;
    assert |digits| < |after[8..]| ==> after[8..][|digits|] == line[p + 11 + |id| + |digits|];
    assert MatchesAt(line, p, id, digits);
  }

  /** The longest digit prefix of text that starts with a maximal run of digits is that run. */
  lemma {:induction false} DigitPrefixOf(s: string, digits: string)
    requires |digits| <= |s| && s[..|digits|] == digits && AllDigits(digits)
    requires |digits| < |s| ==> !IsDigit(s[|digits|])
    ensures DigitPrefix(s) == digits
  {
    if |digits| > 0 {
      assert s[1..][..|digits| - 1] == digits[1..];
      DigitPrefixOf(s[1..], digits[1..]);
    }
  }

  /** `re.search`: the match at the leftmost position from `p` on. */
  function SearchFrom(line: string, p: nat): (r: Option<Contig>)
    requires p <= |line|
    decreases |line| - p
  {
    if MatchAt(line, p).Some? then MatchAt(line, p)
    else if p == |line| then None
    else SearchFrom(line, p + 1)
  }

  function Search(line: string): Option<Contig>
  {
    SearchFrom(line, 0)
  }

  /** The search reports the match at the leftmost matching position. */
  lemma {:induction false} SearchFindsLeftmost(line: string, p: nat, q: nat)
    requires p <= q <= |line| && MatchAt(line, q).Some?
    requires forall q' :: p <= q' < q ==> MatchAt(line, q').None?
    ensures SearchFrom(line, p) == MatchAt(line, q)
    decreases q - p
  {
    if p < q {
      SearchFindsLeftmost(line, p + 1, q);
    }
  }

  /** The search reports nothing only when no position matches. */
  lemma {:induction false} SearchNoneMeansNoMatch(line: string, p: nat, q: nat)
    requires p <= q <= |line| && SearchFrom(line, p).None?
    ensures MatchAt(line, q).None?
    decreases q - p
  {
    if p < q {
      SearchNoneMeansNoMatch(line, p + 1, q);
    }
  }

  /** Every contig the search reports has a non-empty, comma-free ID. */
  lemma {:induction false} SearchValid(line: string, p: nat)
    requires p <= |line|
    ensures SearchFrom(line, p).Some? ==> ValidId(SearchFrom(line, p).value.id)
    decreases |line| - p
  {
    if MatchAt(line, p).None? && p < |line| {
      SearchValid(line, p + 1);
    }
  }

  predicate IsContigLine(line: string)
  {
    StartsWith(line, "##contig=")
  }

  predicate IsChromLine(line: string)
  {
    StartsWith(line, "#CHROM")
  }

  /** The contigs the header declares, in order: contig lines that match
      contribute their (ID, length), the first `#CHROM` line ends the scan. */
  function HeaderContigs(lines: seq<string>): (r: seq<Contig>)
    ensures forall k :: 0 <= k < |r| ==> ValidId(r[k].id)
  {
    if |lines| == 0 then []
    else if IsContigLine(lines[0]) then
      SearchValid(lines[0], 0);
      (if Search(lines[0]).Some? then [Search(lines[0]).value] else []) + HeaderContigs(lines[1..])
    else if IsChromLine(lines[0]) then []
    else HeaderContigs(lines[1..])
  }

  /** parse_vcf_header_from_stdin. */
  method ParseVcfHeader(lines: seq<string>) returns (contigs: seq<Contig>)
    ensures contigs == HeaderContigs(lines)
  {
    contigs := [];
    var i := 0;
    while i < |lines|
      invariant 0 <= i <= |lines|
      invariant contigs + HeaderContigs(lines[i..]) == HeaderContigs(lines)
    {
      HeaderContigsStep(lines, i);
      var line := lines[i];
      if IsContigLine(line) {
        var m := Search(line);
        if m.Some? {
          contigs := contigs + [m.value];
        }
      } else if IsChromLine(line) {
        break;
      }
      i := i + 1;
    }
    if i == |lines| {
      assert HeaderContigs(lines[i..]) == [];
    }
  }

  lemma HeaderContigsStep(lines: seq<string>, i: nat)
    requires i < |lines|
    ensures IsContigLine(lines[i]) && Search(lines[i]).Some? ==>
      HeaderContigs(lines[i..]) == [Search(lines[i]).value] + HeaderContigs(lines[i + 1..])
    ensures IsContigLine(lines[i]) && Search(lines[i]).None? ==>
      HeaderContigs(lines[i..]) == HeaderContigs(lines[i + 1..])
    ensures !IsContigLine(lines[i]) && IsChromLine(lines[i]) ==> HeaderContigs(lines[i..]) == []
    ensures !IsContigLine(lines[i]) && !IsChromLine(lines[i]) ==>
      HeaderContigs(lines[i..]) == HeaderContigs(lines[i + 1..])
  {
    assert lines[i..][1..] == lines[i + 1..];
    assert lines[i..][0] == lines[i];
  }

  /** Nothing from the first `#CHROM` line on is read. */
  lemma {:induction false} ChromLineEndsHeader(pre: seq<string>, chrom: string, post: seq<string>)
    requires IsChromLine(chrom)
    ensures HeaderContigs(pre + [chrom] + post) == HeaderContigs(pre)
  {
    assert !IsContigLine(chrom) by { assert chrom[1] == 'C'; }
    if |pre| == 0 {
      assert pre + [chrom] + post == [chrom] + post;
    } else {
      assert (pre + [chrom] + post)[1..] == pre[1..] + [chrom] + post;
      ChromLineEndsHeader(pre[1..], chrom, post);
    }
  }

  /** A line that is neither a contig line nor the `#CHROM` line, or a
      contig line without an `ID=...,length=...` match, contributes nothing
      and raises nothing. */
  lemma {:induction false} IgnoredLine(pre: seq<string>, line: string, post: seq<string>)
    requires !IsChromLine(line)
    requires !IsContigLine(line) || Search(line).None?
    ensures HeaderContigs(pre + [line] + post) == HeaderContigs(pre + post)
  {
    if |pre| == 0 {
      assert pre + [line] + post == [line] + post;
      assert ([line] + post)[1..] == post;
      assert pre + post == post;
    } else {
      assert (pre + [line] + post)[1..] == pre[1..] + [line] + post;
      assert (pre + post)[1..] == pre[1..] + post;
      IgnoredLine(pre[1..], line, post);
    }
  }

  /** Contigs are reported in the order of their lines. */
  lemma {:induction false} HeaderContigsAppend(a: seq<string>, b: seq<string>)
    requires forall k :: 0 <= k < |a| ==> !IsChromLine(a[k])
    ensures HeaderContigs(a + b) == HeaderContigs(a) + HeaderContigs(b)
  {
    if |a| == 0 {
      assert a + b == b;
    } else {
      assert (a + b)[1..] == a[1..] + b;
      HeaderContigsAppend(a[1..], b);
    }
  }

  /** The text after the last tab of a row. */
  function LastField(row: string): (r: string)
    ensures '\t' !in r
  {
    if |row| == 0 || row[|row| - 1] == '\t' then ""
    else LastField(row[..|row| - 1]) + [row[|row| - 1]]
  }

  lemma {:induction false} LastFieldAfterTab(a: string, b: string)
    requires '\t' !in b
    ensures LastField(a + "\t" + b) == b
    decreases |b|
  {
    if |b| == 0 {
      assert a + "\t" + b == a + "\t";
    } else {
      var s := a + "\t" + b;
      assert s[..|s| - 1] == a + "\t" + b[..|b| - 1];
      LastFieldAfterTab(a, b[..|b| - 1]);
      assert b[..|b| - 1] + [b[|b| - 1]] == b;
    }
  }

  function FirstRow(c: Contig): string
  {
    c.id + "\trs1\t0\t0"
  }

  /** The contig's length in centimorgans at `rho` crossovers per bp. */
  function CmLength(length: nat, rho: real): real
  {
    length as real * rho * 100.0
  }

  /** The second row; `fixed6` stands for Python's `:.6f` formatting of a float. */
  function SecondRow(c: Contig, rho: real, fixed6: real -> string): string
  {
    c.id + "\trs2\t" + fixed6(CmLength(c.length, rho)) + "\t" + NatText(c.length)
  }

  /** `main`: two rows per contig of the header, in header order. */
  method WriteMap(lines: seq<string>, rho: real, fixed6: real -> string) returns (out: seq<string>)
    ensures var cs := HeaderContigs(lines);
      && |out| == 2 * |cs|
      && forall k :: 0 <= k < |cs| ==>
           out[2 * k] == FirstRow(cs[k]) && out[2 * k + 1] == SecondRow(cs[k], rho, fixed6)
  {
    var contigs := ParseVcfHeader(lines);
    out := [];
    var i := 0;
    while i < |contigs|
      invariant 0 <= i <= |contigs|
      invariant |out| == 2 * i
      invariant forall k :: 0 <= k < i ==>
        out[2 * k] == FirstRow(contigs[k]) && out[2 * k + 1] == SecondRow(contigs[k], rho, fixed6)
    {
      out := out + [FirstRow(contigs[i]), SecondRow(contigs[i], rho, fixed6)];
      i := i + 1;
    }
  }

  /** The first row of a contig starts with its ID. */
  lemma FirstRowStartsWithId(c: Contig)
    requires '\t' !in c.id
    ensures PrefixBefore(FirstRow(c), '\t') == c.id
  {
    assert FirstRow(c) == c.id + ['\t'] + "rs1\t0\t0";
    PrefixBeforeOf(c.id, '\t', "rs1\t0\t0");
  }

  /** The last field of the second row reads back as the contig length. */
  lemma SecondRowEndsWithLength(c: Contig, rho: real, fixed6: real -> string)
    ensures AllDigits(LastField(SecondRow(c, rho, fixed6)))
    ensures DigitsValue(LastField(SecondRow(c, rho, fixed6))) == c.length
  {
    var n := NatText(c.length);
    var a := c.id + "\trs2\t" + fixed6(CmLength(c.length, rho));
    assert SecondRow(c, rho, fixed6) == a + "\t" + n;
    assert '\t' !in n by {
      forall k | 0 <= k < |n| ensures n[k] != '\t' {
        assert IsDigit(n[k]);
      }
    }
    LastFieldAfterTab(a, n);
    NatTextRoundTrip(c.length);
  }
}
