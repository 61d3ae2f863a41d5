/** Character-string helpers shared by the serialisers: prefix tests,
    joining with a separator and splitting on it. */
module Text {

  predicate StartsWith(s: string, prefix: string)
  {
    |prefix| <= |s| && s[..|prefix|] == prefix
  }

  /** Python's `sep.join(xs)`. */
  function Join(sep: string, xs: seq<string>): (r: string)
    ensures |xs| == 1 ==> r == xs[0]
  {
    if |xs| == 0 then ""
    else if |xs| == 1 then xs[0]
    else Join(sep, xs[..|xs| - 1]) + sep + xs[|xs| - 1]
  }

  /** Python's `s.split(c)` for a one-character separator: the pieces
      between occurrences of `c`, always at least one. */
  function Split(s: string, c: char): (r: seq<string>)
    ensures |r| >= 1
  {
    SplitFrom(s, c, "")
  }

  /** Splitting `s` when `acc` has already been read since the last separator. */
  function SplitFrom(s: string, c: char, acc: string): (r: seq<string>)
    ensures |r| >= 1
    decreases |s|
  {
    if |s| == 0 then [acc]
    else if s[0] == c then [acc] + SplitFrom(s[1..], c, "")
    else SplitFrom(s[1..], c, acc + [s[0]])
  }

  lemma {:induction false} SplitFromFree(s: string, c: char, acc: string)
    requires c !in s
    ensures SplitFrom(s, c, acc) == [acc + s]
    decreases |s|
  {
    if |s| == 0 {
      assert acc + s == acc;
    } else {
      assert s[0] != c && c !in s[1..];
      SplitFromFree(s[1..], c, acc + [s[0]]);
      assert acc + [s[0]] + s[1..] == acc + s;
    }
  }

  lemma {:induction false} SplitFromAppend(s: string, c: char, acc: string, t: string)
    requires c !in t
    ensures SplitFrom(s + [c] + t, c, acc)
         == SplitFrom(s, c, acc)[..|SplitFrom(s, c, acc)| - 1]
            + [SplitFrom(s, c, acc)[|SplitFrom(s, c, acc)| - 1], t]
    decreases |s|
  {
    if |s| == 0 {
      assert s + [c] + t == [c] + t;
      SplitFromFree(t, c, "");
      assert t == "" + t;
    } else {
      assert (s + [c] + t)[1..] == s[1..] + [c] + t;
      if s[0] == c {
        SplitFromAppend(s[1..], c, "", t);
      } else {
        SplitFromAppend(s[1..], c, acc + [s[0]], t);
      }
    }
  }

  /** Joining non-empty lists of separator-free pieces is undone by
      splitting: the pieces come back in order and none is lost. */
  lemma {:induction false} SplitJoin(xs: seq<string>, c: char)
    requires |xs| >= 1
    requires forall i :: 0 <= i < |xs| ==> c !in xs[i]
    ensures Split(Join([c], xs), c) == xs
  {
    if |xs| == 1 {
      SplitFromFree(xs[0], c, "");
      assert "" + xs[0] == xs[0];
    } else {
      var init := xs[..|xs| - 1];
      SplitJoin(init, c);
      SplitFromAppend(Join([c], init), c, "", xs[|xs| - 1]);
      assert init + [xs[|xs| - 1]] == xs;
    }
  }

  /** The longest prefix of `s` that does not contain `c`. */
  function PrefixBefore(s: string, c: char): (r: string)
    ensures |r| <= |s| && r == s[..|r|] && c !in r
    ensures |r| < |s| ==> s[|r|] == c
  {
    if |s| == 0 || s[0] == c then "" else [s[0]] + PrefixBefore(s[1..], c)
  }

  lemma {:induction false} PrefixBeforeOf(a: string, c: char, b: string)
    requires c !in a
    ensures PrefixBefore(a + [c] + b, c) == a
  {
    if |a| > 0 {
      assert (a + [c] + b)[1..] == a[1..] + [c] + b;
      PrefixBeforeOf(a[1..], c, b);
    }
  }
}
