/** The JavaScript string operations the app relies on, over `seq<char>`:
    `toLowerCase` (ASCII letters only), `split('.').pop()`, `startsWith`,
    `endsWith` and `replace` with a string pattern (first occurrence only). */
module Text {
  import opened Wrappers

  predicate IsUpper(c: char) { 'A' <= c <= 'Z' }
  predicate IsLowerLetter(c: char) { 'a' <= c <= 'z' }
  predicate IsDigit(c: char) { '0' <= c <= '9' }

  function LowerChar(c: char): char {
    if IsUpper(c) then (c as int + 32) as char else c
  }

  /** `s.toLowerCase()` restricted to ASCII letters. */
  function Lower(s: string): (r: string)
    ensures |r| == |s|
    ensures forall i :: 0 <= i < |s| ==> r[i] == LowerChar(s[i])
  {
    if s == [] then [] else Lower(s[..|s| - 1]) + [LowerChar(s[|s| - 1])]
  }

  lemma LowerIdempotent(s: string)
    ensures Lower(Lower(s)) == Lower(s)
  {
  }

  lemma LowerConcat(a: string, b: string)
    ensures Lower(a + b) == Lower(a) + Lower(b)
  {
    assert |Lower(a + b)| == |Lower(a) + Lower(b)|;
  }

  /** `s.split('.').pop()`: the text after the last '.', or all of `s` when
      it has no '.'. */
  function LastSegment(s: string): (r: string)
    ensures '.' !in r
    ensures |r| <= |s| && r == s[|s| - |r|..]
    ensures |r| < |s| ==> s[|s| - |r| - 1] == '.'
  {
    if s == [] then []
    else if s[|s| - 1] == '.' then []
    else LastSegment(s[..|s| - 1]) + [s[|s| - 1]]
  }

  /** A string without '.' is its own last segment. */
  lemma {:induction false} LastSegmentWhole(s: string)
    requires '.' !in s
    ensures LastSegment(s) == s
  {
    if s != [] {
      assert '.' !in s[..|s| - 1];
      LastSegmentWhole(s[..|s| - 1]);
    }
  }

  /** Cutting at the last '.' and lower-casing can be done in either order,
      because lower-casing never creates or removes a '.'. */
  lemma {:induction false} LastSegmentLower(s: string)
    ensures LastSegment(Lower(s)) == Lower(LastSegment(s))
  {
    if s != [] {
      var init, c := s[..|s| - 1], s[|s| - 1];
      var low := Lower(s);
      assert low == Lower(init) + [LowerChar(c)];
      assert low[..|s| - 1] == Lower(init);
      if c != '.' {
        LastSegmentLower(init);
      }
    }
  }

  /** A name with a '.' has a strictly shorter last segment, preceded by
      that '.'. */
  lemma {:induction false} LastSegmentShorter(s: string)
    requires '.' in s
    ensures |LastSegment(s)| < |s|
  {
    if s[|s| - 1] != '.' {
      var init := s[..|s| - 1];
      assert s == init + [s[|s| - 1]];
      assert '.' in init;
      LastSegmentShorter(init);
    }
  }

  /** Any suffix after a '.' that itself holds no '.' is what
      `split('.').pop()` returns. */
  lemma {:induction false} LastSegmentOfDotted(prefix: string, ext: string)
    requires '.' !in ext
    ensures LastSegment(prefix + "." + ext) == ext
    decreases |ext|
  {
    var s := prefix + "." + ext;
    if ext == [] {
      assert s[|s| - 1] == '.';
    } else {
      var init := prefix + "." + ext[..|ext| - 1];
      assert s[..|s| - 1] == init;
      assert ext == ext[..|ext| - 1] + [ext[|ext| - 1]];
      LastSegmentOfDotted(prefix, ext[..|ext| - 1]);
    }
  }

  /** A string ending with `e` is its prefix, `e`'s first character and
      the rest of `e`. */
  lemma SplitAtSuffix(s: string, e: string)
    requires |e| >= 1 && EndsWith(s, e)
    ensures s == s[..|s| - |e|] + [e[0]] + e[1..]
  {
    assert s[|s| - |e|..] == e;
  }

  lemma EndsWithConcat(a: string, b: string)
    ensures EndsWith(a + b, b)
  {
    assert (a + b)[|a|..] == b;
  }

  /** A string with a '.' is what precedes its last '.', that '.', and its
      last segment. */
  lemma SplitAtLastSegment(s: string)
    requires '.' in s
    ensures |LastSegment(s)| < |s|
    ensures s == s[..|s| - |LastSegment(s)| - 1] + "." + LastSegment(s)
  {
    LastSegmentShorter(s);
    var k := |s| - |LastSegment(s)| - 1;
    assert s[k + 1..] == LastSegment(s);
    assert s == s[..k] + [s[k]] + s[k + 1..];
  }

  lemma LowerDotted(pre: string, seg: string)
    ensures Lower(pre + "." + seg) == Lower(pre) + ("." + Lower(seg))
  {
    var s, r := pre + "." + seg, Lower(pre) + ("." + Lower(seg));
    forall i | 0 <= i < |s|
      ensures Lower(s)[i] == r[i]
    {
      if i > |pre| {
        assert s[i] == seg[i - |pre| - 1];
      }
    }
  }

  predicate StartsWith(s: string, prefix: string) {
    |prefix| <= |s| && s[..|prefix|] == prefix
  }

  predicate EndsWith(s: string, suffix: string) {
    |suffix| <= |s| && s[|s| - |suffix|..] == suffix
  }

  predicate OccursAt(s: string, pat: string, i: nat) {
    i + |pat| <= |s| && s[i..i + |pat|] == pat
  }

  /** The first index at or after `from` where `pat` occurs. */
  function IndexOfFrom(s: string, pat: string, from: nat): (r: Option<nat>)
    ensures r.Some? ==> from <= r.value && OccursAt(s, pat, r.value)
    ensures r.Some? ==> forall j :: from <= j < r.value ==> !OccursAt(s, pat, j)
    ensures r.None? ==> forall j :: from <= j ==> !OccursAt(s, pat, j)
    decreases |s| - from
  {
    if from + |pat| > |s| then None
    else if OccursAt(s, pat, from) then Some(from)
    else IndexOfFrom(s, pat, from + 1)
  }

  /** `s.replace(pat, rep)` with a string pattern: only the first occurrence
      is replaced. */
  function ReplaceFirst(s: string, pat: string, rep: string): string {
    match IndexOfFrom(s, pat, 0)
    case None => s
    case Some(i) => s[..i] + rep + s[i + |pat|..]
  }

  /** Replacing a non-empty prefix by nothing drops exactly that prefix. */
  lemma ReplaceFirstPrefix(s: string, pat: string)
    requires pat != [] && StartsWith(s, pat)
    ensures ReplaceFirst(s, pat, "") == s[|pat|..]
  {
    assert OccursAt(s, pat, 0);
  }

  /** A string that does not contain the pattern is left as it is. */
  lemma ReplaceFirstAbsent(s: string, pat: string, rep: string)
    requires forall j :: !OccursAt(s, pat, j)
    ensures ReplaceFirst(s, pat, rep) == s
  {
  }
}
