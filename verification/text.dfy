/** Whitespace handling as Python performs it on `str` values: `str.strip()`
    with no argument, and `re.sub(r'\s+', ' ', s)`. Both use the same notion of
    whitespace, so one predicate serves both. */
module Text {

  /** The characters Python's `str.isspace()` accepts; the regular-expression
      class `\s` on `str` patterns matches exactly these. */
  predicate IsSpace(c: char) {
    InRanges(c as int, SpaceRanges)
  }

  /** The whitespace code points as inclusive ranges: U+0009..U+000D,
      U+001C..U+0020, U+0085, U+00A0, U+1680, U+2000..U+200A, U+2028..U+2029,
      U+202F, U+205F and U+3000. */
  const SpaceRanges: seq<(int, int)> :=
    [(0x09, 0x0D), (0x1C, 0x20), (0x85, 0x85), (0xA0, 0xA0), (0x1680, 0x1680),
     (0x2000, 0x200A), (0x2028, 0x2029), (0x202F, 0x202F), (0x205F, 0x205F), (0x3000, 0x3000)]

  predicate InRanges(n: int, ranges: seq<(int, int)>) {
    |ranges| > 0 && ((ranges[0].0 <= n <= ranges[0].1) || InRanges(n, ranges[1..]))
  }

  /** The whitespace characters the chunker's separators end with, and the
      full stop, which is not whitespace. */
  lemma SeparatorCharacters()
    ensures IsSpace(' ') && IsSpace('\n') && !IsSpace('.')
  {
    assert InRanges(0x20, SpaceRanges[1..]);
    assert SpaceRanges[0].0 <= 0x0A <= SpaceRanges[0].1;
    var n := '.' as int;
    var r := SpaceRanges;
    assert !InRanges(n, r[9..]);
    assert !InRanges(n, r[8..]);
    assert !InRanges(n, r[7..]);
    assert !InRanges(n, r[6..]);
    assert !InRanges(n, r[5..]);
    assert !InRanges(n, r[4..]);
    assert !InRanges(n, r[3..]);
    assert !InRanges(n, r[2..]);
    assert !InRanges(n, r[1..]);
  }

  /** The non-whitespace characters of `s`, in order: what whitespace
      normalisation must never lose or invent. */
  function NonSpace(s: string): string {
    if |s| == 0 then []
    else (if IsSpace(s[0]) then [] else [s[0]]) + NonSpace(s[1..])
  }

  lemma {:induction false} NonSpaceAppend(a: string, b: string)
    ensures NonSpace(a + b) == NonSpace(a) + NonSpace(b)
    decreases |a|
  {
    if |a| > 0 {
      assert (a + b)[1..] == a[1..] + b;
      NonSpaceAppend(a[1..], b);
    } else {
      assert a + b == b;
    }
  }

  /** Neither the first nor the last character is whitespace. */
  predicate NoEdgeSpace(s: string) {
    |s| == 0 || (!IsSpace(s[0]) && !IsSpace(s[|s| - 1]))
  }

  /** Every whitespace character is a plain blank and no two are adjacent. */
  predicate SingleBlanks(s: string) {
    && (forall i :: 0 <= i < |s| && IsSpace(s[i]) ==> s[i] == ' ')
    && (forall i :: 0 <= i < |s| - 1 ==> !(IsSpace(s[i]) && IsSpace(s[i + 1])))
  }

  /** The shape of every chunk the chunker yields. */
  predicate Normal(s: string) {
    NoEdgeSpace(s) && SingleBlanks(s)
  }

  /** Drops the leading whitespace run. */
  function TrimLeft(s: string): (r: string)
    ensures |r| <= |s| && r == s[|s| - |r|..]
    ensures |r| == 0 || !IsSpace(r[0])
  {
    if |s| > 0 && IsSpace(s[0]) then TrimLeft(s[1..]) else s
  }

  /** What `TrimLeft` drops is whitespace only. */
  lemma {:induction false} TrimLeftDropsSpace(s: string)
    ensures forall i :: 0 <= i < |s| - |TrimLeft(s)| ==> IsSpace(s[i])
    ensures NonSpace(TrimLeft(s)) == NonSpace(s)
    decreases |s|
  {
    if |s| > 0 && IsSpace(s[0]) {
      var t := s[1..];
      TrimLeftDropsSpace(t);
      forall i | 1 <= i < |s| - |TrimLeft(s)|
        ensures IsSpace(s[i])
      {
        assert s[i] == t[i - 1];
      }
    }
  }

  /** Drops the trailing whitespace run. */
  function TrimRight(s: string): (r: string)
    ensures |r| <= |s| && r == s[..|r|]
    ensures |r| == 0 || !IsSpace(r[|r| - 1])
  {
    if |s| > 0 && IsSpace(s[|s| - 1]) then TrimRight(s[..|s| - 1]) else s
  }

  /** What `TrimRight` drops is whitespace only. */
  lemma {:induction false} TrimRightDropsSpace(s: string)
    ensures forall i :: |TrimRight(s)| <= i < |s| ==> IsSpace(s[i])
    ensures NonSpace(TrimRight(s)) == NonSpace(s)
    decreases |s|
  {
    if |s| > 0 && IsSpace(s[|s| - 1]) {
      var init := s[..|s| - 1];
      TrimRightDropsSpace(init);
      assert s == init + [s[|s| - 1]];
      NonSpaceAppend(init, [s[|s| - 1]]);
      forall i | |TrimRight(s)| <= i < |s| - 1
        ensures IsSpace(s[i])
      {
        assert s[i] == init[i];
      }
    }
  }

  /** `r` is the part of `s` that starts at `i` once a whitespace run is cut
      from each end: everything before `i` and after `r` is whitespace. */
  predicate TrimmedAt(s: string, r: string, i: nat) {
    && i + |r| <= |s| && r == s[i..i + |r|]
    && (forall k :: 0 <= k < i ==> IsSpace(s[k]))
    && (forall k :: i + |r| <= k < |s| ==> IsSpace(s[k]))
  }

  lemma TrimBoth(s: string)
    ensures TrimmedAt(s, TrimRight(TrimLeft(s)), |s| - |TrimLeft(s)|)
  {
    var t := TrimLeft(s);
    TrimLeftDropsSpace(s);
    TrimRightDropsSpace(t);
    TrimmedWithin(s, t, TrimRight(t), |s| - |t|);
  }

  /** Cutting a whitespace run from the front of `s` and then from the back
      of what is left cuts one from each end of `s`. */
  lemma TrimmedWithin(s: string, t: string, r: string, i: nat)
    requires i <= |s| && t == s[i..] && |r| <= |t| && r == t[..|r|]
    requires forall k :: 0 <= k < i ==> IsSpace(s[k])
    requires forall k :: |r| <= k < |t| ==> IsSpace(t[k])
    ensures TrimmedAt(s, r, i)
  {
    forall k | i + |r| <= k < |s|
      ensures IsSpace(s[k])
    {
      assert s[k] == t[k - i];
    }
  }

  /** Python's `str.strip()` with no argument. */
  function Strip(s: string): (r: string)
    ensures |r| <= |s|
    ensures NoEdgeSpace(r)
    ensures NoEdgeSpace(s) ==> r == s
    ensures |s| > 0 && IsSpace(s[|s| - 1]) ==> |r| < |s|
  {
    var t := TrimLeft(s);
    var r := TrimRight(t);
    assert |r| > 0 ==> r[0] == t[0];
    assert |t| > 0 ==> t[|t| - 1] == s[|s| - 1];
    r
  }

  /** What `strip` removes is a whitespace run at each end: the result is a
      contiguous part of the input with only whitespace before and after it. */
  lemma StripTrims(s: string)
    ensures exists i: nat :: TrimmedAt(s, Strip(s), i)
  {
    TrimBoth(s);
    assert Strip(s) == TrimRight(TrimLeft(s));
    assert TrimmedAt(s, Strip(s), |s| - |TrimLeft(s)|);
  }

  /** Stripping loses no non-whitespace character. */
  lemma StripKeepsContent(s: string)
    ensures NonSpace(Strip(s)) == NonSpace(s)
  {
    TrimLeftDropsSpace(s);
    TrimRightDropsSpace(TrimLeft(s));
  }

  /** Stripping a string that has one trailing whitespace character after a
      clean edge drops just that character. */
  lemma StripTrailingSpace(x: string, c: char)
    requires |x| > 0 && NoEdgeSpace(x) && IsSpace(c)
    ensures Strip(x + [c]) == x
  {
    assert TrimLeft(x + [c]) == x + [c];
    assert (x + [c])[..|x|] == x;
    assert TrimRight(x + [c]) == TrimRight(x);
  }

  lemma SingleBlanksCons(c: char, t: string)
    requires SingleBlanks(t)
    requires IsSpace(c) ==> c == ' ' && (|t| == 0 || !IsSpace(t[0]))
    ensures SingleBlanks([c] + t)
  {
    var s := [c] + t;
    forall i | 1 <= i < |s|
      ensures s[i] == t[i - 1]
    {
    }
  }

  /** `re.sub(r'\s+', ' ', s)`: every maximal whitespace run becomes one blank. */
  function Collapse(s: string): (r: string)
    decreases |s|
    ensures |r| <= |s|
    ensures |r| == 0 <==> |s| == 0
    ensures |s| > 0 ==> (IsSpace(r[0]) <==> IsSpace(s[0]))
  {
    if |s| == 0 then []
    else if IsSpace(s[0]) then [' '] + Collapse(TrimLeft(s[1..]))
    else [s[0]] + Collapse(s[1..])
  }

  /** After collapsing, whitespace appears only as isolated blanks. */
  lemma {:induction false} CollapseSingleBlanks(s: string)
    ensures SingleBlanks(Collapse(s))
    decreases |s|
  {
    if |s| > 0 {
      if IsSpace(s[0]) {
        var t := TrimLeft(s[1..]);
        CollapseSingleBlanks(t);
        SingleBlanksCons(' ', Collapse(t));
      } else {
        CollapseSingleBlanks(s[1..]);
        SingleBlanksCons(s[0], Collapse(s[1..]));
      }
    }
  }

  /** Collapsing keeps whether the string ends in whitespace. */
  lemma {:induction false} CollapseLast(s: string)
    requires |s| > 0
    ensures LastAgrees(s)
    decreases |s|
  {
    if IsSpace(s[0]) {
      var t := TrimLeft(s[1..]);
      if |t| > 0 {
        CollapseLast(t);
      }
      LastAfterSpace(s);
    } else if |s| > 1 {
      CollapseLast(s[1..]);
      LastAfterChar(s);
    }
  }

  /** Collapsing keeps whether the last character is whitespace. */
  predicate LastAgrees(s: string)
    requires |s| > 0
  {
    IsSpace(Collapse(s)[|Collapse(s)| - 1]) <==> IsSpace(s[|s| - 1])
  }

  lemma LastAfterSpace(s: string)
    requires |s| > 0 && IsSpace(s[0])
    requires |TrimLeft(s[1..])| > 0 ==> LastAgrees(TrimLeft(s[1..]))
    ensures LastAgrees(s)
  {
    var t := TrimLeft(s[1..]);
    CollapseSpaceHead(s);
    if |t| > 0 {
      assert t[|t| - 1] == s[|s| - 1];
      LastOfCons(' ', Collapse(t));
    } else {
      TrimLeftDropsSpace(s[1..]);
      assert |s| > 1 ==> s[1..][|s| - 2] == s[|s| - 1];
    }
  }

  lemma LastAfterChar(s: string)
    requires |s| > 1 && !IsSpace(s[0]) && LastAgrees(s[1..])
    ensures LastAgrees(s)
  {
    assert Collapse(s) == [s[0]] + Collapse(s[1..]);
    LastOfCons(s[0], Collapse(s[1..]));
  }

  lemma CollapseSpaceHead(s: string)
    requires |s| > 0 && IsSpace(s[0])
    ensures Collapse(s) == [' '] + Collapse(TrimLeft(s[1..]))
  {
  }

  lemma LastOfCons(c: char, t: string)
    requires |t| > 0
    ensures ([c] + t)[|t|] == t[|t| - 1]
  {
  }

  /** Collapsing loses no non-whitespace character. */
  lemma {:induction false} CollapseKeepsContent(s: string)
    ensures NonSpace(Collapse(s)) == NonSpace(s)
    decreases |s|
  {
    if |s| > 0 {
      if IsSpace(s[0]) {
        var t := TrimLeft(s[1..]);
        CollapseKeepsContent(t);
        TrimLeftDropsSpace(s[1..]);
        assert NonSpace([' '] + Collapse(t)) == NonSpace(Collapse(t));
      } else {
        CollapseKeepsContent(s[1..]);
        assert NonSpace([s[0]] + Collapse(s[1..])) == [s[0]] + NonSpace(Collapse(s[1..]));
      }
    }
  }

  /** The per-chunk clean-up of the chunker: `re.sub(r'\s+', ' ', chunk.strip())`. */
  function Normalize(s: string): (r: string)
    ensures Normal(r)
    ensures |r| <= |s|
  {
    var t := Strip(s);
    CollapseNormal(t);
    Collapse(t)
  }

  /** Collapsing a string with no whitespace at either end gives a normal one. */
  lemma CollapseNormal(t: string)
    requires NoEdgeSpace(t)
    ensures Normal(Collapse(t))
  {
    CollapseSingleBlanks(t);
    if |t| > 0 {
      CollapseLast(t);
    }
  }

  /** Normalising loses no non-whitespace character and invents none. */
  lemma NormalizeKeepsContent(s: string)
    ensures NonSpace(Normalize(s)) == NonSpace(s)
  {
    StripKeepsContent(s);
    CollapseKeepsContent(Strip(s));
  }

  lemma SingleBlanksTail(s: string)
    requires |s| > 0 && SingleBlanks(s)
    ensures SingleBlanks(s[1..])
    ensures IsSpace(s[0]) ==> s[0] == ' ' && (|s| == 1 || !IsSpace(s[1]))
  {
    var t := s[1..];
    forall i | 0 <= i < |t| && IsSpace(t[i])
      ensures t[i] == ' '
    {
      assert t[i] == s[i + 1];
    }
    forall i | 0 <= i < |t| - 1
      ensures !(IsSpace(t[i]) && IsSpace(t[i + 1]))
    {
      assert t[i] == s[i + 1] && t[i + 1] == s[i + 2];
    }
  }

  lemma {:induction false} CollapseKeepsSingleBlanks(s: string)
    requires SingleBlanks(s)
    ensures Collapse(s) == s
    decreases |s|
  {
    if |s| > 0 {
      var t := s[1..];
      SingleBlanksTail(s);
      CollapseKeepsSingleBlanks(t);
      if IsSpace(s[0]) {
        assert !(|t| > 0 && IsSpace(t[0]));
        assert TrimLeft(t) == t;
        assert Collapse(s) == [' '] + Collapse(t);
      } else {
        assert Collapse(s) == [s[0]] + Collapse(t);
      }
      assert s == [s[0]] + t;
    }
  }

  /** A chunk that is already normal is left exactly as it is. */
  lemma NormalizeKeepsNormal(s: string)
    requires Normal(s)
    ensures Normalize(s) == s
  {
    CollapseKeepsSingleBlanks(s);
  }

  /** Normalising twice is normalising once. */
  lemma NormalizeIdempotent(s: string)
    ensures Normalize(Normalize(s)) == Normalize(s)
  {
    NormalizeKeepsNormal(Normalize(s));
  }

  /** Normalisation leaves a string unchanged exactly when it is normal. */
  lemma NormalizeFixedPoints(s: string)
    ensures Normalize(s) == s <==> Normal(s)
  {
    if Normal(s) {
      NormalizeKeepsNormal(s);
    }
  }
}
