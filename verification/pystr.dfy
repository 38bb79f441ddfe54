/** Python's `str.split(sep)` for a non-empty separator `sep`: the string is
    cut at every occurrence of `sep`, scanning left to right without overlap.
    (`str.split("")` raises `ValueError`; the chunker models that case itself.) */
module PyStr {

  import opened Results
  import Text
  import Seqs

  /** `sep` occurs in `s` starting at position `i`. */
  predicate OccursAt(s: string, sep: string, i: nat) {
    i + |sep| <= |s| && s[i..i + |sep|] == sep
  }

  predicate Contains(s: string, sep: string) {
    exists i: nat :: i <= |s| && OccursAt(s, sep, i)
  }

  /** The leftmost occurrence of `sep` in `s` at or after `i` (`str.find`). */
  function FindFrom(s: string, sep: string, i: nat): (r: Option<nat>)
    requires |sep| > 0 && i <= |s|
    decreases |s| - i
    ensures r.Some? ==> i <= r.value && OccursAt(s, sep, r.value)
    ensures r.Some? ==> forall j: nat :: i <= j < r.value ==> !OccursAt(s, sep, j)
    ensures r.None? ==> forall j: nat :: i <= j ==> !OccursAt(s, sep, j)
  {
    if i + |sep| > |s| then None
    else if OccursAt(s, sep, i) then Some(i)
    else FindFrom(s, sep, i + 1)
  }

  /** `sep.join(parts)`. */
  function Join(parts: seq<string>, sep: string): string {
    if |parts| == 0 then ""
    else if |parts| == 1 then parts[0]
    else parts[0] + sep + Join(parts[1..], sep)
  }

  lemma PrefixBeforeFirstOccurrence(s: string, sep: string, k: nat)
    requires |sep| > 0 && k <= |s|
    requires forall j: nat :: j < k ==> !OccursAt(s, sep, j)
    ensures !Contains(s[..k], sep)
  {
    forall j: nat | j <= k
      ensures !OccursAt(s[..k], sep, j)
    {
      if j + |sep| <= k {
        assert s[..k][j..j + |sep|] == s[j..j + |sep|];
        assert !OccursAt(s, sep, j);
      }
    }
  }

  /** `s.split(sep)`. */
  function Split(s: string, sep: string): (r: seq<string>)
    requires |sep| > 0
    decreases |s|
    ensures |r| >= 1
    ensures Join(r, sep) == s
    ensures forall i :: 0 <= i < |r| ==> |r[i]| <= |s| && !Contains(r[i], sep)
  {
    match FindFrom(s, sep, 0)
    case None => [s]
    case Some(k) =>
      var head := s[..k];
      var rest := Split(s[k + |sep|..], sep);
      PrefixBeforeFirstOccurrence(s, sep, k);
      assert s == head + sep + s[k + |sep|..];
      assert ([head] + rest)[1..] == rest;
      [head] + rest
  }

  /** A string that does not contain the separator is one piece. */
  lemma SplitWithoutSeparator(s: string, sep: string)
    requires |sep| > 0 && !Contains(s, sep)
    ensures Split(s, sep) == [s]
  {
  }

  /** A string that lacks some character of the separator does not contain it. */
  lemma MissingCharacterExcludes(s: string, sep: string, c: char)
    requires c in sep && c !in s
    ensures !Contains(s, sep)
  {
    var k :| 0 <= k < |sep| && sep[k] == c;
    forall i: nat | i <= |s|
      ensures !OccursAt(s, sep, i)
    {
      if i + |sep| <= |s| {
        assert s[i..i + |sep|][k] == s[i + k];
      }
    }
  }

  /** The first piece ends at the leftmost occurrence of the separator. */
  lemma SplitAtFirst(s: string, sep: string, k: nat)
    requires |sep| > 0 && OccursAt(s, sep, k)
    requires forall j: nat :: j < k ==> !OccursAt(s, sep, j)
    ensures Split(s, sep) == [s[..k]] + Split(s[k + |sep|..], sep)
  {
    var f := FindFrom(s, sep, 0);
    assert f.Some? && f.value == k;
  }

  /** The leftmost occurrence found by comparing first characters only. */
  lemma SplitAtFirstChar(s: string, sep: string, k: nat)
    requires |sep| > 0 && OccursAt(s, sep, k)
    requires forall j :: 0 <= j < k ==> s[j] != sep[0]
    ensures Split(s, sep) == [s[..k]] + Split(s[k + |sep|..], sep)
  {
    forall j: nat | j < k
      ensures !OccursAt(s, sep, j)
    {
      if j + |sep| <= |s| {
        assert s[j..j + |sep|][0] == s[j];
      }
    }
    SplitAtFirst(s, sep, k);
  }

  /** No character of `w` is whitespace. */
  predicate NoSpace(w: string) {
    forall i :: 0 <= i < |w| ==> !Text.IsSpace(w[i])
  }

  /** The length of the leading run of non-whitespace characters. */
  function WordLength(s: string): (k: nat)
    decreases |s|
    ensures k <= |s|
    ensures k > 0 <==> |s| > 0 && !Text.IsSpace(s[0])
  {
    if |s| == 0 || Text.IsSpace(s[0]) then 0 else 1 + WordLength(s[1..])
  }

  /** The run `WordLength` measures is all non-whitespace and ends at
      whitespace or at the end of the string. */
  lemma {:induction false} WordLengthRun(s: string)
    ensures NoSpace(s[..WordLength(s)])
    ensures WordLength(s) < |s| ==> Text.IsSpace(s[WordLength(s)])
    decreases |s|
  {
    var k := WordLength(s);
    if k > 0 {
      WordLengthRun(s[1..]);
      assert s[..k] == [s[0]] + s[1..][..k - 1];
    }
  }

  /** `s.split()` with no argument: the maximal runs of non-whitespace
      characters, in order. */
  function SplitWhitespace(s: string): (r: seq<string>)
    decreases |s|
    ensures |r| <= |s|
    ensures |s| > 0 && !Text.IsSpace(s[0]) ==> |r| > 0
  {
    if |s| == 0 then []
    else if Text.IsSpace(s[0]) then SplitWhitespace(s[1..])
    else
      var k := WordLength(s);
      [s[..k]] + SplitWhitespace(s[k..])
  }

  /** Every word is non-empty and free of whitespace. */
  lemma {:induction false} WordsAreWords(s: string)
    ensures var r := SplitWhitespace(s);
      forall i :: 0 <= i < |r| ==> |r[i]| > 0 && NoSpace(r[i])
    decreases |s|
  {
    if |s| > 0 {
      if Text.IsSpace(s[0]) {
        assert SplitWhitespace(s) == SplitWhitespace(s[1..]);
        WordsAreWords(s[1..]);
      } else {
        var k := WordLength(s);
        WordLengthRun(s);
        assert SplitWhitespace(s) == [s[..k]] + SplitWhitespace(s[k..]);
        WordsAreWords(s[k..]);
      }
    }
  }

  /** Leading whitespace does not change the words. */
  lemma {:induction false} WordsAfterTrimLeft(s: string)
    ensures SplitWhitespace(Text.TrimLeft(s)) == SplitWhitespace(s)
    decreases |s|
  {
    if |s| > 0 && Text.IsSpace(s[0]) {
      WordsAfterTrimLeft(s[1..]);
    }
  }

  /** The first word ends where `x` ends or at its first whitespace, whatever
      follows a whitespace character. */
  lemma {:induction false} WordLengthAppend(x: string, tail: string)
    requires |tail| == 0 || Text.IsSpace(tail[0])
    ensures WordLength(x + tail) == WordLength(x)
    decreases |x|
  {
    if |x| == 0 {
      assert x + tail == tail;
    } else if !Text.IsSpace(x[0]) {
      assert (x + tail)[1..] == x[1..] + tail;
      WordLengthAppend(x[1..], tail);
    }
  }

  /** Trailing whitespace does not change the words. */
  lemma {:induction false} WordsBeforeSpace(x: string, tail: string)
    requires forall i :: 0 <= i < |tail| ==> Text.IsSpace(tail[i])
    ensures SplitWhitespace(x + tail) == SplitWhitespace(x)
    decreases |x| + |tail|
  {
    if |x| == 0 {
      assert x + tail == tail;
      if |tail| > 0 {
        WordsBeforeSpace(x, tail[1..]);
        assert tail[1..] == x + tail[1..];
      }
    } else if Text.IsSpace(x[0]) {
      assert (x + tail)[1..] == x[1..] + tail;
      WordsBeforeSpace(x[1..], tail);
    } else {
      var k := WordLength(x);
      WordLengthAppend(x, tail);
      assert (x + tail)[..k] == x[..k];
      assert (x + tail)[k..] == x[k..] + tail;
      WordsBeforeSpace(x[k..], tail);
    }
  }

  /** Stripping does not change the words. */
  lemma WordsAfterStrip(s: string)
    ensures SplitWhitespace(Text.Strip(s)) == SplitWhitespace(s)
  {
    var t := Text.TrimLeft(s);
    assert Text.Strip(s) == Text.TrimRight(t);
    WordsAfterTrimRight(t);
    WordsAfterTrimLeft(s);
  }

  lemma WordsAfterTrimRight(t: string)
    ensures SplitWhitespace(Text.TrimRight(t)) == SplitWhitespace(t)
  {
    var r := Text.TrimRight(t);
    var tail := t[|r|..];
    Text.TrimRightDropsSpace(t);
    forall i | 0 <= i < |tail|
      ensures Text.IsSpace(tail[i])
    {
      assert tail[i] == t[|r| + i];
    }
    assert t == r + tail;
    WordsBeforeSpace(r, tail);
  }

  /** Collapsing passes a run of non-whitespace through unchanged. */
  lemma {:induction false} CollapseWord(w: string, rest: string)
    requires NoSpace(w)
    ensures Text.Collapse(w + rest) == w + Text.Collapse(rest)
    decreases |w|
  {
    if |w| == 0 {
      assert w + rest == rest;
    } else {
      var s := w + rest;
      assert s[0] == w[0] && !Text.IsSpace(s[0]);
      assert s[1..] == w[1..] + rest;
      CollapseWord(w[1..], rest);
      Seqs.Regroup([w[0]], w[1..], Text.Collapse(rest));
      assert w == [w[0]] + w[1..];
    }
  }

  /** `sep.join` of a list of at least two parts puts `sep` after the first. */
  lemma JoinStep(whole: string, w: string, rest: string, ws: seq<string>)
    requires |ws| > 0 && whole == w + ([' '] + rest) && rest == Join(ws, " ")
    ensures whole == Join([w] + ws, " ")
  {
    assert ([w] + ws)[1..] == ws;
    assert w + ([' '] + rest) == w + " " + rest;
  }

  /** On a string with no whitespace at either end, collapsing each
      whitespace run to one blank joins the words with blanks. */
  lemma {:induction false} CollapseJoinsWords(t: string)
    requires Text.NoEdgeSpace(t)
    ensures Text.Collapse(t) == Join(SplitWhitespace(t), " ")
    decreases |t|
  {
    if |t| > 0 {
      var k := WordLength(t);
      assert t == t[..k] + t[k..];
      WordLengthRun(t);
      CollapseWord(t[..k], t[k..]);
      if k == |t| {
        assert t[k..] == [];
        assert t[..k] == t;
        assert SplitWhitespace(t) == [t] + SplitWhitespace([]);
      } else {
        CollapseJoinsWordsStep(t, k);
      }
    }
  }

  lemma {:induction false} CollapseJoinsWordsStep(t: string, k: nat)
    requires Text.NoEdgeSpace(t) && |t| > 0 && k == WordLength(t) && k < |t|
    requires Text.Collapse(t) == t[..k] + Text.Collapse(t[k..])
    ensures Text.Collapse(t) == Join(SplitWhitespace(t), " ")
    decreases |t|, 0
  {
    var u := Text.TrimLeft(t[k + 1..]);
    AfterFirstWord(t, k);
    CollapseJoinsWords(u);
    JoinStep(Text.Collapse(t), t[..k], Text.Collapse(u), SplitWhitespace(u));
  }

  /** Past the first word and the whitespace run after it, a string with no
      whitespace at either end leaves a shorter one of the same kind. */
  lemma AfterFirstWord(t: string, k: nat)
    requires Text.NoEdgeSpace(t) && |t| > 0 && k == WordLength(t) && k < |t|
    ensures var u := Text.TrimLeft(t[k + 1..]);
      && |u| < |t| && Text.NoEdgeSpace(u) && |SplitWhitespace(u)| > 0
      && Text.Collapse(t[k..]) == [' '] + Text.Collapse(u)
      && SplitWhitespace(t) == [t[..k]] + SplitWhitespace(u)
  {
    var rest := t[k..];
    WordLengthRun(t);
    assert rest[1..] == t[k + 1..];
    var u := Text.TrimLeft(rest[1..]);
    assert Text.Collapse(rest) == [' '] + Text.Collapse(u);
    EndsInWord(t, k);
    WordsAfterTrimLeft(rest[1..]);
    assert SplitWhitespace(rest) == SplitWhitespace(rest[1..]);
  }

  lemma EndsInWord(t: string, k: nat)
    requires Text.NoEdgeSpace(t) && |t| > 0 && k == WordLength(t) && k < |t|
    ensures var u := Text.TrimLeft(t[k + 1..]);
      |u| > 0 && Text.NoEdgeSpace(u) && |SplitWhitespace(u)| > 0
  {
    WordLengthRun(t);
    assert k + 1 < |t|;
    var v := t[k + 1..];
    assert v[|v| - 1] == t[|t| - 1];
    NonEmptyAfterTrimLeft(v);
  }

  /** A string ending in non-whitespace keeps that end through `TrimLeft`. */
  lemma NonEmptyAfterTrimLeft(v: string)
    requires |v| > 0 && !Text.IsSpace(v[|v| - 1])
    ensures var u := Text.TrimLeft(v);
      |u| > 0 && Text.NoEdgeSpace(u) && |SplitWhitespace(u)| > 0
  {
    var u := Text.TrimLeft(v);
    Text.TrimLeftDropsSpace(v);
    assert |u| > 0;
    assert u[|u| - 1] == v[|v| - 1];
  }

  /** The chunk clean-up `re.sub(r'\s+', ' ', chunk.strip())` is
      `" ".join(chunk.split())`: the words of the input joined by single
      blanks. */
  lemma NormalizeJoinsWords(s: string)
    ensures Text.Normalize(s) == Join(SplitWhitespace(s), " ")
  {
    var t := Text.Strip(s);
    assert Text.Normalize(s) == Text.Collapse(t);
    CollapseJoinsWords(t);
    WordsAfterStrip(s);
  }
}
