/** Properties of the chunker stated over all inputs, including the ones that
    show where its behaviour departs from a naive reading: chunks one
    character over the size, empty chunks, chunks out of document order, and
    the `ValueError` of the empty separator. */
module ChunkerProps {

  import opened Results
  import Text
  import PyStr
  import Seqs
  import opened Chunker

  /** With no separator left, a long text is cut into fixed-width slices that
      concatenate back to it; every slice but the last has exactly the chunk
      size and the last has at most that. */
  lemma NoSeparatorsSlices(text: string, size: int)
    requires 0 < size < |text|
    ensures var r := SplitText(text, [], size);
      && r.Success?
      && Seqs.Flatten(r.value) == text
      && |r.value| >= 2
      && (forall i :: 0 <= i < |r.value| - 1 ==> |r.value[i]| == size)
      && 0 < |r.value[|r.value| - 1]| <= size
  {
    var r := Slices(text, size);
    assert r == [text[..size]] + Slices(text[size..], size);
  }

  /** With the default separators, every chunk of `split_text` is at most one
      character longer than the chunk size. */
  lemma DefaultSeparatorsBound(text: string, size: int)
    ensures var r := SplitText(text, Separators, size);
      r.Success? ==> forall c :: c in r.value ==> |c| <= size + 1
  {
    SplitTextWithin(text, Separators, size);
    SeparatorsSlack();
  }

  /** A separator that does not occur in a long text leaves it whole: the text
      is one piece, too long for the buffer, and goes to the next separator. */
  lemma DescendPast(text: string, seps: seq<string>, size: int)
    requires |text| > size && |seps| > 0 && seps[0] != ""
    requires !PyStr.Contains(text, seps[0])
    ensures SplitText(text, seps, size) == SplitText(text, seps[1..], size)
  {
    PyStr.SplitWithoutSeparator(text, seps[0]);
    var sub := SplitText(text, seps[1..], size);
    var r := ProcessPieces([text], seps[0], seps[1..], size, "");
    assert ProcessPieces([text][1..], seps[0], seps[1..], size, "") == Success([]);
    if sub.Success? {
      assert r == Success(sub.value + []);
      assert sub.value + [] == sub.value;
    }
  }

  /** A text longer than the chunk size that contains none of the non-empty
      separators left is never cut: the descent reaches the empty separator,
      and `str.split("")` raises. */
  lemma {:induction false} UnsplittableRaises(text: string, seps: seq<string>, size: int)
    requires |text| > size
    requires "" in seps
    requires forall i :: 0 <= i < |seps| && seps[i] != "" ==> !PyStr.Contains(text, seps[i])
    ensures SplitText(text, seps, size) == Failure(EmptySeparator)
    decreases |seps|
  {
    if seps[0] != "" {
      DescendPast(text, seps, size);
      assert "" in seps[1..];
      UnsplittableRaises(text, seps[1..], size);
    }
  }

  /** In particular a text longer than the chunk size with no blank and no
      newline (one long word) makes the chunker raise. */
  lemma LongWordRaises(text: string, size: int)
    requires |text| > size
    requires ' ' !in text && '\n' !in text
    ensures SplitText(text, Separators, size) == Failure(EmptySeparator)
  {
    forall i | 0 <= i < |Separators| && Separators[i] != ""
      ensures !PyStr.Contains(text, Separators[i])
    {
      if i <= 1 {
        PyStr.MissingCharacterExcludes(text, Separators[i], '\n');
      } else {
        PyStr.MissingCharacterExcludes(text, Separators[i], ' ');
      }
    }
    UnsplittableRaises(text, Separators, size);
  }

  /** One step of the loop of `split_text` for a piece that does not fit the
      buffer: the stripped buffer is emitted and the piece starts a new one. */
  lemma FlushStep(pieces: seq<string>, sep: string, rest: seq<string>, size: int, buf: string, tail: seq<string>)
    requires |pieces| > 0 && |pieces[0]| <= size < |buf| + |pieces[0]| + |sep|
    requires ProcessPieces(pieces[1..], sep, rest, size, pieces[0] + sep) == Success(tail)
    ensures ProcessPieces(pieces, sep, rest, size, buf) == Success([Text.Strip(buf)] + tail)
  {
  }

  /** One step for a piece that fits: it joins the buffer with the separator. */
  lemma AppendStep(pieces: seq<string>, sep: string, rest: seq<string>, size: int, buf: string)
    requires |pieces| > 0 && |buf| + |pieces[0]| + |sep| <= size
    ensures ProcessPieces(pieces, sep, rest, size, buf)
         == ProcessPieces(pieces[1..], sep, rest, size, buf + pieces[0] + sep)
  {
  }

  /** One step for a piece longer than the chunk size: its own chunks come
      first, before anything the buffer still holds. */
  lemma RecurseStep(pieces: seq<string>, sep: string, rest: seq<string>, size: int, buf: string,
                    sub: seq<string>, tail: seq<string>)
    requires |pieces| > 0 && |pieces[0]| > size
    requires SplitText(pieces[0], rest, size) == Success(sub)
    requires ProcessPieces(pieces[1..], sep, rest, size, buf) == Success(tail)
    ensures ProcessPieces(pieces, sep, rest, size, buf) == Success(sub + tail)
  {
  }

  /** The first `". "` of `w + ". " + v` is the one after `w` when `w` has no blank. */
  lemma SentenceBreak(w: string, v: string)
    requires ' ' !in w
    ensures PyStr.Split(w + ". " + v, ". ") == [w] + PyStr.Split(v, ". ")
  {
    var t := w + ". " + v;
    forall j: nat | j < |w|
      ensures !PyStr.OccursAt(t, ". ", j)
    {
      assert t[j..j + 2][1] == t[j + 1];
      if j + 1 < |w| {
        assert t[j + 1] == w[j + 1];
      }
    }
    assert t[|w|..|w| + 2] == ". ";
    assert t[..|w|] == w && t[|w| + 2..] == v;
    PyStr.SplitAtFirst(t, ". ", |w|);
  }

  /** A sentence exactly as long as the chunk size, followed by a short one:
      the first piece does not fit an empty buffer with its separator, so the
      still-empty buffer is emitted as an empty chunk; the sentence keeps its
      full stop once stripped and so runs one character past the chunk size;
      and the last sentence gains a full stop it did not have. */
  lemma OverrunAndEmptyChunk(w: string, v: string)
    requires |w| > 0 && Text.NoEdgeSpace(w) && ' ' !in w && '\n' !in w
    requires 0 < |v| <= |w| && Text.NoEdgeSpace(v) && '\n' !in v && !PyStr.Contains(v, ". ")
    ensures SplitText(w + ". " + v, Separators, |w|) == Success(["", w + ".", v + "."])
  {
    var t := w + ". " + v;
    var size := |w|;
    NoNewlineSentences(w, v);
    var seps := [". ", " ", ""];
    SentenceBreak(w, v);
    PyStr.SplitWithoutSeparator(v, ". ");
    assert PyStr.Split(t, ". ") == [w, v];
    assert seps[0] == ". " && seps[1..] == [" ", ""];
    assert SplitText(t, seps, size) == ProcessPieces([w, v], ". ", [" ", ""], size, "");
    OverrunPieces(w, v, ". ", [" ", ""], size);
    FlushedSentence(w);
    FlushedSentence(v);
    assert Text.Strip("") == "" by {
      assert Text.NoEdgeSpace("");
    }
  }

  /** Two lines joined by `". "` have no newline, so the chunker goes straight
      to the sentence separator. */
  lemma NoNewlineSentences(w: string, v: string)
    requires '\n' !in w && '\n' !in v
    ensures |w + ". " + v| > |w| ==>
      SplitText(w + ". " + v, Separators, |w|) == SplitText(w + ". " + v, [". ", " ", ""], |w|)
  {
    var t := w + ". " + v;
    assert ". "[0] != '\n' && ". "[1] != '\n';
    assert '\n' !in t;
    NoNewlineDescends(t, |w|);
  }

  /** A long text without a newline is split at sentences first. */
  lemma NoNewlineDescends(t: string, size: int)
    requires '\n' !in t
    ensures |t| > size ==> SplitText(t, Separators, size) == SplitText(t, [". ", " ", ""], size)
  {
    if |t| > size {
      PyStr.MissingCharacterExcludes(t, "\n\n", '\n');
      PyStr.MissingCharacterExcludes(t, "\n", '\n');
      DescendPast(t, Separators, size);
      var s1 := Separators[1..];
      assert s1 == ["\n", ". ", " ", ""];
      DescendPast(t, s1, size);
      assert s1[1..] == [". ", " ", ""];
    }
  }

  /** A sentence buffered with its `". "` keeps its full stop once stripped. */
  lemma FlushedSentence(x: string)
    requires |x| > 0 && Text.NoEdgeSpace(x)
    ensures Text.Strip(x + ". ") == x + "."
  {
    Text.SeparatorCharacters();
    Text.StripTrailingSpace(x + ".", ' ');
    assert x + ". " == (x + ".") + [' '];
  }

  /** The loop over two pieces when the first fills the chunk size on its own:
      it cannot join the empty buffer together with the separator. */
  lemma OverrunPieces(w: string, v: string, sep: string, rest: seq<string>, size: int)
    requires sep != "" && |w| <= size < |w| + |sep| && |v| <= size
    ensures ProcessPieces([w, v], sep, rest, size, "")
         == Success([Text.Strip(""), Text.Strip(w + sep), Text.Strip(v + sep)])
  {
    var l := [Text.Strip(w + sep), Text.Strip(v + sep)];
    OverrunLastPiece(w, v, sep, rest, size);
    assert [w, v][1..] == [v];
    FlushStep([w, v], sep, rest, size, "", l);
    assert [Text.Strip("")] + l == [Text.Strip(""), Text.Strip(w + sep), Text.Strip(v + sep)];
  }

  lemma OverrunLastPiece(w: string, v: string, sep: string, rest: seq<string>, size: int)
    requires sep != "" && |v| <= size < |w| + |sep|
    ensures ProcessPieces([v], sep, rest, size, w + sep)
         == Success([Text.Strip(w + sep), Text.Strip(v + sep)])
  {
    var tail := [Text.Strip(v + sep)];
    assert ProcessPieces([], sep, rest, size, v + sep) == Success(tail);
    assert [v][1..] == [];
    assert ProcessPieces([v], sep, rest, size, w + sep) == Success([Text.Strip(w + sep)] + tail);
    assert [Text.Strip(w + sep)] + tail == [Text.Strip(w + sep), Text.Strip(v + sep)];
  }

  /** Text without a blank line and with no `"\n\n"` anywhere. */
  lemma SingleNewline(p: string, q: string)
    requires '\n' !in p && '\n' !in q
    ensures !PyStr.Contains(p + "\n" + q, "\n\n")
  {
    var t := p + "\n" + q;
    forall j: nat | j <= |t|
      ensures !PyStr.OccursAt(t, "\n\n", j)
    {
      if j + 2 <= |t| {
        assert t[j..j + 2][0] == t[j] && t[j..j + 2][1] == t[j + 1];
        if j < |p| {
          assert t[j] == p[j];
        } else if j > |p| {
          assert t[j] == q[j - |p| - 1];
        } else {
          assert t[j + 1] == q[0];
        }
      }
    }
  }

  /** Chunks out of document order: a short line followed by a line too long
      for the chunk size yields the long line's chunks first and the short
      line, which precedes them in the text, last. */
  lemma OutOfDocumentOrder(p: string, q: string, size: int, qs: seq<string>)
    requires 0 < |p| && |p| + 1 <= size < |q|
    requires Text.NoEdgeSpace(p) && '\n' !in p && '\n' !in q
    requires SplitText(q, [". ", " ", ""], size) == Success(qs)
    ensures SplitText(p + "\n" + q, Separators, size) == Success(qs + [p])
  {
    var t := p + "\n" + q;
    SingleNewline(p, q);
    DescendPast(t, Separators, size);
    var seps := Separators[1..];
    assert seps[0] == "\n" && seps[1..] == [". ", " ", ""];
    NewlineSplit(p, q);
    assert SplitText(t, seps, size) == ProcessPieces([p, q], "\n", [". ", " ", ""], size, "");
    ShortThenLong(p, q, "\n", [". ", " ", ""], size, qs);
    Text.SeparatorCharacters();
    Text.StripTrailingSpace(p, '\n');
    assert p + "\n" == p + ['\n'];
  }

  /** `p + "\n" + q` splits at its one newline. */
  lemma NewlineSplit(p: string, q: string)
    requires '\n' !in p && '\n' !in q
    ensures PyStr.Split(p + "\n" + q, "\n") == [p, q]
  {
    var t := p + "\n" + q;
    assert t[|p|..|p| + 1] == "\n";
    assert t[..|p|] == p && t[|p| + 1..] == q;
    forall j | 0 <= j < |p|
      ensures t[j] != "\n"[0]
    {
      assert t[j] == p[j];
    }
    PyStr.SplitAtFirstChar(t, "\n", |p|);
    PyStr.MissingCharacterExcludes(q, "\n", '\n');
    PyStr.SplitWithoutSeparator(q, "\n");
  }

  /** A piece that fits the buffer followed by one too long for the chunk
      size: the long piece's chunks are emitted, and the buffer holding the
      first piece only after them. */
  lemma ShortThenLong(p: string, q: string, sep: string, rest: seq<string>, size: int, qs: seq<string>)
    requires sep != "" && |p| + |sep| <= size < |q|
    requires SplitText(q, rest, size) == Success(qs)
    ensures ProcessPieces([p, q], sep, rest, size, "") == Success(qs + [Text.Strip(p + sep)])
  {
    assert [p, q][1..] == [q] && [q][1..] == [];
    assert "" + p + sep == p + sep;
    assert ProcessPieces([], sep, rest, size, p + sep) == Success([Text.Strip(p + sep)]);
    RecurseStep([q], sep, rest, size, p + sep, qs, [Text.Strip(p + sep)]);
    AppendStep([p, q], sep, rest, size, "");
  }

  /** An empty file yields one empty chunk, not none, whenever the chunk size
      in force is not negative. */
  lemma EmptyTextOneChunk(chunkSize: Option<int>, overlap: Option<int>, cfg: Config)
    requires OrDefault(chunkSize, cfg.chunkSize) >= 0
    ensures GenerateChunks("", chunkSize, overlap, cfg) == Success([""])
  {
    var size := OrDefault(chunkSize, cfg.chunkSize);
    var initial := SplitText("", Separators, size);
    assert initial == Success([""]);
    var o := Overlapped(initial.value, OrDefault(overlap, cfg.overlap));
    var n := NormalizeAll(o);
    assert |n| == 1 && |n[0]| <= 0;
    assert n == [""];
  }

  /** A text that fits the chunk size is one chunk, whatever separators
      remain. */
  lemma FitsOneChunk(text: string, seps: seq<string>, size: int)
    requires |text| <= size
    ensures SplitText(text, seps, size) == Success([text])
  {
  }

  /** A text that fits the chunk size in force is yielded as one chunk, only
      normalised: no separator is consulted and no overlap is added. */
  lemma ShortTextOneChunk(text: string, chunkSize: Option<int>, overlap: Option<int>, cfg: Config)
    requires |text| <= OrDefault(chunkSize, cfg.chunkSize)
    ensures GenerateChunks(text, chunkSize, overlap, cfg) == Success([Text.Normalize(text)])
  {
    var size := OrDefault(chunkSize, cfg.chunkSize);
    FitsOneChunk(text, Separators, size);
    var o := Overlapped([text], OrDefault(overlap, cfg.overlap));
    assert o == [text];
    var n := NormalizeAll(o);
    assert |n| == 1 && n[0] == Text.Normalize(text);
    assert n == [Text.Normalize(text)];
    assert GenerateChunks(text, chunkSize, overlap, cfg) == Success(n);
  }
}
