/** The recursive text chunker of `generate_chunks_from_file`
    (src/rag_system.py): the nested `split_text`, the overlap pass and the
    per-chunk whitespace clean-up. */
module Chunker {

  import opened Results
  import Text
  import PyStr
  import Seqs

  /** Why `split_text` raises `ValueError`: `str.split("")` (an empty
      separator), or `range(0, n, 0)` (a zero chunk size once no separator is
      left). */
  datatype ChunkError = EmptySeparator | ZeroStep

  /** The separator preference list, tried in order. */
  const Separators: seq<string> := ["\n\n", "\n", ". ", " ", ""]

  /** The chunk size and overlap that `Config` supplies when the caller passes none. */
  datatype Config = Config(chunkSize: int, overlap: int)

  /** `Config.DEFAULT_CHUNK_SIZE` and `Config.DEFAULT_OVERLAP` when the
      environment sets neither. */
  const Defaults := Config(1000, 200)

  function Max(a: int, b: int): int {
    if a < b then b else a
  }

  predicate EndsWith(s: string, suffix: string) {
    |suffix| <= |s| && s[|s| - |suffix|..] == suffix
  }

  lemma EndsWithAppend(s: string, suffix: string)
    ensures EndsWith(s + suffix, suffix)
  {
    assert (s + suffix)[|s|..] == suffix;
  }

  /** All of `chunks` are at most `n` long. */
  predicate AllWithin(chunks: seq<string>, n: int) {
    forall c :: c in chunks ==> |c| <= n
  }

  /** How far a flushed buffer ending in `sep` can run past the chunk size once
      stripped: the separator's length, less one when its last character is
      whitespace (strip removes it). */
  function Slack(sep: string): nat {
    if |sep| > 0 && Text.IsSpace(sep[|sep| - 1]) then |sep| - 1 else |sep|
  }

  function MaxSlack(seps: seq<string>): nat {
    if |seps| == 0 then 0 else Max(Slack(seps[0]), MaxSlack(seps[1..]))
  }

  /** The errors a call of `split_text` with separators `seps` can raise: an
      empty separator only when one is in the list, and the zero-step `range`
      only when the chunk size is zero and no empty separator stops the
      descent first. */
  predicate Raisable(e: ChunkError, seps: seq<string>, size: int) {
    match e
    case EmptySeparator => "" in seps
    case ZeroStep => size == 0 && "" !in seps
  }

  /** `[text[i:i+size] for i in range(0, len(text), size)]` for a positive size. */
  function Slices(text: string, size: int): (r: seq<string>)
    requires size > 0
    decreases |text|
    ensures Seqs.Flatten(r) == text
    ensures forall i :: 0 <= i < |r| - 1 ==> |r[i]| == size
    ensures |r| > 0 ==> 0 < |r[|r| - 1]| <= size
  {
    if |text| == 0 then []
    else if |text| <= size then
      assert Seqs.Flatten([text]) == text + Seqs.Flatten([]);
      [text]
    else
      var rest := Slices(text[size..], size);
      assert ([text[..size]] + rest)[1..] == rest;
      assert text == text[..size] + text[size..];
      [text[..size]] + rest
  }

  /** The fallback of `split_text` once no separator is left: `range` with a
      zero step raises, a negative step gives no slices. */
  function FixedWidth(text: string, size: int): (r: Result<seq<string>, ChunkError>)
    ensures r.Failure? <==> size == 0
    ensures r.Failure? ==> r.error == ZeroStep
    ensures size < 0 ==> r == Success([])
    ensures size > 0 ==> r.Success? && Seqs.Flatten(r.value) == text
    ensures size > 0 ==> forall i :: 0 <= i < |r.value| ==> 0 < |r.value[i]| <= size
  {
    if size == 0 then Failure(ZeroStep)
    else if size < 0 then Success([])
    else Success(Slices(text, size))
  }

  /** `split_text(text, seps)` with `chunk_size = size`. */
  function SplitText(text: string, seps: seq<string>, size: int): (r: Result<seq<string>, ChunkError>)
    decreases |seps|, 1, 0
    ensures r.Failure? ==> Raisable(r.error, seps, size)
  {
    if |text| <= size then Success([text])
    else if |seps| == 0 then FixedWidth(text, size)
    else if seps[0] == "" then Failure(EmptySeparator)
    else
      assert seps == [seps[0]] + seps[1..];
      ProcessPieces(PyStr.Split(text, seps[0]), seps[0], seps[1..], size, "")
  }

  /** The loop of `split_text` over the pieces still to visit, with `buf` the
      running `current_chunk`: a piece longer than the chunk size goes to the
      recursive call and never enters the buffer; a piece joins the buffer
      (followed by the separator) only while the buffer stays within the chunk
      size; otherwise the stripped buffer is emitted, even when it is empty,
      and the piece starts a new one. A non-empty buffer left at the end is
      emitted stripped. */
  function ProcessPieces(pieces: seq<string>, sep: string, rest: seq<string>, size: int, buf: string)
    : (r: Result<seq<string>, ChunkError>)
    decreases |rest| + 1, 0, |pieces|
    ensures r.Failure? ==> Raisable(r.error, rest, size)
  {
    if |pieces| == 0 then
      if buf != "" then Success([Text.Strip(buf)]) else Success([])
    else
      var s := pieces[0];
      if |s| > size then
        var sub :- SplitText(s, rest, size);
        var tail :- ProcessPieces(pieces[1..], sep, rest, size, buf);
        Success(sub + tail)
      else if |buf| + |s| + |sep| <= size then
        ProcessPieces(pieces[1..], sep, rest, size, buf + s + sep)
      else
        var tail :- ProcessPieces(pieces[1..], sep, rest, size, s + sep);
        Success([Text.Strip(buf)] + tail)
  }

  /** Every chunk of `split_text` is within the chunk size plus the largest
      slack of the separators it was given. */
  lemma {:induction false} SplitTextWithin(text: string, seps: seq<string>, size: int)
    ensures var r := SplitText(text, seps, size);
      r.Success? ==> AllWithin(r.value, size + MaxSlack(seps))
    decreases |seps|, 1, 0
  {
    if |text| <= size {
    } else if |seps| == 0 {
      if size > 0 {
        var r := Slices(text, size);
        forall c | c in r
          ensures |c| <= size
        {
          var i :| 0 <= i < |r| && r[i] == c;
        }
      }
    } else if seps[0] != "" {
      assert seps == [seps[0]] + seps[1..];
      ProcessPiecesWithin(PyStr.Split(text, seps[0]), seps[0], seps[1..], size, "");
    }
  }

  /** The buffer never exceeds the chunk size plus one separator and always
      ends with the separator, so every emitted chunk is within the chunk size
      plus the separator's slack, or within the bound of the recursive call. */
  lemma {:induction false} ProcessPiecesWithin(pieces: seq<string>, sep: string, rest: seq<string>, size: int, buf: string)
    requires sep != ""
    requires buf == "" || (|buf| <= size + |sep| && EndsWith(buf, sep))
    ensures var r := ProcessPieces(pieces, sep, rest, size, buf);
      r.Success? ==> AllWithin(r.value, size + Max(Slack(sep), MaxSlack(rest)))
    decreases |rest| + 1, 0, |pieces|
  {
    var r := ProcessPieces(pieces, sep, rest, size, buf);
    var bound := size + Max(Slack(sep), MaxSlack(rest));
    if |pieces| == 0 {
      if buf != "" {
        FlushBound(buf, sep, size);
      }
    } else {
      var s := pieces[0];
      if |s| > size {
        var sub := SplitText(s, rest, size);
        var tail := ProcessPieces(pieces[1..], sep, rest, size, buf);
        SplitTextWithin(s, rest, size);
        ProcessPiecesWithin(pieces[1..], sep, rest, size, buf);
        if r.Success? {
          assert sub.Success? && tail.Success? && r.value == sub.value + tail.value;
          WithinJoin(sub.value, tail.value, size + MaxSlack(rest), bound);
        }
      } else if |buf| + |s| + |sep| <= size {
        EndsWithAppend(buf + s, sep);
        ProcessPiecesWithin(pieces[1..], sep, rest, size, buf + s + sep);
      } else {
        EndsWithAppend(s, sep);
        var tail := ProcessPieces(pieces[1..], sep, rest, size, s + sep);
        ProcessPiecesWithin(pieces[1..], sep, rest, size, s + sep);
        if r.Success? {
          assert tail.Success? && r.value == [Text.Strip(buf)] + tail.value;
          FlushBound(buf, sep, size);
          WithinJoin([Text.Strip(buf)], tail.value, size + Slack(sep), bound);
        }
      }
    }
  }

  /** Chunks within a smaller bound followed by chunks within a larger one are
      all within the larger. */
  lemma WithinJoin(a: seq<string>, b: seq<string>, m: int, n: int)
    requires AllWithin(a, m) && m <= n && AllWithin(b, n)
    ensures AllWithin(a + b, n)
  {
  }

  /** A flushed buffer, once stripped, stays within the chunk size plus the
      separator's slack. */
  lemma FlushBound(buf: string, sep: string, size: int)
    requires sep != ""
    requires buf == "" || (|buf| <= size + |sep| && EndsWith(buf, sep))
    requires buf != "" || size >= 0
    ensures |Text.Strip(buf)| <= size + Slack(sep)
  {
    if buf != "" {
      assert buf[|buf| - 1] == buf[|buf| - |sep|..][|sep| - 1];
    }
  }

  /** Python's `s[-k:]` for `k > 0`: the whole string when it is shorter than `k`. */
  function PyTail(s: string, k: int): (r: string)
    requires k > 0
    ensures |r| == if k < |s| then k else |s|
    ensures r == s[|s| - |r|..]
  {
    if k >= |s| then s else s[|s| - k..]
  }

  /** Chunk `i` of `r` is the last `k` characters of chunk `i - 1` of `r`
      followed by chunk `i` of `chunks`. */
  predicate OverlapStep(r: seq<string>, chunks: seq<string>, k: int, i: int) {
    k > 0 && 0 < i < |r| && i < |chunks| && r[i] == PyTail(r[i - 1], k) + chunks[i]
  }

  /** The overlap pass over the initial chunks: the first chunk is kept, and
      every later chunk is prefixed with the last `k` characters of the chunk
      emitted just before it (already overlapped itself). */
  function ApplyOverlap(chunks: seq<string>, k: int): (r: seq<string>)
    requires k > 0
    decreases |chunks|
    ensures |r| == |chunks|
    ensures |chunks| > 0 ==> r[0] == chunks[0]
    ensures forall i :: 0 < i < |r| ==> OverlapStep(r, chunks, k, i)
    ensures forall i :: 0 <= i < |r| ==> |r[i]| <= k + |chunks[i]|
  {
    if |chunks| <= 1 then chunks
    else
      var init := chunks[..|chunks| - 1];
      var p := ApplyOverlap(init, k);
      var r := p + [PyTail(p[|p| - 1], k) + chunks[|chunks| - 1]];
      OverlapExtend(chunks, init, k, p, r);
      r
  }

  lemma OverlapExtend(chunks: seq<string>, init: seq<string>, k: int, p: seq<string>, r: seq<string>)
    requires k > 0 && |chunks| >= 2 && init == chunks[..|chunks| - 1] && |p| == |init|
    requires forall i :: 0 < i < |p| ==> OverlapStep(p, init, k, i)
    requires forall i :: 0 <= i < |p| ==> |p[i]| <= k + |chunks[i]|
    requires r == p + [PyTail(p[|p| - 1], k) + chunks[|chunks| - 1]]
    ensures forall i :: 0 < i < |r| ==> OverlapStep(r, chunks, k, i)
    ensures forall i :: 0 <= i < |r| ==> |r[i]| <= k + |chunks[i]|
  {
    forall i | 0 < i < |r|
      ensures OverlapStep(r, chunks, k, i)
    {
      if i < |p| {
        assert OverlapStep(p, init, k, i);
        assert r[i] == p[i] && r[i - 1] == p[i - 1];
      }
    }
    forall i | 0 <= i < |r|
      ensures |r[i]| <= k + |chunks[i]|
    {
      if i < |p| {
        assert r[i] == p[i];
      }
    }
  }

  /** The overlap pass is characterised by its recurrence: any sequence with
      the same first chunk and the same step is the pass's output. */
  lemma OverlapUnique(chunks: seq<string>, k: int, r: seq<string>)
    requires k > 0
    requires |r| == |chunks|
    requires |chunks| > 0 ==> r[0] == chunks[0]
    requires forall i :: 0 < i < |r| ==> OverlapStep(r, chunks, k, i)
    ensures r == ApplyOverlap(chunks, k)
  {
    var o := ApplyOverlap(chunks, k);
    forall n | 0 <= n < |r|
      ensures r[n] == o[n]
    {
      RecurrenceAgrees(chunks, k, r, o, n);
    }
  }

  /** Two sequences that start alike and follow the overlap step agree everywhere. */
  lemma {:induction false} RecurrenceAgrees(chunks: seq<string>, k: int, r: seq<string>, o: seq<string>, n: nat)
    requires |r| == |chunks| && |o| == |chunks| && n < |r|
    requires r[0] == o[0]
    requires forall i :: 0 < i < |r| ==> OverlapStep(r, chunks, k, i)
    requires forall i :: 0 < i < |o| ==> OverlapStep(o, chunks, k, i)
    ensures r[n] == o[n]
    decreases n
  {
    if n > 0 {
      RecurrenceAgrees(chunks, k, r, o, n - 1);
      assert OverlapStep(o, chunks, k, n);
      assert OverlapStep(r, chunks, k, n);
    }
  }

  /** `x or default` on an optional integer argument: an absent argument and
      zero both select the default. */
  function OrDefault(arg: Option<int>, default: int): (r: int)
    ensures r != 0 ==> (arg == Some(r) || r == default)
    ensures arg.Some? && arg.value != 0 ==> r == arg.value
    ensures arg.None? || arg.value == 0 ==> r == default
  {
    match arg
    case Some(v) => if v != 0 then v else default
    case None => default
  }

  /** The overlap step of `generate_chunks_from_file`: applied only with a
      positive overlap and at least two chunks. */
  function Overlapped(initial: seq<string>, ov: int): (r: seq<string>)
    ensures |r| == |initial|
    ensures |initial| > 0 ==> r[0] == initial[0]
    ensures ov <= 0 || |initial| <= 1 ==> r == initial
    ensures ov > 0 ==> forall i :: 0 < i < |r| ==> OverlapStep(r, initial, ov, i)
    ensures forall i :: 0 <= i < |r| ==> |r[i]| <= Max(ov, 0) + |initial[i]|
  {
    if ov > 0 && |initial| > 1 then ApplyOverlap(initial, ov) else initial
  }

  /** The clean-up applied to every yielded chunk. */
  function NormalizeAll(chunks: seq<string>): (r: seq<string>)
    ensures |r| == |chunks|
    ensures forall i :: 0 <= i < |r| ==> Text.Normal(r[i]) && |r[i]| <= |chunks[i]|
  {
    seq(|chunks|, i requires 0 <= i < |chunks| => Text.Normalize(chunks[i]))
  }

  /** The clean-up loses no non-whitespace character of any chunk. */
  lemma NormalizeAllKeepsContent(chunks: seq<string>)
    ensures forall i :: 0 <= i < |chunks| ==>
      Text.NonSpace(NormalizeAll(chunks)[i]) == Text.NonSpace(chunks[i])
  {
    forall i | 0 <= i < |chunks|
      ensures Text.NonSpace(NormalizeAll(chunks)[i]) == Text.NonSpace(chunks[i])
    {
      Text.NormalizeKeepsContent(chunks[i]);
    }
  }

  /** With the default separators a stripped buffer overshoots by at most one. */
  lemma SeparatorsSlack()
    ensures MaxSlack(Separators) == 1
  {
    Text.SeparatorCharacters();
  }

  lemma WithinAfterOverlap(initial: seq<string>, chunks: seq<string>, ov: int, n: int)
    requires AllWithin(initial, n)
    requires |chunks| == |initial|
    requires forall i :: 0 <= i < |chunks| ==> |chunks[i]| <= Max(ov, 0) + |initial[i]|
    ensures forall i :: 0 <= i < |chunks| ==> |chunks[i]| <= n + Max(ov, 0)
  {
    forall i | 0 <= i < |chunks|
      ensures |chunks[i]| <= n + Max(ov, 0)
    {
      assert initial[i] in initial;
    }
  }

  /** The chunks `generate_chunks_from_file` yields for the file's `text`. */
  function GenerateChunks(text: string, chunkSize: Option<int>, overlap: Option<int>, cfg: Config)
    : (r: Result<seq<string>, ChunkError>)
    ensures
      var initial := SplitText(text, Separators, OrDefault(chunkSize, cfg.chunkSize));
      && (r.Failure? <==> initial.Failure?)
      && (r.Failure? ==> r.error == EmptySeparator)
      && (r.Success? ==> |r.value| == |initial.value|)
    ensures r.Success? ==> forall i :: 0 <= i < |r.value| ==> Text.Normal(r.value[i])
  {
    var size := OrDefault(chunkSize, cfg.chunkSize);
    var ov := OrDefault(overlap, cfg.overlap);
    var initial :- SplitText(text, Separators, size);
    Success(NormalizeAll(Overlapped(initial, ov)))
  }

  /** Every yielded chunk is at most the chunk size plus one plus the overlap. */
  lemma GenerateChunksBound(text: string, chunkSize: Option<int>, overlap: Option<int>, cfg: Config)
    ensures
      var r := GenerateChunks(text, chunkSize, overlap, cfg);
      var size := OrDefault(chunkSize, cfg.chunkSize);
      var ov := OrDefault(overlap, cfg.overlap);
      r.Success? ==> forall i :: 0 <= i < |r.value| ==> |r.value[i]| <= size + 1 + Max(ov, 0)
  {
    var size := OrDefault(chunkSize, cfg.chunkSize);
    var ov := OrDefault(overlap, cfg.overlap);
    var initial := SplitText(text, Separators, size);
    if initial.Success? {
      SplitTextWithin(text, Separators, size);
      SeparatorsSlack();
      var chunks := Overlapped(initial.value, ov);
      WithinAfterOverlap(initial.value, chunks, ov, size + 1);
    }
  }

  /** With the default configuration and no arguments, no chunk is longer
      than 1201 characters: the chunk size, one character of separator slack
      and the 200-character overlap. */
  lemma DefaultChunksBound(text: string)
    ensures var r := GenerateChunks(text, None, None, Defaults);
      r.Success? ==> forall i :: 0 <= i < |r.value| ==> |r.value[i]| <= 1201
  {
    GenerateChunksBound(text, None, None, Defaults);
  }
}
