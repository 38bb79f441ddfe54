/** Batch ingestion of `add_document` and `_process_batch`
    (src/rag_system.py): the yielded chunks are handed on in batches of ten,
    every chunk keeps its position in the stream as its index and in its id,
    and only the chunks the embedder could embed are stored. */
module Ingest {

  import opened Results
  import Seqs
  import Digits
  import Chunker

  /** The embedding service: a chunk's vector, or the empty list when the
      request failed. */
  type Embedder = string -> seq<real>

  const BatchSize: nat := 10

  /** The metadata dictionary stored with every chunk. */
  datatype Metadata = Metadata(documentId: string, chunkIndex: nat, chunkSize: nat, sourceFile: string)

  /** One entry of a `collection.add` call: the four keyword lists of the call
      are the projections of its records. */
  datatype Record = Record(id: string, embedding: seq<real>, document: string, metadata: Metadata)

  /** One call of `_process_batch`: the chunks and the `start_index` passed. */
  datatype Batch = Batch(chunks: seq<string>, start: nat)

  const ChunkMarker := "_chunk_"

  /** `f"{document_id}_chunk_{j}"`. */
  function ChunkId(docId: string, j: nat): (id: string)
    ensures |id| > |docId| + |ChunkMarker|
    ensures id[..|docId|] == docId
    ensures id[|docId|..|docId| + |ChunkMarker|] == ChunkMarker
    ensures Digits.AllDigits(id[|docId| + |ChunkMarker|..])
    ensures Digits.ParseDecimal(id[|docId| + |ChunkMarker|..]) == j
  {
    var id := docId + ChunkMarker + Digits.Decimal(j);
    assert id[|docId| + |ChunkMarker|..] == Digits.Decimal(j);
    Digits.ParseDecimalRoundTrip(j);
    id
  }

  /** The number after the last marker is all digits, so it cannot reach into
      the marker of an id with a shorter number. */
  lemma SuffixDigitsLength(a: string, x: string, b: string, y: string)
    requires a + ChunkMarker + x == b + ChunkMarker + y
    requires Digits.AllDigits(x) && Digits.AllDigits(y)
    ensures |x| <= |y|
  {
    var id := a + ChunkMarker + x;
    var p := |id| - |y| - 1;
    assert (b + ChunkMarker + y)[p] == '_';
    forall i | |id| - |x| <= i < |id|
      ensures Digits.IsDigit(id[i])
    {
      assert id[i] == x[i - (|id| - |x|)];
    }
  }

  /** Chunk ids determine the document and the chunk index: no two chunks of
      any documents share an id. */
  lemma ChunkIdInjective(d1: string, n1: nat, d2: string, n2: nat)
    ensures ChunkId(d1, n1) == ChunkId(d2, n2) ==> d1 == d2 && n1 == n2
  {
    if ChunkId(d1, n1) == ChunkId(d2, n2) {
      var id := ChunkId(d1, n1);
      var x, y := Digits.Decimal(n1), Digits.Decimal(n2);
      SuffixDigitsLength(d1, x, d2, y);
      SuffixDigitsLength(d2, y, d1, x);
      assert x == id[|id| - |x|..] && y == id[|id| - |y|..];
      Digits.DecimalInjective(n1, n2);
      assert d1 == id[..|d1|] && d2 == id[..|d2|];
    }
  }

  /** `id` is the chunk id of chunk `j` of document `docId` and of no other. */
  ghost predicate IdNames(id: string, docId: string, j: nat) {
    forall d, n :: ChunkId(d, n) == id <==> d == docId && n == j
  }

  /** The record `_process_batch` builds for `chunk` at stream position `j`. */
  function RecordFor(chunk: string, docId: string, j: nat, sourceFile: string, e: seq<real>): (r: Record)
    ensures r.document == chunk && r.embedding == e
    ensures r.metadata.documentId == docId && r.metadata.sourceFile == sourceFile
    ensures r.metadata.chunkIndex == j && r.metadata.chunkSize == |r.document|
    ensures IdNames(r.id, docId, j)
  {
    forall d, n | ChunkId(d, n) == ChunkId(docId, j)
      ensures d == docId && n == j
    {
      ChunkIdInjective(d, n, docId, j);
    }
    Record(ChunkId(docId, j), e, chunk, Metadata(docId, j, |chunk|, sourceFile))
  }

  /** `rec` is what is stored for the chunk of `batch` its index names: that
      chunk was embedded, and the record carries the chunk, its embedding,
      its id, its index, its length and the source file. */
  predicate StoredAt(rec: Record, batch: seq<string>, start: nat, docId: string, sourceFile: string, embed: Embedder) {
    var j := rec.metadata.chunkIndex;
    && start <= j < start + |batch|
    && |embed(batch[j - start])| > 0
    && rec == RecordFor(batch[j - start], docId, j, sourceFile, embed(batch[j - start]))
  }

  predicate AllStoredAt(r: seq<Record>, batch: seq<string>, start: nat, docId: string, sourceFile: string, embed: Embedder) {
    forall k :: 0 <= k < |r| ==> StoredAt(r[k], batch, start, docId, sourceFile, embed)
  }

  /** Chunk indices strictly increase along `r`. */
  predicate IndexOrdered(r: seq<Record>) {
    forall k, l :: 0 <= k < l < |r| ==> r[k].metadata.chunkIndex < r[l].metadata.chunkIndex
  }

  /** The records of `_process_batch(batch, docId, start, sourceFile)`: one per
      chunk with a non-empty embedding, in batch order. */
  function BatchRecords(batch: seq<string>, docId: string, start: nat, sourceFile: string, embed: Embedder)
    : (r: seq<Record>)
    decreases |batch|
    ensures |r| <= |batch|
  {
    if |batch| == 0 then []
    else BatchHead(batch, docId, start, sourceFile, embed) + BatchRecords(batch[1..], docId, start + 1, sourceFile, embed)
  }

  /** The record of the first chunk of a batch, if it was embedded. */
  function BatchHead(batch: seq<string>, docId: string, start: nat, sourceFile: string, embed: Embedder)
    : (r: seq<Record>)
    requires |batch| > 0
    ensures |r| <= 1
  {
    var e := embed(batch[0]);
    if |e| > 0 then [RecordFor(batch[0], docId, start, sourceFile, e)] else []
  }

  /** The first chunk's record, when there is one, is stored at the batch's
      start index. */
  lemma BatchHeadStored(batch: seq<string>, docId: string, start: nat, sourceFile: string, embed: Embedder)
    requires |batch| > 0
    ensures var r := BatchHead(batch, docId, start, sourceFile, embed);
      && (|embed(batch[0])| > 0 ==> HasIndex(r, start))
      && AllStoredAt(r, batch, start, docId, sourceFile, embed)
      && (forall k :: 0 <= k < |r| ==> r[k].metadata.chunkIndex == start)
  {
    var r := BatchHead(batch, docId, start, sourceFile, embed);
    if |r| > 0 {
      assert r[0].metadata.chunkIndex == start;
    }
  }

  /** Every stored record is the record of an embedded chunk of the batch,
      and the records follow the batch order. */
  lemma {:induction false} BatchRecordsSound(batch: seq<string>, docId: string, start: nat, sourceFile: string,
                                             embed: Embedder)
    ensures AllStoredAt(BatchRecords(batch, docId, start, sourceFile, embed), batch, start, docId, sourceFile, embed)
    ensures IndexOrdered(BatchRecords(batch, docId, start, sourceFile, embed))
    decreases |batch|
  {
    if |batch| > 0 {
      var r := BatchRecords(batch, docId, start, sourceFile, embed);
      var head := BatchHead(batch, docId, start, sourceFile, embed);
      var tail := BatchRecords(batch[1..], docId, start + 1, sourceFile, embed);
      assert r == head + tail;
      BatchHeadStored(batch, docId, start, sourceFile, embed);
      BatchRecordsSound(batch[1..], docId, start + 1, sourceFile, embed);
      StoredShift(tail, batch, start, docId, sourceFile, embed);
      ConcatStored(head, tail, batch, start, docId, sourceFile, embed);
      ConcatOrdered(head, tail, start);
    }
  }

  lemma ConcatStored(head: seq<Record>, tail: seq<Record>, batch: seq<string>, start: nat, docId: string,
                     sourceFile: string, embed: Embedder)
    requires AllStoredAt(head, batch, start, docId, sourceFile, embed)
    requires AllStoredAt(tail, batch, start, docId, sourceFile, embed)
    ensures AllStoredAt(head + tail, batch, start, docId, sourceFile, embed)
  {
    var r := head + tail;
    forall k | 0 <= k < |r|
      ensures StoredAt(r[k], batch, start, docId, sourceFile, embed)
    {
      if k < |head| {
        assert r[k] == head[k];
      } else {
        assert r[k] == tail[k - |head|];
      }
    }
  }

  /** Records at index `start` followed by ordered records past `start` are
      ordered. */
  lemma ConcatOrdered(head: seq<Record>, tail: seq<Record>, start: nat)
    requires |head| <= 1 && forall k :: 0 <= k < |head| ==> head[k].metadata.chunkIndex == start
    requires IndexOrdered(tail) && forall k :: 0 <= k < |tail| ==> start < tail[k].metadata.chunkIndex
    ensures IndexOrdered(head + tail)
  {
    var r := head + tail;
    forall k, l | 0 <= k < l < |r|
      ensures r[k].metadata.chunkIndex < r[l].metadata.chunkIndex
    {
      assert r[l] == tail[l - |head|];
      if k < |head| {
        assert r[k] == head[k];
      } else {
        assert r[k] == tail[k - |head|];
      }
    }
  }

  /** The records of the rest of a batch are records of the whole batch,
      each after its first chunk. */
  lemma StoredShift(tail: seq<Record>, batch: seq<string>, start: nat, docId: string, sourceFile: string, embed: Embedder)
    requires |batch| > 0
    requires AllStoredAt(tail, batch[1..], start + 1, docId, sourceFile, embed)
    ensures AllStoredAt(tail, batch, start, docId, sourceFile, embed)
    ensures forall k :: 0 <= k < |tail| ==> start < tail[k].metadata.chunkIndex
  {
    forall k | 0 <= k < |tail|
      ensures StoredAt(tail[k], batch, start, docId, sourceFile, embed)
      ensures start < tail[k].metadata.chunkIndex
    {
      var j := tail[k].metadata.chunkIndex;
      assert StoredAt(tail[k], batch[1..], start + 1, docId, sourceFile, embed);
      assert batch[1..][j - start - 1] == batch[j - start];
    }
  }

  /** Some record of `r` has chunk index `j`. */
  predicate HasIndex(r: seq<Record>, j: nat) {
    exists k :: 0 <= k < |r| && r[k].metadata.chunkIndex == j
  }

  /** Every chunk with a non-empty embedding is stored. */
  lemma {:induction false} BatchRecordsComplete(batch: seq<string>, docId: string, start: nat, sourceFile: string,
                                                embed: Embedder, i: nat)
    requires i < |batch| && |embed(batch[i])| > 0
    ensures HasIndex(BatchRecords(batch, docId, start, sourceFile, embed), start + i)
    decreases i
  {
    var head := BatchHead(batch, docId, start, sourceFile, embed);
    var tail := BatchRecords(batch[1..], docId, start + 1, sourceFile, embed);
    assert BatchRecords(batch, docId, start, sourceFile, embed) == head + tail;
    BatchHeadStored(batch, docId, start, sourceFile, embed);
    if i == 0 {
      HasIndexAppend(head, tail, start);
    } else {
      assert batch[1..][i - 1] == batch[i];
      BatchRecordsComplete(batch[1..], docId, start + 1, sourceFile, embed, i - 1);
      HasIndexAppend(head, tail, start + i);
    }
  }

  lemma HasIndexAppend(a: seq<Record>, b: seq<Record>, j: nat)
    requires HasIndex(a, j) || HasIndex(b, j)
    ensures HasIndex(a + b, j)
  {
    if HasIndex(a, j) {
      var k :| 0 <= k < |a| && a[k].metadata.chunkIndex == j;
      assert (a + b)[k] == a[k];
    } else {
      var k :| 0 <= k < |b| && b[k].metadata.chunkIndex == j;
      assert (a + b)[|a| + k] == b[k];
    }
  }

  /** A batch loses records exactly when some chunk's embedding is empty. */
  lemma {:induction false} BatchRecordsAllKept(batch: seq<string>, docId: string, start: nat, sourceFile: string,
                                               embed: Embedder)
    ensures |BatchRecords(batch, docId, start, sourceFile, embed)| == |batch|
        <==> forall i :: 0 <= i < |batch| ==> |embed(batch[i])| > 0
    decreases |batch|
  {
    if |batch| > 0 {
      BatchRecordsAllKept(batch[1..], docId, start + 1, sourceFile, embed);
      assert forall i :: 1 <= i < |batch| ==> batch[i] == batch[1..][i - 1];
    }
  }

  /** Nothing is stored exactly when every chunk's embedding is empty. */
  lemma BatchRecordsNoneKept(batch: seq<string>, docId: string, start: nat, sourceFile: string, embed: Embedder)
    ensures |BatchRecords(batch, docId, start, sourceFile, embed)| == 0
        <==> forall i :: 0 <= i < |batch| ==> |embed(batch[i])| == 0
  {
    var r := BatchRecords(batch, docId, start, sourceFile, embed);
    forall i | 0 <= i < |batch| && |embed(batch[i])| > 0
      ensures |r| > 0
    {
      BatchRecordsComplete(batch, docId, start, sourceFile, embed, i);
    }
  }

  /** Cutting the stream into batches does not change what is stored, as long
      as every batch starts at its position in the stream. */
  lemma {:induction false} BatchRecordsAppend(a: seq<string>, b: seq<string>, docId: string, start: nat,
                                              sourceFile: string, embed: Embedder)
    ensures BatchRecords(a + b, docId, start, sourceFile, embed)
         == BatchRecords(a, docId, start, sourceFile, embed) + BatchRecords(b, docId, start + |a|, sourceFile, embed)
    decreases |a|
  {
    if |a| == 0 {
      assert a + b == b;
      assert BatchRecords(a, docId, start, sourceFile, embed) == [];
    } else {
      BatchRecordsAppend(a[1..], b, docId, start + 1, sourceFile, embed);
      BatchRecordsAppendStep(a, b, docId, start, sourceFile, embed);
    }
  }

  lemma BatchRecordsAppendStep(a: seq<string>, b: seq<string>, docId: string, start: nat, sourceFile: string, embed: Embedder)
    requires |a| > 0
    requires BatchRecords(a[1..] + b, docId, start + 1, sourceFile, embed)
          == BatchRecords(a[1..], docId, start + 1, sourceFile, embed) + BatchRecords(b, docId, start + |a|, sourceFile, embed)
    ensures BatchRecords(a + b, docId, start, sourceFile, embed)
         == BatchRecords(a, docId, start, sourceFile, embed) + BatchRecords(b, docId, start + |a|, sourceFile, embed)
  {
    var h := BatchHead(a, docId, start, sourceFile, embed);
    var x := BatchRecords(a[1..], docId, start + 1, sourceFile, embed);
    var y := BatchRecords(b, docId, start + |a|, sourceFile, embed);
    PrependedHead(a, b, docId, start, sourceFile, embed);
    HeadThenRest(a, docId, start, sourceFile, embed);
    Seqs.Regroup(h, x, y);
  }

  lemma HeadThenRest(a: seq<string>, docId: string, start: nat, sourceFile: string, embed: Embedder)
    requires |a| > 0
    ensures BatchRecords(a, docId, start, sourceFile, embed)
         == BatchHead(a, docId, start, sourceFile, embed) + BatchRecords(a[1..], docId, start + 1, sourceFile, embed)
  {
  }

  /** A batch extended at its end keeps its first record and the rest. */
  lemma PrependedHead(a: seq<string>, b: seq<string>, docId: string, start: nat, sourceFile: string, embed: Embedder)
    requires |a| > 0
    ensures BatchRecords(a + b, docId, start, sourceFile, embed)
         == BatchHead(a, docId, start, sourceFile, embed) + BatchRecords(a[1..] + b, docId, start + 1, sourceFile, embed)
  {
    var ab := a + b;
    assert ab[0] == a[0];
    assert ab[1..] == a[1..] + b;
    assert BatchHead(ab, docId, start, sourceFile, embed) == BatchHead(a, docId, start, sourceFile, embed);
  }

  /** The records of one document have pairwise distinct ids. */
  lemma StoredIdsDistinct(chunks: seq<string>, docId: string, sourceFile: string, embed: Embedder)
    ensures var r := BatchRecords(chunks, docId, 0, sourceFile, embed);
      forall k, l :: 0 <= k < l < |r| ==> r[k].id != r[l].id
  {
    var r := BatchRecords(chunks, docId, 0, sourceFile, embed);
    BatchRecordsSound(chunks, docId, 0, sourceFile, embed);
    forall k, l | 0 <= k < l < |r|
      ensures r[k].id != r[l].id
    {
      var jk, jl := r[k].metadata.chunkIndex, r[l].metadata.chunkIndex;
      assert StoredAt(r[k], chunks, 0, docId, sourceFile, embed) && StoredAt(r[l], chunks, 0, docId, sourceFile, embed);
      assert r[k].id == ChunkId(docId, jk) && r[l].id == ChunkId(docId, jl);
      ChunkIdInjective(docId, jk, docId, jl);
    }
  }

  /** `_process_batch`: the records of its `collection.add` call, or `None`
      when every embedding failed and no call is made. */
  function ProcessBatch(batch: seq<string>, docId: string, start: nat, sourceFile: string, embed: Embedder)
    : (r: Option<seq<Record>>)
    ensures r.None? <==> forall i :: 0 <= i < |batch| ==> |embed(batch[i])| == 0
    ensures r.Some? ==> 0 < |r.value| <= |batch|
    ensures r.Some? ==> forall k :: 0 <= k < |r.value| ==> StoredAt(r.value[k], batch, start, docId, sourceFile, embed)
  {
    var records := BatchRecords(batch, docId, start, sourceFile, embed);
    BatchRecordsNoneKept(batch, docId, start, sourceFile, embed);
    BatchRecordsSound(batch, docId, start, sourceFile, embed);
    if |records| > 0 then Some(records) else None
  }

  /** The chunks of each batch, in order. */
  function ChunksOf(batches: seq<Batch>): (r: seq<seq<string>>)
    ensures |r| == |batches|
    ensures forall b :: 0 <= b < |r| ==> r[b] == batches[b].chunks
  {
    seq(|batches|, b requires 0 <= b < |batches| => batches[b].chunks)
  }

  /** The `collection.add` calls made so far, as lists of records. */
  function Stored(calls: seq<seq<Record>>): seq<Record> {
    Seqs.Flatten(calls)
  }

  /** The `collection.add` call a `_process_batch` result makes: none, or one. */
  function Emitted(call: Option<seq<Record>>): (r: seq<seq<Record>>)
    ensures Seqs.Flatten(r) == if call.Some? then call.value else []
  {
    if call.Some? then
      assert Seqs.Flatten([call.value]) == call.value + Seqs.Flatten([]);
      [call.value]
    else []
  }

  /** The `add` calls that `_process_batch` makes on each of `batches`, in
      batch order: exactly one for each batch with an embedded chunk, holding
      that batch's records, and none for the others. */
  function CallsOf(batches: seq<Batch>, docId: string, sourceFile: string, embed: Embedder): seq<seq<Record>>
    decreases |batches|
  {
    if |batches| == 0 then []
    else
      var last := batches[|batches| - 1];
      CallsOf(batches[..|batches| - 1], docId, sourceFile, embed)
        + Emitted(ProcessBatch(last.chunks, docId, last.start, sourceFile, embed))
  }

  /** Handing on one more batch adds that batch's call, if any, after the
      calls of the batches before it. */
  lemma CallsOfPush(batches: seq<Batch>, b: Batch, docId: string, sourceFile: string, embed: Embedder)
    ensures CallsOf(batches + [b], docId, sourceFile, embed)
         == CallsOf(batches, docId, sourceFile, embed) + Emitted(ProcessBatch(b.chunks, docId, b.start, sourceFile, embed))
  {
    assert (batches + [b])[..|batches|] == batches;
  }

  /** Whether or not `_process_batch` calls `add`, what it stores is the
      batch's records. */
  lemma EmittedRecords(batch: seq<string>, docId: string, start: nat, sourceFile: string, embed: Embedder)
    ensures Seqs.Flatten(Emitted(ProcessBatch(batch, docId, start, sourceFile, embed)))
         == BatchRecords(batch, docId, start, sourceFile, embed)
  {
    if ProcessBatch(batch, docId, start, sourceFile, embed).None? {
      BatchRecordsNoneKept(batch, docId, start, sourceFile, embed);
    }
  }

  /** Handing the next `batch` of the stream to `_process_batch` at start
      index `total` extends the batches by it. */
  lemma BatchStep(chunks: seq<string>, total: nat, batch: seq<string>, batches: seq<Batch>)
    requires total + |batch| <= |chunks| && chunks[total..total + |batch|] == batch
    requires Seqs.Flatten(ChunksOf(batches)) == chunks[..total]
    ensures Seqs.Flatten(ChunksOf(batches + [Batch(batch, total)])) == chunks[..total + |batch|]
  {
    assert chunks[..total + |batch|] == chunks[..total] + batch;
    assert ChunksOf(batches + [Batch(batch, total)]) == ChunksOf(batches) + [batch];
    Seqs.FlattenAppend(ChunksOf(batches), [batch]);
    assert Seqs.Flatten([batch]) == batch + Seqs.Flatten([]);
  }

  /** Batch `b` starts at stream position `10 * b`. */
  predicate StartsAligned(batches: seq<Batch>) {
    forall b :: 0 <= b < |batches| ==> batches[b].start == BatchSize * b
  }

  /** Every batch but possibly the last is full, and none is empty. */
  predicate FullButLast(batches: seq<Batch>) {
    && (forall b :: 0 <= b < |batches| ==> 0 < |batches[b].chunks| <= BatchSize)
    && (forall b :: 0 <= b < |batches| - 1 ==> |batches[b].chunks| == BatchSize)
  }

  /** Every `add` call stores between one and ten records. */
  predicate CallsSized(calls: seq<seq<Record>>) {
    forall c :: c in calls ==> 0 < |c| <= BatchSize
  }

  /** Appending a batch at the next aligned start keeps the batches aligned,
      and appending one while all before it are full keeps the shape. */
  lemma PushBatch(batches: seq<Batch>, batch: seq<string>, total: nat)
    requires StartsAligned(batches) && total == BatchSize * |batches|
    requires AllFull(batches)
    requires 0 < |batch| <= BatchSize
    ensures StartsAligned(batches + [Batch(batch, total)])
    ensures FullButLast(batches + [Batch(batch, total)])
    ensures |batch| == BatchSize ==> AllFull(batches + [Batch(batch, total)])
  {
    var nb := batches + [Batch(batch, total)];
    assert forall b :: 0 <= b < |batches| ==> nb[b] == batches[b];
  }

  /** Appending a call made by `_process_batch` keeps every call between one
      and ten records. */
  lemma PushCall(calls: seq<seq<Record>>, batch: seq<string>, docId: string, start: nat, sourceFile: string,
                 embed: Embedder)
    requires CallsSized(calls) && |batch| <= BatchSize
    ensures CallsSized(calls + Emitted(ProcessBatch(batch, docId, start, sourceFile, embed)))
  {
    var call := ProcessBatch(batch, docId, start, sourceFile, embed);
    var e := Emitted(call);
    assert |e| == 0 || (call.Some? && e == [call.value] && 0 < |call.value| <= BatchSize);
  }

  /** The calls of batches of at most ten chunks each hold between one and
      ten records. */
  lemma {:induction false} CallsOfSized(batches: seq<Batch>, docId: string, sourceFile: string, embed: Embedder)
    requires forall b :: 0 <= b < |batches| ==> |batches[b].chunks| <= BatchSize
    ensures CallsSized(CallsOf(batches, docId, sourceFile, embed))
    decreases |batches|
  {
    if |batches| > 0 {
      var p, last := batches[..|batches| - 1], batches[|batches| - 1];
      assert batches == p + [last];
      CallsOfSized(p, docId, sourceFile, embed);
      CallsOfPush(p, last, docId, sourceFile, embed);
      PushCall(CallsOf(p, docId, sourceFile, embed), last.chunks, docId, last.start, sourceFile, embed);
    }
  }

  /** The chunks of full batches number ten per batch. */
  lemma {:induction false} FullLength(batches: seq<Batch>)
    requires AllFull(batches)
    ensures |Seqs.Flatten(ChunksOf(batches))| == BatchSize * |batches|
    decreases |batches|
  {
    if |batches| > 0 {
      assert ChunksOf(batches)[1..] == ChunksOf(batches[1..]);
      FullLength(batches[1..]);
    }
  }

  /** The calls of aligned batches, full but for the last, store exactly the
      records of the chunks the batches hold, in stream order. */
  lemma {:induction false} CallsOfStored(batches: seq<Batch>, docId: string, sourceFile: string, embed: Embedder)
    requires StartsAligned(batches) && FullButLast(batches)
    ensures Stored(CallsOf(batches, docId, sourceFile, embed))
         == BatchRecords(Seqs.Flatten(ChunksOf(batches)), docId, 0, sourceFile, embed)
    decreases |batches|
  {
    if |batches| > 0 {
      var p, last := batches[..|batches| - 1], batches[|batches| - 1];
      assert batches == p + [last];
      assert forall b :: 0 <= b < |p| ==> p[b] == batches[b];
      CallsOfStored(p, docId, sourceFile, embed);
      FullLength(p);
      StoredStep(p, last, docId, sourceFile, embed);
    }
  }

  /** One more batch, starting where the chunks before it end, extends what
      the calls store by that batch's records. */
  lemma StoredStep(p: seq<Batch>, last: Batch, docId: string, sourceFile: string, embed: Embedder)
    requires last.start == |Seqs.Flatten(ChunksOf(p))|
    requires Stored(CallsOf(p, docId, sourceFile, embed)) == BatchRecords(Seqs.Flatten(ChunksOf(p)), docId, 0, sourceFile, embed)
    ensures Stored(CallsOf(p + [last], docId, sourceFile, embed))
         == BatchRecords(Seqs.Flatten(ChunksOf(p + [last])), docId, 0, sourceFile, embed)
  {
    ChunksPush(p, last);
    CallsOfPush(p, last, docId, sourceFile, embed);
    StoredAppend(CallsOf(p, docId, sourceFile, embed), Seqs.Flatten(ChunksOf(p)), last.chunks, docId, sourceFile, embed);
  }

  /** One more batch extends the chunks handed on by its own chunks. */
  lemma ChunksPush(p: seq<Batch>, last: Batch)
    ensures Seqs.Flatten(ChunksOf(p + [last])) == Seqs.Flatten(ChunksOf(p)) + last.chunks
  {
    assert ChunksOf(p + [last]) == ChunksOf(p) + [last.chunks];
    Seqs.FlattenAppend(ChunksOf(p), [last.chunks]);
    assert Seqs.Flatten([last.chunks]) == last.chunks + Seqs.Flatten([]);
  }

  /** The call of a batch starting where the stored records' chunks end
      extends them by the batch's records. */
  lemma StoredAppend(calls: seq<seq<Record>>, done: seq<string>, batch: seq<string>, docId: string, sourceFile: string,
                     embed: Embedder)
    requires Seqs.Flatten(calls) == BatchRecords(done, docId, 0, sourceFile, embed)
    ensures Seqs.Flatten(calls + Emitted(ProcessBatch(batch, docId, |done|, sourceFile, embed)))
         == BatchRecords(done + batch, docId, 0, sourceFile, embed)
  {
    Seqs.FlattenAppend(calls, Emitted(ProcessBatch(batch, docId, |done|, sourceFile, embed)));
    EmittedRecords(batch, docId, |done|, sourceFile, embed);
    BatchRecordsAppend(done, batch, docId, 0, sourceFile, embed);
  }

  /** Every batch is full. */
  predicate AllFull(batches: seq<Batch>) {
    forall b :: 0 <= b < |batches| ==> |batches[b].chunks| == BatchSize
  }

  /** The state after handing on the first `total` chunks: the batches hold
      exactly those chunks, each starting at the number handed on before it,
      and the calls are those the batches' `_process_batch` made, at most one
      per batch and in batch order. */
  predicate Consistent(chunks: seq<string>, batches: seq<Batch>, calls: seq<seq<Record>>, total: nat,
                       docId: string, sourceFile: string, embed: Embedder) {
    && total <= |chunks|
    && Seqs.Flatten(ChunksOf(batches)) == chunks[..total]
    && StartsAligned(batches)
    && calls == CallsOf(batches, docId, sourceFile, embed)
  }

  /** One hand-over of `add_document`: `_process_batch(batch, doc_id,
      total_chunks, path)` followed by `total_chunks += len(batch)`. */
  method HandOn(chunks: seq<string>, batch: seq<string>, batches: seq<Batch>, calls: seq<seq<Record>>, total: nat,
                docId: string, sourceFile: string, embed: Embedder)
    returns (newBatches: seq<Batch>, newCalls: seq<seq<Record>>, newTotal: nat)
    requires total + |batch| <= |chunks| && chunks[total..total + |batch|] == batch
    requires 0 < |batch| <= BatchSize && total == BatchSize * |batches|
    requires Consistent(chunks, batches, calls, total, docId, sourceFile, embed) && AllFull(batches)
    ensures newTotal == total + |batch| && |newBatches| == |batches| + 1
    ensures Consistent(chunks, newBatches, newCalls, newTotal, docId, sourceFile, embed)
    ensures FullButLast(newBatches)
    ensures |batch| == BatchSize ==> AllFull(newBatches)
  {
    PushBatch(batches, batch, total);
    ConsistentPush(chunks, batch, batches, calls, total, docId, sourceFile, embed);
    newBatches := batches + [Batch(batch, total)];
    newCalls := calls + Emitted(ProcessBatch(batch, docId, total, sourceFile, embed));
    newTotal := total + |batch|;
  }

  /** One hand-over keeps the batches, the count and the call log in step. */
  lemma ConsistentPush(chunks: seq<string>, batch: seq<string>, batches: seq<Batch>, calls: seq<seq<Record>>,
                       total: nat, docId: string, sourceFile: string, embed: Embedder)
    requires total + |batch| <= |chunks| && chunks[total..total + |batch|] == batch
    requires Consistent(chunks, batches, calls, total, docId, sourceFile, embed)
    requires StartsAligned(batches + [Batch(batch, total)])
    ensures Consistent(chunks, batches + [Batch(batch, total)],
                       calls + Emitted(ProcessBatch(batch, docId, total, sourceFile, embed)), total + |batch|,
                       docId, sourceFile, embed)
  {
    BatchStep(chunks, total, batch, batches);
    CallsOfPush(batches, Batch(batch, total), docId, sourceFile, embed);
  }

  /** Mid-loop state after `i` chunks were yielded: the first `total` were
      handed on in full batches and the rest wait in `batch`. */
  predicate Pending(chunks: seq<string>, i: nat, batch: seq<string>, batches: seq<Batch>, calls: seq<seq<Record>>,
                    total: nat, docId: string, sourceFile: string, embed: Embedder) {
    && total + |batch| == i <= |chunks|
    && chunks[total..i] == batch
    && |batch| < BatchSize
    && total == BatchSize * |batches| && AllFull(batches)
    && Consistent(chunks, batches, calls, total, docId, sourceFile, embed)
  }

  /** One pass of the loop: `batch.append(chunk)`, and the hand-over once the
      batch holds `batch_size` chunks. */
  method Take(chunks: seq<string>, i: nat, batch: seq<string>, batches: seq<Batch>, calls: seq<seq<Record>>,
              total: nat, docId: string, sourceFile: string, embed: Embedder)
    returns (newBatch: seq<string>, newBatches: seq<Batch>, newCalls: seq<seq<Record>>, newTotal: nat)
    requires i < |chunks| && Pending(chunks, i, batch, batches, calls, total, docId, sourceFile, embed)
    ensures Pending(chunks, i + 1, newBatch, newBatches, newCalls, newTotal, docId, sourceFile, embed)
  {
    newBatch := batch + [chunks[i]];
    Seqs.SliceExtend(chunks, total, i);
    if |newBatch| >= BatchSize {
      newBatches, newCalls, newTotal := HandOn(chunks, newBatch, batches, calls, total, docId, sourceFile, embed);
      newBatch := [];
    } else {
      newBatches, newCalls, newTotal := batches, calls, total;
    }
  }

  /** The batching loop of `add_document` over the yielded chunks: a batch is
      handed on as soon as it holds ten chunks, and a final partial batch at
      the end; `total_chunks` counts every chunk handed on, stored or not. */
  method IngestChunks(chunks: seq<string>, docId: string, sourceFile: string, embed: Embedder)
    returns (batches: seq<Batch>, calls: seq<seq<Record>>, total: nat)
    ensures Seqs.Flatten(ChunksOf(batches)) == chunks
    ensures StartsAligned(batches) && FullButLast(batches)
    ensures calls == CallsOf(batches, docId, sourceFile, embed)
    ensures Stored(calls) == BatchRecords(chunks, docId, 0, sourceFile, embed)
    ensures CallsSized(calls)
    ensures total == |chunks|
  {
    batches, calls, total := [], [], 0;
    var batch: seq<string> := [];
    for i := 0 to |chunks|
      invariant Pending(chunks, i, batch, batches, calls, total, docId, sourceFile, embed)
    {
      batch, batches, calls, total := Take(chunks, i, batch, batches, calls, total, docId, sourceFile, embed);
    }
    batches, calls, total := Flush(chunks, batch, batches, calls, total, docId, sourceFile, embed);
  }

  /** The end of the loop: `if batch_chunks:` hands on the partial batch. */
  method Flush(chunks: seq<string>, batch: seq<string>, batches: seq<Batch>, calls: seq<seq<Record>>, total: nat,
               docId: string, sourceFile: string, embed: Embedder)
    returns (newBatches: seq<Batch>, newCalls: seq<seq<Record>>, newTotal: nat)
    requires Pending(chunks, |chunks|, batch, batches, calls, total, docId, sourceFile, embed)
    ensures Seqs.Flatten(ChunksOf(newBatches)) == chunks
    ensures StartsAligned(newBatches) && FullButLast(newBatches)
    ensures newCalls == CallsOf(newBatches, docId, sourceFile, embed)
    ensures Stored(newCalls) == BatchRecords(chunks, docId, 0, sourceFile, embed)
    ensures CallsSized(newCalls)
    ensures newTotal == |chunks|
    ensures |batch| == 0 <==> newBatches == batches
  {
    if |batch| > 0 {
      newBatches, newCalls, newTotal := HandOn(chunks, batch, batches, calls, total, docId, sourceFile, embed);
    } else {
      newBatches, newCalls, newTotal := batches, calls, total;
      assert FullButLast(batches);
    }
    LogComplete(chunks, newBatches, newCalls, newTotal, docId, sourceFile, embed);
  }

  /** Once every chunk is handed on, the call log stores the records of the
      whole stream, one to ten per call. */
  lemma LogComplete(chunks: seq<string>, batches: seq<Batch>, calls: seq<seq<Record>>, total: nat,
                    docId: string, sourceFile: string, embed: Embedder)
    requires total == |chunks| && FullButLast(batches)
    requires Consistent(chunks, batches, calls, total, docId, sourceFile, embed)
    ensures Seqs.Flatten(ChunksOf(batches)) == chunks
    ensures Stored(calls) == BatchRecords(chunks, docId, 0, sourceFile, embed)
    ensures CallsSized(calls)
  {
    assert chunks[..total] == chunks;
    CallsOfSized(batches, docId, sourceFile, embed);
    CallsOfStored(batches, docId, sourceFile, embed);
  }

  /** What `add_document` finds at the path it is given. */
  datatype SourceFile = Missing | Unreadable | Contents(text: string)

  /** How `add_document` ends: the file is missing (nothing happens), the
      chunker raises before the first chunk is yielded, or the chunks were
      handed on in `batches` and stored by `calls`, `total` of them reported. */
  datatype AddOutcome =
    | NotFound
    | Raised(error: Chunker.ChunkError)
    | Added(batches: seq<Batch>, calls: seq<seq<Record>>, total: nat)

  /** `document_id or path.stem`: an absent or empty id falls back to the stem. */
  function DocumentId(documentId: Option<string>, stem: string): (d: string)
    ensures d != "" ==> d == stem || documentId == Some(d)
    ensures documentId.Some? && documentId.value != "" ==> d == documentId.value
    ensures documentId.None? || documentId == Some("") ==> d == stem
  {
    match documentId
    case Some(v) => if v != "" then v else stem
    case None => stem
  }

  /** `add_document(path, document_id)` with the default chunking
      configuration: `path` is `str(file_path)` as stored in the metadata and
      `stem` the file name without its suffix. */
  method AddDocument(file: SourceFile, path: string, stem: string, documentId: Option<string>,
                     cfg: Chunker.Config, embed: Embedder)
    returns (out: AddOutcome)
    ensures file.Missing? <==> out.NotFound?
    ensures file.Unreadable? ==> out == Added([], [], 0)
    ensures file.Contents? && Chunker.GenerateChunks(file.text, None, None, cfg).Failure? ==>
      out == Raised(Chunker.GenerateChunks(file.text, None, None, cfg).error)
    ensures file.Contents? && Chunker.GenerateChunks(file.text, None, None, cfg).Success? ==>
      var chunks := Chunker.GenerateChunks(file.text, None, None, cfg).value;
      && out.Added?
      && out.total == |chunks|
      && Seqs.Flatten(ChunksOf(out.batches)) == chunks
      && StartsAligned(out.batches) && FullButLast(out.batches)
      && out.calls == CallsOf(out.batches, DocumentId(documentId, stem), path, embed)
      && CallsSized(out.calls)
      && Stored(out.calls) == BatchRecords(chunks, DocumentId(documentId, stem), 0, path, embed)
  {
    match file
    case Missing =>
      out := NotFound;
    case Unreadable =>
      out := Added([], [], 0);
    case Contents(text) =>
      var docId := DocumentId(documentId, stem);
      match Chunker.GenerateChunks(text, None, None, cfg)
      case Failure(e) =>
        out := Raised(e);
      case Success(chunks) =>
        var batches, calls, total := IngestChunks(chunks, docId, path, embed);
        out := Added(batches, calls, total);
  }
}
