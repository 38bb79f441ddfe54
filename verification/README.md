# A Dafny model of the chunking, ingestion and search core of `rag`

`rag` is a small retrieval-augmented-generation helper. It cuts a text file into
overlapping chunks, embeds every chunk with a remote model and stores the chunks
in a vector collection. Later it embeds a query and returns the stored chunks
nearest to it. This project models the three pieces of `src/rag_system.py` that
carry logic, and proves properties of them:

- **The chunker of `generate_chunks_from_file`** (modules `Text`, `PyStr`, `Chunker`
  and `ChunkerProps`):
  - the nested recursive `split_text`, over the separator list `"\n\n"`, `"\n"`,
    `". "`, `" "`, `""`, including its fixed-width fallback;
  - the overlap pass;
  - the `re.sub(r'\s+', ' ', chunk.strip())` clean-up of every yielded chunk;
  - the `x or default` treatment of the chunk size and overlap arguments.

  Python's `str.split`, `str.strip` and the `\s` class are modelled exactly for the
  cases the code reaches. This includes `str.split("")` raising `ValueError` and
  `range` with a zero step raising.
- **Batch ingestion in `add_document` and `_process_batch`** (modules `Digits` and
  `Ingest`):
  - the chunk stream is cut into batches of ten plus a final partial batch;
  - every chunk's stream position becomes its `chunk_index` and part of its id
    `"{doc_id}_chunk_{j}"`;
  - chunks whose embedding is empty are skipped;
  - no `add` call is made for a batch whose embeddings all failed.

  The collection is modelled as the list of `add` calls made. The embedding
  service is a function `string -> seq<real>`, where the empty list stands for a
  failed request.
- **Result shaping in `search`** (module `Retrieval`):
  - a query with an empty embedding finds nothing;
  - otherwise every document the store returns becomes one hit. The hit keeps
    the document, its metadata and its distance, and is scored by
    `1 - distance`.

  The store's nearest-neighbour query is a function parameter.

`Results` (`Option`, `Result`) and `Seqs` (flattening a sequence of sequences) are
shared helpers.

The proofs show several behaviours of the code that a reader of its docstrings
and comments might not expect. Each is proved for all inputs of the shape
described:

- **A chunk can exceed the chunk size by one character.** The separator
  re-appended to a buffered piece only loses its trailing blank to `strip()`.
  `". "` therefore leaves a full stop one character past the size
  (`DefaultSeparatorsBound`, `OverrunAndEmptyChunk`).
- **Empty chunks are emitted.** When the first piece with its separator does not
  fit the empty buffer, `"".strip()` is appended (`OverrunAndEmptyChunk`).
- **An empty file yields one empty chunk, not none** (`EmptyTextOneChunk`).
- **Chunks are not in document order.** The chunks of an over-long piece come
  before the buffer it follows (`OutOfDocumentOrder`).
- **The last piece gains a separator it did not have.** A final sentence without
  a full stop comes out with one (`OverrunAndEmptyChunk`).
- **The fixed-width fallback is out of reach from the default separators.** A
  piece longer than the chunk size without a blank or newline reaches
  `str.split("")`, and `ValueError` ends the whole ingestion before any batch
  (`LongWordRaises`, `AddDocument`).

## Model

| member | source | states |
|---|---|---|
| Text.Strip | src/rag_system.py:97 | `str.strip()` leaves no whitespace at either end, never lengthens, and leaves an already clean string alone |
| Text.StripTrims | src/rag_system.py:97 | `str.strip()` removes exactly a whitespace run at each end: its result is a contiguous part of the input with nothing but whitespace before and after it |
| Text.StripKeepsContent | src/rag_system.py:97 | stripping removes whitespace only: the non-whitespace characters are kept in order |
| Text.StripTrailingSpace | src/rag_system.py:97 | a clean string followed by one whitespace character strips back to that string |
| Text.Collapse | src/rag_system.py:119 | `re.sub(r'\s+', ' ', ...)` never lengthens, gives the empty string only for the empty string, and starts with whitespace exactly when its input does |
| Text.Normalize | src/rag_system.py:119 | the clean-up of a yielded chunk leaves no edge whitespace and no whitespace but single blanks, and never lengthens |
| PyStr.CollapseJoinsWords | src/rag_system.py:119 | on a stripped string, replacing every whitespace run by one blank is `" ".join` of its words, the maximal runs of non-whitespace |
| PyStr.NormalizeJoinsWords | src/rag_system.py:119 | the clean-up of a chunk is `" ".join(chunk.split())`: its words in order, separated by single blanks, whatever whitespace surrounded them |
| Text.NormalizeKeepsContent | src/rag_system.py:119 | the clean-up keeps every non-whitespace character of the chunk, in order, and adds none |
| Text.NormalizeKeepsNormal | src/rag_system.py:122 | a chunk that is already clean is yielded unchanged |
| Text.NormalizeIdempotent | src/rag_system.py:119 | cleaning a cleaned chunk again changes nothing |
| Text.NormalizeFixedPoints | src/rag_system.py:122 | a chunk is left unchanged by the clean-up exactly when it is already clean |
| Text.SeparatorCharacters | src/rag_system.py:65 | the last characters of the separators: newline and blank are whitespace, the full stop is not |
| PyStr.FindFrom | src/rag_system.py:81 | finds the leftmost occurrence of the separator at or after a position, or reports that there is none |
| PyStr.Split | src/rag_system.py:81 | `str.split(sep)` gives at least one piece, the pieces joined by the separator give back the text, and no piece contains the separator |
| PyStr.SplitWithoutSeparator | src/rag_system.py:81 | a text without the separator splits into itself alone |
| PyStr.SplitAtFirst | src/rag_system.py:81 | the first piece ends at the leftmost occurrence of the separator and the rest is split on |
| Chunker.FixedWidth | src/rag_system.py:73-75 | with no separator left, `range(0, len, size)` raises exactly for a zero size, gives no slices for a negative one, and otherwise slices of at most the size that concatenate back to the text |
| Chunker.Slices | src/rag_system.py:75 | the fixed-width slices concatenate back to the text; every slice but the last has exactly the chunk size and the last is non-empty and at most that |
| Chunker.SplitText | src/rag_system.py:67-104 | `split_text` raises only `ValueError` from an empty separator still in the list, or from a zero `range` step with none left |
| Chunker.ProcessPieces | src/rag_system.py:84-104 | the loop over the pieces raises only what the recursive calls on the remaining separators can raise |
| Chunker.SplitTextWithin | src/rag_system.py:86-104 | every chunk of `split_text` is within the chunk size plus the largest overshoot any of the given separators allows |
| Chunker.ProcessPiecesWithin | src/rag_system.py:86-102 | the buffer never exceeds the chunk size plus one separator, so every flushed chunk is within the size plus that separator's overshoot |
| Chunker.FlushBound | src/rag_system.py:96-102 | a flushed buffer, once stripped, exceeds the chunk size by at most its separator's length less a trailing blank |
| Chunker.SeparatorsSlack | src/rag_system.py:65 | with the default separators a flushed chunk overshoots by at most one character |
| Chunker.PyTail | src/rag_system.py:114 | `s[-k:]` is the last `k` characters, or all of `s` when it is shorter |
| Chunker.ApplyOverlap | src/rag_system.py:110-116 | the overlap pass keeps the number of chunks and the first chunk; every later chunk is the tail of the already overlapped chunk before it followed by its own text |
| Chunker.OverlapUnique | src/rag_system.py:110-116 | any sequence with that first chunk and that step is the overlap pass's result |
| Chunker.OrDefault | src/rag_system.py:54-55 | `x or default`: an absent or zero argument selects the configured default, any other value is kept |
| Chunker.Overlapped | src/rag_system.py:110-122 | with no positive overlap or fewer than two chunks the chunks pass unchanged; otherwise the overlap step holds between neighbours |
| Chunker.NormalizeAll | src/rag_system.py:118-122 | every yielded chunk is clean and no longer than before the clean-up |
| Chunker.NormalizeAllKeepsContent | src/rag_system.py:118-122 | the clean-up keeps every chunk's non-whitespace characters |
| Chunker.GenerateChunks | src/rag_system.py:54-122 | the generator raises exactly when `split_text` raises, and only the empty-separator error; otherwise it yields one clean chunk per chunk of `split_text` |
| Chunker.GenerateChunksBound | src/rag_system.py:86-122 | every yielded chunk is at most the chunk size plus one plus the overlap |
| Chunker.DefaultChunksBound | src/config.py:12-13 | with the default chunk size 1000 and overlap 200 and no arguments, every yielded chunk is at most 1201 characters |
| ChunkerProps.FitsOneChunk | src/rag_system.py:69-70 | a text within the chunk size is one chunk, whatever separators remain |
| ChunkerProps.NoSeparatorsSlices | src/rag_system.py:73-75 | with no separator left a long text becomes fixed-width slices that concatenate back to it |
| ChunkerProps.DefaultSeparatorsBound | src/rag_system.py:65-104 | with the default separators every chunk of `split_text` is at most one character over the chunk size |
| ChunkerProps.DescendPast | src/rag_system.py:81-90 | a separator absent from a long text hands the whole text to the next separator |
| ChunkerProps.UnsplittableRaises | src/rag_system.py:77-89 | a long text containing none of the remaining non-empty separators reaches `str.split("")` and raises |
| ChunkerProps.LongWordRaises | src/rag_system.py:65-89 | a text over the chunk size with no blank and no newline makes the chunker raise `ValueError` |
| ChunkerProps.FlushStep | src/rag_system.py:95-98 | a piece that does not fit flushes the stripped buffer and starts the next buffer |
| ChunkerProps.AppendStep | src/rag_system.py:93-94 | a piece that fits joins the buffer followed by the separator |
| ChunkerProps.RecurseStep | src/rag_system.py:88-90 | an over-long piece never enters the buffer: its own chunks are emitted before anything the buffer holds |
| ChunkerProps.SentenceBreak | src/rag_system.py:81 | splitting a blank-free sentence and the rest on `". "` cuts right after the sentence |
| ChunkerProps.OverrunAndEmptyChunk | src/rag_system.py:93-102 | a sentence exactly the chunk size followed by a short one gives an empty chunk, a chunk one over the size, and a last sentence with an added full stop |
| ChunkerProps.NoNewlineSentences | src/rag_system.py:77-90 | two newline-free lines joined by `". "` go straight to the sentence separator |
| ChunkerProps.OverrunPieces | src/rag_system.py:93-102 | two pieces where the first fills the size alone give the empty flush, then each piece with its separator, stripped |
| ChunkerProps.OutOfDocumentOrder | src/rag_system.py:86-102 | a short line followed by an over-long one yields the long line's chunks first and the short line last |
| ChunkerProps.EmptyTextOneChunk | src/rag_system.py:107-122 | an empty file yields exactly one empty chunk when the chunk size in force is not negative |
| ChunkerProps.ShortTextOneChunk | src/rag_system.py:107-122 | a text within the chunk size in force is yielded as the single chunk of its own clean-up |
| Digits.Decimal | src/rag_system.py:187 | the decimal rendering of a chunk index is non-empty, all digits, and has no leading zero |
| Digits.ParseDecimalRoundTrip | src/rag_system.py:187 | reading the rendered digits back gives the index |
| Digits.DecimalInjective | src/rag_system.py:187 | distinct indices render differently |
| Ingest.ChunkId | src/rag_system.py:187 | the chunk id is the document id, then `_chunk_`, then the decimal digits that read back as the chunk index |
| Ingest.RecordFor | src/rag_system.py:187-195 | the record of a chunk carries the chunk, its embedding, the document id, the index, the chunk's length and the source file, and an id that names that document and index and no other |
| Ingest.ChunkIdInjective | src/rag_system.py:187 | a chunk id determines its document id and its chunk index |
| Ingest.BatchRecords | src/rag_system.py:184-197 | a batch yields at most one record per chunk |
| Ingest.BatchRecordsSound | src/rag_system.py:184-197 | every record is that of an embedded chunk of the batch, at index start plus position, with its text, embedding, length and source file, in batch order |
| Ingest.BatchRecordsComplete | src/rag_system.py:184-197 | every chunk with a non-empty embedding is stored |
| Ingest.BatchRecordsAllKept | src/rag_system.py:184-197 | a batch stores one record per chunk exactly when every embedding is non-empty |
| Ingest.BatchRecordsNoneKept | src/rag_system.py:184-197 | a batch stores nothing exactly when every embedding is empty |
| Ingest.BatchRecordsAppend | src/rag_system.py:162-173 | what is stored does not depend on where the stream is cut into batches, given each batch's start index is its stream position |
| Ingest.StoredIdsDistinct | src/rag_system.py:187 | the records of one document have pairwise distinct ids |
| Ingest.ProcessBatch | src/rag_system.py:178-204 | `_process_batch` makes no `add` call exactly when every embedding is empty, and otherwise adds between one and all of the chunks, each stored at its index |
| Ingest.EmittedRecords | src/rag_system.py:199-204 | whether or not `add` is called, what is stored is the batch's records |
| Ingest.BatchStep | src/rag_system.py:163-166 | handing on the next batch extends the chunks handed on by exactly that batch |
| Ingest.PushBatch | src/rag_system.py:162-173 | batches start at multiples of ten, and every batch but the last is full |
| Ingest.PushCall | src/rag_system.py:199-204 | every `add` call stores between one and ten records |
| Ingest.CallsOfPush | src/rag_system.py:162-173 | handing on one more batch appends that batch's `add` call, if it makes one, after the calls of the batches before it |
| Ingest.ConsistentPush | src/rag_system.py:165-166 | one hand-over extends the batches by the next slice of the stream and the `add` log by that batch's call |
| Ingest.CallsOfSized | src/rag_system.py:162-173 | when no batch holds more than ten chunks, every `add` call of the batches stores between one and ten records |
| Ingest.FullLength | src/rag_system.py:166 | full batches hand on ten chunks each, so the count after them is ten times their number |
| Ingest.LogComplete | src/rag_system.py:162-173 | once every generated chunk is handed on, the batches hold the whole stream and the `add` calls store its records, one to ten per call |
| Ingest.CallsOfStored | src/rag_system.py:162-173 | the `add` calls of aligned batches, full but for the last, store exactly the records of the chunks those batches hold, in stream order |
| Ingest.StoredStep | src/rag_system.py:165-166 | one more batch, starting where the stream left off, extends what the `add` calls store by that batch's records |
| Ingest.ChunksPush | src/rag_system.py:163-165 | one more batch extends the chunks handed on by its own chunks |
| Ingest.StoredAppend | src/rag_system.py:165-166 | the `add` call of a batch starting at the end of what was stored extends it by that batch's records |
| Ingest.HandOn | src/rag_system.py:165-166 | one hand-over appends the batch at the current count, appends that batch's `add` call (if any) to the log, keeps the batches in step with the chunks handed on, and advances the count by the batch's length |
| Ingest.Take | src/rag_system.py:163-168 | one pass of the loop keeps fewer than ten chunks waiting and everything before them handed on |
| Ingest.Flush | src/rag_system.py:170-173 | a partial batch left at the end is handed on, and only then; afterwards the batches hold the whole stream, the `add` log is that of the batches and stores the stream's records, one to ten per call, and the count is the number of chunks |
| Ingest.IngestChunks | src/rag_system.py:157-173 | the batches concatenate to the chunk stream, start at multiples of ten and are full but for the last; the `add` log is exactly one call per batch with an embedded chunk, in batch order, each holding that batch's records; every call stores one to ten records; together they store the records of the whole stream; the reported total is the number of chunks generated |
| Ingest.DocumentId | src/rag_system.py:131 | `document_id or path.stem`: an absent or empty id selects the stem, any other id is kept |
| Ingest.AddDocument | src/rag_system.py:124-175 | a missing file does nothing; an unreadable one adds nothing and reports zero; a chunker error raises before any batch; otherwise every generated chunk is handed on in aligned batches, full but for the last, the `add` log is one call per batch with an embedded chunk in batch order, each of one to ten records, and together they store the stream's records |
| Retrieval.FormatResults | src/rag_system.py:220-229 | the result list has one hit per returned document, in the store's order, carrying that document, its metadata and distance and the score one minus the distance; a shorter metadata or distance list raises |
| Retrieval.Search | src/rag_system.py:209-231 | a query with an empty embedding gives no results; otherwise the store's answer for the query embedding is formatted |
| Retrieval.FormatThenUnformat | src/rag_system.py:220-229 | formatting loses nothing: the store's answer is recovered from the hits |
| Retrieval.UnformatThenFormat | src/rag_system.py:220-229 | every hit list scored by one minus distance is the formatting of some answer |
| Retrieval.FormattedScored | src/rag_system.py:227 | every hit's relevance score is exactly one minus its distance |
| Retrieval.RankedIffNearestFirst | src/rag_system.py:220-229 | hits are in descending relevance exactly when the store returned ascending distances |
| Retrieval.SearchHitsFromStore | src/rag_system.py:215-229 | every hit's document and metadata are among those the store returned for the query embedding |

## Left out

- The embedding request (`get_jina_embedding`, src/rag_system.py:33-48) is
  network I/O. It is the parameter `embed`, a total function, so the same text
  always embeds the same way. A failed request is the empty list.
- The ChromaDB client and collection are an external storage engine. `add` is
  modelled as the record lists passed to it, and `query` as the parameter
  `index`. How many results the store returns for `n_results`, its distance
  metric, and duplicate-id handling are the library's. Collection creation,
  `reset`, `get_collection_info` and `get_db_size` are not modelled.
- File reading is the `SourceFile` parameter of `AddDocument`:
  - a missing path;
  - a file that cannot be read, where the generator yields nothing;
  - the text.

  The second read that only counts words and estimates the chunk count
  (src/rag_system.py:133-153) prints and never fails the call, so it is not
  modelled.
- Console output, the `rich` table of `display_results` and the `tqdm` progress
  bar are presentation.
- `src/cli.py`, `scripts/download_sample_books.py` and the environment reading of
  `src/config.py` are plumbing. Only the default chunk size 1000 and overlap 200
  are kept, as `Chunker.Defaults`, which `Chunker.DefaultChunksBound` uses.
- Retrieval.FormatResults: distances are `real`, so `1 - distance` is exact.
  Python's float rounding is not modelled.
- Chunker.GenerateChunks: its contract does not say which characters of the text
  end up in which chunk. The chunks are out of document order and separators are
  re-appended, so the text is not their concatenation. The behaviour is pinned
  down instead by `ChunkerProps` for the shapes above, by the per-chunk bound and
  cleanliness, and by `OverlapUnique`.
- Chunker.SplitText: its own contract states only the errors it can raise. The
  length bound is `SplitTextWithin`, the one-chunk case is
  `ChunkerProps.FitsOneChunk`, and the other cases are the lemmas of
  `ChunkerProps`.
- Text: the whitespace set is that of Python's `str.isspace`. Both `str.strip()`
  and `\s` in a `str` pattern use it. Python's handling of surrogate code points
  is not modelled.
- Ingest.IngestChunks: `collection.add` (src/rag_system.py:199-204) is modelled
  as never raising. If it raised, the batches already added would stay stored,
  and the later batches would never be handed on. The model does not cover that
  partial outcome.
- Ingest.AddDocument: for the same reason, an exception from `collection.add`
  part-way through a document is not an outcome. Only the chunker's
  `ValueError` is modelled as raising.
- Retrieval.Search: `collection.query` (src/rag_system.py:215-219) is modelled as
  always answering. An exception from the store is not an outcome. Only a
  malformed answer raises (`IndexError`).
