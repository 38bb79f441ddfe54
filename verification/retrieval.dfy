/** Result shaping of `search` (src/rag_system.py): the vector store's answer
    for one query embedding is turned into one hit per returned document, in
    the store's order, each scored by one minus its distance. */
module Retrieval {

  import opened Results
  import Ingest

  /** The first (and only) row of a `collection.query` answer for one query
      embedding: the `documents`, `metadatas` and `distances` lists. */
  datatype QueryResult = QueryResult(documents: seq<string>, metadatas: seq<Ingest.Metadata>, distances: seq<real>)

  /** One dictionary of the list `search` returns. */
  datatype Hit = Hit(document: string, metadata: Ingest.Metadata, distance: real, relevanceScore: real)

  /** `IndexError` from reading a list of the answer past its end. */
  datatype SearchError = IndexError

  /** Hit `i` carries entry `i` of every list of the answer, scored by one
      minus its distance. */
  predicate HitAt(h: Hit, q: QueryResult, i: nat) {
    && i < |q.documents| && i < |q.metadatas| && i < |q.distances|
    && h.document == q.documents[i]
    && h.metadata == q.metadatas[i]
    && h.distance == q.distances[i]
    && h.relevanceScore == 1.0 - q.distances[i]
  }

  /** The loop over `range(len(results['documents'][0]))`: one hit per
      document; a `metadatas` or `distances` list shorter than `documents`
      raises. */
  function FormatResults(q: QueryResult): (r: Result<seq<Hit>, SearchError>)
    ensures r.Success? <==> |q.documents| <= |q.metadatas| && |q.documents| <= |q.distances|
    ensures r.Success? ==> |r.value| == |q.documents|
    ensures r.Success? ==> forall i :: 0 <= i < |r.value| ==> HitAt(r.value[i], q, i)
  {
    if |q.documents| <= |q.metadatas| && |q.documents| <= |q.distances| then
      Success(seq(|q.documents|, i requires 0 <= i < |q.documents| =>
        Hit(q.documents[i], q.metadatas[i], q.distances[i], 1.0 - q.distances[i])))
    else
      Failure(IndexError)
  }

  /** `search(query, n_results)`: no hits when the query could not be
      embedded, otherwise the formatted answer of the store, which `index`
      stands for. */
  function Search(query: string, nResults: int, embed: Ingest.Embedder, index: (seq<real>, int) -> QueryResult)
    : (r: Result<seq<Hit>, SearchError>)
    ensures |embed(query)| == 0 ==> r == Success([])
    ensures |embed(query)| > 0 ==> r == FormatResults(index(embed(query), nResults))
  {
    var e := embed(query);
    if |e| == 0 then Success([]) else FormatResults(index(e, nResults))
  }

  /** A hit's score is one minus its distance. */
  predicate Scored(h: Hit) {
    h.relevanceScore == 1.0 - h.distance
  }

  /** The answer a list of hits was formatted from. */
  function Unformat(hits: seq<Hit>): (q: QueryResult)
    ensures |q.documents| == |q.metadatas| == |q.distances| == |hits|
  {
    QueryResult(
      seq(|hits|, i requires 0 <= i < |hits| => hits[i].document),
      seq(|hits|, i requires 0 <= i < |hits| => hits[i].metadata),
      seq(|hits|, i requires 0 <= i < |hits| => hits[i].distance))
  }

  /** Formatting loses nothing of an answer whose lists have equal lengths:
      the answer is recovered from the hits. */
  lemma FormatThenUnformat(q: QueryResult)
    requires |q.metadatas| == |q.documents| && |q.distances| == |q.documents|
    ensures FormatResults(q).Success?
    ensures Unformat(FormatResults(q).value) == q
  {
    var h := FormatResults(q).value;
    var u := Unformat(h);
    forall i | 0 <= i < |h|
      ensures u.documents[i] == q.documents[i] && u.metadatas[i] == q.metadatas[i] && u.distances[i] == q.distances[i]
    {
      assert HitAt(h[i], q, i);
    }
  }

  /** Every list of hits scored as `search` scores them is the formatting of
      the answer read back from it. */
  lemma UnformatThenFormat(hits: seq<Hit>)
    requires forall i :: 0 <= i < |hits| ==> Scored(hits[i])
    ensures FormatResults(Unformat(hits)) == Success(hits)
  {
    var q := Unformat(hits);
    assert FormatResults(q).Success?;
    var h := FormatResults(q).value;
    forall i | 0 <= i < |hits|
      ensures h[i] == hits[i]
    {
      assert HitAt(h[i], q, i);
      assert Scored(hits[i]);
      assert q.documents[i] == hits[i].document && q.metadatas[i] == hits[i].metadata;
      assert q.distances[i] == hits[i].distance;
    }
    assert h == hits;
  }

  /** Every hit is scored by one minus its distance. */
  lemma FormattedScored(q: QueryResult)
    ensures var r := FormatResults(q);
      r.Success? ==> forall i :: 0 <= i < |r.value| ==> Scored(r.value[i])
  {
    var r := FormatResults(q);
    if r.Success? {
      forall i | 0 <= i < |r.value|
        ensures Scored(r.value[i])
      {
        assert HitAt(r.value[i], q, i);
      }
    }
  }

  /** Distances do not decrease along the first `n` entries. */
  predicate Ascending(ds: seq<real>, n: nat) {
    forall i, j :: 0 <= i < j < n && j < |ds| ==> ds[i] <= ds[j]
  }

  /** Relevance scores do not increase along the hits. */
  predicate Descending(hits: seq<Hit>) {
    forall i, j :: 0 <= i < j < |hits| ==> hits[i].relevanceScore >= hits[j].relevanceScore
  }

  /** The hits are ranked best first exactly when the store returned the
      documents nearest first. */
  lemma RankedIffNearestFirst(q: QueryResult)
    requires FormatResults(q).Success?
    ensures Descending(FormatResults(q).value) <==> Ascending(q.distances, |q.documents|)
  {
    var h := FormatResults(q).value;
    if Descending(h) {
      forall i, j | 0 <= i < j < |q.documents| && j < |q.distances|
        ensures q.distances[i] <= q.distances[j]
      {
        assert HitAt(h[i], q, i) && HitAt(h[j], q, j);
      }
    }
    if Ascending(q.distances, |q.documents|) {
      forall i, j | 0 <= i < j < |h|
        ensures h[i].relevanceScore >= h[j].relevanceScore
      {
        assert HitAt(h[i], q, i) && HitAt(h[j], q, j);
      }
    }
  }

  /** Every hit of a search is a document the store returned for the query's
      embedding, with that document's metadata. */
  lemma SearchHitsFromStore(query: string, nResults: int, embed: Ingest.Embedder,
                            index: (seq<real>, int) -> QueryResult)
    ensures var r := Search(query, nResults, embed, index);
      r.Success? && |embed(query)| > 0 ==>
        var q := index(embed(query), nResults);
        forall i :: 0 <= i < |r.value| ==>
          r.value[i].document in q.documents && r.value[i].metadata in q.metadatas
  {
    var r := Search(query, nResults, embed, index);
    if r.Success? && |embed(query)| > 0 {
      var q := index(embed(query), nResults);
      forall i | 0 <= i < |r.value|
        ensures r.value[i].document in q.documents && r.value[i].metadata in q.metadatas
      {
        assert HitAt(r.value[i], q, i);
      }
    }
  }
}
