/** `RAGEngine`: a fixed policy corpus, an index built on first use, and
    cosine-similarity search with an optional payer filter. */
module RagEngine {
  import opened Wrappers
  import opened Text
  import opened Numerics
  import opened Vectors
  import opened Tokenizer
  import opened Vocabulary
  import opened Weighting
  import opened Ranking
  import opened TfIdfIndex

  datatype Engine = Engine(documents: seq<Document>, index: Index, initialized: bool)

  /** `RAGEngine.__init__`: the corpus, an empty index, not yet initialised. */
  function NewEngine(corpus: seq<Document>): (r: Engine)
    ensures !r.initialized && r.documents == corpus
    ensures r.index.vocab == map[] && r.index.idf == map[] && r.index.docVectors == []
  {
    Engine(corpus, EmptyIndex, false)
  }

  /** A fresh engine meets the search's precondition whatever the numerics,
      and its first search builds the index over the corpus and sets the flag. */
  lemma NewEngineFirstSearch(ops: Ops, corpus: seq<Document>, query: string, topK: nat, payerFilter: Option<string>)
    ensures Consistent(ops, NewEngine(corpus))
    ensures Search(ops, NewEngine(corpus), query, topK, payerFilter).0 == Engine(corpus, BuildIndex(ops, corpus), true)
  {
  }

  /** The engine's state as the class maintains it: once the flag is set, the
      index is the one built from the corpus. */
  ghost predicate Consistent(ops: Ops, e: Engine) {
    e.initialized ==> e.index == BuildIndex(ops, e.documents)
  }

  /** `RAGEngine.initialize`: build the index unless the flag is already set.
      The result is initialised and consistent, and a second call changes
      nothing, so the function is idempotent. */
  function Initialize(ops: Ops, e: Engine): (r: Engine)
    requires Consistent(ops, e)
    ensures r.initialized && r.documents == e.documents
    ensures r.index == BuildIndex(ops, e.documents)
    ensures e.initialized ==> r == e
    ensures Consistent(ops, r)
  {
    if e.initialized then e
    else Engine(e.documents, BuildIndex(ops, e.documents), true)
  }

  /** An initialised engine satisfies the index invariants. */
  lemma InitializeWellFormed(ops: Ops, e: Engine)
    requires Lawful(ops)
    requires Consistent(ops, e)
    ensures WellFormed(Initialize(ops, e).documents, Initialize(ops, e).index)
  {
    BuildIndexWellFormed(ops, e.documents);
  }

  lemma InitializeIdempotent(ops: Ops, e: Engine)
    requires Consistent(ops, e)
    ensures Initialize(ops, Initialize(ops, e)) == Initialize(ops, e)
  {
  }

  /** The payer filter keeps a document when there is no filter, the filter
      is the empty string (which Python treats as false), or the document's
      payer id equals it. */
  predicate Passes(doc: Document, payerFilter: Option<string>) {
    payerFilter.None? || payerFilter.value == [] || doc.payerId == payerFilter.value
  }

  /** The positions, from `i` on, of the documents the filter keeps, in corpus order. */
  function MatchingFrom(docs: seq<Document>, payerFilter: Option<string>, i: nat): (m: seq<nat>)
    requires i <= |docs|
    ensures forall k :: 0 <= k < |m| ==> i <= m[k] < |docs| && Passes(docs[m[k]], payerFilter)
    ensures forall k, l :: 0 <= k < l < |m| ==> m[k] < m[l]
    ensures forall j :: i <= j < |docs| && Passes(docs[j], payerFilter) ==> j in m
    decreases |docs| - i
  {
    if i == |docs| then []
    else (if Passes(docs[i], payerFilter) then [i] else []) + MatchingFrom(docs, payerFilter, i + 1)
  }

  function Matching(docs: seq<Document>, payerFilter: Option<string>): seq<nat> {
    MatchingFrom(docs, payerFilter, 0)
  }

  /** The filter is sound and complete: a position is listed exactly when its
      document passes, and each at most once, in increasing order. */
  lemma MatchingExact(docs: seq<Document>, payerFilter: Option<string>)
    ensures forall j :: j in Matching(docs, payerFilter) <==> 0 <= j < |docs| && Passes(docs[j], payerFilter)
    ensures forall k, l :: 0 <= k < l < |Matching(docs, payerFilter)| ==>
      Matching(docs, payerFilter)[k] < Matching(docs, payerFilter)[l]
  {
  }

  /** The result record of one document (`content` is stripped). */
  function ResultFor(doc: Document, score: real): SearchResult {
    SearchResult(doc.id, doc.payer, doc.category, doc.title, Strip(doc.content), score)
  }

  /** The similarity of a document: the dot product of the two vectors, rounded to four decimals. */
  function Score(ops: Ops, queryVec: seq<real>, docVec: seq<real>): real
    requires |queryVec| == |docVec|
  {
    ops.round4(Dot(queryVec, docVec))
  }

  /** The query vectorised exactly like a document. */
  function QueryVector(ops: Ops, index: Index, query: string): (v: seq<real>)
    requires IndexesWithin(index.vocab, |index.vocab|)
    ensures |v| == |index.vocab|
  {
    TfIdfVector(ops, index.vocab, index.idf, Tokenize(query))
  }

  /** Shape facts of an initialised engine that the search relies on. */
  ghost predicate Searchable(e: Engine) {
    && IndexesWithin(e.index.vocab, |e.index.vocab|)
    && |e.index.docVectors| == |e.documents|
    && (forall i :: 0 <= i < |e.index.docVectors| ==> |e.index.docVectors[i]| == |e.index.vocab|)
  }

  lemma InitializedSearchable(ops: Ops, e: Engine)
    requires Consistent(ops, e)
    ensures Searchable(Initialize(ops, e))
  {
    var r := Initialize(ops, e);
    var docTokens := DocTokens(e.documents);
    assert r.index.docVectors == Vectorize(ops, r.index.vocab, r.index.idf, docTokens);
    forall i | 0 <= i < |r.index.docVectors|
      ensures |r.index.docVectors[i]| == |r.index.vocab|
    {
      assert r.index.docVectors[i] == TfIdfVector(ops, r.index.vocab, r.index.idf, docTokens[i]);
    }
  }

  /** The result records of the filtered documents, in corpus order, before sorting. */
  function Candidates(ops: Ops, e: Engine, queryVec: seq<real>, payerFilter: Option<string>): (cs: seq<SearchResult>)
    requires Searchable(e)
    requires |queryVec| == |e.index.vocab|
    ensures |cs| == |Matching(e.documents, payerFilter)|
    ensures forall k :: 0 <= k < |cs| ==>
      var i := Matching(e.documents, payerFilter)[k];
      i < |e.documents| && Passes(e.documents[i], payerFilter) &&
      cs[k] == ResultFor(e.documents[i], Score(ops, queryVec, e.index.docVectors[i]))
  {
    var m := Matching(e.documents, payerFilter);
    seq(|m|, k requires 0 <= k < |m| =>
      ResultFor(e.documents[m[k]], Score(ops, queryVec, e.index.docVectors[m[k]])))
  }

  /** `RAGEngine.search` for a non-negative `top_k`: initialise if needed, score
      every document the filter keeps, sort stably by score (highest first) and
      keep the first `top_k`. Returns the engine after the call and the results. */
  function Search(ops: Ops, e: Engine, query: string, topK: nat, payerFilter: Option<string>)
    : (r: (Engine, seq<SearchResult>))
    requires Consistent(ops, e)
    ensures r.0 == Initialize(ops, e)
    ensures Searchable(r.0)
    ensures |r.1| == Min(topK, |Matching(e.documents, payerFilter)|)
    ensures r.1 == Rank(Candidates(ops, r.0, QueryVector(ops, r.0.index, query), payerFilter), topK)
  {
    var e' := Initialize(ops, e);
    InitializedSearchable(ops, e);
    (e', Rank(Candidates(ops, e', QueryVector(ops, e'.index, query), payerFilter), topK))
  }

  /** Every candidate is the record of a document the filter keeps. */
  lemma CandidatesSound(ops: Ops, e: Engine, queryVec: seq<real>, payerFilter: Option<string>, x: SearchResult)
    requires Searchable(e)
    requires |queryVec| == |e.index.vocab|
    requires x in Candidates(ops, e, queryVec, payerFilter)
    ensures exists i :: 0 <= i < |e.documents| && Passes(e.documents[i], payerFilter)
                        && x == ResultFor(e.documents[i], x.score)
  {
    var cs := Candidates(ops, e, queryVec, payerFilter);
    var l :| 0 <= l < |cs| && cs[l] == x;
    var i := Matching(e.documents, payerFilter)[l];
    assert x == ResultFor(e.documents[i], x.score);
  }

  /** Filter soundness: every result is the record of a corpus document the
      filter keeps. */
  lemma SearchRespectsFilter(ops: Ops, e: Engine, query: string, topK: nat, payerFilter: Option<string>)
    requires Consistent(ops, e)
    ensures forall x :: x in Search(ops, e, query, topK, payerFilter).1 ==>
      exists i :: 0 <= i < |e.documents| && Passes(e.documents[i], payerFilter)
                  && x == ResultFor(e.documents[i], x.score)
  {
    var r := Search(ops, e, query, topK, payerFilter);
    var qv := QueryVector(ops, r.0.index, query);
    forall x | x in r.1
      ensures exists i :: 0 <= i < |e.documents| && Passes(e.documents[i], payerFilter)
                          && x == ResultFor(e.documents[i], x.score)
    {
      CandidatesSound(ops, r.0, qv, payerFilter, x);
    }
  }

  /** With lawful numerics every similarity score is non-negative: both
      vectors are. */
  lemma SearchScoresNonNegative(ops: Ops, e: Engine, query: string, topK: nat, payerFilter: Option<string>)
    requires Lawful(ops)
    requires Consistent(ops, e)
    ensures forall k :: 0 <= k < |Search(ops, e, query, topK, payerFilter).1| ==>
      0.0 <= Search(ops, e, query, topK, payerFilter).1[k].score
  {
    var r := Search(ops, e, query, topK, payerFilter);
    var index := r.0.index;
    var qv := QueryVector(ops, index, query);
    var cs := Candidates(ops, r.0, qv, payerFilter);
    var m := Matching(e.documents, payerFilter);
    BuildIndexShape(ops, e.documents);
    BuildIndexVectors(ops, e.documents);
    VectorSupport(ops, index.vocab, index.idf, Tokenize(query));
    forall l | 0 <= l < |cs|
      ensures 0.0 <= cs[l].score
    {
      var i := m[l];
      DotNonNegative(qv, index.docVectors[i]);
    }
    forall k | 0 <= k < |r.1|
      ensures 0.0 <= r.1[k].score
    {
      assert r.1[k] in cs;
    }
  }

  /** With a zero query vector every candidate scores 0, so the candidates
      are already in order. */
  lemma ZeroQueryCandidates(ops: Ops, e: Engine, queryVec: seq<real>, payerFilter: Option<string>)
    requires Lawful(ops)
    requires Searchable(e)
    requires |queryVec| == |e.index.vocab| && IsZero(queryVec)
    ensures forall l :: 0 <= l < |Candidates(ops, e, queryVec, payerFilter)| ==>
      Candidates(ops, e, queryVec, payerFilter)[l]
        == ResultFor(e.documents[Matching(e.documents, payerFilter)[l]], 0.0)
    ensures SortedDesc(Candidates(ops, e, queryVec, payerFilter))
  {
    var cs := Candidates(ops, e, queryVec, payerFilter);
    var m := Matching(e.documents, payerFilter);
    forall l | 0 <= l < |cs|
      ensures cs[l] == ResultFor(e.documents[m[l]], 0.0)
    {
      DotZero(queryVec, e.index.docVectors[m[l]]);
    }
  }

  /** A query with no vocabulary token (only stopwords, or unseen words)
      scores every document 0, so the results are the first `top_k` documents
      the filter keeps, in corpus order. */
  lemma SearchUnknownQuery(ops: Ops, e: Engine, query: string, topK: nat, payerFilter: Option<string>)
    requires Lawful(ops)
    requires Consistent(ops, e)
    requires forall t :: t in Tokenize(query) ==> t !in Initialize(ops, e).index.vocab
    ensures forall k :: 0 <= k < |Search(ops, e, query, topK, payerFilter).1| ==>
      Search(ops, e, query, topK, payerFilter).1[k]
        == ResultFor(e.documents[Matching(e.documents, payerFilter)[k]], 0.0)
  {
    var r := Search(ops, e, query, topK, payerFilter);
    var index := r.0.index;
    var qv := QueryVector(ops, index, query);
    var cs := Candidates(ops, r.0, qv, payerFilter);
    BuildIndexShape(ops, e.documents);
    NoKnownTokenZeroVector(ops, index.vocab, index.idf, Tokenize(query));
    ZeroQueryCandidates(ops, r.0, qv, payerFilter);
    RankSorted(cs, topK);
  }

  /** An empty query has no tokens, so it ranks like a query of unknown words:
      the first `top_k` documents the filter keeps, each scoring 0. */
  lemma SearchEmptyQuery(ops: Ops, e: Engine, topK: nat, payerFilter: Option<string>)
    requires Lawful(ops)
    requires Consistent(ops, e)
    ensures forall k :: 0 <= k < |Search(ops, e, "", topK, payerFilter).1| ==>
      Search(ops, e, "", topK, payerFilter).1[k]
        == ResultFor(e.documents[Matching(e.documents, payerFilter)[k]], 0.0)
  {
    assert Tokenize("") == [];
    SearchUnknownQuery(ops, e, "", topK, payerFilter);
  }
}
