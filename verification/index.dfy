/** The index `RAGEngine.initialize` builds over a fixed corpus: vocabulary,
    IDF table and one L2-normalised TF-IDF vector per document. */
module TfIdfIndex {
  import opened Numerics
  import opened Vectors
  import opened Tokenizer
  import opened Vocabulary
  import opened Weighting

  /** A policy document of the corpus. */
  datatype Document = Document(
    id: string,
    payer: string,
    payerId: string,
    category: string,
    title: string,
    content: string)

  datatype Index = Index(vocab: map<string, int>, idf: map<string, real>, docVectors: seq<seq<real>>)

  /** The index of an engine that has not been initialised. */
  const EmptyIndex := Index(map[], map[], [])

  /** The token list of every document's content, in corpus order. */
  function DocTokens(docs: seq<Document>): (r: seq<seq<string>>)
    ensures |r| == |docs|
    ensures forall i :: 0 <= i < |docs| ==> r[i] == Tokenize(docs[i].content)
  {
    seq(|docs|, i requires 0 <= i < |docs| => Tokenize(docs[i].content))
  }

  /** One TF-IDF vector per token list, in order. */
  function Vectorize(ops: Ops, vocab: map<string, int>, idf: map<string, real>,
                     docTokens: seq<seq<string>>): (vectors: seq<seq<real>>)
    requires IndexesWithin(vocab, |vocab|)
    ensures |vectors| == |docTokens|
    ensures forall i :: 0 <= i < |docTokens| ==> vectors[i] == TfIdfVector(ops, vocab, idf, docTokens[i])
  {
    seq(|docTokens|, i requires 0 <= i < |docTokens| => TfIdfVector(ops, vocab, idf, docTokens[i]))
  }

  /** The body of `initialize` after its `_initialized` test. */
  function BuildIndex(ops: Ops, docs: seq<Document>): (index: Index)
    ensures index.vocab == VocabOf(SortedTokens(DocTokens(docs)))
    ensures index.idf == Idf(ops, |docs|, DocFreq(DocTokens(docs)))
    ensures IndexesWithin(index.vocab, |index.vocab|)
    ensures index.docVectors == Vectorize(ops, index.vocab, index.idf, DocTokens(docs))
  {
    var docTokens := DocTokens(docs);
    var terms := SortedTokens(docTokens);
    var vocab := VocabOf(terms);
    VocabWithin(terms);
    var idf := Idf(ops, |docTokens|, DocFreq(docTokens));
    Index(vocab, idf, Vectorize(ops, vocab, idf, docTokens))
  }

  /** The vocabulary is a bijection from the distinct document tokens onto
      `0..N-1` that numbers them in sorted order. */
  ghost predicate VocabularyInvariant(docs: seq<Document>, vocab: map<string, int>) {
    IsSortedNumbering(vocab, AllTokens(DocTokens(docs)))
  }

  /** Every vocabulary token has an IDF entry (so the default IDF of 1 is
      never taken for it) and every IDF is at least one. */
  ghost predicate IdfInvariant(vocab: map<string, int>, idf: map<string, real>) {
    && idf.Keys == vocab.Keys
    && (forall t :: t in idf ==> 1.0 <= idf[t])
  }

  /** One vector per document, of the vocabulary's dimension, non-negative,
      and non-zero exactly at the tokens of that document. */
  ghost predicate VectorsInvariant(docs: seq<Document>, vocab: map<string, int>, vectors: seq<seq<real>>) {
    && |vectors| == |docs|
    && (forall i :: 0 <= i < |vectors| ==> |vectors[i]| == |vocab| && NonNegative(vectors[i]))
    && (forall i, t :: 0 <= i < |vectors| && t in vocab && 0 <= vocab[t] < |vectors[i]| ==>
          (0.0 < vectors[i][vocab[t]] <==> t in Tokenize(docs[i].content)))
  }

  ghost predicate WellFormed(docs: seq<Document>, index: Index) {
    && VocabularyInvariant(docs, index.vocab)
    && IdfInvariant(index.vocab, index.idf)
    && VectorsInvariant(docs, index.vocab, index.docVectors)
  }

  lemma BuildIndexVocabulary(ops: Ops, docs: seq<Document>)
    ensures VocabularyInvariant(docs, BuildIndex(ops, docs).vocab)
  {
    SortedVocabulary(DocTokens(docs));
  }

  lemma BuildIndexIdf(ops: Ops, docs: seq<Document>)
    requires Lawful(ops)
    ensures IdfInvariant(BuildIndex(ops, docs).vocab, BuildIndex(ops, docs).idf)
  {
    var docTokens := DocTokens(docs);
    VocabBijection(SortedTokens(docTokens));
    IdfBounds(ops, |docTokens|, DocFreq(docTokens));
  }

  /** The facts about the index that vectorising relies on. */
  lemma BuildIndexShape(ops: Ops, docs: seq<Document>)
    requires Lawful(ops)
    ensures IndexesWithin(BuildIndex(ops, docs).vocab, |BuildIndex(ops, docs).vocab|)
    ensures Injective(BuildIndex(ops, docs).vocab)
    ensures forall t :: t in BuildIndex(ops, docs).idf ==> 1.0 <= BuildIndex(ops, docs).idf[t]
  {
    var docTokens := DocTokens(docs);
    VocabBijection(SortedTokens(docTokens));
    IdfBounds(ops, |docTokens|, DocFreq(docTokens));
  }

  lemma DocumentVector(ops: Ops, docs: seq<Document>, i: nat)
    requires Lawful(ops)
    requires i < |docs|
    ensures |BuildIndex(ops, docs).docVectors[i]| == |BuildIndex(ops, docs).vocab|
    ensures NonNegative(BuildIndex(ops, docs).docVectors[i])
    ensures forall t :: t in BuildIndex(ops, docs).vocab ==>
      (0.0 < BuildIndex(ops, docs).docVectors[i][BuildIndex(ops, docs).vocab[t]] <==> t in Tokenize(docs[i].content))
  {
    var index := BuildIndex(ops, docs);
    var tokens := DocTokens(docs)[i];
    BuildIndexShape(ops, docs);
    assert index.docVectors[i] == TfIdfVector(ops, index.vocab, index.idf, tokens);
    VectorSupport(ops, index.vocab, index.idf, tokens);
  }

  lemma BuildIndexVectors(ops: Ops, docs: seq<Document>)
    requires Lawful(ops)
    ensures VectorsInvariant(docs, BuildIndex(ops, docs).vocab, BuildIndex(ops, docs).docVectors)
  {
    forall i | 0 <= i < |docs|
      ensures |BuildIndex(ops, docs).docVectors[i]| == |BuildIndex(ops, docs).vocab|
      ensures NonNegative(BuildIndex(ops, docs).docVectors[i])
      ensures forall t :: t in BuildIndex(ops, docs).vocab ==>
        (0.0 < BuildIndex(ops, docs).docVectors[i][BuildIndex(ops, docs).vocab[t]] <==> t in Tokenize(docs[i].content))
    {
      DocumentVector(ops, docs, i);
    }
  }

  /** The index `initialize` builds satisfies all three invariants. */
  lemma BuildIndexWellFormed(ops: Ops, docs: seq<Document>)
    requires Lawful(ops)
    ensures WellFormed(docs, BuildIndex(ops, docs))
  {
    BuildIndexVocabulary(ops, docs);
    BuildIndexIdf(ops, docs);
    BuildIndexVectors(ops, docs);
  }
}
