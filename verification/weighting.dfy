/** Term weighting: document frequency, smoothed inverse document frequency,
    sub-linear term frequency and the dense TF-IDF vector of a token list. */
module Weighting {
  import opened Numerics
  import opened Vectors
  import opened Vocabulary

  /** Number of documents whose token list contains `t`. */
  function Containing(docTokens: seq<seq<string>>, t: string): (n: nat)
    ensures n <= |docTokens|
    ensures 0 < n <==> t in AllTokens(docTokens)
  {
    if |docTokens| == 0 then 0
    else
      var init := docTokens[..|docTokens| - 1];
      assert forall i :: 0 <= i < |init| ==> init[i] == docTokens[i];
      Containing(init, t) + (if t in docTokens[|docTokens| - 1] then 1 else 0)
  }

  /** One document's contribution to the document frequencies: every token present adds one, once. */
  function Bump(df: map<string, nat>, present: set<string>): map<string, nat> {
    map t | t in df.Keys + present :: (if t in df then df[t] else 0) + (if t in present then 1 else 0)
  }

  /** The `Counter` of document frequencies after all documents. */
  function DocFreq(docTokens: seq<seq<string>>): (df: map<string, nat>)
    ensures df.Keys == AllTokens(docTokens)
    ensures forall t :: t in df ==> df[t] == Containing(docTokens, t)
    ensures forall t :: t in df ==> 1 <= df[t] <= |docTokens|
  {
    if |docTokens| == 0 then map[]
    else Bump(DocFreq(docTokens[..|docTokens| - 1]), Elems(docTokens[|docTokens| - 1]))
  }

  /** The smoothed IDF, log((n + 1) / (df + 1)) + 1, for every token with a document frequency. */
  function Idf(ops: Ops, nDocs: nat, df: map<string, nat>): (idf: map<string, real>)
    ensures idf.Keys == df.Keys
  {
    map t | t in df :: ops.log((nDocs as real + 1.0) / (df[t] as real + 1.0)) + 1.0
  }

  lemma RatioAtLeastOne(n: real, d: real)
    requires 0.0 <= d <= n
    ensures 1.0 <= (n + 1.0) / (d + 1.0)
  {
    var q := (n + 1.0) / (d + 1.0);
    assert q * (d + 1.0) == n + 1.0;
  }

  lemma RatioAntitone(n: real, a: real, b: real)
    requires 0.0 <= a <= b
    ensures (n + 1.0) / (b + 1.0) <= (n + 1.0) / (a + 1.0) || n + 1.0 < 0.0
  {
    if 0.0 <= n + 1.0 {
      var p, q := (n + 1.0) / (b + 1.0), (n + 1.0) / (a + 1.0);
      assert p * (b + 1.0) == n + 1.0;
      assert q * (a + 1.0) == n + 1.0;
      assert 0.0 <= p;
      assert p * (a + 1.0) <= p * (b + 1.0);
    }
  }

  /** With `df <= n_docs` every IDF is at least one, and a token that occurs in
      fewer documents never weighs less than one that occurs in more. */
  lemma IdfBounds(ops: Ops, nDocs: nat, df: map<string, nat>)
    requires Lawful(ops)
    requires forall t :: t in df ==> df[t] <= nDocs
    ensures forall t :: t in df ==> 1.0 <= Idf(ops, nDocs, df)[t]
    ensures forall a, b :: a in df && b in df && df[a] <= df[b] ==>
      Idf(ops, nDocs, df)[b] <= Idf(ops, nDocs, df)[a]
  {
    var idf := Idf(ops, nDocs, df);
    forall t | t in df
      ensures 1.0 <= idf[t]
    {
      RatioAtLeastOne(nDocs as real, df[t] as real);
    }
    forall a, b | a in df && b in df && df[a] <= df[b]
      ensures idf[b] <= idf[a]
    {
      RatioAtLeastOne(nDocs as real, df[b] as real);
      RatioAntitone(nDocs as real, df[a] as real, df[b] as real);
    }
  }

  /** The number of occurrences of `t` in `tokens`. */
  function Count(tokens: seq<string>, t: string): (n: nat)
    ensures 0 < n <==> t in tokens
  {
    if |tokens| == 0 then 0
    else (if tokens[0] == t then 1 else 0) + Count(tokens[1..], t)
  }

  /** The distinct tokens, in first-occurrence order (the keys of the counter). */
  function Distinct(tokens: seq<string>): (r: seq<string>)
    ensures forall t :: t in r <==> t in tokens
    ensures forall i, j :: 0 <= i < j < |r| ==> r[i] != r[j]
  {
    if |tokens| == 0 then []
    else
      var d := Distinct(tokens[..|tokens| - 1]);
      var t := tokens[|tokens| - 1];
      assert tokens == tokens[..|tokens| - 1] + [t];
      if t in d then d else d + [t]
  }

  /** The IDF of a token, 1 for a token the table lacks. */
  function IdfOr(idf: map<string, real>, t: string): real {
    if t in idf then idf[t] else 1.0
  }

  /** Sub-linear term frequency times IDF: (1 + log(count)) * idf. */
  function TermWeight(ops: Ops, count: nat, idfValue: real): real {
    (1.0 + ops.log(count as real)) * idfValue
  }

  lemma TermWeightAtLeastOne(ops: Ops, count: nat, idfValue: real)
    requires Lawful(ops)
    requires 1 <= count && 1.0 <= idfValue
    ensures 1.0 <= TermWeight(ops, count, idfValue)
  {
    var l := ops.log(count as real);
    assert 0.0 <= l;
    assert 1.0 * idfValue <= (1.0 + l) * idfValue;
  }

  /** The raw weight of vocabulary term `t` for a token list. */
  function WeightOf(ops: Ops, idf: map<string, real>, tokens: seq<string>, t: string): real {
    TermWeight(ops, Count(tokens, t), IdfOr(idf, t))
  }

  /** The raw vector after the loop over the distinct tokens has visited
      `terms`: starting from zeros, each visited token of the vocabulary has
      its weight written at its vocabulary position. */
  function RawVector(ops: Ops, vocab: map<string, int>, idf: map<string, real>,
                     tokens: seq<string>, terms: seq<string>, dim: nat): (v: seq<real>)
    requires IndexesWithin(vocab, dim)
    ensures |v| == dim
    decreases |terms|
  {
    if |terms| == 0 then Zeros(dim)
    else
      var v := RawVector(ops, vocab, idf, tokens, terms[..|terms| - 1], dim);
      var t := terms[|terms| - 1];
      if t in vocab then v[vocab[t] := WeightOf(ops, idf, tokens, t)] else v
  }

  /** Coordinate by coordinate: the position of a vocabulary term holds its
      weight when the term was visited and zero otherwise; a position no term
      owns stays zero. */
  lemma {:induction false} RawVectorAt(ops: Ops, vocab: map<string, int>, idf: map<string, real>,
                                       tokens: seq<string>, terms: seq<string>, dim: nat)
    requires IndexesWithin(vocab, dim) && Injective(vocab)
    ensures forall t :: t in vocab ==>
      RawVector(ops, vocab, idf, tokens, terms, dim)[vocab[t]] ==
        (if t in terms then WeightOf(ops, idf, tokens, t) else 0.0)
    ensures forall j :: 0 <= j < dim && j !in vocab.Values ==>
      RawVector(ops, vocab, idf, tokens, terms, dim)[j] == 0.0
    decreases |terms|
  {
    if |terms| > 0 {
      var init := terms[..|terms| - 1];
      RawVectorAt(ops, vocab, idf, tokens, init, dim);
      assert terms == init + [terms[|terms| - 1]];
    }
  }

  /** The L2-normalised TF-IDF vector of a token list over the frozen vocabulary. */
  function TfIdfVector(ops: Ops, vocab: map<string, int>, idf: map<string, real>,
                       tokens: seq<string>): (v: seq<real>)
    requires IndexesWithin(vocab, |vocab|)
    ensures |v| == |vocab|
  {
    Normalize(ops, RawVector(ops, vocab, idf, tokens, Distinct(tokens), |vocab|))
  }

  /** A vector has a non-zero coordinate exactly at the terms that occur in the
      token list, and no coordinate is negative. */
  lemma VectorSupport(ops: Ops, vocab: map<string, int>, idf: map<string, real>, tokens: seq<string>)
    requires Lawful(ops)
    requires IndexesWithin(vocab, |vocab|) && Injective(vocab)
    requires forall t :: t in idf ==> 1.0 <= idf[t]
    ensures NonNegative(TfIdfVector(ops, vocab, idf, tokens))
    ensures forall t :: t in vocab ==> (0.0 < TfIdfVector(ops, vocab, idf, tokens)[vocab[t]] <==> t in tokens)
    ensures forall t :: t in vocab ==> (TfIdfVector(ops, vocab, idf, tokens)[vocab[t]] == 0.0 <==> t !in tokens)
  {
    var terms := Distinct(tokens);
    var raw := RawVector(ops, vocab, idf, tokens, terms, |vocab|);
    RawVectorAt(ops, vocab, idf, tokens, terms, |vocab|);
    forall t | t in vocab && t in tokens
      ensures 1.0 <= raw[vocab[t]]
    {
      TermWeightAtLeastOne(ops, Count(tokens, t), IdfOr(idf, t));
    }
    forall j | 0 <= j < |raw|
      ensures 0.0 <= raw[j]
    {
      if j in vocab.Values {
        var t :| t in vocab && vocab[t] == j;
      }
    }
  }

  /** Tokens the vocabulary does not know contribute nothing: dropping them
      leaves the vector unchanged. */
  lemma UnknownTokensIgnored(ops: Ops, vocab: map<string, int>, idf: map<string, real>, tokens: seq<string>)
    requires IndexesWithin(vocab, |vocab|) && Injective(vocab)
    ensures TfIdfVector(ops, vocab, idf, tokens) == TfIdfVector(ops, vocab, idf, InVocabulary(tokens, vocab))
  {
    var known := InVocabulary(tokens, vocab);
    var a := RawVector(ops, vocab, idf, tokens, Distinct(tokens), |vocab|);
    var b := RawVector(ops, vocab, idf, known, Distinct(known), |vocab|);
    RawVectorAt(ops, vocab, idf, tokens, Distinct(tokens), |vocab|);
    RawVectorAt(ops, vocab, idf, known, Distinct(known), |vocab|);
    forall t | t in vocab
      ensures a[vocab[t]] == b[vocab[t]]
    {
      CountInVocabulary(tokens, vocab, t);
    }
    forall j | 0 <= j < |vocab|
      ensures a[j] == b[j]
    {
      if j in vocab.Values {
        var t :| t in vocab && vocab[t] == j;
      }
    }
    assert a == b;
  }

  /** The query tokens the vocabulary knows, in order. */
  function InVocabulary(tokens: seq<string>, vocab: map<string, int>): (r: seq<string>)
    ensures forall t :: t in r <==> t in tokens && t in vocab
  {
    if |tokens| == 0 then []
    else (if tokens[0] in vocab then [tokens[0]] else []) + InVocabulary(tokens[1..], vocab)
  }

  lemma {:induction false} CountInVocabulary(tokens: seq<string>, vocab: map<string, int>, t: string)
    requires t in vocab
    ensures Count(InVocabulary(tokens, vocab), t) == Count(tokens, t)
  {
    if |tokens| > 0 {
      CountInVocabulary(tokens[1..], vocab, t);
      var head := if tokens[0] in vocab then [tokens[0]] else [];
      CountAppend(head, InVocabulary(tokens[1..], vocab), t);
    }
  }

  lemma {:induction false} CountAppend(a: seq<string>, b: seq<string>, t: string)
    ensures Count(a + b, t) == Count(a, t) + Count(b, t)
  {
    if |a| == 0 {
      assert a + b == b;
    } else {
      assert (a + b)[1..] == a[1..] + b;
      CountAppend(a[1..], b, t);
    }
  }

  /** A token list none of whose tokens the vocabulary knows gives the zero vector. */
  lemma NoKnownTokenZeroVector(ops: Ops, vocab: map<string, int>, idf: map<string, real>, tokens: seq<string>)
    requires IndexesWithin(vocab, |vocab|) && Injective(vocab)
    requires forall t :: t in tokens ==> t !in vocab
    ensures IsZero(TfIdfVector(ops, vocab, idf, tokens))
  {
    var terms := Distinct(tokens);
    var raw := RawVector(ops, vocab, idf, tokens, terms, |vocab|);
    RawVectorAt(ops, vocab, idf, tokens, terms, |vocab|);
    forall j | 0 <= j < |raw|
      ensures raw[j] == 0.0
    {
      if j in vocab.Values {
        var t :| t in vocab && vocab[t] == j;
        assert t !in terms;
      }
    }
  }
}
