/** The vocabulary of the index: the distinct document tokens in sorted order,
    numbered `0..N-1` in that order. */
module Vocabulary {
  import opened Text

  function Elems(xs: seq<string>): set<string> {
    set t | t in xs
  }

  /** The distinct tokens of all documents. */
  function AllTokens(docTokens: seq<seq<string>>): set<string> {
    set i, t | 0 <= i < |docTokens| && t in docTokens[i] :: t
  }

  /** The token set grows document by document, in corpus order: adding the
      documents one at a time builds the same set. */
  lemma AllTokensSnoc(docTokens: seq<seq<string>>)
    requires |docTokens| > 0
    ensures AllTokens(docTokens) == AllTokens(docTokens[..|docTokens| - 1]) + Elems(docTokens[|docTokens| - 1])
  {
    var init := docTokens[..|docTokens| - 1];
    assert forall i :: 0 <= i < |init| ==> init[i] == docTokens[i];
  }

  predicate StrictlySorted(xs: seq<string>) {
    forall i, j :: 0 <= i < j < |xs| ==> StrLess(xs[i], xs[j])
  }

  lemma StrictlySortedDistinct(xs: seq<string>)
    requires StrictlySorted(xs)
    ensures forall i, j :: 0 <= i < |xs| && 0 <= j < |xs| && xs[i] == xs[j] ==> i == j
  {
    forall i, j | 0 <= i < |xs| && 0 <= j < |xs| && xs[i] == xs[j]
      ensures i == j
    {
      if i < j {
        StrLessIrreflexive(xs[i]);
      } else if j < i {
        StrLessIrreflexive(xs[j]);
      }
    }
  }

  /** Insert `t` into a strictly sorted list unless it is already there. */
  function InsertSorted(xs: seq<string>, t: string): (r: seq<string>)
    requires StrictlySorted(xs)
    ensures StrictlySorted(r)
    ensures Elems(r) == Elems(xs) + {t}
  {
    if |xs| == 0 then [t]
    else if t == xs[0] then xs
    else if StrLess(t, xs[0]) then
      LessThanAll(t, xs);
      [t] + xs
    else
      StrLessTotal(t, xs[0]);
      var rest := InsertSorted(xs[1..], t);
      assert xs == [xs[0]] + xs[1..];
      HeadBelowInsert(xs, t, rest);
      [xs[0]] + rest
  }

  lemma HeadBelowInsert(xs: seq<string>, t: string, rest: seq<string>)
    requires StrictlySorted(xs) && |xs| > 0 && StrLess(xs[0], t)
    requires StrictlySorted(rest) && Elems(rest) == Elems(xs[1..]) + {t}
    ensures StrictlySorted([xs[0]] + rest)
    ensures Elems([xs[0]] + rest) == Elems(xs) + {t}
  {
    forall j | 0 <= j < |rest|
      ensures StrLess(xs[0], rest[j])
    {
      assert rest[j] in Elems(rest);
      if rest[j] != t {
        var k :| 0 <= k < |xs[1..]| && xs[1..][k] == rest[j];
        assert xs[k + 1] == rest[j];
      }
    }
    assert xs == [xs[0]] + xs[1..];
    assert Elems(xs) == {xs[0]} + Elems(xs[1..]);
    assert Elems([xs[0]] + rest) == {xs[0]} + Elems(rest);
  }

  lemma LessThanAll(t: string, xs: seq<string>)
    requires StrictlySorted(xs) && |xs| > 0 && StrLess(t, xs[0])
    ensures StrictlySorted([t] + xs)
  {
    forall j | 0 <= j < |xs|
      ensures StrLess(t, xs[j])
    {
      if j > 0 {
        StrLessTransitive(t, xs[0], xs[j]);
      }
    }
  }

  function InsertAll(xs: seq<string>, ts: seq<string>): (r: seq<string>)
    requires StrictlySorted(xs)
    ensures StrictlySorted(r)
    ensures Elems(r) == Elems(xs) + Elems(ts)
    decreases |ts|
  {
    if |ts| == 0 then xs
    else
      assert Elems(ts) == {ts[0]} + Elems(ts[1..]);
      InsertAll(InsertSorted(xs, ts[0]), ts[1..])
  }

  /** The distinct tokens in sorted order, built document by document. */
  function SortedTokens(docTokens: seq<seq<string>>): (r: seq<string>)
    ensures StrictlySorted(r)
    ensures Elems(r) == AllTokens(docTokens)
  {
    if |docTokens| == 0 then []
    else InsertAll(SortedTokens(docTokens[..|docTokens| - 1]), docTokens[|docTokens| - 1])
  }

  /** There is only one strictly sorted list of a given set of strings, so
      `SortedTokens` is the sorted enumeration of the distinct tokens, whatever
      order the documents insert them in. */
  lemma {:induction false} SortedUnique(a: seq<string>, b: seq<string>)
    requires StrictlySorted(a) && StrictlySorted(b)
    requires Elems(a) == Elems(b)
    ensures a == b
    decreases |a|
  {
    ElemsEmpty(a);
    ElemsEmpty(b);
    if |a| > 0 && |b| > 0 {
      assert a[0] == b[0] by {
        assert a[0] in Elems(b);
        assert b[0] in Elems(a);
        var i :| 0 <= i < |b| && b[i] == a[0];
        var j :| 0 <= j < |a| && a[j] == b[0];
        if i > 0 && j > 0 {
          StrLessTransitive(a[0], b[0], a[0]);
          StrLessIrreflexive(a[0]);
        }
      }
      StrictlySortedDistinct(a);
      StrictlySortedDistinct(b);
      assert Elems(a[1..]) == Elems(a) - {a[0]} by {
        assert a == [a[0]] + a[1..];
      }
      assert Elems(b[1..]) == Elems(b) - {b[0]} by {
        assert b == [b[0]] + b[1..];
      }
      SortedUnique(a[1..], b[1..]);
      assert a == [a[0]] + a[1..] && b == [b[0]] + b[1..];
    }
  }

  lemma ElemsEmpty(xs: seq<string>)
    ensures |xs| == 0 <==> Elems(xs) == {}
  {
    if |xs| > 0 {
      assert xs[0] in Elems(xs);
    }
  }

  /** The map from each term to its position. */
  function VocabOf(terms: seq<string>): (vocab: map<string, int>)
    requires StrictlySorted(terms)
  {
    StrictlySortedDistinct(terms);
    map i | 0 <= i < |terms| :: terms[i] := i
  }

  lemma {:induction false} DistinctCardinality(xs: seq<string>)
    requires forall i, j :: 0 <= i < |xs| && 0 <= j < |xs| && xs[i] == xs[j] ==> i == j
    ensures |Elems(xs)| == |xs|
    decreases |xs|
  {
    if |xs| > 0 {
      var init := xs[..|xs| - 1];
      DistinctCardinality(init);
      assert Elems(xs) == Elems(init) + {xs[|xs| - 1]} by {
        assert xs == init + [xs[|xs| - 1]];
      }
      assert xs[|xs| - 1] !in Elems(init);
    }
  }

  predicate IndexesWithin(vocab: map<string, int>, dim: nat) {
    forall t :: t in vocab ==> 0 <= vocab[t] < dim
  }

  predicate Injective(vocab: map<string, int>) {
    forall a, b :: a in vocab && b in vocab && a != b ==> vocab[a] != vocab[b]
  }

  /** `vocab` numbers the set `tokens` bijectively onto `0..N-1`, in increasing string order. */
  ghost predicate IsSortedNumbering(vocab: map<string, int>, tokens: set<string>) {
    && vocab.Keys == tokens
    && IndexesWithin(vocab, |vocab|)
    && Injective(vocab)
    && (forall j :: 0 <= j < |vocab| ==> j in vocab.Values)
    && (forall a, b :: a in vocab && b in vocab ==> (StrLess(a, b) <==> vocab[a] < vocab[b]))
  }

  lemma VocabWithin(terms: seq<string>)
    requires StrictlySorted(terms)
    ensures IndexesWithin(VocabOf(terms), |VocabOf(terms)|)
  {
    VocabBijection(terms);
  }

  /** The vocabulary built from the sorted distinct document tokens numbers
      exactly those tokens, bijectively onto `0..N-1`, in sorted order. */
  lemma SortedVocabulary(docTokens: seq<seq<string>>)
    ensures IsSortedNumbering(VocabOf(SortedTokens(docTokens)), AllTokens(docTokens))
  {
    var terms := SortedTokens(docTokens);
    var vocab := VocabOf(terms);
    VocabBijection(terms);
    forall j | 0 <= j < |vocab|
      ensures j in vocab.Values
    {
      assert vocab[terms[j]] == j;
    }
  }

  /** The vocabulary maps the sorted terms bijectively onto `0..N-1` and
      numbers them in increasing string order. */
  lemma VocabBijection(terms: seq<string>)
    requires StrictlySorted(terms)
    ensures VocabOf(terms).Keys == Elems(terms)
    ensures |VocabOf(terms)| == |terms|
    ensures forall t :: t in VocabOf(terms) ==>
      0 <= VocabOf(terms)[t] < |terms| && terms[VocabOf(terms)[t]] == t
    ensures forall j :: 0 <= j < |terms| ==> terms[j] in VocabOf(terms) && VocabOf(terms)[terms[j]] == j
    ensures forall a, b :: a in VocabOf(terms) && b in VocabOf(terms) && a != b ==>
      VocabOf(terms)[a] != VocabOf(terms)[b]
    ensures forall a, b :: a in VocabOf(terms) && b in VocabOf(terms) ==>
      (StrLess(a, b) <==> VocabOf(terms)[a] < VocabOf(terms)[b])
  {
    var vocab := VocabOf(terms);
    StrictlySortedDistinct(terms);
    DistinctCardinality(terms);
    assert vocab.Keys == Elems(terms);
    forall a, b | a in vocab && b in vocab
      ensures StrLess(a, b) <==> vocab[a] < vocab[b]
    {
      var i, j := vocab[a], vocab[b];
      if i == j {
        StrLessIrreflexive(a);
      } else if j < i {
        assert StrLess(b, a);
        if StrLess(a, b) {
          StrLessTransitive(a, b, a);
          StrLessIrreflexive(a);
        }
      }
    }
  }
}
