/** Result records of a search and their ordering: a stable sort by rounded
    score, highest first, and the cut after the first `top_k`. */
module Ranking {

  datatype SearchResult = SearchResult(
    documentId: string,
    payer: string,
    category: string,
    title: string,
    content: string,
    score: real)

  predicate SortedDesc(rs: seq<SearchResult>) {
    forall i, j :: 0 <= i < j < |rs| ==> rs[j].score <= rs[i].score
  }

  /** The sub-sequence of results whose score is exactly `k`. Python's sort is
      stable, also with `reverse=True`: each such sub-sequence keeps its order. */
  function WithScore(rs: seq<SearchResult>, k: real): seq<SearchResult> {
    if |rs| == 0 then []
    else (if rs[0].score == k then [rs[0]] else []) + WithScore(rs[1..], k)
  }

  lemma {:induction false} WithScoreMembers(rs: seq<SearchResult>, k: real)
    ensures forall x :: x in WithScore(rs, k) <==> x in rs && x.score == k
  {
    if |rs| > 0 {
      WithScoreMembers(rs[1..], k);
      assert rs == [rs[0]] + rs[1..];
    }
  }

  lemma {:induction false} WithScoreAppend(a: seq<SearchResult>, b: seq<SearchResult>, k: real)
    ensures WithScore(a + b, k) == WithScore(a, k) + WithScore(b, k)
  {
    if |a| == 0 {
      assert a + b == b;
    } else {
      assert (a + b)[0] == a[0];
      assert (a + b)[1..] == a[1..] + b;
      WithScoreAppend(a[1..], b, k);
    }
  }

  lemma {:induction false} WithScoreNone(rs: seq<SearchResult>, k: real)
    requires forall i :: 0 <= i < |rs| ==> rs[i].score != k
    ensures WithScore(rs, k) == []
  {
    if |rs| > 0 {
      WithScoreNone(rs[1..], k);
    }
  }

  /** Putting a result in front of a sorted list that scores no higher keeps it sorted. */
  lemma ConsSorted(h: SearchResult, rest: seq<SearchResult>)
    requires SortedDesc(rest)
    requires forall j :: 0 <= j < |rest| ==> rest[j].score <= h.score
    ensures SortedDesc([h] + rest)
  {
    var r := [h] + rest;
    forall i, j | 0 <= i < j < |r| ensures r[j].score <= r[i].score {
      assert r[j] == rest[j - 1];
      if i > 0 {
        assert r[i] == rest[i - 1];
      }
    }
  }

  /** What is inserted into the tail of a sorted list scores no higher than its head. */
  lemma InsertedBelowHead(rs: seq<SearchResult>, x: SearchResult, rest: seq<SearchResult>)
    requires SortedDesc(rs) && |rs| > 0
    requires x.score <= rs[0].score
    requires multiset(rest) == multiset(rs[1..]) + multiset{x}
    ensures forall j :: 0 <= j < |rest| ==> rest[j].score <= rs[0].score
  {
    forall j | 0 <= j < |rest| ensures rest[j].score <= rs[0].score {
      var y := rest[j];
      assert y in multiset(rest);
      if y != x {
        assert y in multiset(rs[1..]);
        var i :| 0 <= i < |rs| - 1 && rs[1..][i] == y;
        assert rs[i + 1] == y;
      }
    }
  }

  /** Insert `x` after every result scoring at least as high. */
  function InsertByScore(rs: seq<SearchResult>, x: SearchResult): (r: seq<SearchResult>)
    requires SortedDesc(rs)
    ensures SortedDesc(r)
    ensures multiset(r) == multiset(rs) + multiset{x}
    ensures |r| == |rs| + 1
  {
    if |rs| == 0 then [x]
    else if rs[0].score < x.score then
      ConsSorted(x, rs);
      [x] + rs
    else
      var rest := InsertByScore(rs[1..], x);
      assert rs == [rs[0]] + rs[1..];
      InsertedBelowHead(rs, x, rest);
      ConsSorted(rs[0], rest);
      [rs[0]] + rest
  }

  /** A result scoring above the whole sorted list joins no class already in it. */
  lemma InsertFrontStable(rs: seq<SearchResult>, x: SearchResult, k: real)
    requires SortedDesc(rs) && |rs| > 0
    requires rs[0].score < x.score
    ensures WithScore([x] + rs, k) == WithScore(rs, k) + WithScore([x], k)
  {
    WithScoreAppend([x], rs, k);
    if x.score == k {
      assert forall i :: 0 <= i < |rs| ==> rs[i].score <= rs[0].score;
      WithScoreNone(rs, k);
    } else {
      assert WithScore([x], k) == [];
    }
  }

  lemma ConsStable(h: SearchResult, tail: seq<SearchResult>, rest: seq<SearchResult>, x: SearchResult, k: real)
    requires WithScore(rest, k) == WithScore(tail, k) + WithScore([x], k)
    ensures WithScore([h] + rest, k) == WithScore([h] + tail, k) + WithScore([x], k)
  {
    WithScoreAppend([h], rest, k);
    WithScoreAppend([h], tail, k);
  }

  lemma {:induction false} InsertByScoreStable(rs: seq<SearchResult>, x: SearchResult, k: real)
    requires SortedDesc(rs)
    ensures WithScore(InsertByScore(rs, x), k) == WithScore(rs, k) + WithScore([x], k)
    decreases |rs|
  {
    if |rs| == 0 {
      assert WithScore(rs, k) == [];
    } else if rs[0].score < x.score {
      InsertFrontStable(rs, x, k);
    } else {
      var tail := rs[1..];
      InsertByScoreStable(tail, x, k);
      ConsStable(rs[0], tail, InsertByScore(tail, x), x, k);
      assert rs == [rs[0]] + tail;
    }
  }

  /** The stable descending sort, by insertion in list order. */
  function SortByScore(rs: seq<SearchResult>): (r: seq<SearchResult>)
    ensures SortedDesc(r)
    ensures multiset(r) == multiset(rs)
    ensures |r| == |rs|
  {
    if |rs| == 0 then []
    else
      assert rs == rs[..|rs| - 1] + [rs[|rs| - 1]];
      InsertByScore(SortByScore(rs[..|rs| - 1]), rs[|rs| - 1])
  }

  /** Stability: results with equal scores come out in the order they went in. */
  lemma {:induction false} SortByScoreStable(rs: seq<SearchResult>, k: real)
    ensures WithScore(SortByScore(rs), k) == WithScore(rs, k)
  {
    if |rs| > 0 {
      var init, last := rs[..|rs| - 1], rs[|rs| - 1];
      SortByScoreStable(init, k);
      InsertByScoreStable(SortByScore(init), last, k);
      WithScoreAppend(init, [last], k);
      assert rs == init + [last];
    }
  }

  /** The head of a list sorted by descending score has the highest score of
      the list. */
  lemma SortedHeadIsMax(rs: seq<SearchResult>, x: SearchResult)
    requires SortedDesc(rs) && x in rs
    ensures x.score <= rs[0].score
  {
    var i :| 0 <= i < |rs| && rs[i] == x;
  }

  /** A sorted list is fixed by the order of each score class: so a stable
      descending sort has exactly one possible output. */
  lemma {:induction false} SortedByClassesUnique(a: seq<SearchResult>, b: seq<SearchResult>)
    requires SortedDesc(a) && SortedDesc(b)
    requires forall k :: WithScore(a, k) == WithScore(b, k)
    ensures a == b
    decreases |a|
  {
    if |a| > 0 {
      assert |WithScore(b, a[0].score)| > 0;
    }
    if |b| > 0 {
      assert |WithScore(a, b[0].score)| > 0;
    }
    if |a| > 0 && |b| > 0 {
      var ka, kb := a[0].score, b[0].score;
      WithScoreMembers(b, ka);
      WithScoreMembers(a, kb);
      assert a[0] in WithScore(b, ka);
      assert b[0] in WithScore(a, kb);
      SortedHeadIsMax(b, a[0]);
      SortedHeadIsMax(a, b[0]);
      assert a[0] == WithScore(a, ka)[0] == WithScore(b, kb)[0] == b[0];
      forall k
        ensures WithScore(a[1..], k) == WithScore(b[1..], k)
      {
        assert a == [a[0]] + a[1..] && b == [b[0]] + b[1..];
        WithScoreAppend([a[0]], a[1..], k);
        WithScoreAppend([b[0]], b[1..], k);
        var p := WithScore([a[0]], k);
        assert WithScore(a[1..], k) == (p + WithScore(a[1..], k))[|p|..];
        assert WithScore(b[1..], k) == (p + WithScore(b[1..], k))[|p|..];
      }
      SortedByClassesUnique(a[1..], b[1..]);
      assert a == [a[0]] + a[1..] && b == [b[0]] + b[1..];
    }
  }

  function Min(a: int, b: int): int {
    if a <= b then a else b
  }

  /** The first `k` results, or all of them when there are fewer. */
  function TopK(rs: seq<SearchResult>, k: nat): (r: seq<SearchResult>)
    ensures |r| == Min(k, |rs|)
    ensures r <= rs
  {
    if k < |rs| then rs[..k] else rs
  }

  lemma {:induction false} WithScorePrefix(rs: seq<SearchResult>, m: nat, k: real)
    requires m <= |rs|
    ensures WithScore(rs[..m], k) <= WithScore(rs, k)
  {
    assert rs == rs[..m] + rs[m..];
    WithScoreAppend(rs[..m], rs[m..], k);
  }

  /** After a descending sort, whatever `top_k` cuts off scores no higher than
      anything it keeps. */
  lemma TopKIsBest(rs: seq<SearchResult>, k: nat)
    requires SortedDesc(rs)
    ensures forall x, y :: x in TopK(rs, k) && y in rs && y !in TopK(rs, k) ==> y.score <= x.score
  {
    var top := TopK(rs, k);
    forall x, y | x in top && y in rs && y !in top
      ensures y.score <= x.score
    {
      var i :| 0 <= i < |top| && top[i] == x;
      var j :| 0 <= j < |rs| && rs[j] == y;
      assert rs[i] == x;
    }
  }

  lemma SameMembers(a: seq<SearchResult>, b: seq<SearchResult>)
    requires multiset(a) == multiset(b)
    ensures forall x :: x in a <==> x in b
  {
    forall x ensures x in a <==> x in b {
      assert x in a <==> x in multiset(a);
      assert x in b <==> x in multiset(b);
    }
  }

  lemma PrefixSorted(rs: seq<SearchResult>, p: seq<SearchResult>)
    requires SortedDesc(rs) && p <= rs
    ensures SortedDesc(p)
  {
    forall i, j | 0 <= i < j < |p| ensures p[j].score <= p[i].score {
      assert p[i] == rs[i] && p[j] == rs[j];
    }
  }

  /** Cutting a stably sorted list keeps each score class a prefix of its
      class in the input. */
  lemma SortedPrefixStable(rs: seq<SearchResult>, m: nat)
    requires m <= |rs|
    ensures forall s :: WithScore(SortByScore(rs)[..m], s) <= WithScore(rs, s)
  {
    var sorted := SortByScore(rs);
    forall s ensures WithScore(sorted[..m], s) <= WithScore(rs, s) {
      WithScorePrefix(sorted, m, s);
      SortByScoreStable(rs, s);
    }
  }

  /** What a cut of a sorted permutation leaves out scores no higher than
      anything it keeps. */
  lemma SortedPrefixBest(rs: seq<SearchResult>, sorted: seq<SearchResult>, k: nat)
    requires SortedDesc(sorted) && multiset(sorted) == multiset(rs)
    ensures forall x, y :: x in TopK(sorted, k) && y in rs && y !in TopK(sorted, k) ==> y.score <= x.score
  {
    SameMembers(sorted, rs);
    TopKIsBest(sorted, k);
  }

  /** Sort by score, highest first, then keep the first `k`: the best `k`
      results, highest score first, equal scores in their original order. */
  function Rank(rs: seq<SearchResult>, k: nat): (r: seq<SearchResult>)
    ensures |r| == Min(k, |rs|)
    ensures SortedDesc(r)
    ensures forall x :: x in r ==> x in rs
    ensures forall s :: WithScore(r, s) <= WithScore(rs, s)
    ensures forall x, y :: x in r && y in rs && y !in r ==> y.score <= x.score
  {
    var sorted := SortByScore(rs);
    var top := TopK(sorted, k);
    SameMembers(sorted, rs);
    PrefixSorted(sorted, top);
    assert top == sorted[..|top|];
    SortedPrefixStable(rs, |top|);
    SortedPrefixBest(rs, sorted, k);
    top
  }

  /** The stable sort leaves an already ordered list as it is, so ranking it
      only cuts it. */
  lemma RankSorted(rs: seq<SearchResult>, k: nat)
    requires SortedDesc(rs)
    ensures Rank(rs, k) == TopK(rs, k)
  {
    forall s ensures WithScore(SortByScore(rs), s) == WithScore(rs, s) {
      SortByScoreStable(rs, s);
    }
    SortedByClassesUnique(SortByScore(rs), rs);
  }
}
