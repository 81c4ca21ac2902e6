/** The tokenizer shared by documents and queries: lower-case the text, take
    the maximal runs of `[a-z0-9]`, then drop stopwords and one-character
    tokens. */
module Tokenizer {
  import opened Text

  /** The fixed English stopword set: articles, prepositions, auxiliary verbs,
      pronouns and conjunctions. */
  const Stopwords: set<string> := {
    "the", "a", "an", "is", "are", "was", "were", "be", "been", "being",
    "have", "has", "had", "do", "does", "did", "will", "would", "shall",
    "should", "may", "might", "must", "can", "could", "of", "in", "to",
    "for", "with", "on", "at", "from", "by", "about", "as", "into",
    "through", "during", "before", "after", "above", "below", "between",
    "and", "but", "or", "nor", "not", "so", "yet", "both", "either",
    "neither", "each", "every", "all", "any", "few", "more", "most",
    "other", "some", "such", "no", "only", "own", "same", "than",
    "too", "very", "just", "because", "if", "when", "while", "this",
    "that", "these", "those", "it", "its", "i", "me", "my", "we", "our",
    "you", "your", "he", "him", "his", "she", "her", "they", "them", "their"
  }

  predicate AllTokenChars(w: string) {
    forall i :: 0 <= i < |w| ==> IsTokenChar(w[i])
  }

  /** A non-empty string over the token alphabet: one match of `[a-z0-9]+`. */
  predicate IsRun(w: string) {
    |w| > 0 && AllTokenChars(w)
  }

  /** A token the tokenizer may return, for the stopword set `stop`. */
  predicate IsToken(t: string, stop: set<string>) {
    IsRun(t) && Kept(t, stop)
  }

  function Flush(cur: string): seq<string> {
    if cur == [] then [] else [cur]
  }

  /** Left-to-right scan for the matches of `[a-z0-9]+`; `cur` is the run
      read so far and not yet closed by a separator. */
  function RunsFrom(s: string, cur: string): (r: seq<string>)
    requires AllTokenChars(cur)
    ensures forall k :: 0 <= k < |r| ==> IsRun(r[k])
    decreases |s|
  {
    if |s| == 0 then Flush(cur)
    else if IsTokenChar(s[0]) then RunsFrom(s[1..], cur + [s[0]])
    else Flush(cur) + RunsFrom(s[1..], [])
  }

  /** All non-overlapping matches of `[a-z0-9]+` in `s`, left to right. */
  function Runs(s: string): seq<string> {
    RunsFrom(s, [])
  }

  function Concat(ws: seq<string>): string {
    if |ws| == 0 then [] else ws[0] + Concat(ws[1..])
  }

  function TokenChars(s: string): string {
    if |s| == 0 then []
    else (if IsTokenChar(s[0]) then [s[0]] else []) + TokenChars(s[1..])
  }

  lemma ConcatAppend(a: seq<string>, b: seq<string>)
    ensures Concat(a + b) == Concat(a) + Concat(b)
  {
    if |a| == 0 {
      assert a + b == b;
    } else {
      assert (a + b)[1..] == a[1..] + b;
      ConcatAppend(a[1..], b);
    }
  }

  /** The runs hold every alphabet character of the input, in input order, and nothing else. */
  lemma {:induction false} RunsKeepTokenChars(s: string, cur: string)
    requires AllTokenChars(cur)
    ensures Concat(RunsFrom(s, cur)) == cur + TokenChars(s)
    decreases |s|
  {
    if |s| == 0 {
      assert Concat(Flush(cur)) == cur;
    } else if IsTokenChar(s[0]) {
      RunsKeepTokenChars(s[1..], cur + [s[0]]);
      assert TokenChars(s) == [s[0]] + TokenChars(s[1..]);
    } else {
      RunsKeepTokenChars(s[1..], []);
      ConcatAppend(Flush(cur), RunsFrom(s[1..], []));
      assert Concat(Flush(cur)) == cur;
      assert TokenChars(s) == TokenChars(s[1..]);
    }
  }

  /** A string over the alphabet is read as one run (maximality inside a word). */
  lemma {:induction false} RunsOfWord(w: string, cur: string)
    requires AllTokenChars(cur)
    requires AllTokenChars(w)
    requires |cur + w| > 0
    ensures RunsFrom(w, cur) == [cur + w]
    decreases |w|
  {
    if |w| == 0 {
      assert cur + w == cur;
    } else {
      assert cur + w == (cur + [w[0]]) + w[1..];
      RunsOfWord(w[1..], cur + [w[0]]);
    }
  }

  /** A separator ends the current run and starts an independent scan (maximality at the edges). */
  lemma {:induction false} RunsAtSeparator(s: string, c: char, t: string, cur: string)
    requires AllTokenChars(cur)
    requires !IsTokenChar(c)
    ensures RunsFrom(s + [c] + t, cur) == RunsFrom(s, cur) + Runs(t)
    decreases |s|
  {
    if |s| == 0 {
      assert s + [c] + t == [c] + t;
      assert ([c] + t)[1..] == t;
    } else {
      assert (s + [c] + t)[0] == s[0];
      assert (s + [c] + t)[1..] == s[1..] + [c] + t;
      if IsTokenChar(s[0]) {
        RunsAtSeparator(s[1..], c, t, cur + [s[0]]);
      } else {
        RunsAtSeparator(s[1..], c, t, []);
      }
    }
  }

  /** The condition of the list comprehension: not a stopword and longer than one character. */
  predicate Kept(t: string, stop: set<string>) {
    t !in stop && |t| > 1
  }

  /** The filter of the list comprehension. */
  function Keep(ws: seq<string>, stop: set<string>): (r: seq<string>)
    ensures forall t :: t in r <==> t in ws && Kept(t, stop)
  {
    if |ws| == 0 then []
    else (if Kept(ws[0], stop) then [ws[0]] else []) + Keep(ws[1..], stop)
  }

  lemma {:induction false} KeepAppend(a: seq<string>, b: seq<string>, stop: set<string>)
    ensures Keep(a + b, stop) == Keep(a, stop) + Keep(b, stop)
  {
    if |a| == 0 {
      assert a + b == b;
    } else {
      assert (a + b)[1..] == a[1..] + b;
      KeepAppend(a[1..], b, stop);
    }
  }

  /** `_tokenize` with the stopword set `stop`. */
  function TokenizeWith(text: string, stop: set<string>): (r: seq<string>)
    ensures forall k :: 0 <= k < |r| ==> IsToken(r[k], stop)
    ensures forall t :: t in r <==> t in Runs(Lower(text)) && Kept(t, stop)
  {
    var runs := Runs(Lower(text));
    var r := Keep(runs, stop);
    assert forall k :: 0 <= k < |r| ==> r[k] in runs;
    r
  }

  /** `_tokenize`: the source's fixed stopword set. */
  function Tokenize(text: string): seq<string> {
    TokenizeWith(text, Stopwords)
  }

  /** Tokenizing two texts joined by any separator gives the two token lists
      one after the other: output order follows input order. */
  lemma TokenizeAtSeparator(s: string, c: char, t: string, stop: set<string>)
    requires !IsTokenChar(LowerChar(c))
    ensures TokenizeWith(s + [c] + t, stop) == TokenizeWith(s, stop) + TokenizeWith(t, stop)
  {
    LowerAppend(s + [c], t);
    LowerAppend(s, [c]);
    assert Lower([c]) == [LowerChar(c)];
    RunsAtSeparator(Lower(s), LowerChar(c), Lower(t), []);
    KeepAppend(Runs(Lower(s)), Runs(Lower(t)), stop);
  }

  /** A text that is one word gives that word as its only token unless the word
      is a stopword or a single character. */
  lemma TokenizeWord(w: string, stop: set<string>)
    requires IsRun(w)
    ensures TokenizeWith(w, stop) == if Kept(w, stop) then [w] else []
  {
    assert forall i :: 0 <= i < |w| ==> Lower(w)[i] == w[i];
    assert Lower(w) == w;
    RunsOfWord(w, []);
    assert [] + w == w;
    assert Runs(Lower(w)) == [w];
    assert [w][1..] == [];
    assert Keep([w], stop) == (if Kept(w, stop) then [w] else []) + Keep([], stop);
  }
}
