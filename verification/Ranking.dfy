/**
 BM25 scores over stored documents, computed from their tokens alone, and the ranking
 they induce.  The logarithm is any strictly increasing function with `ln(1) = 0`.
 */
module Ranking {
  import opened Prelude
  import opened Reals
  import opened Postings

  type Log = real -> real

  ghost predicate IsLog(ln: Log) {
    ln(1.0) == 0.0 && forall x, y :: 0.0 < x < y ==> ln(x) < ln(y)
  }

  // ---- Scores ----

  function Max(a: real, b: real): real {
    if a < b then b else a
  }

  function Idf(ln: Log, n: nat, df: nat): real {
    ln((n as real - df as real + 0.5) / (df as real + 0.5) + 1.0)
  }

  function Saturation(length: nat, average: real): real {
    1.2 * (1.0 - 0.75 + 0.75 * (length as real / Max(average, 1.0)))
  }

  function TfNorm(tf: nat, length: nat, average: real): real
    requires tf as real + Saturation(length, average) != 0.0
  {
    tf as real * 2.2 / (tf as real + Saturation(length, average))
  }

  lemma SaturationPositive(length: nat, average: real)
    ensures Saturation(length, average) > 0.0
  {
    var m := Max(average, 1.0);
    DivTimes(length as real, m);
    hide Mul;
    MulOrder(length as real / m, 0.0, m);
    MulUnits(m);
  }

  /** The frequency factor of an occurring term lies strictly between 0 and 2.2. */
  lemma TfNormBounds(tf: nat, length: nat, average: real)
    requires tf > 0
    ensures tf as real + Saturation(length, average) > 0.0
    ensures 0.0 < TfNorm(tf, length, average) < 2.2
  {
    SaturationPositive(length, average);
    var d := tf as real + Saturation(length, average);
    var q := tf as real * 2.2 / d;
    DivTimes(tf as real * 2.2, d);
    hide Mul, Saturation;
    MulOrder(0.0, q, d);
    MulUnits(d);
    MulOrder(q, 2.2, d);
    assert Mul(2.2, d) == 2.2 * d by { MulIs(2.2, d); }
  }

  lemma MulIs(x: real, y: real)
    ensures Mul(x, y) == x * y
  {
  }

  /** A term found in no more documents than there are has a positive weight. */
  lemma IdfPositive(ln: Log, n: nat, df: nat)
    requires IsLog(ln) && df <= n
    ensures Idf(ln, n, df) > 0.0
  {
    var x, d := n as real - df as real + 0.5, df as real + 0.5;
    DivTimes(x, d);
    hide Mul;
    MulOrder(0.0, x / d, d);
    MulUnits(d);
    assert ln(1.0) < ln(x / d + 1.0);
  }

  function Average(toks: Tokens, total: real): real {
    total / Max(|toks| as real, 1.0)
  }

  /** What a document's `tf` occurrences of a term with document frequency `df` contribute. */
  function Contribution(ln: Log, n: nat, df: nat, tf: nat, length: nat, average: real): real
    requires tf > 0
  {
    SaturationPositive(length, average);
    Mul(Idf(ln, n, df), TfNorm(tf, length, average))
  }

  function LengthTable(toks: Tokens): map<string, real> {
    map id | id in toks :: |toks[id]| as real
  }

  ghost function TotalLength(toks: Tokens): real {
    Total(LengthTable(toks))
  }

  /** The contribution of one query token, by counting in the documents' own tokens. */
  ghost function TermScore(ln: Log, toks: Tokens, term: string, id: string): real
    requires id in toks
  {
    if term !in toks[id] then 0.0
    else
      PositionsEmpty(toks[id], term);
      Contribution(ln, |toks|, |PostingsOf(toks, term)|, |Positions(toks[id], term)|, |toks[id]|,
        Average(toks, TotalLength(toks)))
  }

  ghost function Score(ln: Log, toks: Tokens, query: seq<string>, id: string): real
    requires id in toks
  {
    if query == [] then 0.0
    else Score(ln, toks, query[..|query| - 1], id) + TermScore(ln, toks, query[|query| - 1], id)
  }

  predicate Shares(toks: Tokens, query: seq<string>, id: string)
    requires id in toks
  {
    exists t :: t in query && t in toks[id]
  }

  lemma TermScorePositive(ln: Log, toks: Tokens, term: string, id: string)
    requires IsLog(ln) && id in toks
    ensures TermScore(ln, toks, term, id) >= 0.0
    ensures term in toks[id] <==> TermScore(ln, toks, term, id) > 0.0
  {
    if term in toks[id] {
      PositionsEmpty(toks[id], term);
      PostingsBounded(toks, term);
      var df, tf, average := |PostingsOf(toks, term)|, |Positions(toks[id], term)|, Average(toks, TotalLength(toks));
      IdfPositive(ln, |toks|, df);
      TfNormBounds(tf, |toks[id]|, average);
      hide Mul, Idf, TfNorm;
      MulPositive(Idf(ln, |toks|, df), TfNorm(tf, |toks[id]|, average));
    }
  }

  lemma PostingsBounded(toks: Tokens, term: string)
    ensures |PostingsOf(toks, term)| <= |toks|
  {
    var a, b := PostingsOf(toks, term).Keys, toks.Keys;
    assert a <= b && b == a + (b - a);
  }

  /** The score of a document is positive exactly when it shares a token with the query. */
  lemma {:induction false} ScorePositive(ln: Log, toks: Tokens, query: seq<string>, id: string)
    requires IsLog(ln) && id in toks
    ensures Score(ln, toks, query, id) >= 0.0
    ensures Score(ln, toks, query, id) > 0.0 <==> Shares(toks, query, id)
    decreases |query|
  {
    if query != [] {
      hide TermScore, IsLog;
      var init, last := query[..|query| - 1], query[|query| - 1];
      ScorePositive(ln, toks, init, id);
      TermScorePositive(ln, toks, last, id);
      assert query == init + [last];
      if Shares(toks, query, id) {
        var t :| t in query && t in toks[id];
        assert t in init || t == last;
      }
    }
  }

  // ---- Ranking ----

  datatype Hit = Hit(id: string, score: real)

  /** Places a hit after all that score at least as much. */
  function Place(ranked: seq<Hit>, h: Hit): seq<Hit> {
    if ranked == [] || ranked[0].score < h.score then [h] + ranked
    else [ranked[0]] + Place(ranked[1..], h)
  }

  /** A stable sort by descending score. */
  function Sorted(hits: seq<Hit>): seq<Hit> {
    if hits == [] then [] else Place(Sorted(hits[..|hits| - 1]), hits[|hits| - 1])
  }

  ghost predicate Descending(hits: seq<Hit>) {
    forall i, j :: 0 <= i < j < |hits| ==> hits[i].score >= hits[j].score
  }

  lemma {:induction false} PlaceContents(ranked: seq<Hit>, h: Hit)
    ensures multiset(Place(ranked, h)) == multiset(ranked) + multiset{h}
  {
    if ranked != [] {
      assert ranked == [ranked[0]] + ranked[1..];
      PlaceContents(ranked[1..], h);
    }
  }

  lemma {:induction false} PlaceDescending(ranked: seq<Hit>, h: Hit)
    requires Descending(ranked)
    ensures Descending(Place(ranked, h))
    ensures Place(ranked, h)[0].score == if ranked == [] || ranked[0].score < h.score then h.score else ranked[0].score
  {
    if ranked != [] && !(ranked[0].score < h.score) {
      PlaceDescending(ranked[1..], h);
      DescendingCons(ranked[0], Place(ranked[1..], h));
    } else if ranked != [] {
      DescendingCons(h, ranked);
    }
  }

  lemma DescendingCons(h: Hit, hits: seq<Hit>)
    requires Descending(hits) && (hits != [] ==> h.score >= hits[0].score)
    ensures Descending([h] + hits)
  {
    forall i, j | 0 <= i < j < |hits| + 1
      ensures ([h] + hits)[i].score >= ([h] + hits)[j].score
    {
      assert ([h] + hits)[j] == hits[j - 1];
    }
  }

  lemma {:induction false} SortedExact(hits: seq<Hit>)
    ensures Descending(Sorted(hits)) && multiset(Sorted(hits)) == multiset(hits)
  {
    if hits != [] {
      var init := hits[..|hits| - 1];
      SortedExact(init);
      assert hits == init + [hits[|hits| - 1]];
      PlaceContents(Sorted(init), hits[|hits| - 1]);
      PlaceDescending(Sorted(init), hits[|hits| - 1]);
    }
  }

  // ---- Pages ----

  /** Clamps a slice bound: negative bounds count from the end. */
  function Bound(i: int, n: nat): nat {
    if i < 0 then (if i + n < 0 then 0 else i + n) else if i > n then n else i
  }

  function Slice<T>(s: seq<T>, lo: int, hi: int): seq<T> {
    var a, b := Bound(lo, |s|), Bound(hi, |s|);
    if a <= b then s[a..b] else []
  }

  function Page<T>(s: seq<T>, offset: int, limit: int): seq<T> {
    Slice(s, offset, offset + limit)
  }

  /** The first `count` consecutive pages, joined. */
  function Pages<T>(s: seq<T>, limit: nat, count: nat): seq<T> {
    if count == 0 then [] else Pages(s, limit, count - 1) + Page(s, (count - 1) * limit, limit)
  }

  lemma {:induction false} PagesPrefix<T>(s: seq<T>, limit: nat, count: nat)
    ensures Pages(s, limit, count) == s[..Bound(count * limit, |s|)]
  {
    if count > 0 {
      hide Page;
      PagesPrefix(s, limit, count - 1);
      NextMultiple(count, limit);
      PageExtends(s, (count - 1) * limit, limit);
    }
  }

  lemma NextMultiple(count: nat, limit: nat)
    requires count > 0
    ensures 0 <= (count - 1) * limit && (count - 1) * limit + limit == count * limit
  {
  }

  lemma PageExtends<T>(s: seq<T>, offset: nat, limit: nat)
    ensures s[..Bound(offset, |s|)] + Page(s, offset, limit) == s[..Bound(offset + limit, |s|)]
  {
  }

  /** Enough consecutive pages give the whole list, each element once and in order. */
  lemma PagesConcatenate<T>(s: seq<T>, limit: nat, count: nat)
    requires count * limit >= |s|
    ensures Pages(s, limit, count) == s
  {
    PagesPrefix(s, limit, count);
    assert s[..|s|] == s;
  }

  /** Python's slices: a negative bound counts from the end, and bounds outside are clamped. */
  lemma SliceExact<T>(s: seq<T>, lo: int, hi: int)
    ensures 0 <= lo <= hi <= |s| ==> Slice(s, lo, hi) == s[lo..hi]
    ensures lo >= |s| || hi <= -|s| ==> Slice(s, lo, hi) == []
    ensures hi > |s| ==> Slice(s, lo, hi) == Slice(s, lo, |s|)
    ensures lo < -|s| ==> Slice(s, lo, hi) == Slice(s, 0, hi)
    ensures -|s| <= lo < 0 ==> Slice(s, lo, hi) == Slice(s, lo + |s|, hi)
    ensures -|s| <= hi < 0 ==> Slice(s, lo, hi) == Slice(s, lo, hi + |s|)
    ensures 0 <= hi < lo ==> Slice(s, lo, hi) == []
  {
  }

  // ---- Ties ----

  function Scoring(hits: seq<Hit>, score: real): seq<Hit> {
    if hits == [] then []
    else Scoring(hits[..|hits| - 1], score) + (if hits[|hits| - 1].score == score then [hits[|hits| - 1]] else [])
  }

  lemma {:induction false} ScoringConcat(a: seq<Hit>, b: seq<Hit>, score: real)
    ensures Scoring(a + b, score) == Scoring(a, score) + Scoring(b, score)
  {
    if b == [] {
      assert a + b == a;
    } else {
      ScoringConcat(a, b[..|b| - 1], score);
      assert (a + b)[..|a + b| - 1] == a + b[..|b| - 1];
    }
  }

  lemma {:induction false} ScoringNone(hits: seq<Hit>, score: real)
    requires forall h :: h in hits ==> h.score != score
    ensures Scoring(hits, score) == []
  {
    if hits != [] { ScoringNone(hits[..|hits| - 1], score); }
  }

  lemma {:induction false} PlaceStable(ranked: seq<Hit>, h: Hit, score: real)
    requires Descending(ranked)
    ensures Scoring(Place(ranked, h), score) == Scoring(ranked, score) + (if h.score == score then [h] else [])
  {
    hide Scoring;
    ScoringOne(h, score);
    if ranked == [] || ranked[0].score < h.score {
      ScoringConcat([h], ranked, score);
      if h.score == score {
        assert forall x :: x in ranked ==> x.score < score;
        ScoringNone(ranked, score);
      }
      assert ranked == [] ==> [h] + ranked == [h];
      assert ranked == [] ==> Scoring(ranked, score) == [] by { if ranked == [] { ScoringNone(ranked, score); } }
    } else {
      PlaceStable(ranked[1..], h, score);
      ScoringConcat([ranked[0]], Place(ranked[1..], h), score);
      ScoringConcat([ranked[0]], ranked[1..], score);
      assert ranked == [ranked[0]] + ranked[1..];
    }
  }

  lemma ScoringOne(h: Hit, score: real)
    ensures Scoring([h], score) == if h.score == score then [h] else []
  {
    assert [h][..0] == [];
  }

  /** Hits of equal score stay in the order in which they were scored. */
  lemma {:induction false} SortedStable(hits: seq<Hit>, score: real)
    ensures Scoring(Sorted(hits), score) == Scoring(hits, score)
  {
    if hits != [] {
      var init := hits[..|hits| - 1];
      SortedStable(init, score);
      SortedExact(init);
      PlaceStable(Sorted(init), hits[|hits| - 1], score);
    }
  }
}
