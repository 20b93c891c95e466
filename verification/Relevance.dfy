/**
 What the scores mean: rarer terms weigh more, more occurrences count for more and longer
 documents for less, and the ranking of an answer follows.
 */
module Relevance {
  import opened Prelude
  import opened Reals
  import opened Postings
  import opened Ranking
  import opened SearchIndex

  // ---- The weight of a term ----

  /** The weight is the logarithm of how much larger the collection is than the term's share. */
  lemma IdfClosed(ln: Log, n: nat, df: nat)
    requires df <= n
    ensures Idf(ln, n, df) == ln((n as real + 1.0) / (df as real + 0.5))
  {
    var x, d := n as real - df as real + 0.5, df as real + 0.5;
    DivTimes(x, d);
    DivTimes(x + d, d);
    hide Mul;
    MulAdds(x / d, 1.0, d);
    MulUnits(d);
    MulOrder(x / d + 1.0, (x + d) / d, d);
    MulOrder((x + d) / d, x / d + 1.0, d);
    assert x + d == n as real + 1.0;
  }

  /** The rarer term weighs more. */
  lemma IdfFalls(ln: Log, n: nat, rare: nat, common: nat)
    requires IsLog(ln) && rare < common <= n
    ensures Idf(ln, n, rare) > Idf(ln, n, common) > 0.0
  {
    IdfClosed(ln, n, rare);
    IdfClosed(ln, n, common);
    IdfPositive(ln, n, common);
    var m, a, b := n as real + 1.0, rare as real + 0.5, common as real + 0.5;
    QuotientFalls(m, a, b);
    assert ln(m / b) < ln(m / a);
  }

  lemma QuotientFalls(m: real, a: real, b: real)
    requires m > 0.0 && 0.0 < a < b
    ensures 0.0 < m / b < m / a
  {
    DivTimes(m, a);
    DivTimes(m, b);
    hide Mul;
    MulOrder(0.0, m / b, b);
    MulUnits(b);
    MulOrder(a, b, m / b);
    MulOrder(m / b, m / a, a);
  }

  // ---- The weight of occurrences ----

  /** How fast occurrences saturate: 0.3 and 0.9 times the length in averages, an average being 1 at least. */
  lemma SaturationExact(length: nat, average: real)
    ensures average >= 1.0 ==> Mul(Saturation(length, average), average) == 0.3 * average + 0.9 * length as real
    ensures average < 1.0 ==> Saturation(length, average) == 0.3 + 0.9 * length as real
  {
    var m := Max(average, 1.0);
    var q := length as real / m;
    DivTimes(length as real, m);
    assert Saturation(length, average) == 0.3 + 0.9 * q;
    assert Mul(0.3 + 0.9 * q, m) == 0.3 * m + 0.9 * Mul(q, m);
    if average < 1.0 { MulUnits(q); }
  }

  lemma TfNormTimes(tf: nat, length: nat, average: real)
    requires tf > 0
    ensures tf as real + Saturation(length, average) > 0.0
    ensures Mul(TfNorm(tf, length, average), tf as real + Saturation(length, average)) == 2.2 * tf as real
  {
    SaturationPositive(length, average);
    DivTimes(tf as real * 2.2, tf as real + Saturation(length, average));
  }

  lemma Positive(tf: nat, length: nat, average: real)
    requires tf > 0
    ensures tf as real + Saturation(length, average) > 0.0
  {
    SaturationPositive(length, average);
  }

  lemma SaturationGrows(short: nat, long: nat, average: real)
    requires short < long
    ensures Saturation(short, average) < Saturation(long, average)
  {
    var m := Max(average, 1.0);
    DivTimes(short as real, m);
    DivTimes(long as real, m);
    hide Mul;
    MulOrder(short as real / m, long as real / m, m);
  }

  /** More occurrences count for more. */
  lemma TfNormRises(few: nat, many: nat, length: nat, average: real)
    requires 0 < few < many
    ensures few as real + Saturation(length, average) > 0.0 && many as real + Saturation(length, average) > 0.0
    ensures TfNorm(few, length, average) < TfNorm(many, length, average)
  {
    SaturationPositive(length, average);
    TfNormTimes(few, length, average);
    TfNormTimes(many, length, average);
    TfNormBounds(few, length, average);
    var s, d := Saturation(length, average), many as real - few as real;
    var p, q := TfNorm(few, length, average), TfNorm(many, length, average);
    hide Mul, TfNorm, Saturation;
    MulAdds(few as real + s, d, p);
    MulOrder(p, 2.2, d);
    assert Mul(2.2, d) == 2.2 * d by { MulIs(2.2, d); }
    MulCommutes(p, d);
    assert few as real + s + d == many as real + s;
    MulOrder(p, q, many as real + s);
  }

  /** A longer document counts for less. */
  lemma TfNormFalls(tf: nat, short: nat, long: nat, average: real)
    requires tf > 0 && short < long
    ensures tf as real + Saturation(short, average) > 0.0 && tf as real + Saturation(long, average) > 0.0
    ensures TfNorm(tf, long, average) < TfNorm(tf, short, average)
  {
    SaturationPositive(short, average);
    SaturationGrows(short, long, average);
    var a, b := tf as real + Saturation(short, average), tf as real + Saturation(long, average);
    hide Saturation;
    QuotientFalls(tf as real * 2.2, a, b);
  }

  /** One occurrence in a document of average length counts as 1. */
  lemma TfNormUnit(length: nat)
    requires length >= 1
    ensures 1.0 + Saturation(length, length as real) > 0.0
    ensures TfNorm(1, length, length as real) == 1.0
  {
    var x := length as real;
    assert x / Max(x, 1.0) == 1.0;
    assert Saturation(length, x) == 1.2;
  }

  // ---- Averages ----

  /** The average times the number of documents is the total of their lengths; every document adds its own. */
  lemma AverageExact(toks: Tokens, id: string, tokens: seq<string>)
    requires id !in toks
    ensures TotalLength(map[]) == 0.0
    ensures TotalLength(toks[id := tokens]) == TotalLength(toks) + |tokens| as real
    ensures toks != map[] ==> Mul(Average(toks, TotalLength(toks)), |toks| as real) == TotalLength(toks)
  {
    assert LengthTable(map[]) == map[];
    var table := LengthTable(toks);
    assert LengthTable(toks[id := tokens]) == table[id := |tokens| as real];
    TotalUpdate(table, id, |tokens| as real);
    if toks != map[] {
      assert |toks| > 0;
      DivTimes(TotalLength(toks), |toks| as real);
    }
  }

  // ---- The score ----

  /** How many documents have a term. */
  ghost function Frequency(toks: Tokens, term: string): nat {
    |set id | id in toks && term in toks[id]|
  }

  /** How often a document has a term. */
  ghost function Occurrences(tokens: seq<string>, term: string): nat {
    |set p | 0 <= p < |tokens| && tokens[p] == term|
  }

  lemma FrequencyIs(toks: Tokens, term: string)
    ensures |PostingsOf(toks, term)| == Frequency(toks, term)
  {
    hide Positions;
    var s := set id | id in toks && term in toks[id];
    assert PostingsOf(toks, term).Keys == s;
    assert |PostingsOf(toks, term)| == |PostingsOf(toks, term).Keys|;
  }

  lemma OccurrencesIs(tokens: seq<string>, term: string)
    ensures |Positions(tokens, term)| == Occurrences(tokens, term)
  {
    PositionsExact(tokens, term);
    var ps, s := Positions(tokens, term), set p | 0 <= p < |tokens| && tokens[p] == term;
    hide Positions;
    AscendingSize(ps);
    assert (set p: int | p in ps) == s;
  }

  lemma {:induction false} AscendingSize(ps: seq<nat>)
    requires forall i, j :: 0 <= i < j < |ps| ==> ps[i] < ps[j]
    ensures |(set p: int | p in ps)| == |ps|
  {
    if ps != [] {
      var init, last := ps[..|ps| - 1], ps[|ps| - 1];
      AscendingSize(init);
      assert ps == init + [last];
      assert (set p: int | p in ps) == (set p: int | p in init) + {last as int};
      assert (last as int) !in (set p: int | p in init);
    }
  }

  /** One token's part in the score, from how many documents have it, how often this one does, and its length. */
  lemma TermScoreExact(ln: Log, toks: Tokens, term: string, id: string)
    requires id in toks
    ensures term !in toks[id] ==> TermScore(ln, toks, term, id) == 0.0
    ensures term in toks[id] ==>
      var tf, average := Occurrences(toks[id], term), Average(toks, TotalLength(toks));
      && tf > 0 && tf as real + Saturation(|toks[id]|, average) > 0.0
      && TermScore(ln, toks, term, id)
           == Mul(Idf(ln, |toks|, Frequency(toks, term)), TfNorm(tf, |toks[id]|, average))
  {
    if term in toks[id] {
      PositionsEmpty(toks[id], term);
      FrequencyIs(toks, term);
      OccurrencesIs(toks[id], term);
      Positive(Occurrences(toks[id], term), |toks[id]|, Average(toks, TotalLength(toks)));
    }
  }

  /** The score adds up over the query, each token as often as it is asked for. */
  lemma {:induction false} ScoreConcat(ln: Log, toks: Tokens, a: seq<string>, b: seq<string>, id: string)
    requires id in toks
    ensures Score(ln, toks, a + b, id) == Score(ln, toks, a, id) + Score(ln, toks, b, id)
  {
    hide TermScore;
    if b == [] {
      assert a + b == a;
    } else {
      ScoreConcat(ln, toks, a, b[..|b| - 1], id);
      assert (a + b)[..|a + b| - 1] == a + b[..|b| - 1];
    }
  }

  lemma ScoreOne(ln: Log, toks: Tokens, term: string, id: string)
    requires id in toks
    ensures Score(ln, toks, [term], id) == TermScore(ln, toks, term, id)
  {
    hide TermScore;
    assert [term][..0] == [];
  }

  /** A document with only one of the query's tokens scores what that token does. */
  lemma {:induction false} ScoreOfOnly(ln: Log, toks: Tokens, query: seq<string>, term: string, id: string)
    requires id in toks && NoDuplicates(query)
    requires forall t :: t in query && t != term ==> t !in toks[id]
    ensures Score(ln, toks, query, id) == if term in query then TermScore(ln, toks, term, id) else 0.0
  {
    hide TermScore;
    if query != [] {
      var init, last := query[..|query| - 1], query[|query| - 1];
      assert query == init + [last];
      ScoreOfOnly(ln, toks, init, term, id);
      if last != term { TermScoreExact(ln, toks, last, id); } else { assert term !in init; }
    }
  }

  /** The document has this token of the query once, and no other token of it. */
  ghost predicate HasOnly(tokens: seq<string>, query: seq<string>, term: string) {
    term in query && Occurrences(tokens, term) == 1 && forall t :: t in query && t != term ==> t !in tokens
  }

  lemma OccurringOnce(tokens: seq<string>, term: string)
    requires Occurrences(tokens, term) == 1
    ensures term in tokens
  {
    var s := set p | 0 <= p < |tokens| && tokens[p] == term;
    assert s != {};
    var p :| p in s;
  }

  lemma FrequencyBounded(toks: Tokens, term: string)
    ensures Frequency(toks, term) <= |toks|
  {
    FrequencyIs(toks, term);
    PostingsBounded(toks, term);
  }

  /** Of two documents of equal length with one query token each, once, the one with the rarer token scores higher. */
  lemma RarerScoresHigher(ln: Log, toks: Tokens, query: seq<string>, a: string, b: string, rare: string, common: string)
    requires IsLog(ln) && a in toks && b in toks && |toks[a]| == |toks[b]| && NoDuplicates(query)
    requires HasOnly(toks[a], query, rare) && HasOnly(toks[b], query, common)
    requires Frequency(toks, rare) < Frequency(toks, common)
    ensures Score(ln, toks, query, a) > Score(ln, toks, query, b)
  {
    OccurringOnce(toks[a], rare);
    OccurringOnce(toks[b], common);
    ScoreOfOnly(ln, toks, query, rare, a);
    ScoreOfOnly(ln, toks, query, common, b);
    TermScoreExact(ln, toks, rare, a);
    TermScoreExact(ln, toks, common, b);
    FrequencyBounded(toks, common);
    var n, average := |toks|, Average(toks, TotalLength(toks));
    IdfFalls(ln, n, Frequency(toks, rare), Frequency(toks, common));
    TfNormBounds(1, |toks[a]|, average);
    hide Mul, TfNorm, Idf, Frequency, TermScore, Score;
    MulOrder(Idf(ln, n, Frequency(toks, common)), Idf(ln, n, Frequency(toks, rare)), TfNorm(1, |toks[a]|, average));
  }

  // ---- The answer ----

  /** An answer's hits: the stored documents with every filter's value and some token of the query. */
  lemma AnswerExact(
    ln: Log, tok: Tokenizer, iterate: Iteration, docs: Documents, query: seq<string>, filters: Filters, id: string)
    requires IsLog(ln) && IsIteration(iterate)
    ensures (exists h :: h in Answer(ln, tok, iterate, docs, query, filters) && h.id == id) <==>
      && id in docs
      && (forall f :: f in filters ==> Lookup(docs[id], f.0) == f.1)
      && (exists t :: t in query && t in tok(ExtractText(docs[id])))
  {
    hide Answer, IsLog, Score, IsIteration, Matches;
    AnswerIsRanking(ln, tok, iterate, docs, query, filters);
    MatchesExact(tok, docs, query, filters, id);
    var answer := Answer(ln, tok, iterate, docs, query, filters);
    assert forall h :: h in answer && h.id == id ==> id in Matches(tok, docs, query, filters);
  }

  lemma MatchesExact(tok: Tokenizer, docs: Documents, query: seq<string>, filters: Filters, id: string)
    ensures id in Matches(tok, docs, query, filters) <==>
      && id in docs
      && (forall f :: f in filters ==> Lookup(docs[id], f.0) == f.1)
      && (exists t :: t in query && t in tok(ExtractText(docs[id])))
  {
    hide Lookup, ExtractText;
    if id in docs {
      assert TokensOf(tok, docs)[id] == tok(ExtractText(docs[id]));
      hide TokensOf;
      assert Passes(docs[id], filters) <==> forall f :: f in filters ==> Lookup(docs[id], f.0) == f.1;
    }
  }

  /** And the one with the rarer token comes first. */
  lemma RarerComesFirst(
    ln: Log, tok: Tokenizer, iterate: Iteration, docs: Documents, query: seq<string>, filters: Filters,
    i: nat, j: nat, rare: string, common: string)
    requires IsLog(ln) && IsIteration(iterate) && NoDuplicates(query)
    requires var answer := Answer(ln, tok, iterate, docs, query, filters); i < |answer| && j < |answer|
    requires var answer, toks := Answer(ln, tok, iterate, docs, query, filters), TokensOf(tok, docs);
      && answer[i].id in toks && answer[j].id in toks && |toks[answer[i].id]| == |toks[answer[j].id]|
      && HasOnly(toks[answer[i].id], query, rare) && HasOnly(toks[answer[j].id], query, common)
      && Frequency(toks, rare) < Frequency(toks, common)
    ensures i < j
  {
    var answer, toks := Answer(ln, tok, iterate, docs, query, filters), TokensOf(tok, docs);
    AnswerIsRanking(ln, tok, iterate, docs, query, filters);
    RarerScoresHigher(ln, toks, query, answer[i].id, answer[j].id, rare, common);
    hide Answer, Score, HasOnly, Frequency, Matches, TokensOf, IsLog, IsIteration, NoDuplicates;
    assert answer[i] in answer && answer[j] in answer;
    assert answer[i].score > answer[j].score;
    if j <= i {
      DescendingAt(answer, j, i);
    }
  }

  lemma DescendingAt(hits: seq<Hit>, j: nat, i: nat)
    requires Descending(hits) && j <= i < |hits|
    ensures hits[j].score >= hits[i].score
  {
  }

  /** An empty query lists the documents themselves, in order, each with score 1. */
  lemma {:induction false} ListedExact(order: seq<string>)
    ensures |Listed(order)| == |order|
    ensures forall i :: 0 <= i < |order| ==> Listed(order)[i] == Hit(order[i], 1.0)
  {
    if order != [] { ListedExact(order[1..]); }
  }
}
