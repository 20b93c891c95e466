/**
 The in-memory search index: documents, an inverted index kept up to date token by
 token, and ranked search over it.  In every reachable state the index is exactly what
 tokenising all stored documents afresh would give, and a search answers as a scan of
 the documents would.

 Tokenisation, the logarithm and the order in which a set is iterated are given functions.
 */
module SearchIndex {
  import opened Prelude
  import opened Reals
  import opened Postings
  import opened Ranking

  type Tokenizer = string -> seq<string>

  type Documents = map<string, Document>

  function TokensOf(tok: Tokenizer, docs: Documents): Tokens {
    map id | id in docs :: tok(ExtractText(docs[id]))
  }

  type Filters = seq<(string, Field)>

  /** Every filter field has the wanted value; an absent field reads as null. */
  predicate Passes(d: Document, filters: Filters) {
    forall i :: 0 <= i < |filters| ==> Lookup(d, filters[i].0) == filters[i].1
  }

  /** The documents a scan finds: those that pass the filters and share a token with the query. */
  function Matches(tok: Tokenizer, docs: Documents, query: seq<string>, filters: Filters): set<string> {
    set id | id in docs && Passes(docs[id], filters) && Shares(TokensOf(tok, docs), query, id)
  }

  /** A complete ranking of the scan: each match once, with its score, best first. */
  ghost predicate IsRanking(
    ln: Log, tok: Tokenizer, docs: Documents, query: seq<string>, filters: Filters, ranking: seq<Hit>) {
    && (forall h :: h in ranking ==>
         h.id in Matches(tok, docs, query, filters) && h.score == Score(ln, TokensOf(tok, docs), query, h.id))
    && (forall id :: id in Matches(tok, docs, query, filters) ==> exists h :: h in ranking && h.id == id)
    && DistinctIds(ranking)
    && Descending(ranking)
  }

  ghost predicate DistinctIds(hits: seq<Hit>) {
    forall i, j :: 0 <= i < j < |hits| ==> hits[i].id != hits[j].id
  }

  /** All documents in insertion order, as an empty query lists them. */
  function Listed(order: seq<string>): seq<Hit> {
    if order == [] then [] else [Hit(order[0], 1.0)] + Listed(order[1..])
  }

  ghost predicate NoDuplicates(s: seq<string>) {
    forall i, j :: 0 <= i < j < |s| ==> s[i] != s[j]
  }

  ghost predicate Lists(order: seq<string>, docs: Documents) {
    (forall id :: id in order <==> id in docs) && NoDuplicates(order)
  }

  /** The order in which the members of a set come up. */
  type Iteration = set<string> -> seq<string>

  ghost predicate IsIteration(iterate: Iteration) {
    forall ids :: ListsAll(iterate(ids), ids)
  }

  ghost predicate ListsAll(order: seq<string>, ids: set<string>) {
    (forall id :: id in order <==> id in ids) && NoDuplicates(order)
  }

  /** The positive scores of some documents, in their order. */
  ghost function Scores(ln: Log, toks: Tokens, query: seq<string>, ids: seq<string>): seq<Hit>
    requires forall id :: id in ids ==> id in toks
  {
    if ids == [] then []
    else
      var id := ids[|ids| - 1];
      var score := Score(ln, toks, query, id);
      Scores(ln, toks, query, ids[..|ids| - 1]) + (if score > 0.0 then [Hit(id, score)] else [])
  }

  /** The whole ranked list that a non-empty query stands for. */
  ghost function Answer(
    ln: Log, tok: Tokenizer, iterate: Iteration, docs: Documents, query: seq<string>, filters: Filters): seq<Hit>
    requires IsIteration(iterate)
  {
    var order := iterate(Matches(tok, docs, query, filters));
    assert ListsAll(order, Matches(tok, docs, query, filters));
    Sorted(Scores(ln, TokensOf(tok, docs), query, order))
  }

  class InMemorySearchProvider {
    const maxDocs: nat
    const tokenize: Tokenizer
    const ln: Log
    const iterate: Iteration
    var documents: Documents
    var order: seq<string>
    var inverted: Index
    var lengths: map<string, nat>

    ghost function Toks(): Tokens
      reads this
    {
      TokensOf(tokenize, documents)
    }

    /** The index maps are those of the stored documents; no more documents than allowed. */
    ghost predicate Valid()
      reads this
    {
      && IsLog(ln) && IsIteration(iterate)
      && inverted == Inverted(Toks()) && lengths == Lengths(Toks())
      && Lists(order, documents) && |documents| <= maxDocs
    }

    constructor (maxDocs: nat, tokenize: Tokenizer, ln: Log, iterate: Iteration)
      requires IsLog(ln) && IsIteration(iterate)
      ensures Valid() && documents == map[] && order == []
      ensures this.maxDocs == maxDocs && this.tokenize == tokenize && this.ln == ln && this.iterate == iterate
    {
      this.maxDocs, this.tokenize, this.ln, this.iterate := maxDocs, tokenize, ln, iterate;
      documents, order, inverted, lengths := map[], [], map[], map[];
    }

    // ---- Keeping the index ----

    method BuildIndexForDoc(id: string, document: Document, ghost toks: Tokens)
      requires id !in toks && inverted == Inverted(toks) && lengths == Lengths(toks)
      modifies this`inverted, this`lengths
      ensures inverted == Inverted(toks[id := tokenize(ExtractText(document))])
      ensures lengths == Lengths(toks[id := tokenize(ExtractText(document))])
    {
      hide Inverted, ExtractText;
      var tokens := tokenize(ExtractText(document));
      lengths := lengths[id := |tokens|];
      assert lengths == Lengths(toks[id := tokens]);
      hide Lengths, Enter;
      InvertedNoTokens(toks, id);
      assert tokens[..0] == [];
      for pos := 0 to |tokens|
        invariant inverted == Inverted(toks[id := tokens[..pos]])
        invariant lengths == Lengths(toks[id := tokens])
      {
        var token := tokens[pos];
        InvertedSnoc(toks, id, tokens[..pos], token);
        assert tokens[..pos + 1] == tokens[..pos] + [token];
        EnterPosition(token, id, pos);
      }
      assert tokens[..|tokens|] == tokens;
    }

    method EnterPosition(token: string, id: string, pos: nat)
      modifies this`inverted
      ensures inverted == Enter(old(inverted), token, id, pos)
    {
      if token !in inverted {
        inverted := inverted[token := map[]];
      }
      if id !in inverted[token] {
        inverted := inverted[token := inverted[token][id := []]];
      }
      inverted := inverted[token := inverted[token][id := inverted[token][id] + [pos]]];
      ghost var ps := PostingsIn(old(inverted), token);
      assert inverted[token] == ps[id := (if id in ps then ps[id] else []) + [pos]];
      assert inverted == old(inverted)[token := inverted[token]];
    }

    /** Strikes a document from every posting list, then drops the lists left empty. */
    method RemoveFromIndex(id: string, ghost toks: Tokens)
      requires inverted == Inverted(toks) && lengths == Lengths(toks)
      modifies this`inverted, this`lengths
      ensures inverted == Inverted(toks - {id}) && lengths == Lengths(toks - {id})
    {
      hide Inverted;
      ghost var before := inverted;
      InvertedRemove(toks, id);
      var emptyTerms := StrikeEverywhere(id);
      inverted := inverted - emptyTerms;
      assert inverted == Struck(before, id);
      assert Lengths(toks) - {id} == Lengths(toks - {id});
      assert id !in lengths ==> lengths - {id} == lengths;
      if id in lengths {
        lengths := lengths - {id};
      }
    }

    /** Deletes the document from each term's postings and reports the terms left without any. */
    method StrikeEverywhere(id: string) returns (emptyTerms: set<string>)
      modifies this`inverted
      ensures inverted == map t | t in old(inverted) :: old(inverted)[t] - {id}
      ensures emptyTerms == set t | t in old(inverted) && old(inverted)[t] - {id} == map[]
    {
      ghost var before := inverted;
      emptyTerms := {};
      var rest := inverted.Keys;
      while rest != {}
        invariant rest <= before.Keys
        invariant inverted == map t | t in before :: if t in rest then before[t] else before[t] - {id}
        invariant emptyTerms == set t | t in before && t !in rest && before[t] - {id} == map[]
        decreases rest
      {
        var term :| term in rest;
        assert id !in before[term] ==> before[term] - {id} == before[term];
        if id in inverted[term] {
          inverted := inverted[term := inverted[term] - {id}];
        }
        if inverted[term] == map[] {
          emptyTerms := emptyTerms + {term};
        }
        rest := rest - {term};
      }
    }

    method IndexDocument(id: string, document: Document) returns (ok: bool)
      requires Valid()
      modifies this
      ensures Valid()
      ensures ok <==> id in old(documents) || |old(documents)| < maxDocs
      ensures documents == if ok then old(documents)[id := WithField(document, "id", Str(id))] else old(documents)
      ensures order == if ok && id !in old(documents) then old(order) + [id] else old(order)
    {
      hide Inverted, Lengths, IsLog, ExtractText, WithField, TokensOf;
      if id !in documents && |documents| >= maxDocs {
        return false;
      }
      ghost var toks := Toks();
      var stored := WithField(document, "id", Str(id));
      TokensUpdate(tokenize, documents, id, stored);
      if id in documents {
        RemoveFromIndex(id, toks);
      }
      if id !in documents {
        order := order + [id];
      }
      documents := documents[id := stored];
      BuildIndexForDoc(id, stored, toks - {id});
      ok := true;
    }

    method DeleteDocument(id: string) returns (ok: bool)
      requires Valid()
      modifies this
      ensures Valid()
      ensures ok <==> id in old(documents)
      ensures documents == old(documents) - {id}
      ensures order == Filter((x: string) => x != id, old(order))
    {
      hide Inverted, Lengths, IsLog, Filter, TokensOf, Lists;
      if id !in documents {
        NotListed(order, documents, id);
        return false;
      }
      TokensRemove(tokenize, documents, id);
      FilterLists(order, documents, id);
      RemoveFromIndex(id, Toks());
      documents := documents - {id};
      order := Filter((x: string) => x != id, order);
      ok := true;
    }

    // ---- Searching ----

    method AverageLength() returns (average: real)
      requires Valid()
      ensures average == Average(Toks(), TotalLength(Toks()))
    {
      hide Inverted, IsLog, TokensOf, Total;
      var sum, rest := 0.0, lengths.Keys;
      ghost var all := LengthTable(Toks());
      TotalNothing(all);
      while rest != {}
        invariant rest <= lengths.Keys && sum == Total(all - rest)
        decreases rest
      {
        var id :| id in rest;
        TotalRemove(all - (rest - {id}), id);
        assert all - (rest - {id}) - {id} == all - rest;
        sum := sum + lengths[id] as real;
        rest := rest - {id};
      }
      assert all - {} == all;
      average := sum / Max(|documents| as real, 1.0);
      TokensSize(tokenize, documents);
    }

    /** The score of a stored document, from the posting lists. */
    method ComputeTfidf(query: seq<string>, id: string) returns (score: real)
      requires Valid() && id in documents
      ensures score == Score(ln, Toks(), query, id)
    {
      hide Inverted, IsLog, Idf, Saturation, Average, TotalLength, Max, Mul;
      var average := AverageLength();
      TokensSize(tokenize, documents);
      score := 0.0;
      for i := 0 to |query|
        invariant score == Score(ln, Toks(), query[..i], id)
      {
        assert query[..i + 1][..i] == query[..i];
        var postings := PostingsIn(inverted, query[i]);
        PostingsInInverted(Toks(), query[i]);
        if id in postings {
          PositionsEmpty(Toks()[id], query[i]);
          SaturationPositive(lengths[id], average);
          score := score + Mul(Idf(ln, |documents|, |postings|), TfNorm(|postings[id]|, lengths[id], average));
        }
      }
      assert query[..|query|] == query;
    }

    /** The documents in which some query token occurs. */
    method Candidates(query: seq<string>) returns (candidates: set<string>)
      requires Valid()
      ensures candidates == set id | id in documents && Shares(Toks(), query, id)
    {
      hide Inverted, IsLog;
      candidates := {};
      for i := 0 to |query|
        invariant candidates == set id | id in documents && Shares(Toks(), query[..i], id)
      {
        var postings := PostingsIn(inverted, query[i]);
        PostingsInInverted(Toks(), query[i]);
        SharesSnoc(Toks(), query[..i], query[i]);
        assert query[..i + 1] == query[..i] + [query[i]];
        candidates := candidates + postings.Keys;
      }
      assert query[..|query|] == query;
    }

    method Matching(d: Document, filters: Filters) returns (ok: bool)
      ensures ok == Passes(d, filters)
    {
      for i := 0 to |filters|
        invariant Passes(d, filters[..i])
      {
        if Lookup(d, filters[i].0) != filters[i].1 {
          return false;
        }
        assert filters[..i + 1] == filters[..i] + [filters[i]];
      }
      assert filters[..|filters|] == filters;
      ok := true;
    }

    method Filtered(candidates: set<string>, filters: Filters) returns (kept: set<string>)
      requires candidates <= documents.Keys
      ensures kept == set id | id in candidates && Passes(documents[id], filters)
    {
      hide Passes;
      kept := {};
      var rest := candidates;
      while rest != {}
        invariant rest <= candidates
        invariant kept == set id | id in candidates && id !in rest && Passes(documents[id], filters)
        decreases rest
      {
        var id :| id in rest;
        var ok := Matching(documents[id], filters);
        if ok {
          kept := kept + {id};
        }
        rest := rest - {id};
      }
    }

    /** Scores the candidates one by one, keeping the positive scores. */
    method Scored(query: seq<string>, candidates: set<string>) returns (scored: seq<Hit>)
      requires Valid() && candidates <= documents.Keys
      ensures ListsAll(iterate(candidates), candidates)
      ensures scored == Scores(ln, Toks(), query, iterate(candidates))
    {
      hide Inverted, IsLog, Score, NoDuplicates;
      var ids := iterate(candidates);
      assert ListsAll(ids, candidates);
      scored := [];
      for i := 0 to |ids|
        invariant scored == Scores(ln, Toks(), query, ids[..i])
      {
        assert ids[i] in ids && ids[..i + 1][..i] == ids[..i];
        var score := ComputeTfidf(query, ids[i]);
        if score > 0.0 {
          scored := scored + [Hit(ids[i], score)];
        }
      }
      assert ids[..|ids|] == ids;
    }

    /**
     One page of the answer, which depends on the documents, the query and the filters
     alone.  An empty query lists all documents with score 1.
     */
    method Search(text: string, limit: int, offset: int, filters: Filters)
      returns (hits: seq<Hit>, total: nat)
      requires Valid()
      ensures tokenize(text) == [] ==> hits == Page(Listed(order), offset, limit) && total == |documents|
      ensures tokenize(text) != [] ==>
        hits == Page(Answer(ln, tokenize, iterate, documents, tokenize(text), filters), offset, limit)
      ensures tokenize(text) != [] ==> total == |Matches(tokenize, documents, tokenize(text), filters)|
    {
      hide Inverted, IsLog, Score, Passes, Page, Sorted, Shares, Lengths, Scores, IsIteration;
      var query := tokenize(text);
      if query == [] {
        var all := Listed(order);
        ListedSize(order, documents);
        return Page(all, offset, limit), |all|;
      }
      var candidates := Candidates(query);
      if filters != [] {
        candidates := Filtered(candidates, filters);
      } else {
        NoFilters(documents);
      }
      assert candidates == Matches(tokenize, documents, query, filters);
      var scored := Scored(query, candidates);
      var ranked := Sorted(scored);
      AnswerIsRanking(ln, tokenize, iterate, documents, query, filters);
      hits, total := Page(ranked, offset, limit), |ranked|;
    }
  }

  /** The answer is a complete ranking of what a scan of the documents finds. */
  lemma AnswerIsRanking(
    ln: Log, tok: Tokenizer, iterate: Iteration, docs: Documents, query: seq<string>, filters: Filters)
    requires IsLog(ln) && IsIteration(iterate)
    ensures var answer := Answer(ln, tok, iterate, docs, query, filters);
      IsRanking(ln, tok, docs, query, filters, answer) && |answer| == |Matches(tok, docs, query, filters)|
  {
    hide IsLog, IsRanking, Score, Sorted, Passes, Shares;
    var matches := Matches(tok, docs, query, filters);
    var ids := iterate(matches);
    assert ListsAll(ids, matches);
    ScoresExact(ln, TokensOf(tok, docs), query, ids);
    RankedScan(ln, tok, docs, query, filters, Scores(ln, TokensOf(tok, docs), query, ids));
  }

  lemma {:induction false} ScoresExact(ln: Log, toks: Tokens, query: seq<string>, ids: seq<string>)
    requires NoDuplicates(ids) && forall id :: id in ids ==> id in toks
    ensures var hits := Scores(ln, toks, query, ids);
      && DistinctIds(hits)
      && (forall h :: h in hits ==> h.id in ids && h.score == Score(ln, toks, query, h.id))
      && (forall id :: id in ids && Score(ln, toks, query, id) > 0.0 ==> Hit(id, Score(ln, toks, query, id)) in hits)
  {
    hide Score;
    if ids != [] {
      var init, last := ids[..|ids| - 1], ids[|ids| - 1];
      assert ids == init + [last];
      assert last !in init;
      ScoresExact(ln, toks, query, init);
      var before := Scores(ln, toks, query, init);
      assert forall h :: h in before ==> h.id != last;
    }
  }

  /** Asking for one page after another, with nothing changed in between, yields every match once, best first. */
  lemma SuccessivePages(
    ln: Log, tok: Tokenizer, iterate: Iteration, docs: Documents, query: seq<string>, filters: Filters,
    limit: nat, count: nat)
    requires IsLog(ln) && IsIteration(iterate)
    requires count * limit >= |Matches(tok, docs, query, filters)|
    ensures IsRanking(ln, tok, docs, query, filters,
      Pages(Answer(ln, tok, iterate, docs, query, filters), limit, count))
  {
    hide IsLog, IsRanking, Pages, Answer, Matches;
    AnswerIsRanking(ln, tok, iterate, docs, query, filters);
    PagesConcatenate(Answer(ln, tok, iterate, docs, query, filters), limit, count);
  }

  // ---- Supporting facts ----

  lemma TokensSize(tok: Tokenizer, docs: Documents)
    ensures |TokensOf(tok, docs)| == |docs|
  {
    var toks := TokensOf(tok, docs);
    assert toks.Keys == docs.Keys && |toks| == |toks.Keys| && |docs| == |docs.Keys|;
  }

  lemma TotalNothing(m: map<string, real>)
    ensures Total(m - m.Keys) == 0.0
  {
    assert m - m.Keys == map[];
  }

  lemma TokensUpdate(tok: Tokenizer, docs: Documents, id: string, d: Document)
    ensures TokensOf(tok, docs[id := d]) == (TokensOf(tok, docs) - {id})[id := tok(ExtractText(d))]
    ensures id !in docs ==> TokensOf(tok, docs) - {id} == TokensOf(tok, docs)
    ensures id in docs ==> |docs[id := d]| == |docs|
  {
    hide ExtractText;
    var a, b := TokensOf(tok, docs[id := d]), (TokensOf(tok, docs) - {id})[id := tok(ExtractText(d))];
    assert a.Keys == b.Keys;
    assert forall x :: x in a ==> a[x] == b[x];
    SameSize(docs, docs[id := d]);
  }

  lemma SameSize(a: Documents, b: Documents)
    ensures a.Keys == b.Keys ==> |a| == |b|
  {
    assert |a| == |a.Keys| && |b| == |b.Keys|;
  }

  lemma TokensRemove(tok: Tokenizer, docs: Documents, id: string)
    requires id in docs
    ensures TokensOf(tok, docs - {id}) == TokensOf(tok, docs) - {id}
    ensures |docs - {id}| == |docs| - 1
  {
    hide ExtractText;
    assert (docs - {id})[id := docs[id]] == docs;
  }

  lemma NoFilters(docs: Documents)
    ensures forall id :: id in docs ==> Passes(docs[id], [])
  {
  }

  lemma NotListed(order: seq<string>, docs: Documents, id: string)
    requires Lists(order, docs) && id !in docs
    ensures docs - {id} == docs && Filter((x: string) => x != id, order) == order
  {
    FilterAll((x: string) => x != id, order);
  }

  lemma FilterLists(order: seq<string>, docs: Documents, id: string)
    requires Lists(order, docs)
    ensures Lists(Filter((x: string) => x != id, order), docs - {id})
  {
    FilterDistinct((x: string) => x != id, order);
  }

  lemma {:induction false} FilterDistinct(p: string -> bool, s: seq<string>)
    requires NoDuplicates(s)
    ensures NoDuplicates(Filter(p, s))
  {
    if s != [] {
      FilterDistinct(p, s[1..]);
      assert s[0] !in Filter(p, s[1..]);
    }
  }

  lemma SharesSnoc(toks: Tokens, query: seq<string>, t: string)
    ensures forall id :: id in toks ==> (Shares(toks, query + [t], id) <==> Shares(toks, query, id) || t in toks[id])
  {
    forall id | id in toks
      ensures Shares(toks, query + [t], id) <==> Shares(toks, query, id) || t in toks[id]
    {
      if Shares(toks, query, id) {
        var u :| u in query && u in toks[id];
        assert u in query + [t];
      }
      assert t in query + [t];
    }
  }

  lemma {:induction false} ListedSize(order: seq<string>, docs: Documents)
    requires Lists(order, docs)
    ensures |Listed(order)| == |docs|
  {
    ListedLength(order);
    DistinctSize(order);
    assert (set id | id in order) == docs.Keys;
    assert |docs| == |docs.Keys|;
  }

  lemma {:induction false} ListedLength(order: seq<string>)
    ensures |Listed(order)| == |order|
  {
    if order != [] { ListedLength(order[1..]); }
  }

  lemma {:induction false} DistinctSize(s: seq<string>)
    requires NoDuplicates(s)
    ensures |(set x | x in s)| == |s|
  {
    if s != [] {
      DistinctSize(s[1..]);
      assert (set x | x in s) == {s[0]} + (set x | x in s[1..]);
    }
  }

  function Ids(hits: seq<Hit>): (r: seq<string>)
    ensures |r| == |hits| && forall i :: 0 <= i < |hits| ==> r[i] == hits[i].id
  {
    seq(|hits|, i requires 0 <= i < |hits| => hits[i].id)
  }

  lemma DistinctMultiset(a: seq<Hit>, b: seq<Hit>)
    requires multiset(a) == multiset(b) && DistinctIds(a)
    ensures DistinctIds(b)
  {
    forall i, j | 0 <= i < j < |b|
      ensures b[i].id != b[j].id
    {
      if b[i].id == b[j].id {
        assert b[i] in multiset(b) && b[j] in multiset(b);
        assert b[i] in a && b[j] in a;
        var m :| 0 <= m < |a| && a[m] == b[i];
        var n :| 0 <= n < |a| && a[n] == b[j];
        assert m == n;
        Twice(b, i, j);
        Once(a, m);
        assert false;
      }
    }
  }

  lemma Twice(s: seq<Hit>, i: nat, j: nat)
    requires i < j < |s| && s[i] == s[j]
    ensures multiset(s)[s[i]] >= 2
  {
    assert s == s[..i] + [s[i]] + s[i + 1..j] + [s[j]] + s[j + 1..];
  }

  lemma Once(s: seq<Hit>, m: nat)
    requires m < |s| && DistinctIds(s)
    ensures multiset(s)[s[m]] == 1
  {
    var l, r := s[..m], s[m + 1..];
    assert s == l + [s[m]] + r;
    assert s[m] !in l && s[m] !in r;
    assert s[m] !in multiset(l) && s[m] !in multiset(r);
  }

  /**
   Sorting the positively scored matches gives a complete ranking, and nothing is lost by
   asking for a positive score.
   */
  lemma RankedScan(ln: Log, tok: Tokenizer, docs: Documents, query: seq<string>, filters: Filters, scored: seq<Hit>)
    requires IsLog(ln) && DistinctIds(scored)
    requires forall h :: h in scored ==>
      h.id in Matches(tok, docs, query, filters) && h.score == Score(ln, TokensOf(tok, docs), query, h.id)
    requires forall id ::
      id in Matches(tok, docs, query, filters) && Score(ln, TokensOf(tok, docs), query, id) > 0.0 ==>
        Hit(id, Score(ln, TokensOf(tok, docs), query, id)) in scored
    ensures IsRanking(ln, tok, docs, query, filters, Sorted(scored))
    ensures |Sorted(scored)| == |Matches(tok, docs, query, filters)|
  {
    hide IsLog, Score, Passes, Sorted, Shares;
    var ranked, matches := Sorted(scored), Matches(tok, docs, query, filters);
    SortedExact(scored);
    forall h
      ensures h in ranked <==> h in scored
    {
      assert h in multiset(ranked) <==> h in multiset(scored);
    }
    DistinctMultiset(scored, ranked);
    forall id | id in matches
      ensures exists h :: h in ranked && h.id == id
    {
      ScorePositive(ln, TokensOf(tok, docs), query, id);
      assert Hit(id, Score(ln, TokensOf(tok, docs), query, id)) in ranked;
    }
    ListsMatches(ranked, matches);
  }

  lemma ListsMatches(ranked: seq<Hit>, matches: set<string>)
    requires DistinctIds(ranked) && (forall h :: h in ranked ==> h.id in matches)
    requires forall id :: id in matches ==> exists h :: h in ranked && h.id == id
    ensures |ranked| == |matches|
  {
    var ids := Ids(ranked);
    DistinctSize(ids);
    forall x
      ensures x in ids <==> x in matches
    {
      if x in ids {
        var i :| 0 <= i < |ids| && ids[i] == x;
        assert ranked[i] in ranked;
      }
      if x in matches {
        var h :| h in ranked && h.id == x;
        var i :| 0 <= i < |ranked| && ranked[i] == h;
        assert ids[i] == x;
      }
    }
    assert (set x | x in ids) == matches;
  }

  // ---- Histories of the index ----

  /** The state of the index as a function of the stored documents. */
  function IndexOf(tok: Tokenizer, docs: Documents): (Index, map<string, nat>) {
    (Inverted(TokensOf(tok, docs)), Lengths(TokensOf(tok, docs)))
  }

  /** Adding a fresh document and deleting it again restores both index maps. */
  lemma AddThenDelete(tok: Tokenizer, docs: Documents, id: string, d: Document)
    requires id !in docs
    ensures Struck(IndexOf(tok, docs[id := d]).0, id) == IndexOf(tok, docs).0
    ensures IndexOf(tok, docs[id := d]).1 - {id} == IndexOf(tok, docs).1
  {
    InvertedRemove(TokensOf(tok, docs[id := d]), id);
    assert TokensOf(tok, docs[id := d]) - {id} == TokensOf(tok, docs);
  }

  /** Re-indexing a document is deleting it and entering its new tokens. */
  lemma ReindexIsDeleteThenEnter(tok: Tokenizer, docs: Documents, id: string, d: Document)
    ensures IndexOf(tok, docs[id := d]).0 == Entered(Struck(IndexOf(tok, docs).0, id), id, tok(ExtractText(d)))
    ensures IndexOf(tok, docs[id := d]) == IndexOf(tok, (docs - {id})[id := d])
  {
    hide Inverted, Lengths, Struck, Entered, ExtractText;
    var toks, tokens := TokensOf(tok, docs), tok(ExtractText(d));
    assert (docs - {id})[id := d] == docs[id := d];
    TokensUpdate(tok, docs, id, d);
    InvertedRemove(toks, id);
    EnteredIsInverted(toks - {id}, id, tokens);
  }
}
