/**
 Documents, their tokens, and the inverted index they determine: for each term, the
 documents containing it with the ascending list of its positions.
 */
module Postings {

  /**
   A document field; `Opaque` stands for numbers, booleans and other values that carry no
   text.  Values that compare equal, such as 1 and true, have the same code.
   */
  datatype Field =
    | Null
    | Str(s: string)
    | Items(items: seq<Field>)
    | Dict(fields: seq<(string, Field)>)
    | Opaque(code: int)

  type Document = seq<(string, Field)>

  function Join(parts: seq<string>): string {
    if parts == [] then "" else if |parts| == 1 then parts[0] else parts[0] + " " + Join(parts[1..])
  }

  function ItemTexts(items: seq<Field>): seq<string> {
    if items == [] then []
    else (if items[0].Str? then [items[0].s] else []) + ItemTexts(items[1..])
  }

  /**
   The text parts of a document: strings, strings in lists, and nested dictionaries; `id`
   is skipped at every level.
   */
  function Texts(d: Document): seq<string>
    decreases d
  {
    if d == [] then []
    else
      var (key, value) := d[0];
      assert value < d[0] && d[0] in d;
      var here :=
        if key == "id" then []
        else match value
          case Str(s) => [s]
          case Items(items) => ItemTexts(items)
          case Dict(fields) => [Join(Texts(fields))]
          case _ => [];
      here + Texts(d[1..])
  }

  function ExtractText(d: Document): string {
    Join(Texts(d))
  }

  /** Dictionary assignment: an existing key keeps its place. */
  function WithField(d: Document, key: string, value: Field): Document {
    if d == [] then [(key, value)]
    else if d[0].0 == key then [(key, value)] + d[1..]
    else [d[0]] + WithField(d[1..], key, value)
  }

  function Lookup(d: Document, key: string): Field {
    if d == [] then Null else if d[0].0 == key then d[0].1 else Lookup(d[1..], key)
  }

  // ---- Which text a document has ----

  lemma {:induction false} JoinConcat(a: seq<string>, b: seq<string>)
    requires a != [] && b != []
    ensures Join(a + b) == Join(a) + " " + Join(b)
  {
    if |a| == 1 {
      assert (a + b)[1..] == b;
    } else {
      JoinConcat(a[1..], b);
      assert (a + b)[1..] == a[1..] + b;
    }
  }

  lemma JoinFew(s: string)
    ensures Join([]) == "" && Join([s]) == s
  {
  }

  /** Of a list, its strings, all of them and in order. */
  lemma {:induction false} ItemTextsExact(items: seq<Field>)
    ensures forall s :: s in ItemTexts(items) <==> Str(s) in items
    ensures |ItemTexts(items)| <= |items|
    ensures (forall i :: 0 <= i < |items| ==> items[i].Str?) ==>
      |ItemTexts(items)| == |items| && forall i :: 0 <= i < |items| ==> ItemTexts(items)[i] == items[i].s
  {
    if items != [] {
      ItemTextsExact(items[1..]);
      assert items == [items[0]] + items[1..];
      if forall i :: 0 <= i < |items| ==> items[i].Str? {
        assert forall i :: 0 <= i < |items[1..]| ==> items[1..][i] == items[i + 1];
      }
    }
  }

  lemma ItemTextsCons(item: Field, items: seq<Field>)
    ensures ItemTexts([item] + items) == (if item.Str? then [item.s] else []) + ItemTexts(items)
    ensures ItemTexts([]) == []
  {
    assert ([item] + items)[1..] == items;
  }

  lemma {:induction false} ItemTextsConcat(a: seq<Field>, b: seq<Field>)
    ensures ItemTexts(a + b) == ItemTexts(a) + ItemTexts(b)
  {
    hide ItemTexts;
    if a == [] {
      ItemTextsCons(Null, b);
      assert a + b == b;
    } else {
      ItemTextsConcat(a[1..], b);
      ItemTextsCons(a[0], a[1..]);
      ItemTextsCons(a[0], a[1..] + b);
      assert a == [a[0]] + a[1..] && a + b == [a[0]] + (a[1..] + b);
    }
  }

  lemma TextsCons(field: (string, Field), d: Document)
    ensures Texts([field] + d) == Texts([field]) + Texts(d)
    ensures Texts([]) == []
  {
    assert ([field] + d)[1..] == d && [field][1..] == [];
  }

  /** Fields contribute their text independently and in order. */
  lemma {:induction false} TextsConcat(a: Document, b: Document)
    ensures Texts(a + b) == Texts(a) + Texts(b)
    decreases |a|
  {
    hide Texts;
    if a == [] {
      TextsCons(("", Null), b);
      assert a + b == b;
    } else {
      TextsConcat(a[1..], b);
      TextsCons(a[0], a[1..]);
      TextsCons(a[0], a[1..] + b);
      assert a == [a[0]] + a[1..] && a + b == [a[0]] + (a[1..] + b);
    }
  }

  /**
   What one field contributes: a string itself, a list its strings, a dictionary the text
   of its own fields, anything else nothing; and `id` never anything.
   */
  lemma TextOfField(key: string, s: string, items: seq<Field>, inner: Document, value: Field)
    ensures key != "id" ==>
      && Texts([(key, Str(s))]) == [s]
      && Texts([(key, Items(items))]) == ItemTexts(items)
      && Texts([(key, Dict(inner))]) == [ExtractText(inner)]
      && (value.Null? || value.Opaque? ==> Texts([(key, value)]) == [])
    ensures Texts([("id", value)]) == []
  {
    assert [(key, Str(s))][1..] == [] && [(key, Items(items))][1..] == [] && [(key, Dict(inner))][1..] == [];
    assert [(key, value)][1..] == [] && [("id", value)][1..] == [];
  }

  /** A field that was set reads as its value, and the others as before. */
  lemma {:induction false} WithFieldLookup(d: Document, key: string, value: Field, other: string)
    ensures Lookup(WithField(d, key, value), other) == if other == key then value else Lookup(d, other)
    ensures |WithField(d, key, value)| == |d| || |WithField(d, key, value)| == |d| + 1
  {
    if d == [] {
      assert [(key, value)][1..] == [];
    } else if d[0].0 != key {
      WithFieldLookup(d[1..], key, value, other);
      assert WithField(d, key, value)[1..] == WithField(d[1..], key, value);
    } else {
      assert WithField(d, key, value)[1..] == d[1..];
    }
  }

  /** A lookup is the first field of that name, or null without one. */
  lemma {:induction false} LookupExact(d: Document, key: string)
    ensures (forall i :: 0 <= i < |d| ==> d[i].0 != key) ==> Lookup(d, key) == Null
    ensures forall i :: 0 <= i < |d| && d[i].0 == key && (forall j :: 0 <= j < i ==> d[j].0 != key) ==>
      Lookup(d, key) == d[i].1
  {
    if d != [] && d[0].0 != key {
      LookupExact(d[1..], key);
      assert forall i :: 1 <= i < |d| ==> d[i] == d[1..][i - 1];
    }
  }

  /** Storing a document under an id does not change its text. */
  lemma {:induction false} IdCarriesNoText(d: Document, value: Field)
    ensures Texts(WithField(d, "id", value)) == Texts(d)
  {
    if d == [] {
      assert [("id", value)][1..] == [];
    } else {
      var d' := WithField(d, "id", value);
      if d[0].0 == "id" {
        assert d'[1..] == d[1..];
      } else {
        assert d'[1..] == WithField(d[1..], "id", value);
        IdCarriesNoText(d[1..], value);
      }
    }
  }

  // ---- Positions ----

  /** The tokens of each document. */
  type Tokens = map<string, seq<string>>

  function Positions(tokens: seq<string>, term: string): seq<nat> {
    if tokens == [] then []
    else Positions(tokens[..|tokens| - 1], term) + (if tokens[|tokens| - 1] == term then [|tokens| - 1] else [])
  }

  /** `ps` lists exactly the positions of the term, in ascending order. */
  ghost predicate AllPositions(ps: seq<nat>, tokens: seq<string>, term: string) {
    && (forall p :: p in ps ==> p < |tokens| && tokens[p] == term)
    && (forall p :: 0 <= p < |tokens| && tokens[p] == term ==> p in ps)
    && (forall i, j :: 0 <= i < j < |ps| ==> ps[i] < ps[j])
  }

  lemma AllPositionsSnoc(ps: seq<nat>, tokens: seq<string>, t: string, term: string)
    requires AllPositions(ps, tokens, term)
    ensures AllPositions(ps + (if t == term then [|tokens|] else []), tokens + [t], term)
  {
    var tokens', ps' := tokens + [t], ps + (if t == term then [|tokens|] else []);
    assert forall p :: 0 <= p < |tokens| ==> tokens'[p] == tokens[p];
    assert forall p :: p in ps' ==> p in ps || p == |tokens|;
    assert forall i :: 0 <= i < |ps| ==> ps'[i] == ps[i] && ps[i] in ps;
    if t == term { assert ps'[|ps|] == |tokens|; }
  }

  lemma {:induction false} PositionsExact(tokens: seq<string>, term: string)
    ensures AllPositions(Positions(tokens, term), tokens, term)
  {
    if tokens != [] {
      var init, last := tokens[..|tokens| - 1], tokens[|tokens| - 1];
      PositionsExact(init, term);
      AllPositionsSnoc(Positions(init, term), init, last, term);
      assert tokens == init + [last];
    }
  }

  lemma PositionsEmpty(tokens: seq<string>, term: string)
    ensures Positions(tokens, term) == [] <==> term !in tokens
  {
    PositionsExact(tokens, term);
    if term in tokens {
      var p :| 0 <= p < |tokens| && tokens[p] == term;
      assert p in Positions(tokens, term);
    }
    if Positions(tokens, term) != [] {
      assert Positions(tokens, term)[0] in Positions(tokens, term);
    }
  }

  lemma PositionsSnoc(tokens: seq<string>, t: string, term: string)
    ensures Positions(tokens + [t], term) == Positions(tokens, term) + (if t == term then [|tokens|] else [])
  {
    assert (tokens + [t])[..|tokens|] == tokens;
  }

  // ---- The inverted index ----

  type Index = map<string, map<string, seq<nat>>>

  function PostingsOf(toks: Tokens, term: string): map<string, seq<nat>> {
    map id | id in toks && term in toks[id] :: Positions(toks[id], term)
  }

  function Terms(toks: Tokens): set<string> {
    set id, i | id in toks && 0 <= i < |toks[id]| :: toks[id][i]
  }

  function Inverted(toks: Tokens): Index {
    map t | t in Terms(toks) :: PostingsOf(toks, t)
  }

  function Lengths(toks: Tokens): map<string, nat> {
    map id | id in toks :: |toks[id]|
  }

  /** No posting list is empty, and every term of a document has one. */
  lemma InvertedAt(toks: Tokens, term: string)
    ensures term in Inverted(toks) <==> PostingsOf(toks, term) != map[]
  {
    if term in Terms(toks) {
      var id, i :| id in toks && 0 <= i < |toks[id]| && toks[id][i] == term;
      assert id in PostingsOf(toks, term);
    }
    if PostingsOf(toks, term) != map[] {
      var id :| id in PostingsOf(toks, term);
      var i :| 0 <= i < |toks[id]| && toks[id][i] == term;
      assert toks[id][i] in Terms(toks);
    }
  }

  function PostingsIn(index: Index, term: string): map<string, seq<nat>> {
    if term in index then index[term] else map[]
  }

  lemma PostingsInInverted(toks: Tokens, term: string)
    ensures PostingsIn(Inverted(toks), term) == PostingsOf(toks, term)
  {
    InvertedAt(toks, term);
  }

  lemma SameIndex(a: Index, b: Index)
    requires forall t :: t in a ==> a[t] != map[]
    requires forall t :: t in b ==> b[t] != map[]
    requires forall t :: PostingsIn(a, t) == PostingsIn(b, t)
    ensures a == b
  {
    forall t
      ensures t in a <==> t in b
      ensures t in a ==> a[t] == b[t]
    {
      assert PostingsIn(a, t) == PostingsIn(b, t);
    }
  }

  lemma InvertedNonEmpty(toks: Tokens)
    ensures forall t :: t in Inverted(toks) ==> Inverted(toks)[t] != map[]
  {
    forall t | t in Inverted(toks)
      ensures Inverted(toks)[t] != map[]
    {
      InvertedAt(toks, t);
    }
  }

  /** Entering position `p` of `term` in document `id`. */
  function Enter(index: Index, term: string, id: string, p: nat): Index {
    var ps := PostingsIn(index, term);
    index[term := ps[id := (if id in ps then ps[id] else []) + [p]]]
  }

  lemma PostingsSnoc(toks: Tokens, id: string, tokens: seq<string>, t: string, term: string)
    ensures var ps := PostingsOf(toks[id := tokens], term);
      PostingsOf(toks[id := tokens + [t]], term)
        == if term == t then ps[id := (if id in ps then ps[id] else []) + [|tokens|]] else ps
  {
    PositionsSnoc(tokens, t, term);
    PositionsEmpty(tokens, term);
    hide Positions;
    PostingsUpdate(toks, id, tokens, term);
    PostingsUpdate(toks, id, tokens + [t], term);
    assert term in tokens + [t] <==> term in tokens || term == t;
    var ps, ps' := PostingsOf(toks[id := tokens], term), PostingsOf(toks[id := tokens + [t]], term);
    var wanted := if term == t then ps[id := (if id in ps then ps[id] else []) + [|tokens|]] else ps;
    assert ps'.Keys == wanted.Keys;
    forall x | x in ps'
      ensures ps'[x] == wanted[x]
    {
      if x == id && term !in tokens { assert Positions(tokens, term) == []; }
    }
  }

  /** A document's tokens matter to its own posting only. */
  lemma PostingsUpdate(toks: Tokens, id: string, tokens: seq<string>, term: string)
    ensures PostingsOf(toks[id := tokens], term)
      == if term in tokens then PostingsOf(toks, term)[id := Positions(tokens, term)] else PostingsOf(toks, term) - {id}
  {
    hide Positions;
    var a := PostingsOf(toks[id := tokens], term);
    var b := if term in tokens then PostingsOf(toks, term)[id := Positions(tokens, term)]
      else PostingsOf(toks, term) - {id};
    assert a.Keys == b.Keys;
    assert forall x :: x in a ==> a[x] == b[x];
  }

  /** One more token of a document is one more entry of the index. */
  lemma InvertedSnoc(toks: Tokens, id: string, tokens: seq<string>, t: string)
    ensures Inverted(toks[id := tokens + [t]]) == Enter(Inverted(toks[id := tokens]), t, id, |tokens|)
  {
    var a, b := Inverted(toks[id := tokens + [t]]), Inverted(toks[id := tokens]);
    var c := Enter(b, t, id, |tokens|);
    InvertedNonEmpty(toks[id := tokens + [t]]);
    InvertedNonEmpty(toks[id := tokens]);
    forall u
      ensures PostingsIn(a, u) == PostingsIn(c, u)
    {
      PostingsInInverted(toks[id := tokens + [t]], u);
      PostingsInInverted(toks[id := tokens], u);
      PostingsSnoc(toks, id, tokens, t, u);
    }
    assert c[t] != map[] by { assert id in c[t]; }
    assert forall u :: u in c ==> c[u] != map[];
    SameIndex(a, c);
  }

  /** The index after entering a document's tokens one by one. */
  function Entered(index: Index, id: string, tokens: seq<string>): Index {
    if tokens == [] then index
    else Enter(Entered(index, id, tokens[..|tokens| - 1]), tokens[|tokens| - 1], id, |tokens| - 1)
  }

  /** Entering a new document token by token gives the index of all documents together. */
  lemma {:induction false} EnteredIsInverted(toks: Tokens, id: string, tokens: seq<string>)
    requires id !in toks
    ensures Entered(Inverted(toks), id, tokens) == Inverted(toks[id := tokens])
  {
    hide Inverted, Enter;
    if tokens == [] {
      InvertedNoTokens(toks, id);
    } else {
      var init, last := tokens[..|tokens| - 1], tokens[|tokens| - 1];
      EnteredIsInverted(toks, id, init);
      InvertedSnoc(toks, id, init, last);
      assert tokens == init + [last];
    }
  }

  /** A document without tokens does not show in the index. */
  lemma InvertedNoTokens(toks: Tokens, id: string)
    requires id !in toks
    ensures Inverted(toks[id := []]) == Inverted(toks)
  {
    var toks' := toks[id := []];
    InvertedNonEmpty(toks);
    InvertedNonEmpty(toks');
    forall u
      ensures PostingsIn(Inverted(toks'), u) == PostingsIn(Inverted(toks), u)
    {
      PostingsInInverted(toks', u);
      PostingsInInverted(toks, u);
      assert PostingsOf(toks', u) == PostingsOf(toks, u);
    }
    SameIndex(Inverted(toks'), Inverted(toks));
  }

  /** The index with one document struck from every posting list, empty lists dropped. */
  function Struck(index: Index, id: string): Index {
    map t | t in index && index[t] - {id} != map[] :: index[t] - {id}
  }

  lemma InvertedRemove(toks: Tokens, id: string)
    ensures Inverted(toks - {id}) == Struck(Inverted(toks), id)
  {
    var a, b := Inverted(toks - {id}), Inverted(toks);
    InvertedNonEmpty(toks - {id});
    forall u
      ensures PostingsIn(a, u) == PostingsIn(Struck(b, id), u)
    {
      PostingsInInverted(toks - {id}, u);
      PostingsInInverted(toks, u);
      assert PostingsOf(toks - {id}, u) == PostingsOf(toks, u) - {id};
    }
    SameIndex(a, Struck(b, id));
  }

  /** Position by position: the index has exactly the occurrences of terms in documents. */
  lemma IndexExact(toks: Tokens, term: string, id: string, p: nat)
    ensures var index := Inverted(toks);
      (term in index && id in index[term] && p in index[term][id]) <==>
        id in toks && p < |toks[id]| && toks[id][p] == term
  {
    hide Positions;
    InvertedAt(toks, term);
    if id in toks {
      PositionsExact(toks[id], term);
      if p < |toks[id]| && toks[id][p] == term {
        assert toks[id][p] in Terms(toks);
      }
    }
  }
}
