/**
 Two caches, one at least as large as the other, driven by the same operations and the
 same clock readings: the smaller one's entries are always a subsequence of the larger
 one's, so every hit of the smaller cache is the same hit of the larger.
 Nothing is assumed about the clock.
 */
module CacheInclusion {
  import opened Prelude
  import opened LruCache

  ghost predicate Included<V(!new)>(k: nat, k': nat, s: Cache<V>, l: Cache<V>) {
    && Distinct(s.entries) && Distinct(l.entries)
    && Subseq(s.entries, l.entries)
    && |l.entries| - |s.entries| <= k' - k
    && |s.entries| <= k && |l.entries| <= k'
    && s.sets == l.sets
  }

  /** Whatever the smaller cache finds, the larger finds with the same value. */
  ghost predicate AnsweredBy<V>(small: Outcome<V>, large: Outcome<V>) {
    match small
    case Got(v) => large.Got? && (v.Some? ==> large.got == v)
    case Found(b) => large.Found? && (b ==> large.found)
    case Batch(m) => large.Batch? && forall key :: key in m ==> key in large.batch && large.batch[key] == m[key]
    case Done => large.Done?
  }

  lemma FindIncluded<V(!new)>(c: seq<Entry<V>>, d: seq<Entry<V>>, key: string)
    requires Distinct(d) && Subseq(c, d) && Find(c, key).Some?
    ensures Find(d, key) == Find(c, key)
  {
    SubseqMembers(c, d);
    FindIn(d, Find(c, key).value);
  }

  lemma FilterIncluded<V(!new)>(p: Entry<V> -> bool, c: seq<Entry<V>>, d: seq<Entry<V>>)
    requires Distinct(c) && Distinct(d) && Subseq(c, d)
    ensures Distinct(Filter(p, c)) && Distinct(Filter(p, d)) && Subseq(Filter(p, c), Filter(p, d))
    ensures |Filter(p, d)| - |Filter(p, c)| <= |d| - |c|
  {
    DistinctFilter(p, c);
    DistinctFilter(p, d);
    SubseqFilter(p, c, d);
  }

  /** Both caches use the same entry. */
  lemma TouchBoth<V(!new)>(c: seq<Entry<V>>, d: seq<Entry<V>>, e: Entry<V>)
    requires Distinct(c) && Distinct(d) && Subseq(c, d)
    ensures Distinct(Touch(c, e)) && Distinct(Touch(d, e)) && Subseq(Touch(c, e), Touch(d, e))
    ensures |Touch(d, e)| - |Touch(c, e)| <= |d| - |c|
    ensures Find(c, e.key).Some? ==> |Touch(c, e)| == |c|
    ensures Find(d, e.key).Some? ==> |Touch(d, e)| == |d|
  {
    DistinctTouch(c, e);
    DistinctTouch(d, e);
    SubseqFilter((x: Entry<V>) => x.key != e.key, c, d);
    SubseqSnoc(Without(c, e.key), Without(d, e.key), e);
    if Find(c, e.key).Some? { WithoutPresent(c, e.key); }
    if Find(d, e.key).Some? { WithoutPresent(d, e.key); }
  }

  /** A hit only the larger cache sees: it reorders, the smaller one does not. */
  lemma TouchLargeOnly<V(!new)>(c: seq<Entry<V>>, d: seq<Entry<V>>, e: Entry<V>)
    requires Distinct(c) && Distinct(d) && Subseq(c, d)
    requires Find(c, e.key).None? && Find(d, e.key) == Some(e)
    ensures Distinct(Touch(d, e)) && Subseq(c, Touch(d, e)) && |Touch(d, e)| == |d|
  {
    TouchBoth(c, d, e);
    WithoutAbsent(c, e.key);
    SubseqFilter((x: Entry<V>) => x.key != e.key, c, d);
    SubseqSnoc(Without(c, e.key), Without(d, e.key), e);
  }

  /** Both evict: the larger cache drops no more than the smaller does. */
  lemma EvictBoth<V(!new)>(k: nat, k': nat, c: seq<Entry<V>>, d: seq<Entry<V>>)
    requires k <= k' && Distinct(c) && Distinct(d) && Subseq(c, d) && |d| - |c| <= k' - k
    ensures var c', d' := Evicted(c, k), Evicted(d, k');
      && Distinct(c') && Distinct(d') && Subseq(c', d')
      && |d'| - |c'| <= k' - k && |c'| <= k && |d'| <= k'
  {
    SubseqMembers(c, d);
    var x: nat := if |d| > k' then |d| - k' else 0;
    var y: nat := if |c| > k then |c| - k else 0;
    assert Evicted(c, k) == c[y..] && Evicted(d, k') == d[x..];
    SubseqDrop(c, d, x, y);
  }

  lemma SetIncluded<V(!new)>(k: nat, k': nat, s: Cache<V>, l: Cache<V>, op: Op<V>)
    requires k <= k' && Included(k, k', s, l) && op.Set?
    ensures Included(k, k', Step(k, s, op).0, Step(k', l, op).0)
  {
    hide Touch, Evicted, Subseq, Distinct, Find;
    var e := Entry(op.key, op.value, Deadline(op.ttl, op.now));
    TouchBoth(s.entries, l.entries, e);
    EvictBoth(k, k', Touch(s.entries, e), Touch(l.entries, e));
    var c, d := Evicted(Touch(s.entries, e), k), Evicted(Touch(l.entries, e), k');
    FilterIncluded((x: Entry<V>) => !Expired(x, op.sweepNow), c, d);
  }

  lemma PeekIncluded<V(!new)>(k: nat, k': nat, s: Cache<V>, l: Cache<V>, key: string, now: real)
    requires Included(k, k', s, l)
    ensures var a, b := AfterPeek(s, key, now), AfterPeek(l, key, now);
      Included(k, k', a.0, b.0) && (a.1.Some? ==> b.1 == a.1)
  {
    var f := Find(l.entries, key);
    if Find(s.entries, key).Some? {
      FindIncluded(s.entries, l.entries, key);
      TouchBoth(s.entries, l.entries, f.value);
    } else if f.Some? && !Expired(f.value, now) {
      TouchLargeOnly(s.entries, l.entries, f.value);
    }
  }

  /** The batch a lookup has filled so far, after one more key. */
  function Extend<V>(m: map<string, V>, key: string, v: Option<V>): map<string, V> {
    if v.Some? then m[key := v.value] else m
  }

  lemma BatchExtended<V>(m: map<string, V>, m': map<string, V>, key: string, v: Option<V>, v': Option<V>)
    requires AnsweredBy(Batch(m), Batch(m')) && (v.Some? ==> v' == v)
    requires v.None? && v'.Some? ==> key !in m || m[key] == v'.value
    ensures AnsweredBy(Batch(Extend(m, key, v)), Batch(Extend(m', key, v')))
  {
  }

  /** A batch lookup only reorders, so every answer so far is still an entry of the cache. */
  lemma {:induction false} BatchIsCached<V(!new)>(s: Cache<V>, keys: seq<Lookup>)
    requires Distinct(s.entries)
    ensures var (s', m) := AfterGetMany(s, keys);
      Distinct(s'.entries) && forall key :: key in m ==>
        exists e :: e in s'.entries && e.key == key && e.value == m[key]
    decreases |keys|
  {
    if keys != [] {
      var last := keys[|keys| - 1];
      BatchIsCached(s, keys[..|keys| - 1]);
      var (s1, m1) := AfterGetMany(s, keys[..|keys| - 1]);
      var f := Find(s1.entries, last.key);
      if f.Some? && !Expired(f.value, last.now) {
        DistinctTouch(s1.entries, f.value);
        forall e | e in s1.entries
          ensures e in Touch(s1.entries, f.value)
        {
          FindIn(s1.entries, e);
          assert e in Without(s1.entries, f.value.key) || e == f.value;
        }
      }
    }
  }

  lemma SameEntry<V(!new)>(c: seq<Entry<V>>, d: seq<Entry<V>>, m: map<string, V>, l: Lookup)
    requires Distinct(c) && Distinct(d) && Subseq(c, d)
    requires forall key :: key in m ==> exists e :: e in c && e.key == key && e.value == m[key]
    ensures l.key in m && Find(d, l.key).Some? ==> Find(d, l.key).value.value == m[l.key]
  {
    if l.key in m {
      var e :| e in c && e.key == l.key && e.value == m[l.key];
      SubseqMembers(c, d);
      FindIn(d, e);
    }
  }

  lemma {:induction false} GetManyIncluded<V(!new)>(k: nat, k': nat, s: Cache<V>, l: Cache<V>, keys: seq<Lookup>)
    requires Included(k, k', s, l)
    ensures var a, b := AfterGetMany(s, keys), AfterGetMany(l, keys);
      Included(k, k', a.0, b.0) && AnsweredBy(Batch(a.1), Batch(b.1))
    decreases |keys|
  {
    if keys != [] {
      var init, last := keys[..|keys| - 1], keys[|keys| - 1];
      GetManyIncluded(k, k', s, l, init);
      var a, b := AfterGetMany(s, init), AfterGetMany(l, init);
      PeekIncluded(k, k', a.0, b.0, last.key, last.now);
      BatchIsCached(s, init);
      SameEntry(a.0.entries, b.0.entries, a.1, last);
      BatchExtended(a.1, b.1, last.key, AfterPeek(a.0, last.key, last.now).1, AfterPeek(b.0, last.key, last.now).1);
    }
  }

  lemma WithoutIncluded<V(!new)>(k: nat, k': nat, s: Cache<V>, l: Cache<V>, key: string)
    requires Included(k, k', s, l)
    ensures Included(k, k', s.(entries := Without(s.entries, key)), l.(entries := Without(l.entries, key)))
    ensures Find(s.entries, key).None? ==> Without(s.entries, key) == s.entries
    ensures Find(l.entries, key).None? ==> Without(l.entries, key) == l.entries
  {
    FilterIncluded((e: Entry<V>) => e.key != key, s.entries, l.entries);
    if Find(s.entries, key).None? { WithoutAbsent(s.entries, key); }
    if Find(l.entries, key).None? { WithoutAbsent(l.entries, key); }
  }

  /** One operation keeps the inclusion and is answered consistently. */
  lemma StepIncluded<V(!new)>(k: nat, k': nat, s: Cache<V>, l: Cache<V>, op: Op<V>)
    requires k <= k' && Included(k, k', s, l)
    ensures Included(k, k', Step(k, s, op).0, Step(k', l, op).0)
    ensures AnsweredBy(Step(k, s, op).1, Step(k', l, op).1)
  {
    match op
    case Get(key, now) =>
      if Find(s.entries, key).Some? { FindIncluded(s.entries, l.entries, key); }
      WithoutIncluded(k, k', s, l, key);
      PeekIncluded(k, k', s, l, key, now);
    case Set(_, _, _, _, _) => SetIncluded(k, k', s, l, op);
    case Delete(key) =>
      if Find(s.entries, key).Some? { FindIncluded(s.entries, l.entries, key); }
      WithoutIncluded(k, k', s, l, key);
    case Exists(key, now) =>
      if Find(s.entries, key).Some? { FindIncluded(s.entries, l.entries, key); }
      WithoutIncluded(k, k', s, l, key);
    case Clear =>
    case GetMany(keys) => GetManyIncluded(k, k', s, l, keys);
  }

  /** Inclusion over whole runs. */
  lemma {:induction false} LargerCacheContainsSmaller<V(!new)>(k: nat, k': nat, ops: seq<Op<V>>)
    requires k <= k'
    ensures Included(k, k', Run(k, ops), Run(k', ops))
    ensures forall e :: e in Run(k, ops).entries ==> e in Run(k', ops).entries
    decreases |ops|
  {
    if ops != [] {
      var prefix := ops[..|ops| - 1];
      LargerCacheContainsSmaller(k, k', prefix);
      StepIncluded(k, k', Run(k, prefix), Run(k', prefix), ops[|ops| - 1]);
    }
    SubseqMembers(Run(k, ops).entries, Run(k', ops).entries);
  }

  /** Every hit of the smaller cache, at any point of any run, is the same hit of the larger. */
  lemma SmallHitIsLargeHit<V(!new)>(k: nat, k': nat, ops: seq<Op<V>>, i: nat)
    requires k <= k' && i < |ops|
    ensures AnsweredBy(OutcomeAt(k, ops, i), OutcomeAt(k', ops, i))
  {
    LargerCacheContainsSmaller(k, k', ops[..i]);
    StepIncluded(k, k', Run(k, ops[..i]), Run(k', ops[..i]), ops[i]);
  }

  /** Consequently a larger cache never has fewer hits. */
  lemma PeekHits<V(!new)>(k: nat, k': nat, s: Cache<V>, l: Cache<V>, key: string, now: real)
    requires Included(k, k', s, l) && s.hits <= l.hits && s.hits + s.misses == l.hits + l.misses
    ensures var a, b := AfterPeek(s, key, now).0, AfterPeek(l, key, now).0;
      a.hits <= b.hits && a.hits + a.misses == b.hits + b.misses
  {
    if Find(s.entries, key).Some? { FindIncluded(s.entries, l.entries, key); }
  }

  lemma {:induction false} GetManyHits<V(!new)>(k: nat, k': nat, s: Cache<V>, l: Cache<V>, keys: seq<Lookup>)
    requires Included(k, k', s, l) && s.hits <= l.hits && s.hits + s.misses == l.hits + l.misses
    ensures var a, b := AfterGetMany(s, keys).0, AfterGetMany(l, keys).0;
      a.hits <= b.hits && a.hits + a.misses == b.hits + b.misses
    decreases |keys|
  {
    if keys != [] {
      var init, last := keys[..|keys| - 1], keys[|keys| - 1];
      GetManyHits(k, k', s, l, init);
      GetManyIncluded(k, k', s, l, init);
      PeekHits(k, k', AfterGetMany(s, init).0, AfterGetMany(l, init).0, last.key, last.now);
    }
  }

  lemma {:induction false} LargerCacheHitsMore<V(!new)>(k: nat, k': nat, ops: seq<Op<V>>)
    requires k <= k'
    ensures var s, l := Run(k, ops), Run(k', ops);
      s.hits <= l.hits && s.hits + s.misses == l.hits + l.misses
    decreases |ops|
  {
    if ops != [] {
      var prefix, op := ops[..|ops| - 1], ops[|ops| - 1];
      LargerCacheHitsMore(k, k', prefix);
      LargerCacheContainsSmaller(k, k', prefix);
      var s, l := Run(k, prefix), Run(k', prefix);
      match op
      case Get(key, now) => PeekHits(k, k', s, l, key, now);
      case GetMany(keys) => GetManyHits(k, k', s, l, keys);
      case _ =>
    }
  }
}
