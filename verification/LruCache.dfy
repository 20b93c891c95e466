/**
 The in-memory cache: a recency-ordered dictionary with per-entry expiry, a capacity
 bound and a sweep of expired entries at every hundredth `set`.

 The ordered dictionary is the sequence of its entries, least recently used first; its
 keys are pairwise distinct.  Clock readings are arguments.
 */
module LruCache {
  import opened Prelude

  const SWEEP_PERIOD := 100

  datatype Entry<V> = Entry(key: string, value: V, expiresAt: Option<real>)

  datatype Cache<V> = Cache(
    entries: seq<Entry<V>>, hits: nat, misses: nat, sets: nat, deletes: nat, evictions: nat, size: nat)

  function Empty<V>(): Cache<V> {
    Cache([], 0, 0, 0, 0, 0, 0)
  }

  // ---- The ordered dictionary ----

  function Find<V>(c: seq<Entry<V>>, key: string): (r: Option<Entry<V>>)
    ensures r.Some? ==> r.value in c && r.value.key == key
    ensures r.None? ==> forall i :: 0 <= i < |c| ==> c[i].key != key
  {
    if c == [] then None
    else if c[0].key == key then Some(c[0])
    else Find(c[1..], key)
  }

  function Without<V(!new)>(c: seq<Entry<V>>, key: string): seq<Entry<V>> {
    Filter((e: Entry<V>) => e.key != key, c)
  }

  /** Re-inserts `e` as the most recently used entry. */
  function Touch<V(!new)>(c: seq<Entry<V>>, e: Entry<V>): seq<Entry<V>> {
    Without(c, e.key) + [e]
  }

  /** Plain assignment: an existing key keeps its place, a new one goes last. */
  function Assign<V>(c: seq<Entry<V>>, e: Entry<V>): seq<Entry<V>> {
    if c == [] then [e]
    else if c[0].key == e.key then [e] + c[1..]
    else [c[0]] + Assign(c[1..], e)
  }

  ghost predicate Distinct<V>(c: seq<Entry<V>>) {
    forall i, j :: 0 <= i < j < |c| ==> c[i].key != c[j].key
  }

  predicate Expired<V>(e: Entry<V>, now: real) {
    e.expiresAt.Some? && now > e.expiresAt.value
  }

  function Live<V(!new)>(c: seq<Entry<V>>, now: real): seq<Entry<V>> {
    Filter((e: Entry<V>) => !Expired(e, now), c)
  }

  /** A zero time-to-live means no expiry, as an absent one does. */
  function Deadline(ttl: Option<int>, now: real): Option<real> {
    if ttl.Some? && ttl.value != 0 then Some(now + ttl.value as real) else None
  }

  /** The entries that survive eviction down to `maxSize`. */
  function Evicted<V>(c: seq<Entry<V>>, maxSize: nat): seq<Entry<V>> {
    if |c| > maxSize then c[|c| - maxSize..] else c
  }

  // ---- What each operation does ----

  function AfterGet<V(!new)>(s: Cache<V>, key: string, now: real): (Cache<V>, Option<V>) {
    match Find(s.entries, key)
    case None => (s.(misses := s.misses + 1), None)
    case Some(e) =>
      if Expired(e, now) then
        (s.(entries := Without(s.entries, key), misses := s.misses + 1, evictions := s.evictions + 1), None)
      else
        (s.(entries := Touch(s.entries, e), hits := s.hits + 1), Some(e.value))
  }

  function AfterSet<V(!new)>(
    maxSize: nat, s: Cache<V>, key: string, value: V, ttl: Option<int>, now: real, sweepNow: real): Cache<V> {
    var c1 := Touch(s.entries, Entry(key, value, Deadline(ttl, now)));
    var c2 := Evicted(c1, maxSize);
    var c3 := if (s.sets + 1) % SWEEP_PERIOD == 0 then Live(c2, sweepNow) else c2;
    s.(entries := c3, sets := s.sets + 1, size := |c1|, evictions := s.evictions + (|c1| - |c3|))
  }

  function AfterDelete<V(!new)>(s: Cache<V>, key: string): Cache<V> {
    if Find(s.entries, key).None? then s
    else s.(entries := Without(s.entries, key), deletes := s.deletes + 1, size := |Without(s.entries, key)|)
  }

  function AfterExists<V(!new)>(s: Cache<V>, key: string, now: real): (Cache<V>, bool) {
    match Find(s.entries, key)
    case None => (s, false)
    case Some(e) =>
      if Expired(e, now) then (s.(entries := Without(s.entries, key)), false) else (s, true)
  }

  /** One key of a batch lookup: like `get`, but an expired entry stays where it is. */
  function AfterPeek<V(!new)>(s: Cache<V>, key: string, now: real): (Cache<V>, Option<V>) {
    match Find(s.entries, key)
    case Some(e) =>
      if !Expired(e, now) then (s.(entries := Touch(s.entries, e), hits := s.hits + 1), Some(e.value))
      else (s.(misses := s.misses + 1), None)
    case None => (s.(misses := s.misses + 1), None)
  }

  datatype Lookup = Lookup(key: string, now: real)

  /** A batch lookup, key by key from the left. */
  function AfterGetMany<V(!new)>(s: Cache<V>, keys: seq<Lookup>): (r: (Cache<V>, map<string, V>))
    decreases |keys|
  {
    if keys == [] then (s, map[])
    else
      var last := keys[|keys| - 1];
      var (s1, found) := AfterGetMany(s, keys[..|keys| - 1]);
      var (s2, v) := AfterPeek(s1, last.key, last.now);
      (s2, if v.Some? then found[last.key := v.value] else found)
  }

  // ---- Runs ----

  datatype Op<V> =
    | Get(key: string, now: real)
    | Set(key: string, value: V, ttl: Option<int>, now: real, sweepNow: real)
    | Delete(key: string)
    | Exists(key: string, now: real)
    | Clear
    | GetMany(keys: seq<Lookup>)

  datatype Outcome<V> = Got(got: Option<V>) | Found(found: bool) | Batch(batch: map<string, V>) | Done

  function Step<V(!new)>(maxSize: nat, s: Cache<V>, op: Op<V>): (Cache<V>, Outcome<V>) {
    match op
    case Get(key, now) => var (s', v) := AfterGet(s, key, now); (s', Got(v))
    case Set(key, value, ttl, now, sweepNow) => (AfterSet(maxSize, s, key, value, ttl, now, sweepNow), Done)
    case Delete(key) => (AfterDelete(s, key), Done)
    case Exists(key, now) => var (s', b) := AfterExists(s, key, now); (s', Found(b))
    case Clear => (s.(entries := [], size := 0), Done)
    case GetMany(keys) => var (s', m) := AfterGetMany(s, keys); (s', Batch(m))
  }

  /** The state after `ops`, starting from an empty cache. */
  function Run<V(!new)>(maxSize: nat, ops: seq<Op<V>>): Cache<V>
    decreases |ops|
  {
    if ops == [] then Empty()
    else Step(maxSize, Run(maxSize, ops[..|ops| - 1]), ops[|ops| - 1]).0
  }

  /** What the `i`-th operation of a run answers. */
  function OutcomeAt<V(!new)>(maxSize: nat, ops: seq<Op<V>>, i: nat): Outcome<V>
    requires i < |ops|
  {
    Step(maxSize, Run(maxSize, ops[..i]), ops[i]).1
  }

  // ---- Facts about the ordered dictionary ----

  lemma {:induction false} FindIn<V>(c: seq<Entry<V>>, e: Entry<V>)
    requires Distinct(c) && e in c
    ensures Find(c, e.key) == Some(e)
  {
    if c[0] != e {
      assert e in c[1..];
      var i :| 0 <= i < |c[1..]| && c[1..][i] == e;
      assert c[0].key != c[i + 1].key;
      FindIn(c[1..], e);
    }
  }

  lemma {:induction false} DistinctFilter<V(!new)>(p: Entry<V> -> bool, c: seq<Entry<V>>)
    requires Distinct(c)
    ensures Distinct(Filter(p, c))
  {
    if c != [] {
      DistinctFilter(p, c[1..]);
      assert forall e :: e in Filter(p, c[1..]) ==> e in c[1..];
      assert forall e :: e in c[1..] ==> e.key != c[0].key;
    }
  }

  lemma DistinctTouch<V(!new)>(c: seq<Entry<V>>, e: Entry<V>)
    requires Distinct(c)
    ensures Distinct(Touch(c, e))
  {
    DistinctFilter((x: Entry<V>) => x.key != e.key, c);
    assert forall x :: x in Without(c, e.key) ==> x.key != e.key;
  }

  lemma {:induction false} WithoutAbsent<V(!new)>(c: seq<Entry<V>>, key: string)
    requires Find(c, key).None?
    ensures Without(c, key) == c
  {
    FilterAll((e: Entry<V>) => e.key != key, c);
  }

  lemma {:induction false} WithoutPresent<V(!new)>(c: seq<Entry<V>>, key: string)
    requires Distinct(c) && Find(c, key).Some?
    ensures |Without(c, key)| == |c| - 1
  {
    assert Distinct(c[1..]);
    if c[0].key == key {
      assert forall e :: e in c[1..] ==> e.key != key;
      FilterAll((e: Entry<V>) => e.key != key, c[1..]);
    } else {
      WithoutPresent(c[1..], key);
    }
  }

  lemma {:induction false} AssignThenTouch<V(!new)>(c: seq<Entry<V>>, e: Entry<V>)
    ensures Without(Assign(c, e), e.key) == Without(c, e.key)
  {
    if c == [] {
      assert [e][1..] == [];
    } else {
      assert Assign(c, e)[1..] == if c[0].key == e.key then c[1..] else Assign(c[1..], e);
      AssignThenTouch(c[1..], e);
    }
  }

  // ---- The cache object ----

  class InMemoryCacheProvider<V(!new)> {
    const maxSize: nat
    var entries: seq<Entry<V>>
    var hits: nat
    var misses: nat
    var sets: nat
    var deletes: nat
    var evictions: nat
    var size: nat

    ghost function State(): Cache<V>
      reads this
    {
      Cache(entries, hits, misses, sets, deletes, evictions, size)
    }

    ghost predicate Valid()
      reads this
    {
      Distinct(entries) && |entries| <= maxSize
    }

    constructor (maxSize: nat)
      ensures Valid() && this.maxSize == maxSize && State() == Empty()
    {
      this.maxSize := maxSize;
      entries := [];
      hits, misses, sets, deletes, evictions, size := 0, 0, 0, 0, 0, 0;
    }

    method Get(key: string, now: real) returns (r: Option<V>)
      requires Valid()
      modifies this
      ensures Valid()
      ensures (State(), r) == AfterGet(old(State()), key, now)
    {
      var entry := Find(entries, key);
      if entry.None? {
        misses := misses + 1;
        return None;
      }
      DistinctFilter((e: Entry<V>) => e.key != key, entries);
      DistinctTouch(entries, entry.value);
      WithoutPresent(entries, key);
      if Expired(entry.value, now) {
        entries := Without(entries, key);
        misses := misses + 1;
        evictions := evictions + 1;
        return None;
      }
      entries := Without(entries, key) + [entry.value];
      hits := hits + 1;
      r := Some(entry.value.value);
    }

    method EvictLru()
      requires Distinct(entries)
      modifies this`entries, this`evictions
      ensures Valid()
      ensures entries == Evicted(old(entries), maxSize)
      ensures evictions == old(evictions) + (|old(entries)| - |entries|)
    {
      while |entries| > maxSize
        invariant |entries| <= |old(entries)|
        invariant |entries| >= maxSize || entries == old(entries)
        invariant entries == old(entries)[|old(entries)| - |entries|..]
        invariant evictions == old(evictions) + (|old(entries)| - |entries|)
      {
        entries := entries[1..];
        evictions := evictions + 1;
      }
    }

    method CollectExpired(now: real) returns (expired: seq<string>)
      ensures expired == ExpiredKeys(entries, now)
    {
      expired := [];
      for i := 0 to |entries|
        invariant expired == ExpiredKeys(entries[..i], now)
      {
        assert entries[..i + 1] == entries[..i] + [entries[i]];
        ExpiredKeysSnoc(entries[..i], entries[i], now);
        if Expired(entries[i], now) {
          expired := expired + [entries[i].key];
        }
      }
      assert entries[..|entries|] == entries;
    }

    /** Collects the expired keys first, then deletes them one by one. */
    method EvictExpired(now: real)
      requires Valid()
      modifies this`entries, this`evictions
      ensures Valid()
      ensures entries == Live(old(entries), now)
      ensures evictions == old(evictions) + (|old(entries)| - |entries|)
    {
      ghost var c := entries;
      var expired := CollectExpired(now);
      ExpiredKeysExact(c, now);
      FilterAll((e: Entry<V>) => e.key !in expired[..0], c);
      for j := 0 to |expired|
        invariant entries == Filter((e: Entry<V>) => e.key !in expired[..j], c)
        invariant Distinct(entries) && |entries| == |c| - j
        invariant evictions == old(evictions) + j
      {
        hide Filter, Distinct, Without;
        RemoveNext(c, expired, j);
        entries := Without(entries, expired[j]);
        evictions := evictions + 1;
      }
      FilterSame((e: Entry<V>) => e.key !in expired[..|expired|], (e: Entry<V>) => !Expired(e, now), c);
    }

    /** Assignment followed by a move to the most recently used end. */
    method Insert(entry: Entry<V>)
      requires Valid()
      modifies this`entries
      ensures Distinct(entries) && entries == Touch(old(entries), entry)
    {
      AssignThenTouch(entries, entry);
      DistinctTouch(entries, entry);
      entries := Assign(entries, entry);
      entries := Without(entries, entry.key) + [entry];
    }

    method Set(key: string, value: V, ttl: Option<int>, now: real, sweepNow: real)
      requires Valid()
      modifies this
      ensures Valid()
      ensures State() == AfterSet(maxSize, old(State()), key, value, ttl, now, sweepNow)
    {
      hide Distinct, Touch, Evicted, Live, Deadline;
      var entry := Entry(key, value, Deadline(ttl, now));
      Insert(entry);
      sets := sets + 1;
      size := |entries|;
      EvictLru();
      if sets % SWEEP_PERIOD == 0 {
        EvictExpired(sweepNow);
      }
    }

    method Delete(key: string)
      requires Valid()
      modifies this
      ensures Valid()
      ensures State() == AfterDelete(old(State()), key)
    {
      if Find(entries, key).Some? {
        DistinctFilter((e: Entry<V>) => e.key != key, entries);
        entries := Without(entries, key);
        deletes := deletes + 1;
        size := |entries|;
      }
    }

    method Exists(key: string, now: real) returns (r: bool)
      requires Valid()
      modifies this
      ensures Valid()
      ensures (State(), r) == AfterExists(old(State()), key, now)
    {
      var entry := Find(entries, key);
      if entry.None? {
        return false;
      }
      if Expired(entry.value, now) {
        DistinctFilter((e: Entry<V>) => e.key != key, entries);
        entries := Without(entries, key);
        return false;
      }
      r := true;
    }

    method Clear()
      requires Valid()
      modifies this
      ensures Valid()
      ensures State() == old(State()).(entries := [], size := 0)
    {
      entries := [];
      size := 0;
    }

    method GetMany(keys: seq<Lookup>) returns (result: map<string, V>)
      requires Valid()
      modifies this
      ensures Valid()
      ensures (State(), result) == AfterGetMany(old(State()), keys)
    {
      result := map[];
      for i := 0 to |keys|
        invariant Valid()
        invariant (State(), result) == AfterGetMany(old(State()), keys[..i])
      {
        hide Distinct, Touch;
        assert keys[..i + 1][..i] == keys[..i];
        var found := Peek(keys[i].key, keys[i].now);
        if found.Some? {
          result := result[keys[i].key := found.value];
        }
      }
      assert keys[..|keys|] == keys;
    }

    /** One turn of a batch lookup. */
    method Peek(key: string, now: real) returns (found: Option<V>)
      requires Valid()
      modifies this
      ensures Valid()
      ensures (State(), found) == AfterPeek(old(State()), key, now)
    {
      var entry := Find(entries, key);
      if entry.Some? && !Expired(entry.value, now) {
        DistinctTouch(entries, entry.value);
        WithoutPresent(entries, key);
        entries := Without(entries, key) + [entry.value];
        hits := hits + 1;
        found := Some(entry.value.value);
      } else {
        misses := misses + 1;
        found := None;
      }
    }
  }

  // ---- The expiry sweep ----

  function Keys<V>(c: seq<Entry<V>>): (ks: seq<string>)
    ensures |ks| == |c| && forall i :: 0 <= i < |c| ==> ks[i] == c[i].key
  {
    seq(|c|, i requires 0 <= i < |c| => c[i].key)
  }

  function ExpiredEntries<V(!new)>(c: seq<Entry<V>>, now: real): seq<Entry<V>> {
    Filter((e: Entry<V>) => Expired(e, now), c)
  }

  /** The keys of the expired entries, in dictionary order. */
  function ExpiredKeys<V(!new)>(c: seq<Entry<V>>, now: real): seq<string> {
    Keys(ExpiredEntries(c, now))
  }

  lemma ExpiredKeysSnoc<V(!new)>(c: seq<Entry<V>>, e: Entry<V>, now: real)
    ensures ExpiredKeys(c + [e], now) == ExpiredKeys(c, now) + (if Expired(e, now) then [e.key] else [])
  {
    FilterConcat((x: Entry<V>) => Expired(x, now), c, [e]);
    assert [e][1..] == [];
    assert ExpiredEntries([e], now) == if Expired(e, now) then [e] else [];
  }

  lemma KeyUnique<V>(c: seq<Entry<V>>, d: Entry<V>, e: Entry<V>)
    requires Distinct(c) && d in c && e in c && d.key == e.key
    ensures d == e
  {
  }

  lemma ExpiredKeysExact<V(!new)>(c: seq<Entry<V>>, now: real)
    requires Distinct(c)
    ensures forall e :: e in c ==> (e.key in ExpiredKeys(c, now) <==> Expired(e, now))
    ensures forall k :: k in ExpiredKeys(c, now) ==> Find(c, k).Some?
    ensures forall i, j :: 0 <= i < j < |ExpiredKeys(c, now)| ==> ExpiredKeys(c, now)[i] != ExpiredKeys(c, now)[j]
  {
    var ex, ks := ExpiredEntries(c, now), ExpiredKeys(c, now);
    DistinctFilter((e: Entry<V>) => Expired(e, now), c);
    forall e | e in c
      ensures e.key in ks <==> Expired(e, now)
    {
      if e.key in ks {
        var i :| 0 <= i < |ks| && ks[i] == e.key;
        assert ex[i] in c;
        KeyUnique(c, ex[i], e);
      }
      if Expired(e, now) {
        var i :| 0 <= i < |ex| && ex[i] == e;
        assert ks[i] == e.key;
      }
    }
    forall k | k in ks
      ensures Find(c, k).Some?
    {
      var i :| 0 <= i < |ks| && ks[i] == k;
      assert ex[i] in c;
      FindIn(c, ex[i]);
    }
  }

  lemma RemoveNext<V(!new)>(c: seq<Entry<V>>, ks: seq<string>, j: nat)
    requires Distinct(c) && j < |ks|
    requires forall k :: k in ks ==> Find(c, k).Some?
    requires forall i, m :: 0 <= i < m < |ks| ==> ks[i] != ks[m]
    ensures var before := Filter((e: Entry<V>) => e.key !in ks[..j], c);
      && Without(before, ks[j]) == Filter((e: Entry<V>) => e.key !in ks[..j + 1], c)
      && Distinct(Without(before, ks[j]))
      && |Without(before, ks[j])| == |before| - 1
  {
    var before := Filter((e: Entry<V>) => e.key !in ks[..j], c);
    DistinctFilter((e: Entry<V>) => e.key !in ks[..j], c);
    DistinctFilter((e: Entry<V>) => e.key != ks[j], before);
    FilterFilter(c, ks, j);
    var e := Find(c, ks[j]).value;
    assert e in before;
    FindIn(before, e);
    WithoutPresent(before, ks[j]);
  }

  lemma {:induction false} FilterFilter<V(!new)>(c: seq<Entry<V>>, ks: seq<string>, j: nat)
    requires j < |ks|
    ensures Without(Filter((e: Entry<V>) => e.key !in ks[..j], c), ks[j])
         == Filter((e: Entry<V>) => e.key !in ks[..j + 1], c)
  {
    assert ks[..j + 1] == ks[..j] + [ks[j]];
    if c != [] {
      FilterFilter(c[1..], ks, j);
    }
  }
}
