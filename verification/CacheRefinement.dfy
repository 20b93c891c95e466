/**
 The bounded cache against a plain dictionary with deadlines that never forgets anything.
 Soundness: a hit returns what the last `set` of the key wrote, unexpired and not since
 deleted or cleared.  Completeness: a key that is live there is a hit here unless at
 least `maxSize` distinct other keys were used since its own last use.
 */
module CacheRefinement {
  import opened Prelude
  import opened LruCache

  // ---- The specification: what was written, and what was used ----

  /** What the last `set` of each key wrote, for keys not deleted or cleared since. */
  function Stored<V>(ops: seq<Op<V>>): map<string, Entry<V>>
    decreases |ops|
  {
    if ops == [] then map[]
    else AfterOp(Stored(ops[..|ops| - 1]), ops[|ops| - 1])
  }

  function AfterOp<V>(m: map<string, Entry<V>>, op: Op<V>): map<string, Entry<V>> {
    match op
    case Set(key, value, ttl, now, _) => m[key := Entry(key, value, Deadline(ttl, now))]
    case Delete(key) => m - {key}
    case Clear => map[]
    case _ => m
  }

  /** The keys an operation uses, in order: those it sets and those it hits. */
  function UsedBy<V(!new)>(s: Cache<V>, op: Op<V>): seq<string> {
    match op
    case Set(key, _, _, _, _) => [key]
    case Get(key, now) => PeekUse(s, key, now)
    case GetMany(keys) => BatchUses(s, keys)
    case _ => []
  }

  function PeekUse<V(!new)>(s: Cache<V>, key: string, now: real): seq<string> {
    if AfterPeek(s, key, now).1.Some? then [key] else []
  }

  function BatchUses<V(!new)>(s: Cache<V>, keys: seq<Lookup>): seq<string>
    decreases |keys|
  {
    if keys == [] then []
    else
      var init, last := keys[..|keys| - 1], keys[|keys| - 1];
      BatchUses(s, init) + PeekUse(AfterGetMany(s, init).0, last.key, last.now)
  }

  /** Every use in a run, oldest first. */
  function Uses<V(!new)>(maxSize: nat, ops: seq<Op<V>>): seq<string>
    decreases |ops|
  {
    if ops == [] then []
    else
      var prefix := ops[..|ops| - 1];
      Uses(maxSize, prefix) + UsedBy(Run(maxSize, prefix), ops[|ops| - 1])
  }

  /** The distinct keys used after the last use of `key`. */
  function UsedSince(uses: seq<string>, key: string): set<string>
    decreases |uses|
  {
    if uses == [] || uses[|uses| - 1] == key then {}
    else UsedSince(uses[..|uses| - 1], key) + {uses[|uses| - 1]}
  }

  /** No clock reading of `op` is later than `t`. */
  predicate ReadBy<V>(op: Op<V>, t: real) {
    match op
    case Get(_, now) => now <= t
    case Set(_, _, _, now, sweepNow) => now <= t && sweepNow <= t
    case Exists(_, now) => now <= t
    case GetMany(keys) => forall i :: 0 <= i < |keys| ==> keys[i].now <= t
    case _ => true
  }

  // ---- The relation between cache and specification ----

  /** Later entries were used after earlier ones. */
  ghost predicate ByRecency<V>(c: seq<Entry<V>>, uses: seq<string>) {
    forall i, j :: 0 <= i < j < |c| ==> c[j].key in UsedSince(uses, c[i].key)
  }

  /** A stored key may be missing from the cache for these two reasons only. */
  ghost predicate Excused<V>(
    maxSize: nat, c: seq<Entry<V>>, stored: map<string, Entry<V>>, uses: seq<string>, t: real) {
    forall k :: k in stored && Find(c, k).None? ==> Expired(stored[k], t) || |UsedSince(uses, k)| >= maxSize
  }

  ghost predicate Agrees<V>(c: seq<Entry<V>>, stored: map<string, Entry<V>>) {
    forall e :: e in c ==> e.key in stored && stored[e.key] == e
  }

  ghost predicate Refines<V>(
    maxSize: nat, c: seq<Entry<V>>, stored: map<string, Entry<V>>, uses: seq<string>, t: real) {
    Distinct(c) && |c| <= maxSize && Agrees(c, stored) && ByRecency(c, uses) && Excused(maxSize, c, stored, uses, t)
  }

  // ---- Recency and filtering ----

  lemma UsedSinceUse(uses: seq<string>, k: string, used: string)
    ensures UsedSince(uses + [used], k) == if k == used then {} else UsedSince(uses, k) + {used}
  {
    assert (uses + [used])[..|uses|] == uses;
  }

  lemma {:induction false} ByRecencyFilter<V(!new)>(p: Entry<V> -> bool, c: seq<Entry<V>>, uses: seq<string>)
    requires ByRecency(c, uses)
    ensures ByRecency(Filter(p, c), uses)
  {
    if c != [] {
      ByRecencyFilter(p, c[1..], uses);
      assert forall e :: e in c[1..] ==> e.key in UsedSince(uses, c[0].key);
      assert forall e :: e in Filter(p, c[1..]) ==> e in c[1..];
    }
  }

  lemma ByRecencyTouch<V(!new)>(c: seq<Entry<V>>, uses: seq<string>, e: Entry<V>)
    requires Distinct(c) && ByRecency(c, uses)
    ensures ByRecency(Touch(c, e), uses + [e.key])
  {
    var w := Without(c, e.key);
    ByRecencyFilter((x: Entry<V>) => x.key != e.key, c, uses);
    forall i, j | 0 <= i < j < |w| + 1
      ensures (w + [e])[j].key in UsedSince(uses + [e.key], (w + [e])[i].key)
    {
      assert w[i] in w;
      UsedSinceUse(uses, w[i].key, e.key);
    }
  }

  function KeySet<V>(c: seq<Entry<V>>): set<string> {
    set i | 0 <= i < |c| :: c[i].key
  }

  lemma {:induction false} KeySetSize<V>(c: seq<Entry<V>>)
    requires Distinct(c)
    ensures |KeySet(c)| == |c|
  {
    if c != [] {
      KeySetSize(c[1..]);
      assert KeySet(c) == {c[0].key} + KeySet(c[1..]) by {
        forall k | k in KeySet(c)
          ensures k in {c[0].key} + KeySet(c[1..])
        {
          var i :| 0 <= i < |c| && c[i].key == k;
          if i > 0 { assert c[1..][i - 1].key == k; }
        }
        forall k | k in KeySet(c[1..])
          ensures k in KeySet(c)
        {
          var i :| 0 <= i < |c[1..]| && c[1..][i].key == k;
          assert c[i + 1].key == k;
        }
      }
    }
  }

  lemma SubsetSize<T>(a: set<T>, b: set<T>)
    requires a <= b
    ensures |a| <= |b|
  {
    assert b == a + (b - a);
  }

  /** An entry with `n` entries after it has had `n` distinct other keys used since. */
  lemma LaterEntriesUsed<V(!new)>(c: seq<Entry<V>>, uses: seq<string>, i: nat)
    requires i < |c| && Distinct(c) && ByRecency(c, uses)
    ensures |UsedSince(uses, c[i].key)| >= |c| - 1 - i
  {
    var later := c[i + 1..];
    KeySetSize(later);
    assert KeySet(later) <= UsedSince(uses, c[i].key);
    SubsetSize(KeySet(later), UsedSince(uses, c[i].key));
  }

  // ---- Each kind of change keeps the relation ----

  lemma FindMember<V(!new)>(c: seq<Entry<V>>, d: seq<Entry<V>>, k: string)
    requires Distinct(d) && Find(c, k).Some? && Find(c, k).value in d
    ensures Find(d, k) == Find(c, k)
  {
    FindIn(d, Find(c, k).value);
  }

  lemma TouchKeeps<V(!new)>(c: seq<Entry<V>>, e: Entry<V>, k: string)
    requires Find(c, k).Some?
    ensures Find(Touch(c, e), k).Some?
  {
    assert k != e.key ==> Find(c, k).value in Without(c, e.key);
    assert Touch(c, e)[|Touch(c, e)| - 1] == e;
    assert forall x :: x in Without(c, e.key) ==> x in Touch(c, e);
  }

  /** Using an entry, whether freshly set or hit. */
  lemma UseRefines<V(!new)>(
    maxSize: nat, c: seq<Entry<V>>, stored: map<string, Entry<V>>, uses: seq<string>, t: real, e: Entry<V>)
    requires Refines(maxSize, c, stored, uses, t)
    ensures var c', stored', uses' := Touch(c, e), stored[e.key := e], uses + [e.key];
      Distinct(c') && Agrees(c', stored') && ByRecency(c', uses') && Excused(maxSize, c', stored', uses', t)
  {
    var c', stored', uses' := Touch(c, e), stored[e.key := e], uses + [e.key];
    DistinctTouch(c, e);
    ByRecencyTouch(c, uses, e);
    forall k | k in stored' && Find(c', k).None?
      ensures Expired(stored'[k], t) || |UsedSince(uses', k)| >= maxSize
    {
      assert c'[|c'| - 1] == e;
      UsedSinceUse(uses, k, e.key);
      if Find(c, k).Some? { TouchKeeps(c, e, k); }
      SubsetSize(UsedSince(uses, k), UsedSince(uses', k));
    }
  }

  /** A key found in the whole but not in the suffix sits in the dropped part. */
  lemma EvictedAt<V(!new)>(c: seq<Entry<V>>, d: nat, k: string) returns (i: nat)
    requires d <= |c| && Find(c, k).Some? && Find(c[d..], k).None?
    ensures i < d && c[i].key == k
  {
    i := 0;
    while c[i].key != k
      invariant i <= |c| && forall j :: 0 <= j < i ==> c[j].key != k
      invariant exists j :: i <= j < |c| && c[j].key == k
      decreases |c| - i
    {
      i := i + 1;
    }
    assert forall j :: d <= j < |c| ==> c[j] == c[d..][j - d];
  }

  lemma EvictRefines<V(!new)>(maxSize: nat, c: seq<Entry<V>>, stored: map<string, Entry<V>>, uses: seq<string>, t: real)
    requires Distinct(c) && Agrees(c, stored) && ByRecency(c, uses) && Excused(maxSize, c, stored, uses, t)
    ensures Refines(maxSize, Evicted(c, maxSize), stored, uses, t)
  {
    var d: nat := if |c| > maxSize then |c| - maxSize else 0;
    assert Evicted(c, maxSize) == c[d..];
    forall k | k in stored && Find(c[d..], k).None?
      ensures Expired(stored[k], t) || |UsedSince(uses, k)| >= maxSize
    {
      if Find(c, k).Some? {
        var i := EvictedAt(c, d, k);
        LaterEntriesUsed(c, uses, i);
      }
    }
  }

  /** Dropping entries that are expired by `t`. */
  lemma ExpireRefines<V(!new)>(
    maxSize: nat, p: Entry<V> -> bool, c: seq<Entry<V>>, stored: map<string, Entry<V>>, uses: seq<string>,
    t: real)
    requires Refines(maxSize, c, stored, uses, t)
    requires forall e :: e in c && !p(e) ==> Expired(e, t)
    ensures Refines(maxSize, Filter(p, c), stored, uses, t)
  {
    DistinctFilter(p, c);
    ByRecencyFilter(p, c, uses);
    forall k | k in stored && Find(Filter(p, c), k).None?
      ensures Expired(stored[k], t) || |UsedSince(uses, k)| >= maxSize
    {
      if Find(c, k).Some? && p(Find(c, k).value) {
        FindMember(c, Filter(p, c), k);
      }
    }
  }

  lemma DeleteRefines<V(!new)>(
    maxSize: nat, c: seq<Entry<V>>, stored: map<string, Entry<V>>, uses: seq<string>, t: real, key: string)
    requires Refines(maxSize, c, stored, uses, t)
    ensures Refines(maxSize, Without(c, key), stored - {key}, uses, t)
  {
    DistinctFilter((e: Entry<V>) => e.key != key, c);
    ByRecencyFilter((e: Entry<V>) => e.key != key, c, uses);
    forall k | k in stored - {key} && Find(Without(c, key), k).None?
      ensures Expired(stored[k], t) || |UsedSince(uses, k)| >= maxSize
    {
      if Find(c, k).Some? {
        FindMember(c, Without(c, key), k);
      }
    }
  }

  lemma PeekRefines<V(!new)>(
    maxSize: nat, s: Cache<V>, stored: map<string, Entry<V>>, uses: seq<string>, t: real, key: string,
    now: real)
    requires Refines(maxSize, s.entries, stored, uses, t)
    ensures Refines(maxSize, AfterPeek(s, key, now).0.entries, stored, uses + PeekUse(s, key, now), t)
  {
    var f := Find(s.entries, key);
    if f.Some? && !Expired(f.value, now) {
      UseRefines(maxSize, s.entries, stored, uses, t, f.value);
      WithoutPresent(s.entries, key);
      assert stored[f.value.key := f.value] == stored;
    } else {
      assert uses + [] == uses;
    }
  }

  lemma {:induction false} GetManyRefines<V(!new)>(
    maxSize: nat, s: Cache<V>, stored: map<string, Entry<V>>, uses: seq<string>, t: real, keys: seq<Lookup>)
    requires Refines(maxSize, s.entries, stored, uses, t)
    ensures Refines(maxSize, AfterGetMany(s, keys).0.entries, stored, uses + BatchUses(s, keys), t)
    decreases |keys|
  {
    if keys == [] {
      assert uses + [] == uses;
    } else {
      var init, last := keys[..|keys| - 1], keys[|keys| - 1];
      GetManyRefines(maxSize, s, stored, uses, t, init);
      var s' := AfterGetMany(s, init).0;
      PeekRefines(maxSize, s', stored, uses + BatchUses(s, init), t, last.key, last.now);
      assert uses + BatchUses(s, init) + PeekUse(s', last.key, last.now) == uses + BatchUses(s, keys);
    }
  }

  lemma SetRefines<V(!new)>(
    maxSize: nat, s: Cache<V>, stored: map<string, Entry<V>>, uses: seq<string>, t: real, op: Op<V>)
    requires Refines(maxSize, s.entries, stored, uses, t) && op.Set? && ReadBy(op, t)
    ensures Refines(maxSize, Step(maxSize, s, op).0.entries, AfterOp(stored, op), uses + [op.key], t)
  {
    var e := Entry(op.key, op.value, Deadline(op.ttl, op.now));
    UseRefines(maxSize, s.entries, stored, uses, t, e);
    var stored', uses' := stored[e.key := e], uses + [e.key];
    EvictRefines(maxSize, Touch(s.entries, e), stored', uses', t);
    ExpireRefines(maxSize, (x: Entry<V>) => !Expired(x, op.sweepNow), Evicted(Touch(s.entries, e), maxSize), stored',
      uses', t);
  }

  lemma StepRefines<V(!new)>(
    maxSize: nat, s: Cache<V>, stored: map<string, Entry<V>>, uses: seq<string>, t: real, op: Op<V>)
    requires Refines(maxSize, s.entries, stored, uses, t) && ReadBy(op, t)
    ensures Refines(maxSize, Step(maxSize, s, op).0.entries, AfterOp(stored, op), uses + UsedBy(s, op), t)
  {
    assert uses + [] == uses;
    match op
    case Set(_, _, _, _, _) => SetRefines(maxSize, s, stored, uses, t, op);
    case Get(key, now) =>
      PeekRefines(maxSize, s, stored, uses, t, key, now);
      if Find(s.entries, key).Some? { DropExpired(maxSize, s, stored, uses, t, key, now); }
    case Exists(key, now) =>
      if Find(s.entries, key).Some? { DropExpired(maxSize, s, stored, uses, t, key, now); }
    case Delete(key) =>
      DeleteRefines(maxSize, s.entries, stored, uses, t, key);
      if Find(s.entries, key).None? { WithoutAbsent(s.entries, key); }
    case GetMany(keys) => GetManyRefines(maxSize, s, stored, uses, t, keys);
    case Clear =>
  }

  lemma DropExpired<V(!new)>(
    maxSize: nat, s: Cache<V>, stored: map<string, Entry<V>>, uses: seq<string>, t: real, key: string,
    now: real)
    requires Refines(maxSize, s.entries, stored, uses, t) && Find(s.entries, key).Some? && now <= t
    ensures Expired(Find(s.entries, key).value, now) ==> Refines(maxSize, Without(s.entries, key), stored, uses, t)
  {
    if Expired(Find(s.entries, key).value, now) {
      forall e | e in s.entries && e.key == key
        ensures Expired(e, t)
      {
        FindIn(s.entries, e);
      }
      ExpireRefines(maxSize, (e: Entry<V>) => e.key != key, s.entries, stored, uses, t);
    }
  }

  lemma {:induction false} RunRefines<V(!new)>(maxSize: nat, ops: seq<Op<V>>, t: real)
    requires forall i :: 0 <= i < |ops| ==> ReadBy(ops[i], t)
    ensures Refines(maxSize, Run(maxSize, ops).entries, Stored(ops), Uses(maxSize, ops), t)
    decreases |ops|
  {
    if ops != [] {
      var prefix, op := ops[..|ops| - 1], ops[|ops| - 1];
      RunRefines(maxSize, prefix, t);
      StepRefines(maxSize, Run(maxSize, prefix), Stored(prefix), Uses(maxSize, prefix), t, op);
    }
  }

  // ---- The two directions, at the end of any run ----

  /** Some instant no earlier than any reading of the run. */
  lemma {:induction false} LatestReading<V>(ops: seq<Op<V>>) returns (t: real)
    ensures forall i :: 0 <= i < |ops| ==> ReadBy(ops[i], t)
  {
    if ops == [] {
      t := 0.0;
    } else {
      var t1 := LatestReading(ops[1..]);
      var t0 := LatestOf(ops[0]);
      t := if t0 > t1 then t0 else t1;
      assert forall i :: 1 <= i < |ops| ==> ops[i] == ops[1..][i - 1];
      forall i | 0 <= i < |ops|
        ensures ReadBy(ops[i], t)
      {
        assert i > 0 ==> ReadBy(ops[1..][i - 1], t1);
      }
    }
  }

  lemma LatestOf<V>(op: Op<V>) returns (t: real)
    ensures ReadBy(op, t)
  {
    match op
    case Get(_, now) => t := now;
    case Set(_, _, _, now, sweepNow) => t := if now > sweepNow then now else sweepNow;
    case Exists(_, now) => t := now;
    case GetMany(keys) =>
      t := 0.0;
      for i := 0 to |keys|
        invariant forall j :: 0 <= j < i ==> keys[j].now <= t
      {
        if keys[i].now > t { t := keys[i].now; }
      }
    case _ => t := 0.0;
  }

  /** After every operation the cache holds at most `maxSize` entries, one per key. */
  lemma CapacityBound<V(!new)>(maxSize: nat, ops: seq<Op<V>>)
    ensures |Run(maxSize, ops).entries| <= maxSize && Distinct(Run(maxSize, ops).entries)
  {
    var t := LatestReading(ops);
    RunRefines(maxSize, ops, t);
  }

  /** A hit is what the last `set` wrote, still unexpired; no assumption on the clock. */
  lemma HitIsLastSet<V(!new)>(maxSize: nat, ops: seq<Op<V>>, key: string, now: real)
    ensures var got := AfterGet(Run(maxSize, ops), key, now).1;
      got.Some? ==> key in Stored(ops) && got.value == Stored(ops)[key].value && !Expired(Stored(ops)[key], now)
  {
    var t := LatestReading(ops);
    RunRefines(maxSize, ops, t);
  }

  /** A live key is a hit unless `maxSize` distinct other keys were used since its last use. */
  lemma LiveRecentKeyHits<V(!new)>(maxSize: nat, ops: seq<Op<V>>, key: string, now: real)
    requires forall i :: 0 <= i < |ops| ==> ReadBy(ops[i], now)
    ensures key in Stored(ops) && !Expired(Stored(ops)[key], now) && |UsedSince(Uses(maxSize, ops), key)| < maxSize ==>
      AfterGet(Run(maxSize, ops), key, now).1 == Some(Stored(ops)[key].value)
  {
    RunRefines(maxSize, ops, now);
  }

  /**
   Set, then get: the value until it expires, and always when there is no time-to-live;
   nothing in a cache of size 0.
   */
  lemma SetThenGet<V(!new)>(
    maxSize: nat, ops: seq<Op<V>>, key: string, value: V, ttl: Option<int>, now: real, sweepNow: real,
    later: real)
    requires sweepNow <= later
    ensures AfterGet(Run(maxSize, ops + [Op.Set(key, value, ttl, now, sweepNow)]), key, later).1
      == if maxSize > 0 && (ttl.None? || ttl.value == 0 || later <= now + ttl.value as real) then Some(value) else None
  {
    var op := Op.Set(key, value, ttl, now, sweepNow);
    var run := ops + [op];
    assert run[..|ops|] == ops && run[|ops|] == op;
    var s := Run(maxSize, ops);
    var e := Entry(key, value, Deadline(ttl, now));
    CapacityBound(maxSize, ops);
    CapacityBound(maxSize, run);
    LastSurvives(maxSize, s.entries, e, sweepNow);
    assert Run(maxSize, run) == AfterSet(maxSize, s, key, value, ttl, now, sweepNow);
    if maxSize > 0 && !Expired(e, later) {
      FindIn(Run(maxSize, run).entries, e);
    } else {
      HitIsLastSet(maxSize, run, key, later);
      assert Stored(run)[key] == e;
    }
  }

  lemma LastSurvives<V(!new)>(maxSize: nat, c: seq<Entry<V>>, e: Entry<V>, sweepNow: real)
    ensures var c2 := Evicted(Touch(c, e), maxSize);
      && (maxSize > 0 ==> e in c2 && (!Expired(e, sweepNow) ==> e in Live(c2, sweepNow)))
      && (maxSize == 0 ==> c2 == [])
  {
    hide Expired;
    var t := Touch(c, e);
    assert t[|t| - 1] == e;
    if maxSize > 0 {
      var c2 := Evicted(t, maxSize);
      assert c2[|c2| - 1] == e;
    }
  }

  // ---- The counters ----

  function Lookups<V>(op: Op<V>): nat {
    match op
    case Get(_, _) => 1
    case GetMany(keys) => |keys|
    case _ => 0
  }

  function AllLookups<V>(ops: seq<Op<V>>): nat {
    if ops == [] then 0 else AllLookups(ops[..|ops| - 1]) + Lookups(ops[|ops| - 1])
  }

  lemma {:induction false} BatchCounts<V(!new)>(s: Cache<V>, keys: seq<Lookup>)
    ensures var s' := AfterGetMany(s, keys).0;
      s'.hits + s'.misses == s.hits + s.misses + |keys|
  {
    if keys != [] {
      BatchCounts(s, keys[..|keys| - 1]);
    }
  }

  /** In every run each looked-up key is one hit or one miss. */
  lemma {:induction false} EveryLookupCounted<V(!new)>(maxSize: nat, ops: seq<Op<V>>)
    ensures Run(maxSize, ops).hits + Run(maxSize, ops).misses == AllLookups(ops)
  {
    hide Touch, Without, Find, AfterGetMany, Live;
    if ops != [] {
      var prefix, op := ops[..|ops| - 1], ops[|ops| - 1];
      EveryLookupCounted(maxSize, prefix);
      if op.GetMany? {
        BatchCounts(Run(maxSize, prefix), op.keys);
      }
    }
  }
}
