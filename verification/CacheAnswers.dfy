/**
 What the cache answers, and what becomes of its entries and counters, said of the entries
 themselves: a batch lookup and a membership question against the entries they find, both
 over whole runs, and the fate of every entry that was ever set.
 */
module CacheAnswers {
  import opened Prelude
  import opened LruCache
  import opened CacheRefinement

  // ---- Single answers ----

  /** An entry with no deadline, or one not yet passed. */
  ghost predicate LiveAt<V>(e: Entry<V>, now: real) {
    match e.expiresAt
    case None => true
    case Some(deadline) => now <= deadline
  }

  /** Some entry of the key is live. */
  ghost predicate Holds<V(!new)>(c: seq<Entry<V>>, key: string, now: real) {
    exists e :: e in c && e.key == key && LiveAt(e, now)
  }

  lemma HoldsFound<V(!new)>(c: seq<Entry<V>>, key: string, now: real)
    requires Distinct(c)
    ensures Holds(c, key, now) <==> Find(c, key).Some? && !Expired(Find(c, key).value, now)
  {
    forall e | e in c && e.key == key
      ensures Find(c, key) == Some(e)
    {
      FindIn(c, e);
    }
  }

  /** `get` answers the value of the key's live entry, if there is one, and leaves no expired entry of the key. */
  lemma GetExact<V(!new)>(s: Cache<V>, key: string, now: real)
    requires Distinct(s.entries)
    ensures var (s', r) := AfterGet(s, key, now);
      && (r.Some? <==> Holds(s.entries, key, now))
      && (forall e :: e in s.entries && e.key == key && LiveAt(e, now) ==> r == Some(e.value))
      && (forall e :: e in s'.entries <==> e in s.entries && (e.key == key ==> LiveAt(e, now)))
      && s'.hits == s.hits + (if r.Some? then 1 else 0)
      && s'.evictions == s.evictions + (|s.entries| - |s'.entries|)
  {
    HoldsFound(s.entries, key, now);
    OnlyEntry(s.entries, key);
    if Find(s.entries, key).Some? { WithoutPresent(s.entries, key); }
  }

  lemma OnlyEntry<V(!new)>(c: seq<Entry<V>>, key: string)
    requires Distinct(c)
    ensures forall e :: e in c && e.key == key ==> Find(c, key) == Some(e)
  {
    forall e | e in c && e.key == key
      ensures Find(c, key) == Some(e)
    {
      FindIn(c, e);
    }
  }

  /**
   `exists` says whether the key has a live entry, reorders and counts nothing, and leaves
   no expired entry of the key.
   */
  lemma ExistsExact<V(!new)>(s: Cache<V>, key: string, now: real)
    requires Distinct(s.entries)
    ensures var (s', r) := AfterExists(s, key, now);
      && (r <==> Holds(s.entries, key, now))
      && (forall e :: e in s'.entries <==> e in s.entries && (e.key == key ==> LiveAt(e, now)))
      && (r ==> s' == s) && s' == s.(entries := s'.entries)
  {
    HoldsFound(s.entries, key, now);
    OnlyEntry(s.entries, key);
  }

  // ---- Batch answers ----

  lemma PeekKeepsEntries<V(!new)>(s: Cache<V>, key: string, now: real)
    requires Distinct(s.entries)
    ensures var (s', v) := AfterPeek(s, key, now);
      && Distinct(s'.entries) && (forall e :: e in s'.entries <==> e in s.entries)
      && (v.Some? <==> Holds(s.entries, key, now))
      && (forall e :: e in s.entries && e.key == key && LiveAt(e, now) ==> v == Some(e.value))
      && s'.hits == s.hits + (if v.Some? then 1 else 0)
  {
    HoldsFound(s.entries, key, now);
    OnlyEntry(s.entries, key);
    if Find(s.entries, key).Some? { DistinctTouch(s.entries, Find(s.entries, key).value); }
  }

  /** The batch asks for the key at an instant at which its entry is live. */
  ghost predicate AskedLive<V(!new)>(c: seq<Entry<V>>, keys: seq<Lookup>, key: string) {
    exists i :: 0 <= i < |keys| && keys[i].key == key && Holds(c, key, keys[i].now)
  }

  /**
   A batch answers a key exactly when some of its lookups finds the key's entry live, and
   answers that entry's value; it keeps every entry, expired ones too.
   */
  lemma {:induction false} BatchExact<V(!new)>(s: Cache<V>, keys: seq<Lookup>)
    requires Distinct(s.entries)
    ensures var (s', m) := AfterGetMany(s, keys);
      && Distinct(s'.entries) && (forall e :: e in s'.entries <==> e in s.entries)
      && (forall key :: key in m <==> AskedLive(s.entries, keys, key))
      && (forall e :: e in s.entries && e.key in m ==> m[e.key] == e.value)
    decreases |keys|
  {
    hide AfterPeek, Distinct;
    if keys != [] {
      var init, last := keys[..|keys| - 1], keys[|keys| - 1];
      BatchExact(s, init);
      var (s1, found) := AfterGetMany(s, init);
      PeekKeepsEntries(s1, last.key, last.now);
      SameHolds(s.entries, s1.entries, last.key, last.now);
      AskedSnoc(s.entries, keys);
    }
  }

  lemma SameHolds<V(!new)>(c: seq<Entry<V>>, d: seq<Entry<V>>, key: string, now: real)
    requires forall e :: e in c <==> e in d
    ensures Holds(c, key, now) <==> Holds(d, key, now)
  {
  }

  lemma AskedSnoc<V(!new)>(c: seq<Entry<V>>, keys: seq<Lookup>)
    requires keys != []
    ensures var last := keys[|keys| - 1];
      forall key :: AskedLive(c, keys, key) <==>
        AskedLive(c, keys[..|keys| - 1], key) || (key == last.key && Holds(c, key, last.now))
  {
    hide Holds;
    var init := keys[..|keys| - 1];
    forall key | AskedLive(c, init, key)
      ensures AskedLive(c, keys, key)
    {
      var i :| 0 <= i < |init| && init[i].key == key && Holds(c, key, init[i].now);
      assert keys[i] == init[i];
    }
    assert forall i :: 0 <= i < |init| ==> init[i] == keys[i];
  }

  /** Each answered lookup of a batch is one hit. */
  lemma {:induction false} BatchHits<V(!new)>(s: Cache<V>, keys: seq<Lookup>)
    requires Distinct(s.entries)
    ensures AfterGetMany(s, keys).0.hits == s.hits + LiveLookups(s.entries, keys)
    decreases |keys|
  {
    hide AfterPeek, Distinct;
    if keys != [] {
      var init, last := keys[..|keys| - 1], keys[|keys| - 1];
      BatchHits(s, init);
      BatchExact(s, init);
      var s1 := AfterGetMany(s, init).0;
      PeekKeepsEntries(s1, last.key, last.now);
      SameHolds(s.entries, s1.entries, last.key, last.now);
    }
  }

  ghost function LiveLookups<V(!new)>(c: seq<Entry<V>>, keys: seq<Lookup>): nat {
    if keys == [] then 0
    else
      var last := keys[|keys| - 1];
      LiveLookups(c, keys[..|keys| - 1]) + (if Holds(c, last.key, last.now) then 1 else 0)
  }

  // ---- Over runs ----

  lemma RunHolds<V(!new)>(maxSize: nat, ops: seq<Op<V>>, key: string, now: real)
    ensures Distinct(Run(maxSize, ops).entries)
    ensures Holds(Run(maxSize, ops).entries, key, now) ==> key in Stored(ops) && LiveAt(Stored(ops)[key], now)
    ensures forall e :: e in Run(maxSize, ops).entries ==> e.key in Stored(ops) && Stored(ops)[e.key] == e
  {
    var t := LatestReading(ops);
    RunRefines(maxSize, ops, t);
  }

  /** Every batch answer is what the last `set` of its key wrote, not since deleted or cleared, and live when asked. */
  lemma BatchAnswersAreLastSets<V(!new)>(maxSize: nat, ops: seq<Op<V>>, keys: seq<Lookup>, key: string)
    ensures var m := AfterGetMany(Run(maxSize, ops), keys).1;
      key in m ==>
        && key in Stored(ops) && m[key] == Stored(ops)[key].value
        && exists i :: 0 <= i < |keys| && keys[i].key == key && LiveAt(Stored(ops)[key], keys[i].now)
  {
    var s := Run(maxSize, ops);
    RunHolds(maxSize, ops, key, 0.0);
    BatchExact(s, keys);
    if key in AfterGetMany(s, keys).1 {
      var i :| 0 <= i < |keys| && keys[i].key == key && Holds(s.entries, key, keys[i].now);
      RunHolds(maxSize, ops, key, keys[i].now);
      var e :| e in s.entries && e.key == key && LiveAt(e, keys[i].now);
    }
  }

  /** A live key is held unless `maxSize` distinct other keys were used since its last use. */
  lemma LiveRecentKeyHeld<V(!new)>(maxSize: nat, ops: seq<Op<V>>, key: string, now: real)
    requires forall i :: 0 <= i < |ops| ==> ReadBy(ops[i], now)
    ensures key in Stored(ops) && LiveAt(Stored(ops)[key], now) && |UsedSince(Uses(maxSize, ops), key)| < maxSize ==>
      Holds(Run(maxSize, ops).entries, key, now)
  {
    RunRefines(maxSize, ops, now);
    HoldsFound(Run(maxSize, ops).entries, key, now);
  }

  /** A batch answers every live key it asks for that was used within the last `maxSize` distinct keys. */
  lemma LiveRecentKeyIsBatched<V(!new)>(maxSize: nat, ops: seq<Op<V>>, keys: seq<Lookup>, i: nat)
    requires i < |keys| && forall j :: 0 <= j < |ops| ==> ReadBy(ops[j], keys[i].now)
    ensures var key, m := keys[i].key, AfterGetMany(Run(maxSize, ops), keys).1;
      key in Stored(ops) && LiveAt(Stored(ops)[key], keys[i].now) && |UsedSince(Uses(maxSize, ops), key)| < maxSize ==>
        key in m && m[key] == Stored(ops)[key].value
  {
    LiveRecentKeyHeld(maxSize, ops, keys[i].key, keys[i].now);
    RunHolds(maxSize, ops, keys[i].key, keys[i].now);
    BatchExact(Run(maxSize, ops), keys);
    BatchAnswersAreLastSets(maxSize, ops, keys, keys[i].key);
  }

  /**
   `exists` is true only of a live key that was set, and of every such key used within the
   last `maxSize` distinct ones.
   */
  lemma ExistsOverRuns<V(!new)>(maxSize: nat, ops: seq<Op<V>>, key: string, now: real)
    ensures AfterExists(Run(maxSize, ops), key, now).1 ==> key in Stored(ops) && LiveAt(Stored(ops)[key], now)
    ensures (forall i :: 0 <= i < |ops| ==> ReadBy(ops[i], now)) ==>
      key in Stored(ops) && LiveAt(Stored(ops)[key], now) && |UsedSince(Uses(maxSize, ops), key)| < maxSize ==>
        AfterExists(Run(maxSize, ops), key, now).1
  {
    RunHolds(maxSize, ops, key, now);
    ExistsExact(Run(maxSize, ops), key, now);
    if forall i :: 0 <= i < |ops| ==> ReadBy(ops[i], now) { LiveRecentKeyHeld(maxSize, ops, key, now); }
  }

  // ---- What becomes of entries ----

  function CountSets<V>(ops: seq<Op<V>>): nat {
    if ops == [] then 0 else CountSets(ops[..|ops| - 1]) + (if ops[|ops| - 1].Set? then 1 else 0)
  }

  lemma {:induction false} BatchCounters<V(!new)>(s: Cache<V>, keys: seq<Lookup>)
    ensures var s' := AfterGetMany(s, keys).0;
      s'.sets == s.sets && s'.deletes == s.deletes && s'.evictions == s.evictions && s'.size == s.size
  {
    if keys != [] { BatchCounters(s, keys[..|keys| - 1]); }
  }

  lemma {:induction false} SetsCounted<V(!new)>(maxSize: nat, ops: seq<Op<V>>)
    ensures Run(maxSize, ops).sets == CountSets(ops)
  {
    hide Find, Without, Touch, Live, Evicted, AfterGetMany;
    if ops != [] {
      SetsCounted(maxSize, ops[..|ops| - 1]);
      if ops[|ops| - 1].GetMany? { BatchCounters(Run(maxSize, ops[..|ops| - 1]), ops[|ops| - 1].keys); }
    }
  }

  /** Without a key: the entries of all other keys, in order. */
  lemma {:induction false} WithoutExact<V(!new)>(c: seq<Entry<V>>, key: string)
    ensures forall e :: e in Without(c, key) <==> e in c && e.key != key
    ensures Subseq(Without(c, key), c)
  {
    if c != [] {
      WithoutExact(c[1..], key);
    }
  }

  /** Of the entries of other keys and the new one, the last `maxSize`; at a sweep the live ones of these. */
  lemma SetStepLeaves<V(!new)>(maxSize: nat, s: Cache<V>, op: Op<V>)
    requires op.Set?
    ensures var s' := Step(maxSize, s, op).0;
      var all := Without(s.entries, op.key) + [Entry(op.key, op.value, Deadline(op.ttl, op.now))];
      var kept := if |all| > maxSize then all[|all| - maxSize..] else all;
      && s'.sets == s.sets + 1 && s'.size == |all|
      && (s'.sets % 100 != 0 ==> s'.entries == kept)
      && (s'.sets % 100 == 0 ==> Subseq(s'.entries, kept))
      && (s'.sets % 100 == 0 ==> forall x :: x in s'.entries <==> x in kept && LiveAt(x, op.sweepNow))
      && s'.evictions == s.evictions + (|all| - |s'.entries|)
  {
    hide Without, Deadline;
    var all := Without(s.entries, op.key) + [Entry(op.key, op.value, Deadline(op.ttl, op.now))];
    LiveExact(if |all| > maxSize then all[|all| - maxSize..] else all, op.sweepNow);
    hide Live, Expired, LiveAt;
  }

  lemma {:induction false} LiveExact<V(!new)>(c: seq<Entry<V>>, now: real)
    ensures forall e :: e in Live(c, now) <==> e in c && LiveAt(e, now)
    ensures Subseq(Live(c, now), c)
  {
    if c != [] { LiveExact(c[1..], now); }
  }

  /** A delete takes away the key's entry and no other, and is counted if there was one. */
  lemma DeleteExact<V(!new)>(s: Cache<V>, key: string)
    requires Distinct(s.entries)
    ensures var s' := AfterDelete(s, key);
      && (forall e :: e in s'.entries <==> e in s.entries && e.key != key)
      && Subseq(s'.entries, s.entries) && s'.hits == s.hits && s'.misses == s.misses && s'.evictions == s.evictions
      && s'.deletes == s.deletes + (if exists e :: e in s.entries && e.key == key then 1 else 0)
      && (s'.deletes > s.deletes ==> s'.size == |s'.entries|)
  {
    OnlyEntry(s.entries, key);
    WithoutExact(s.entries, key);
    if Find(s.entries, key).None? { WithoutAbsent(s.entries, key); }
  }

  /** Over runs: the sweep comes at every hundredth `set`, and at no other. */
  lemma SetLeaves<V(!new)>(maxSize: nat, ops: seq<Op<V>>, op: Op<V>)
    requires op.Set?
    ensures var s, s' := Run(maxSize, ops), Run(maxSize, ops + [op]);
      var all := Without(s.entries, op.key) + [Entry(op.key, op.value, Deadline(op.ttl, op.now))];
      var kept := if |all| > maxSize then all[|all| - maxSize..] else all;
      && (CountSets(ops + [op]) % 100 != 0 ==> s'.entries == kept)
      && (CountSets(ops + [op]) % 100 == 0 ==> forall x :: x in s'.entries <==> x in kept && LiveAt(x, op.sweepNow))
  {
    SetsCounted(maxSize, ops + [op]);
    assert (ops + [op])[..|ops|] == ops;
    hide CountSets, Step, Without, Deadline, LiveAt;
    SetStepLeaves(maxSize, Run(maxSize, ops), op);
  }

  /** Entries that an operation adds. */
  function Added<V(!new)>(s: Cache<V>, op: Op<V>): nat {
    if op.Set? && Find(s.entries, op.key).None? then 1 else 0
  }

  /** Entries that leave uncounted: an expired one met by `exists`, and all at `clear`. */
  function Dropped<V(!new)>(s: Cache<V>, op: Op<V>): nat {
    match op
    case Exists(key, now) => if Find(s.entries, key).Some? && Expired(Find(s.entries, key).value, now) then 1 else 0
    case Clear => |s.entries|
    case _ => 0
  }

  function AllAdded<V(!new)>(maxSize: nat, ops: seq<Op<V>>): nat {
    if ops == [] then 0
    else AllAdded(maxSize, ops[..|ops| - 1]) + Added(Run(maxSize, ops[..|ops| - 1]), ops[|ops| - 1])
  }

  function AllDropped<V(!new)>(maxSize: nat, ops: seq<Op<V>>): nat {
    if ops == [] then 0
    else AllDropped(maxSize, ops[..|ops| - 1]) + Dropped(Run(maxSize, ops[..|ops| - 1]), ops[|ops| - 1])
  }

  /**
   Conservation: every entry ever added is still there, was deleted or evicted and counted
   as such, or was dropped by `exists` or `clear`.
   */
  lemma {:induction false} EntriesConserved<V(!new)>(maxSize: nat, ops: seq<Op<V>>)
    ensures var s := Run(maxSize, ops);
      AllAdded(maxSize, ops) == |s.entries| + s.deletes + s.evictions + AllDropped(maxSize, ops)
  {
    if ops != [] {
      var init, op := ops[..|ops| - 1], ops[|ops| - 1];
      EntriesConserved(maxSize, init);
      CapacityBound(maxSize, init);
      StepConserves(maxSize, Run(maxSize, init), op);
    }
  }

  lemma StepConserves<V(!new)>(maxSize: nat, s: Cache<V>, op: Op<V>)
    requires Distinct(s.entries)
    ensures var s' := Step(maxSize, s, op).0;
      |s'.entries| + s'.deletes + s'.evictions + Dropped(s, op) == |s.entries| + s.deletes + s.evictions + Added(s, op)
  {
    hide Expired, Live, Deadline;
    if op.Get? || op.Set? || op.Delete? || op.Exists? {
      if Find(s.entries, op.key).Some? {
        WithoutPresent(s.entries, op.key);
      } else {
        WithoutAbsent(s.entries, op.key);
      }
    } else if op.GetMany? {
      BatchCounters(s, op.keys);
      BatchSize(s, op.keys);
    }
  }

  lemma {:induction false} BatchSize<V(!new)>(s: Cache<V>, keys: seq<Lookup>)
    requires Distinct(s.entries)
    ensures |AfterGetMany(s, keys).0.entries| == |s.entries|
    decreases |keys|
  {
    hide Expired, Find;
    if keys != [] {
      var init, last := keys[..|keys| - 1], keys[|keys| - 1];
      BatchSize(s, init);
      BatchExact(s, init);
      var c := AfterGetMany(s, init).0.entries;
      if Find(c, last.key).Some? { WithoutPresent(c, last.key); }
    }
  }
}
