/**
 The per-client rate limiter: a table of token buckets, keyed by the client and the
 formatted rate, created on first use.  Every bucket of a run behaves as if it were
 alone, so the bounds on one bucket lift to each client and configured rate.
 */
module RateLimit {
  import opened Prelude
  import opened Reals
  import opened TokenBuckets

  /** A configured limit: tokens per second, and burst capacity. */
  datatype Limit = Limit(rate: real, capacity: nat)

  datatype Period = Second | Minute | Hour | Day

  function Seconds(p: Period): nat {
    match p
    case Second => 1
    case Minute => 60
    case Hour => 3600
    case Day => 86400
  }

  /** `count/period` as a limit. */
  function ParsedRate(count: nat, p: Period): Limit {
    Limit(count as real / Seconds(p) as real, count)
  }

  /** A burst capacity comes with a rate, and none without. */
  predicate Configured(l: Limit) {
    l.rate >= 0.0 && (l.rate == 0.0 <==> l.capacity == 0)
  }

  lemma ParsedIsConfigured(count: nat, p: Period)
    ensures Configured(ParsedRate(count, p)) && ParsedRate(count, p).capacity == count
    ensures Mul(ParsedRate(count, p).rate, Seconds(p) as real) == count as real
  {
    DivTimes(count as real, Seconds(p) as real);
  }

  /** Sixty per hour is one per minute, sixty per minute one per second, and twenty-four per day one per hour. */
  lemma PeriodsNest(n: nat)
    ensures ParsedRate(60 * n, Minute).rate == ParsedRate(n, Second).rate == n as real
    ensures ParsedRate(60 * n, Hour).rate == ParsedRate(n, Minute).rate
    ensures ParsedRate(24 * n, Day).rate == ParsedRate(n, Hour).rate
  {
  }

  /** A rate-limited request; `limit` is the one configured for its path. */
  datatype Request = Request(client: string, limit: Limit, now: real)

  /** Exempt paths never reach the table and are not part of a run. */
  type Key = (string, string)

  type Format = real -> string

  function KeyOf(fmt: Format, r: Request): Key {
    (r.client, fmt(r.limit.rate))
  }

  function Fresh(r: Request): Bucket {
    Bucket(r.limit.rate, r.limit.capacity as real, r.limit.capacity as real, r.now)
  }

  type Table = map<Key, Bucket>

  function BucketFor(fmt: Format, t: Table, r: Request): Bucket {
    if KeyOf(fmt, r) in t then t[KeyOf(fmt, r)] else Fresh(r)
  }

  /** One request: admitted if its bucket yields a token. */
  function Dispatch(fmt: Format, t: Table, r: Request): (Table, bool) {
    var (b, ok) := Step(BucketFor(fmt, t, r), Call(r.now, 1));
    (t[KeyOf(fmt, r) := b], ok)
  }

  datatype Reply = Passed | TooMany(wait: real) | Failed

  class RateLimiter {
    const fmt: Format
    var buckets: map<Key, TokenBucket>

    ghost predicate Valid()
      reads this, buckets.Values
    {
      forall k, l :: k in buckets && l in buckets && k != l ==> buckets[k] != buckets[l]
    }

    ghost function State(): Table
      reads this, buckets.Values
    {
      map k | k in buckets :: buckets[k].State()
    }

    constructor (fmt: Format)
      ensures this.fmt == fmt && Valid() && State() == map[]
    {
      this.fmt := fmt;
      buckets := map[];
    }

    /** A rejected request learns how long to wait; with a rate of 0 working that out fails. */
    method Handle(r: Request) returns (reply: Reply)
      requires Valid()
      modifies this, buckets.Values
      ensures Valid() && fresh(buckets.Values - old(buckets.Values))
      ensures (State(), reply.Passed?) == Dispatch(fmt, old(State()), r)
      ensures KeyOf(fmt, r) in State()
      ensures !reply.Passed? ==>
        reply == match Retry(State()[KeyOf(fmt, r)]) case Some(w) => TooMany(w) case None => Failed
    {
      var key := KeyOf(fmt, r);
      ghost var before := State();
      if key !in buckets {
        var b := new TokenBucket(r.limit.rate, r.limit.capacity, r.now);
        buckets := buckets[key := b];
      }
      var bucket := buckets[key];
      assert bucket.State() == BucketFor(fmt, before, r);
      var ok := bucket.Consume(Call(r.now, 1));
      assert State() == before[key := bucket.State()];
      if ok {
        return Passed;
      }
      var wait := bucket.RetryAfter();
      reply := if wait.Some? then TooMany(wait.value) else Failed;
    }
  }

  // ---- Runs ----

  function Decided(fmt: Format, t: Table, rs: seq<Request>): (r: seq<bool>)
    ensures |r| == |rs|
    decreases |rs|
  {
    if rs == [] then []
    else
      var (t', ok) := Dispatch(fmt, t, rs[0]);
      [ok] + Decided(fmt, t', rs[1..])
  }

  /** The requests of `rs` that fall into bucket `k`, as calls on it. */
  function CallsOn(fmt: Format, rs: seq<Request>, k: Key): seq<Call> {
    if rs == [] then []
    else (if KeyOf(fmt, rs[0]) == k then [Call(rs[0].now, 1)] else []) + CallsOn(fmt, rs[1..], k)
  }

  /** The decisions taken on those requests. */
  function DecidedOn(fmt: Format, rs: seq<Request>, ds: seq<bool>, k: Key): seq<bool>
    requires |ds| == |rs|
  {
    if rs == [] then []
    else (if KeyOf(fmt, rs[0]) == k then [ds[0]] else []) + DecidedOn(fmt, rs[1..], ds[1..], k)
  }

  /** Clients and rates do not interfere: each bucket decides as if it were alone. */
  lemma {:induction false} BucketsAreIndependent(fmt: Format, t: Table, rs: seq<Request>, k: Key)
    requires k in t
    ensures DecidedOn(fmt, rs, Decided(fmt, t, rs), k) == Decisions(t[k], CallsOn(fmt, rs, k))
    decreases |rs|
  {
    if rs != [] {
      var (t', ok) := Dispatch(fmt, t, rs[0]);
      BucketsAreIndependent(fmt, t', rs[1..], k);
      var ds := Decided(fmt, t, rs);
      assert ds[1..] == Decided(fmt, t', rs[1..]);
      if KeyOf(fmt, rs[0]) == k {
        var calls := CallsOn(fmt, rs, k);
        assert calls[0] == Call(rs[0].now, 1) && calls[1..] == CallsOn(fmt, rs[1..], k);
        assert t'[k] == Step(t[k], calls[0]).0 && ds[0] == Step(t[k], calls[0]).1;
      } else {
        assert CallsOn(fmt, rs, k) == CallsOn(fmt, rs[1..], k);
        assert DecidedOn(fmt, rs, ds, k) == DecidedOn(fmt, rs[1..], ds[1..], k);
      }
    }
  }

  /** From an empty table, the first request of a key fixes the bucket it shares from then on. */
  lemma {:induction false} FirstRequestFixesBucket(fmt: Format, t: Table, rs: seq<Request>, k: Key, i: nat)
    requires k !in t && i < |rs| && KeyOf(fmt, rs[i]) == k
    requires forall j :: 0 <= j < i ==> KeyOf(fmt, rs[j]) != k
    ensures DecidedOn(fmt, rs, Decided(fmt, t, rs), k) == Decisions(Fresh(rs[i]), CallsOn(fmt, rs, k))
    decreases |rs|
  {
    var (t', ok) := Dispatch(fmt, t, rs[0]);
    var ds := Decided(fmt, t, rs);
    assert ds[1..] == Decided(fmt, t', rs[1..]);
    if i == 0 {
      BucketsAreIndependent(fmt, t', rs[1..], k);
      var calls := CallsOn(fmt, rs, k);
      assert calls[0] == Call(rs[0].now, 1) && calls[1..] == CallsOn(fmt, rs[1..], k);
    } else {
      assert rs[1..][i - 1] == rs[i];
      FirstRequestFixesBucket(fmt, t', rs[1..], k, i - 1);
      assert CallsOn(fmt, rs, k) == CallsOn(fmt, rs[1..], k);
      assert DecidedOn(fmt, rs, ds, k) == DecidedOn(fmt, rs[1..], ds[1..], k);
    }
  }

  // ---- The bound, for each client and configured rate ----

  function Count(ds: seq<bool>): nat {
    if ds == [] then 0 else (if ds[0] then 1 else 0) + Count(ds[1..])
  }

  lemma {:induction false} AdmittedCount(b: Bucket, calls: seq<Call>)
    requires forall i :: 0 <= i < |calls| ==> calls[i].tokens == 1
    ensures Admitted(b, calls) == Count(Decisions(b, calls))
    decreases |calls|
  {
    if calls != [] {
      var b' := Step(b, calls[0]).0;
      AdmittedCount(b', calls[1..]);
      assert Decisions(b, calls)[1..] == Decisions(b', calls[1..]);
    }
  }

  /** Some request on bucket `k` was made at `now`. */
  ghost predicate MadeAt(fmt: Format, rs: seq<Request>, k: Key, now: real) {
    exists j :: 0 <= j < |rs| && KeyOf(fmt, rs[j]) == k && rs[j].now == now
  }

  lemma {:induction false} CallsOnRun(fmt: Format, rs: seq<Request>, k: Key)
    ensures forall c :: c in CallsOn(fmt, rs, k) ==> c.tokens == 1 && MadeAt(fmt, rs, k, c.now)
  {
    if rs != [] {
      CallsOnRun(fmt, rs[1..], k);
      forall c | c in CallsOn(fmt, rs, k)
        ensures c.tokens == 1 && MadeAt(fmt, rs, k, c.now)
      {
        if c in CallsOn(fmt, rs[1..], k) {
          var j :| 0 <= j < |rs[1..]| && KeyOf(fmt, rs[1..][j]) == k && rs[1..][j].now == c.now;
          assert rs[j + 1].now == c.now;
        } else {
          assert rs[0].now == c.now;
        }
      }
    }
  }

  ghost predicate Ordered(rs: seq<Request>) {
    forall i, j :: 0 <= i < j < |rs| ==> rs[i].now <= rs[j].now
  }

  ghost predicate OrderedCalls(cs: seq<Call>) {
    forall i, j :: 0 <= i < j < |cs| ==> cs[i].now <= cs[j].now
  }

  lemma {:induction false} CallsOnOrdered(fmt: Format, rs: seq<Request>, k: Key)
    requires Ordered(rs)
    ensures OrderedCalls(CallsOn(fmt, rs, k))
  {
    if rs != [] {
      CallsOnOrdered(fmt, rs[1..], k);
      CallsOnRun(fmt, rs[1..], k);
      var cs, cs' := CallsOn(fmt, rs, k), CallsOn(fmt, rs[1..], k);
      assert cs == (if KeyOf(fmt, rs[0]) == k then [Call(rs[0].now, 1)] else []) + cs';
      forall j | 0 <= j < |cs'|
        ensures rs[0].now <= cs'[j].now
      {
        assert MadeAt(fmt, rs[1..], k, cs'[j].now);
        var m :| 0 <= m < |rs[1..]| && KeyOf(fmt, rs[1..][m]) == k && rs[1..][m].now == cs'[j].now;
        assert rs[1..][m] == rs[m + 1];
      }
      forall i, j | 0 <= i < j < |cs|
        ensures cs[i].now <= cs[j].now
      {
        var d := |cs| - |cs'|;
        assert cs[j] == cs'[j - d];
        if i >= d {
          assert cs[i] == cs'[i - d] && cs'[i - d].now <= cs'[j - d].now;
        } else {
          assert cs[i] == Call(rs[0].now, 1);
        }
      }
    }
  }

  /** Requests that share a bucket were configured with the same limit. */
  ghost predicate LimitsHaveOwnKeys(fmt: Format, rs: seq<Request>) {
    forall i, j :: 0 <= i < |rs| && 0 <= j < |rs| && KeyOf(fmt, rs[i]) == KeyOf(fmt, rs[j]) ==>
      rs[i].limit == rs[j].limit
  }

  lemma {:induction false} DecisionsConcat(b: Bucket, xs: seq<Call>, ys: seq<Call>)
    ensures Decisions(b, xs + ys) == Decisions(b, xs) + Decisions(After(b, xs), ys)
    ensures After(b, xs + ys) == After(After(b, xs), ys)
    decreases |xs|
  {
    if xs == [] {
      assert xs + ys == ys;
    } else {
      DecisionsConcat(Step(b, xs[0]).0, xs[1..], ys);
      assert (xs + ys)[1..] == xs[1..] + ys;
    }
  }

  lemma DecisionsSlice(b: Bucket, calls: seq<Call>, m: nat, n: nat)
    requires m <= n <= |calls|
    ensures Decisions(b, calls)[m..n] == Decisions(After(b, calls[..m]), calls[m..n])
  {
    hide Decisions, After;
    var x, y, z := calls[..m], calls[m..n], calls[n..];
    assert calls == x + y + z;
    DecisionsConcat(b, x + y, z);
    DecisionsConcat(b, x, y);
  }

  /**
   Of the requests of one client under one limit, those admitted within any window
   `[t0, t1]` number at most the capacity plus the refill, if limits have keys of their
   own.  The window's requests are the `m`-th to `n`-th of that client and limit.
   */
  lemma ClientBound(fmt: Format, rs: seq<Request>, i: nat, m: nat, n: nat, t0: real, t1: real)
    requires Ordered(rs) && LimitsHaveOwnKeys(fmt, rs) && i < |rs| && rs[i].limit.rate >= 0.0
    requires m <= n <= |CallsOn(fmt, rs, KeyOf(fmt, rs[i]))| && t0 <= t1
    requires forall j :: m <= j < n ==> t0 <= CallsOn(fmt, rs, KeyOf(fmt, rs[i]))[j].now <= t1
    ensures var ds := DecidedOn(fmt, rs, Decided(fmt, map[], rs), KeyOf(fmt, rs[i]));
      && |ds| == |CallsOn(fmt, rs, KeyOf(fmt, rs[i]))|
      && Count(ds[m..n]) as real <= rs[i].limit.capacity as real + Refill(rs[i].limit.rate, t1 - t0)
  {
    hide Refill, Decisions, Decided, DecidedOn, CallsOn, After, Admitted, Count;
    var k := KeyOf(fmt, rs[i]);
    var f := FirstOf(fmt, rs, k, i);
    var b, calls := Fresh(rs[f]), CallsOn(fmt, rs, k);
    FirstRequestFixesBucket(fmt, map[], rs, k, f);
    CallsOnRun(fmt, rs, k);
    CallsOnOrdered(fmt, rs, k);
    FirstCall(fmt, rs, k, f);
    WindowBound(b, calls, m, n, t0, t1);
    DecisionsSlice(b, calls, m, n);
    AdmittedCount(After(b, calls[..m]), calls[m..n]);
  }

  lemma FirstOf(fmt: Format, rs: seq<Request>, k: Key, i: nat) returns (f: nat)
    requires i < |rs| && KeyOf(fmt, rs[i]) == k
    ensures f < |rs| && KeyOf(fmt, rs[f]) == k
    ensures forall j :: 0 <= j < f ==> KeyOf(fmt, rs[j]) != k
  {
    f := 0;
    while KeyOf(fmt, rs[f]) != k
      invariant f <= i && forall j :: 0 <= j < f ==> KeyOf(fmt, rs[j]) != k
      decreases i - f
    {
      f := f + 1;
    }
  }

  lemma {:induction false} FirstCall(fmt: Format, rs: seq<Request>, k: Key, f: nat)
    requires f < |rs| && KeyOf(fmt, rs[f]) == k
    requires forall j :: 0 <= j < f ==> KeyOf(fmt, rs[j]) != k
    ensures CallsOn(fmt, rs, k) != [] && CallsOn(fmt, rs, k)[0].now == rs[f].now
  {
    if f > 0 {
      assert rs[1..][f - 1] == rs[f];
      FirstCall(fmt, rs[1..], k, f - 1);
    }
  }

  // ---- Exactly when every run keeps the bounds ----

  /** The requests of one client under one limit, as calls. */
  function CallsUnder(rs: seq<Request>, client: string, l: Limit): seq<Call> {
    if rs == [] then []
    else
      (if rs[0].client == client && rs[0].limit == l then [Call(rs[0].now, 1)] else [])
        + CallsUnder(rs[1..], client, l)
  }

  /** The decisions taken on those requests. */
  function DecidedUnder(rs: seq<Request>, ds: seq<bool>, client: string, l: Limit): (r: seq<bool>)
    requires |ds| == |rs|
    ensures |r| == |CallsUnder(rs, client, l)|
  {
    if rs == [] then []
    else
      (if rs[0].client == client && rs[0].limit == l then [ds[0]] else [])
        + DecidedUnder(rs[1..], ds[1..], client, l)
  }

  predicate Within(cs: seq<Call>, m: nat, n: nat, t0: real, t1: real) {
    m <= n <= |cs| && t0 <= t1 && forall j :: m <= j < n ==> t0 <= cs[j].now <= t1
  }

  /** What a limit lets one client have in a window. */
  function Allowance(l: Limit, span: real): real {
    l.capacity as real + Refill(l.rate, span)
  }

  ghost predicate KeepsWindow(
    fmt: Format, rs: seq<Request>, client: string, l: Limit, m: nat, n: nat, t0: real, t1: real) {
    Within(CallsUnder(rs, client, l), m, n, t0, t1) ==>
      Count(DecidedUnder(rs, Decided(fmt, map[], rs), client, l)[m..n]) as real <= Allowance(l, t1 - t0)
  }

  /** In every window of the run the client is admitted no more often under the limit than the limit says. */
  ghost predicate KeepsBound(fmt: Format, rs: seq<Request>, client: string, l: Limit) {
    forall m: nat, n: nat, t0, t1 :: KeepsWindow(fmt, rs, client, l, m, n, t0, t1)
  }

  /** A run, in clock order, of requests under the configured limits. */
  ghost predicate RunOver(config: set<Limit>, rs: seq<Request>) {
    Ordered(rs) && forall i :: 0 <= i < |rs| ==> rs[i].limit in config
  }

  ghost predicate EveryRunKeepsBounds(fmt: Format, config: set<Limit>) {
    forall rs, client, l :: RunOver(config, rs) && l in config ==> KeepsBound(fmt, rs, client, l)
  }

  predicate OwnKeys(fmt: Format, config: set<Limit>) {
    forall a, b :: a in config && b in config && fmt(a.rate) == fmt(b.rate) ==> a == b
  }

  /**
   The limits of a configuration hold for every client in every run exactly when no two of
   them share a formatted rate.
   */
  lemma BoundsHoldIffOwnKeys(fmt: Format, config: set<Limit>)
    requires forall l :: l in config ==> Configured(l)
    ensures EveryRunKeepsBounds(fmt, config) <==> OwnKeys(fmt, config)
  {
    if OwnKeys(fmt, config) {
      forall rs, client, l | RunOver(config, rs) && l in config
        ensures KeepsBound(fmt, rs, client, l)
      {
        OwnKeysKeepBound(fmt, config, rs, client, l);
      }
    } else {
      var a, b :| a in config && b in config && fmt(a.rate) == fmt(b.rate) && a != b;
      if a.capacity > b.capacity || (a.capacity == b.capacity && a.rate > b.rate) {
        SharedKeyBreaksSome(fmt, config, a, b);
      } else {
        SharedKeyBreaksSome(fmt, config, b, a);
      }
    }
  }

  lemma OwnKeysKeepBound(fmt: Format, config: set<Limit>, rs: seq<Request>, client: string, l: Limit)
    requires OwnKeys(fmt, config) && RunOver(config, rs) && l in config && l.rate >= 0.0
    ensures KeepsBound(fmt, rs, client, l)
  {
    var k := (client, fmt(l.rate));
    var ds := Decided(fmt, map[], rs);
    OwnKeyUnder(fmt, config, rs, ds, client, l);
    forall m: nat, n: nat, t0, t1
      ensures KeepsWindow(fmt, rs, client, l, m, n, t0, t1)
    {
      if Within(CallsUnder(rs, client, l), m, n, t0, t1) {
        if CallsOn(fmt, rs, k) == [] {
          RefillGrows(l.rate, t1 - t0);
        } else {
          var i := FirstOn(fmt, rs, k);
          assert rs[i].limit == l;
          ClientBound(fmt, rs, i, m, n, t0, t1);
        }
      }
    }
  }

  lemma {:induction false} OwnKeyUnder(
    fmt: Format, config: set<Limit>, rs: seq<Request>, ds: seq<bool>, client: string, l: Limit)
    requires OwnKeys(fmt, config) && l in config && |ds| == |rs|
    requires forall i :: 0 <= i < |rs| ==> rs[i].limit in config
    ensures CallsUnder(rs, client, l) == CallsOn(fmt, rs, (client, fmt(l.rate)))
    ensures DecidedUnder(rs, ds, client, l) == DecidedOn(fmt, rs, ds, (client, fmt(l.rate)))
  {
    if rs != [] {
      OwnKeyUnder(fmt, config, rs[1..], ds[1..], client, l);
    }
  }

  lemma {:induction false} FirstOn(fmt: Format, rs: seq<Request>, k: Key) returns (i: nat)
    requires CallsOn(fmt, rs, k) != []
    ensures i < |rs| && KeyOf(fmt, rs[i]) == k
  {
    i := 0;
    if KeyOf(fmt, rs[0]) != k {
      i := FirstOn(fmt, rs[1..], k);
      i := i + 1;
    }
  }

  // ---- Two limits on one key ----

  /**
   One request under `big` makes the bucket; once it is full again, its whole burst is
   spent under `small`, and one more a refill later.
   */
  function Abuse(client: string, big: Limit, small: Limit): seq<Request>
    requires big.rate > 0.0
  {
    var t := 1.0 / big.rate;
    [Request(client, big, 0.0)] + Copies(Request(client, small, t), big.capacity) + [Request(client, small, 2.0 * t)]
  }

  lemma SharedKeyBreaksSome(fmt: Format, config: set<Limit>, big: Limit, small: Limit)
    requires big in config && small in config && Configured(big) && Configured(small)
    requires fmt(big.rate) == fmt(small.rate)
    requires big.capacity > small.capacity || (big.capacity == small.capacity && big.rate > small.rate)
    ensures !EveryRunKeepsBounds(fmt, config)
  {
    var rs := Abuse("", big, small);
    SharedKeyBreaksBound(fmt, "", big, small);
    assert RunOver(config, rs) by {
      InverseRate(big.rate);
    }
  }

  /** Whenever two limits share a key, the one with the smaller burst, or else the lower rate, is exceeded. */
  lemma SharedKeyBreaksBound(fmt: Format, client: string, big: Limit, small: Limit)
    requires Configured(big) && Configured(small) && fmt(big.rate) == fmt(small.rate)
    requires big.capacity > small.capacity || (big.capacity == small.capacity && big.rate > small.rate)
    ensures big.rate > 0.0 && !KeepsBound(fmt, Abuse(client, big, small), client, small)
  {
    var t, n, rs := 1.0 / big.rate, big.capacity, Abuse(client, big, small);
    AbuseAdmitted(fmt, client, big, small);
    AbuseUnder(fmt, client, big, small);
    InverseRate(big.rate);
    var ds := Decided(fmt, map[], rs)[1..];
    if n > small.capacity {
      NoRefillYet(small.rate);
      CountAll(ds[0..n]);
      assert !KeepsWindow(fmt, rs, client, small, 0, n, t, t);
    } else {
      SlowerRefill(big.rate, small.rate);
      CountAll(ds[0..n + 1]);
      assert !KeepsWindow(fmt, rs, client, small, 0, n + 1, t, 2.0 * t);
    }
  }

  /** Every request of the misuse is admitted. */
  lemma AbuseAdmitted(fmt: Format, client: string, big: Limit, small: Limit)
    requires big.rate > 0.0 && big.capacity > 0 && fmt(big.rate) == fmt(small.rate)
    ensures forall i :: 0 <= i < big.capacity + 2 ==> Decided(fmt, map[], Abuse(client, big, small))[i]
  {
    var t, n, rs := 1.0 / big.rate, big.capacity, Abuse(client, big, small);
    var k := KeyOf(fmt, rs[0]);
    var b := Fresh(rs[0]);
    var calls := [Call(0.0, 1)] + Copies(Call(t, 1), n) + [Call(2.0 * t, 1)];
    assert CallsOn(fmt, rs, k) == calls &&
      DecidedOn(fmt, rs, Decided(fmt, map[], rs), k) == Decided(fmt, map[], rs) by {
      OneKey(fmt, rs, Decided(fmt, map[], rs), k);
    }
    FirstRequestFixesBucket(fmt, map[], rs, k, 0);
    BurstAfterRefill(b, n, t);
  }

  lemma {:induction false} OneKey(fmt: Format, rs: seq<Request>, ds: seq<bool>, k: Key)
    requires |ds| == |rs| && forall i :: 0 <= i < |rs| ==> KeyOf(fmt, rs[i]) == k
    ensures |CallsOn(fmt, rs, k)| == |rs| && forall i :: 0 <= i < |rs| ==> CallsOn(fmt, rs, k)[i] == Call(rs[i].now, 1)
    ensures DecidedOn(fmt, rs, ds, k) == ds
  {
    if rs != [] {
      OneKey(fmt, rs[1..], ds[1..], k);
      assert ds == [ds[0]] + ds[1..];
    }
  }

  lemma {:induction false} OneLimit(rs: seq<Request>, ds: seq<bool>, client: string, l: Limit)
    requires |ds| == |rs| && forall i :: 0 <= i < |rs| ==> rs[i].client == client && rs[i].limit == l
    ensures |CallsUnder(rs, client, l)| == |rs| && forall i :: 0 <= i < |rs| ==>
      CallsUnder(rs, client, l)[i] == Call(rs[i].now, 1)
    ensures DecidedUnder(rs, ds, client, l) == ds
  {
    if rs != [] {
      OneLimit(rs[1..], ds[1..], client, l);
      assert ds == [ds[0]] + ds[1..];
    }
  }

  /** All but the first of the requests are made under `small`. */
  lemma AbuseUnder(fmt: Format, client: string, big: Limit, small: Limit)
    requires big.rate > 0.0 && big != small
    ensures var rs := Abuse(client, big, small);
      var cs := CallsUnder(rs, client, small);
      && |cs| == big.capacity + 1
      && (forall i :: 0 <= i < big.capacity ==> cs[i].now == 1.0 / big.rate)
      && cs[big.capacity].now == 2.0 * (1.0 / big.rate)
      && DecidedUnder(rs, Decided(fmt, map[], rs), client, small) == Decided(fmt, map[], rs)[1..]
  {
    hide Decided, Refill, KeyOf;
    var t, rs := 1.0 / big.rate, Abuse(client, big, small);
    assert rs[0] == Request(client, big, 0.0);
    assert rs[1..] == Copies(Request(client, small, t), big.capacity) + [Request(client, small, 2.0 * t)];
    OneLimit(rs[1..], Decided(fmt, map[], rs)[1..], client, small);
  }

  /** A bucket that holds `n` tokens at `t` admits `n` calls then. */
  lemma {:induction false} Burst(b: Bucket, n: nat, t: real)
    requires Level(b, t) >= n as real
    ensures forall i :: 0 <= i < n ==> Decisions(b, Copies(Call(t, 1), n))[i]
    ensures n > 0 ==> After(b, Copies(Call(t, 1), n)) == b.(tokens := Level(b, t) - n as real, last := t)
    decreases n
  {
    hide Refill;
    var calls := Copies(Call(t, 1), n);
    if n > 0 {
      var b' := Step(b, calls[0]).0;
      assert Refill(b.rate, 0.0) == 0.0 by { NoRefillYet(b.rate); }
      assert Level(b', t) == Level(b, t) - 1.0;
      assert calls[1..] == Copies(Call(t, 1), n - 1);
      Burst(b', n - 1, t);
    }
  }

  lemma InverseRate(rate: real)
    requires rate > 0.0
    ensures 1.0 / rate > 0.0 && Refill(rate, 1.0 / rate) == 1.0
  {
    DivTimes(1.0, rate);
  }

  lemma SlowerRefill(fast: real, slow: real)
    requires 0.0 <= slow < fast
    ensures Refill(slow, 1.0 / fast) < 1.0
  {
    InverseRate(fast);
    MulOrder(slow, fast, 1.0 / fast);
  }

  /** One token from a full bucket, all of them a refill later, and one more a refill after that. */
  lemma BurstAfterRefill(b: Bucket, n: nat, t: real)
    requires n > 0 && b.rate > 0.0 && b.tokens == b.capacity == n as real && b.last == 0.0 && t == 1.0 / b.rate
    ensures var calls := [Call(0.0, 1)] + Copies(Call(t, 1), n) + [Call(2.0 * t, 1)];
      forall i :: 0 <= i < n + 2 ==> Decisions(b, calls)[i]
  {
    hide Refill;
    InverseRate(b.rate);
    NoRefillYet(b.rate);
    var xs, ys, zs := [Call(0.0, 1)], Copies(Call(t, 1), n), [Call(2.0 * t, 1)];
    DecisionsConcat(b, xs + ys, zs);
    DecisionsConcat(b, xs, ys);
    var b1 := After(b, xs);
    assert xs[1..] == [];
    assert b1 == Step(b, Call(0.0, 1)).0 && b1.tokens == n as real - 1.0;
    assert Level(b1, t) == n as real;
    Burst(b1, n, t);
    var b2 := After(b1, ys);
    assert b2.tokens == 0.0 && b2.last == t && Level(b2, 2.0 * t) == 1.0;
    assert Decisions(b2, zs) == [true];
    assert Decisions(b, xs) == [true];
  }

  lemma {:induction false} CountAll(ds: seq<bool>)
    requires forall i :: 0 <= i < |ds| ==> ds[i]
    ensures Count(ds) == |ds|
  {
    if ds != [] { CountAll(ds[1..]); }
  }

  /**
   An instance: `60/minute` and `1/second` have the same rate, hence the same key under any
   format, and the second inherits the burst of the first at once.
   */
  lemma PerMinuteBurstPerSecond(fmt: Format, client: string)
    ensures var steady, quick := ParsedRate(60, Minute), ParsedRate(1, Second);
      var rs := [Request(client, steady, 0.0), Request(client, quick, 0.0), Request(client, quick, 0.0)];
      && steady != quick && !OwnKeys(fmt, {steady, quick})
      && Decided(fmt, map[], rs) == [true, true, true]
      && 2.0 > Allowance(quick, 0.0)
  {
    var r0 := Request(client, ParsedRate(60, Minute), 0.0);
    var r1 := Request(client, ParsedRate(1, Second), 0.0);
    assert r0.limit.rate == 1.0 == r1.limit.rate;
    var t1 := Dispatch(fmt, map[], r0).0;
    var t2 := Dispatch(fmt, t1, r1).0;
    assert t1[KeyOf(fmt, r0)].tokens == 59.0;
    assert t2[KeyOf(fmt, r0)].tokens == 58.0;
    var rs := [r0, r1, r1];
    assert rs[1..] == [r1, r1] && rs[1..][1..] == [r1] && rs[1..][1..][1..] == [];
    assert Decided(fmt, t2, [r1]) == [true];
    assert Decided(fmt, t1, [r1, r1]) == [true, true];
    assert r0.limit in {r0.limit, r1.limit} && r1.limit in {r0.limit, r1.limit};
  }
}
