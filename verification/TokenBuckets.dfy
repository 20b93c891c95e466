/**
 The token bucket: lazily refilled, capped, consumed all or nothing.  Times are readings
 of a monotonic clock, so along a run they never go back.
 */
module TokenBuckets {
  import opened Prelude
  import opened Reals

  datatype Bucket = Bucket(rate: real, capacity: real, tokens: real, last: real)

  datatype Call = Call(now: real, tokens: nat)

  function Min(a: real, b: real): real {
    if a <= b then a else b
  }

  /** What flows in over a span of time. */
  function Refill(rate: real, span: real): real {
    Mul(span, rate)
  }

  /** How full the bucket is at `t`, were it refilled then. */
  function Level(b: Bucket, t: real): real {
    Min(b.capacity, b.tokens + Refill(b.rate, t - b.last))
  }

  function Step(b: Bucket, c: Call): (Bucket, bool) {
    var level := Level(b, c.now);
    if level >= c.tokens as real then (b.(tokens := level - c.tokens as real, last := c.now), true)
    else (b.(tokens := level, last := c.now), false)
  }

  ghost predicate Valid(b: Bucket) {
    b.rate >= 0.0 && 0.0 <= b.tokens <= b.capacity
  }

  /** A run whose readings do not precede the bucket's and never go back. */
  ghost predicate Timed(b: Bucket, calls: seq<Call>) {
    && (calls != [] ==> b.last <= calls[0].now)
    && forall i, j :: 0 <= i < j < |calls| ==> calls[i].now <= calls[j].now
  }

  function After(b: Bucket, calls: seq<Call>): Bucket
    decreases |calls|
  {
    if calls == [] then b else After(Step(b, calls[0]).0, calls[1..])
  }

  function Decisions(b: Bucket, calls: seq<Call>): (r: seq<bool>)
    ensures |r| == |calls|
    decreases |calls|
  {
    if calls == [] then [] else [Step(b, calls[0]).1] + Decisions(Step(b, calls[0]).0, calls[1..])
  }

  /** The tokens a run hands out. */
  function Admitted(b: Bucket, calls: seq<Call>): nat
    decreases |calls|
  {
    if calls == [] then 0
    else
      var (b', ok) := Step(b, calls[0]);
      (if ok then calls[0].tokens else 0) + Admitted(b', calls[1..])
  }

  // ---- The object ----

  class TokenBucket {
    const rate: real
    const capacity: real
    var tokens: real
    var last: real

    ghost function State(): Bucket
      reads this
    {
      Bucket(rate, capacity, tokens, last)
    }

    constructor (rate: real, capacity: nat, now: real)
      ensures State() == Bucket(rate, capacity as real, capacity as real, now)
    {
      this.rate := rate;
      this.capacity := capacity as real;
      tokens := capacity as real;
      last := now;
    }

    method Consume(c: Call) returns (ok: bool)
      modifies this
      ensures (State(), ok) == Step(old(State()), c)
      ensures Valid(old(State())) && old(last) <= c.now ==> Valid(State())
    {
      hide Mul, Refill;
      var elapsed := c.now - last;
      tokens := Min(capacity, tokens + Refill(rate, elapsed));
      last := c.now;
      if old(Valid(State())) && old(last) <= c.now {
        RefillGrows(rate, elapsed);
      }
      if tokens >= c.tokens as real {
        tokens := tokens - c.tokens as real;
        return true;
      }
      ok := false;
    }

    /** `None` is the division by zero that a bucket of rate 0 meets. */
    method RetryAfter() returns (wait: Option<real>)
      ensures wait == Retry(State())
    {
      if tokens >= 1.0 {
        return Some(0.0);
      }
      if rate == 0.0 {
        return None;
      }
      wait := Some((1.0 - tokens) / rate);
    }
  }

  /** The advertised wait before the next single token, if the rate ever yields one. */
  function Retry(b: Bucket): Option<real> {
    if b.tokens >= 1.0 then Some(0.0)
    else if b.rate == 0.0 then None
    else Some(TimeToRefill(b.rate, 1.0 - b.tokens))
  }

  function TimeToRefill(rate: real, missing: real): real
    requires rate != 0.0
  {
    missing / rate
  }

  // ---- Levels ----

  lemma RefillGrows(rate: real, span: real)
    requires rate >= 0.0 && span >= 0.0
    ensures Refill(rate, span) >= 0.0
  {
    MulNonNegative(span, rate);
  }

  lemma RefillAdds(rate: real, x: real, y: real)
    ensures Refill(rate, x) + Refill(rate, y) == Refill(rate, x + y)
  {
    MulAdds(x, y, rate);
  }

  lemma NoRefillYet(rate: real)
    ensures Refill(rate, 0.0) == 0.0
  {
    MulUnits(rate);
  }

  lemma StepValid(b: Bucket, c: Call)
    requires Valid(b) && b.last <= c.now
    ensures Valid(Step(b, c).0) && Step(b, c).0.last == c.now
    ensures Step(b, c).0.rate == b.rate && Step(b, c).0.capacity == b.capacity
  {
    hide Refill;
    RefillGrows(b.rate, c.now - b.last);
  }

  /** Capped refills compose: refilling on the way changes no later level. */
  lemma RefillsCompose(b: Bucket, t: real, u: real)
    requires Valid(b) && b.last <= t <= u
    ensures Level(b.(tokens := Level(b, t), last := t), u) == Level(b, u)
  {
    hide Refill;
    RefillAdds(b.rate, u - t, t - b.last);
    RefillGrows(b.rate, u - t);
  }

  lemma TimedTail(b: Bucket, calls: seq<Call>)
    requires Valid(b) && Timed(b, calls) && calls != []
    ensures Valid(Step(b, calls[0]).0) && Timed(Step(b, calls[0]).0, calls[1..])
  {
    hide Refill;
    StepValid(b, calls[0]);
  }

  // ---- The window bound ----

  /** What is admitted up to `t`, plus what is left, never exceeds what was there plus the refill. */
  lemma {:induction false} AdmissionBalance(b: Bucket, calls: seq<Call>, t: real)
    requires Valid(b) && Timed(b, calls) && b.last <= t
    requires forall i :: 0 <= i < |calls| ==> calls[i].now <= t
    ensures Valid(After(b, calls)) && b.last <= After(b, calls).last <= t
    ensures After(b, calls).rate == b.rate && After(b, calls).capacity == b.capacity
    ensures Admitted(b, calls) as real + After(b, calls).tokens <= b.tokens + Refill(b.rate, t - b.last)
    decreases |calls|
  {
    hide Refill;
    if calls == [] {
      RefillGrows(b.rate, t - b.last);
    } else {
      var c := calls[0];
      TimedTail(b, calls);
      StepValid(b, c);
      var b' := Step(b, c).0;
      AdmissionBalance(b', calls[1..], t);
      RefillAdds(b.rate, t - c.now, c.now - b.last);
    }
  }

  /** What overflows while a run refills the bucket. */
  function Spilled(b: Bucket, calls: seq<Call>): real
    decreases |calls|
  {
    if calls == [] then 0.0
    else
      var full := b.tokens + Refill(b.rate, calls[0].now - b.last);
      (if full > b.capacity then full - b.capacity else 0.0) + Spilled(Step(b, calls[0]).0, calls[1..])
  }

  /** Conservation: what is admitted, left and spilled is what was there and what flowed in. */
  lemma {:induction false} TokensConserved(b: Bucket, calls: seq<Call>)
    ensures Admitted(b, calls) as real + After(b, calls).tokens + Spilled(b, calls)
      == b.tokens + Refill(b.rate, After(b, calls).last - b.last)
    ensures After(b, calls).last == if calls == [] then b.last else calls[|calls| - 1].now
    decreases |calls|
  {
    hide Refill;
    if calls == [] {
      NoRefillYet(b.rate);
    } else {
      var b' := Step(b, calls[0]).0;
      TokensConserved(b', calls[1..]);
      RefillAdds(b.rate, calls[0].now - b.last, After(b, calls).last - calls[0].now);
    }
  }

  /** A call is admitted exactly when the refilled bucket, which holds no more than its capacity, has its tokens. */
  lemma AdmittedIff(b: Bucket, c: Call)
    ensures Step(b, c).1 <==>
      c.tokens as real <= b.capacity && c.tokens as real <= b.tokens + Mul(c.now - b.last, b.rate)
  {
    hide Mul;
  }

  lemma {:induction false} AfterSplit(b: Bucket, calls: seq<Call>, i: nat)
    requires Valid(b) && Timed(b, calls) && i <= |calls|
    ensures After(b, calls) == After(After(b, calls[..i]), calls[i..])
    ensures Valid(After(b, calls[..i])) && Timed(After(b, calls[..i]), calls[i..])
    ensures After(b, calls[..i]).rate == b.rate && After(b, calls[..i]).capacity == b.capacity
    decreases i
  {
    hide Refill;
    if i == 0 {
      assert calls[i..] == calls;
    } else {
      TimedTail(b, calls);
      StepValid(b, calls[0]);
      AfterSplit(Step(b, calls[0]).0, calls[1..], i - 1);
      assert calls[..i][1..] == calls[1..][..i - 1] && calls[i..] == calls[1..][i - 1..];
    }
  }

  /** A run starting no earlier than `t0` sees at most a full bucket there. */
  lemma {:induction false} FullBucketBound(b: Bucket, calls: seq<Call>, t0: real, t1: real)
    requires Valid(b) && Timed(b, calls) && t0 <= t1
    requires forall i :: 0 <= i < |calls| ==> t0 <= calls[i].now <= t1
    ensures Admitted(b, calls) as real <= b.capacity + Refill(b.rate, t1 - t0)
  {
    hide Refill;
    if calls == [] {
      RefillGrows(b.rate, t1 - t0);
    } else {
      var c := calls[0];
      StepValid(b, c);
      TimedTail(b, calls);
      AdmissionBalance(Step(b, c).0, calls[1..], t1);
      RefillGrows(b.rate, c.now - t0);
      RefillAdds(b.rate, t1 - c.now, c.now - t0);
    }
  }

  /**
   The tokens admitted by the calls `i..j` of any run, all made within `[t0, t1]`, are at
   most the capacity plus the refill over that window.
   */
  lemma WindowBound(b: Bucket, calls: seq<Call>, i: nat, j: nat, t0: real, t1: real)
    requires Valid(b) && Timed(b, calls) && i <= j <= |calls| && t0 <= t1
    requires forall m :: i <= m < j ==> t0 <= calls[m].now <= t1
    ensures Admitted(After(b, calls[..i]), calls[i..j]) as real <= b.capacity + Refill(b.rate, t1 - t0)
  {
    hide Refill;
    AfterSplit(b, calls, i);
    var b' := After(b, calls[..i]);
    assert calls[i..j] == calls[i..][..j - i];
    FullBucketBound(b', calls[i..j], t0, t1);
  }

  // ---- Rejected calls leave no trace ----

  /** Two buckets no later call at or after `t` can tell apart. */
  ghost predicate Alike(a: Bucket, b: Bucket, t: real) {
    && Valid(a) && Valid(b) && a.rate == b.rate && a.capacity == b.capacity
    && a.last <= t && b.last <= t && Level(a, t) == Level(b, t)
  }

  lemma AlikeLater(a: Bucket, b: Bucket, t: real, u: real)
    requires Alike(a, b, t) && t <= u
    ensures Alike(a, b, u)
  {
    hide Refill;
    RefillsCompose(a, t, u);
    RefillsCompose(b, t, u);
  }

  lemma RejectionAlike(b: Bucket, c: Call)
    requires Valid(b) && b.last <= c.now && !Step(b, c).1
    ensures Alike(b, Step(b, c).0, c.now)
  {
    hide Refill;
    RefillsCompose(b, c.now, c.now);
    StepValid(b, c);
  }

  /** The calls marked by `keep`. */
  function Kept<T>(xs: seq<T>, keep: seq<bool>): seq<T>
    requires |xs| == |keep|
  {
    if xs == [] then [] else (if keep[0] then [xs[0]] else []) + Kept(xs[1..], keep[1..])
  }

  /**
   Deleting any of the rejected calls leaves every other decision unchanged, and from the
   last call on the two buckets cannot be told apart.
   */
  lemma {:induction false} RejectionsInvisible(b: Bucket, a: Bucket, calls: seq<Call>, keep: seq<bool>, t: real)
    requires |keep| == |calls| && Valid(b) && Timed(b, calls) && Alike(b, a, t)
    requires calls != [] ==> t <= calls[0].now
    requires forall i :: 0 <= i < |calls| && !keep[i] ==> !Decisions(b, calls)[i]
    ensures Decisions(a, Kept(calls, keep)) == Kept(Decisions(b, calls), keep)
    ensures Alike(After(b, calls), After(a, Kept(calls, keep)), if calls == [] then t else calls[|calls| - 1].now)
    decreases |calls|
  {
    hide Refill, Level, Step, Alike, Valid, Timed;
    if calls != [] {
      var c := calls[0];
      var (b', ok) := Step(b, c);
      var ds := Decisions(b, calls);
      assert ds[1..] == Decisions(b', calls[1..]) && ds[0] == ok;
      assert forall i :: 0 <= i < |calls| - 1 ==> keep[1..][i] == keep[i + 1] && ds[1..][i] == ds[i + 1];
      AlikeStep(b, a, calls, t);
      LaterCall(b, calls);
      if keep[0] {
        RejectionsInvisible(b', Step(a, c).0, calls[1..], keep[1..], c.now);
        assert Kept(calls, keep)[1..] == Kept(calls[1..], keep[1..]);
      } else {
        RejectionsInvisible(b', a, calls[1..], keep[1..], c.now);
        assert Kept(calls, keep) == Kept(calls[1..], keep[1..]);
      }
    }
  }

  /** The next call meets the same answer at both, and they stay alike whether or not a rejected one is left out. */
  lemma AlikeStep(b: Bucket, a: Bucket, calls: seq<Call>, t: real)
    requires Timed(b, calls) && Valid(b) && Alike(b, a, t) && calls != [] && t <= calls[0].now
    ensures var c := calls[0];
      && Valid(Step(b, c).0) && Timed(Step(b, c).0, calls[1..])
      && Step(a, c).1 == Step(b, c).1
      && Alike(Step(b, c).0, Step(a, c).0, c.now)
      && (!Step(b, c).1 ==> Alike(Step(b, c).0, a, c.now))
  {
    hide Refill;
    var c := calls[0];
    AlikeLater(b, a, t, c.now);
    StepValid(b, c);
    StepValid(a, c);
    TimedTail(b, calls);
    if !Step(b, c).1 { RejectionAlike(b, c); }
  }

  lemma LaterCall(b: Bucket, calls: seq<Call>)
    requires Timed(b, calls) && calls != []
    ensures calls[1..] != [] ==> calls[0].now <= calls[1..][0].now
  {
  }

  // ---- The advertised wait ----

  lemma WaitRefills(rate: real, missing: real, span: real)
    requires rate > 0.0
    ensures TimeToRefill(rate, missing) <= span <==> missing <= Refill(rate, span)
  {
    DivTimes(missing, rate);
    hide Mul;
    MulOrder(span, missing / rate, rate);
  }

  /** The wait is nothing with a token in hand, else what fills the bucket up to one token; a rate of 0 never does. */
  lemma RetryExact(b: Bucket)
    ensures b.tokens >= 1.0 ==> Retry(b) == Some(0.0)
    ensures b.tokens < 1.0 ==> (Retry(b).None? <==> b.rate == 0.0)
    ensures b.tokens < 1.0 && Retry(b).Some? ==> b.tokens + Refill(b.rate, Retry(b).value) == 1.0
  {
    if b.rate != 0.0 { DivTimes(1.0 - b.tokens, b.rate); }
  }

  lemma {:induction false} RejectedRunAlike(b: Bucket, calls: seq<Call>)
    requires Valid(b) && Timed(b, calls)
    requires forall i :: 0 <= i < |calls| ==> !Decisions(b, calls)[i]
    ensures Alike(b, After(b, calls), After(b, calls).last)
    ensures After(b, calls).last == if calls == [] then b.last else calls[|calls| - 1].now
    decreases |calls|
  {
    hide Refill;
    if calls != [] {
      var b' := Step(b, calls[0]).0;
      var ds := Decisions(b, calls);
      assert !ds[0];
      assert forall i :: 0 <= i < |calls| - 1 ==> ds[1..][i] == ds[i + 1];
      RejectionAlike(b, calls[0]);
      TimedTail(b, calls);
      RejectedRunAlike(b', calls[1..]);
      AlikeLater(b, b', calls[0].now, After(b, calls).last);
    }
  }

  lemma SameLevel(a: Bucket, b: Bucket, u: real)
    requires Alike(a, b, b.last) && b.last <= u
    ensures Level(a, u) == Level(b, u)
  {
    hide Refill;
    AlikeLater(a, b, b.last, u);
  }

  lemma NoRefill(span: real)
    ensures Refill(0.0, span) == 0.0
  {
    MulUnits(span);
  }

  lemma WaitDecides(b: Bucket, t: real)
    requires Valid(b) && b.tokens < 1.0
    ensures Level(b, t) >= 1.0 <==> b.capacity >= 1.0 && Retry(b).Some? && t - b.last >= Retry(b).value
  {
    hide Refill, TimeToRefill;
    if b.rate == 0.0 {
      NoRefill(t - b.last);
    } else {
      WaitRefills(b.rate, 1.0 - b.tokens, t - b.last);
    }
  }

  lemma TimedParts(b: Bucket, c: Call, between: seq<Call>, next: Call)
    requires Valid(b) && Timed(b, [c] + between + [next])
    ensures var b' := Step(b, c).0;
      Valid(b') && b'.last == c.now && b'.rate == b.rate && b'.capacity == b.capacity && Timed(b', between)
    ensures c.now <= next.now && (between != [] ==> between[|between| - 1].now <= next.now)
  {
    var calls := [c] + between + [next];
    StepValid(b, c);
    assert calls[0] == c && calls[|calls| - 1] == next;
    assert forall i :: 0 <= i < |between| ==> between[i] == calls[i + 1];
  }

  /**
   After a single-token call is rejected, and with only rejections in between, the next
   single-token call is admitted exactly when the bucket can hold a token at all, there is
   an advertised wait, and it has passed.
   */
  lemma RetryAfterExact(b: Bucket, c: Call, between: seq<Call>, next: Call)
    requires Valid(b) && c.tokens == 1 && next.tokens == 1 && !Step(b, c).1
    requires Timed(b, [c] + between + [next])
    requires forall i :: 0 <= i < |between| ==> !Decisions(Step(b, c).0, between)[i]
    ensures var b' := Step(b, c).0;
      Step(After(b', between), next).1 <==> b.capacity >= 1.0 && Retry(b').Some? && next.now - c.now >= Retry(b').value
  {
    hide Refill, TimeToRefill, Alike, Decisions, After, Timed;
    var b' := Step(b, c).0;
    TimedParts(b, c, between, next);
    RejectedRunAlike(b', between);
    SameLevel(b', After(b', between), next.now);
    WaitDecides(b', next.now);
  }
}
