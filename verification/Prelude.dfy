/** Small shared vocabulary: optional values and lemmas about sequences. */
module Prelude {

  datatype Option<+T> = None | Some(value: T)

  function Copies<T>(x: T, n: nat): (r: seq<T>)
    ensures |r| == n && forall i :: 0 <= i < n ==> r[i] == x
  {
    seq(n, i => x)
  }

  // ---- Filtering ----

  function Filter<T(!new)>(p: T -> bool, s: seq<T>): (r: seq<T>)
    ensures |r| <= |s|
    ensures forall x :: x in r <==> x in s && p(x)
  {
    if s == [] then []
    else if p(s[0]) then [s[0]] + Filter(p, s[1..])
    else Filter(p, s[1..])
  }

  lemma FilterCons<T(!new)>(p: T -> bool, x: T, s: seq<T>)
    ensures Filter(p, [x] + s) == (if p(x) then [x] else []) + Filter(p, s)
    ensures Filter(p, []) == []
  {
    assert ([x] + s)[1..] == s;
  }

  lemma {:induction false} FilterConcat<T(!new)>(p: T -> bool, a: seq<T>, b: seq<T>)
    ensures Filter(p, a + b) == Filter(p, a) + Filter(p, b)
  {
    hide Filter;
    if a == [] {
      assert a + b == b;
      assert Filter(p, a) == [];
    } else {
      FilterConcat(p, a[1..], b);
      FilterCons(p, a[0], a[1..]);
      FilterCons(p, a[0], a[1..] + b);
      assert a == [a[0]] + a[1..] && a + b == [a[0]] + (a[1..] + b);
    }
  }

  lemma {:induction false} FilterAll<T(!new)>(p: T -> bool, s: seq<T>)
    requires forall x :: x in s ==> p(x)
    ensures Filter(p, s) == s
  {
    if s != [] {
      FilterAll(p, s[1..]);
    }
  }

  lemma {:induction false} FilterSame<T(!new)>(p: T -> bool, q: T -> bool, s: seq<T>)
    requires forall x :: x in s ==> p(x) == q(x)
    ensures Filter(p, s) == Filter(q, s)
  {
    if s != [] {
      FilterSame(p, q, s[1..]);
    }
  }

  // ---- Bounded logs ----

  /** The last `n` elements. */
  function Newest<T>(s: seq<T>, n: nat): seq<T> {
    if |s| > n then s[|s| - n..] else s
  }

  /** The newest elements are a suffix: all of a short sequence, and the last `n` of a longer one. */
  lemma NewestExact<T>(s: seq<T>, n: nat)
    ensures |s| <= n ==> Newest(s, n) == s
    ensures |s| >= n ==> |Newest(s, n)| == n && forall i :: 0 <= i < n ==> Newest(s, n)[i] == s[|s| - n + i]
  {
  }

  lemma NewestSnoc<T>(s: seq<T>, x: T, n: nat)
    ensures Newest(Newest(s, n) + [x], n) == Newest(s + [x], n)
  {
  }

  // ---- Subsequences ----

  /** `a` can be obtained from `b` by deleting elements, keeping the order. */
  ghost predicate Subseq<T>(a: seq<T>, b: seq<T>)
    decreases |b|
  {
    a == [] ||
    (b != [] && ((a[0] == b[0] && Subseq(a[1..], b[1..])) || Subseq(a, b[1..])))
  }

  lemma {:induction false} SubseqMembers<T>(a: seq<T>, b: seq<T>)
    requires Subseq(a, b)
    ensures |a| <= |b|
    ensures forall x :: x in a ==> x in b
    decreases |b|
  {
    if a != [] {
      assert a == [a[0]] + a[1..] && b == [b[0]] + b[1..];
      if a[0] == b[0] && Subseq(a[1..], b[1..]) {
        SubseqMembers(a[1..], b[1..]);
      } else {
        SubseqMembers(a, b[1..]);
      }
    }
  }

  lemma {:induction false} SubseqTail<T>(a: seq<T>, b: seq<T>)
    requires a != [] && Subseq(a, b)
    ensures Subseq(a[1..], b[1..]) && Subseq(a[1..], b)
    decreases |b|
  {
    if !(a[0] == b[0] && Subseq(a[1..], b[1..])) {
      SubseqTail(a, b[1..]);
    }
  }

  lemma {:induction false} SubseqSnoc<T>(a: seq<T>, b: seq<T>, x: T)
    requires Subseq(a, b)
    ensures Subseq(a + [x], b + [x]) && Subseq(a, b + [x])
    decreases |b|
  {
    if b != [] {
      assert (b + [x])[1..] == b[1..] + [x];
      if a != [] && a[0] == b[0] && Subseq(a[1..], b[1..]) {
        SubseqSnoc(a[1..], b[1..], x);
        assert (a + [x])[1..] == a[1..] + [x];
      } else {
        SubseqSnoc(a, b[1..], x);
      }
    } else {
      assert Subseq([x][1..], [x][1..]);
      assert a + [x] == [x] && b + [x] == [x];
    }
  }

  lemma {:induction false} SubseqDrop<T>(a: seq<T>, b: seq<T>, d: nat, e: nat)
    requires Subseq(a, b) && d <= e <= |a| && d <= |b|
    ensures Subseq(a[e..], b[d..])
    decreases e
  {
    if e == 0 {
      assert a[e..] == a && b[d..] == b;
    } else {
      SubseqTail(a, b);
      var a', b', d' := a[1..], if d > 0 then b[1..] else b, if d > 0 then d - 1 else 0;
      assert a[e..] == a'[e - 1..] && b[d..] == b'[d'..];
      SubseqDrop(a', b', d', e - 1);
    }
  }

  /** Filtering keeps a subsequence a subsequence and never widens the gap in length. */
  lemma {:induction false} SubseqFilter<T(!new)>(p: T -> bool, a: seq<T>, b: seq<T>)
    requires Subseq(a, b)
    ensures Subseq(Filter(p, a), Filter(p, b))
    ensures |Filter(p, b)| - |Filter(p, a)| <= |b| - |a|
    decreases |b|
  {
    if a == [] {
    } else if a[0] == b[0] && Subseq(a[1..], b[1..]) {
      SubseqFilter(p, a[1..], b[1..]);
    } else {
      SubseqFilter(p, a, b[1..]);
    }
  }

  // ---- Sums over dictionaries ----

  ghost function Total(m: map<string, real>): real {
    if m == map[] then 0.0 else var k :| k in m; m[k] + Total(m - {k})
  }

  lemma {:induction false} TotalRemove(m: map<string, real>, k: string)
    requires k in m
    ensures Total(m) == m[k] + Total(m - {k})
    decreases |m|
  {
    var c :| c in m && Total(m) == m[c] + Total(m - {c});
    if c != k {
      TotalRemove(m - {c}, k);
      TotalRemove(m - {k}, c);
      assert m - {c} - {k} == m - {k} - {c};
    }
  }

  lemma TotalUpdate(m: map<string, real>, k: string, v: real)
    ensures Total(m[k := v]) == Total(m - {k}) + v
    ensures k in m ==> Total(m) == Total(m - {k}) + m[k]
    ensures k !in m ==> m - {k} == m
  {
    TotalRemove(m[k := v], k);
    assert m[k := v] - {k} == m - {k};
    if k in m { TotalRemove(m, k); }
  }
}
