/**
 The z-score detector, in exact arithmetic.  The standard deviation is the caller's: any
 non-negative `std` whose square is the sample variance.
 */
module AnomalyDetector {
  import opened Prelude
  import opened Reals

  const MIN_POINTS := 10
  const RECENT := 5

  // ---- Statistics ----

  function Sum(xs: seq<real>): real {
    if xs == [] then 0.0 else xs[0] + Sum(xs[1..])
  }

  /** The sum of squared distances from `m`. */
  function Squares(xs: seq<real>, m: real): real {
    if xs == [] then 0.0 else Square(xs[0] - m) + Squares(xs[1..], m)
  }

  function Mean(xs: seq<real>): real
    requires xs != []
  {
    Sum(xs) / |xs| as real
  }

  /** The sample variance, with `n - 1` in the denominator. */
  function Variance(xs: seq<real>): real
    requires |xs| >= 2
  {
    Squares(xs, Mean(xs)) / (|xs| as real - 1.0)
  }

  /** The `i`-th point lies more than `t` standard deviations from the mean. */
  predicate Outlying(xs: seq<real>, i: nat, t: real)
    requires |xs| >= 2 && i < |xs|
  {
    Square(xs[i] - Mean(xs)) > Mul(Square(t), Variance(xs))
  }

  // ---- The detector ----

  datatype Severity = Medium | High | Critical
  datatype AnomalyType = Spike | Drop

  datatype Anomaly = Anomaly(kind: AnomalyType, severity: Severity, value: real, expected: real)

  function Abs(x: real): real {
    if x < 0.0 then -x else x
  }

  /** The position of the first of the recent points. */
  function RecentFrom(xs: seq<real>): nat {
    if |xs| < RECENT then 0 else |xs| - RECENT
  }

  /** The anomaly reported for point `i`. */
  function Report(xs: seq<real>, i: nat): Anomaly
    requires |xs| >= 2 && i < |xs|
  {
    Anomaly(
      if xs[i] > Mean(xs) then Spike else Drop,
      if Outlying(xs, i, 5.0) then Critical else if Outlying(xs, i, 4.0) then High else Medium,
      xs[i], Mean(xs))
  }

  /** The reports for the outlying points of `xs[lo..hi]`, in order. */
  function Reports(xs: seq<real>, lo: nat, hi: nat): seq<Anomaly>
    requires |xs| >= 2 && lo <= hi <= |xs|
    decreases hi
  {
    if lo == hi then []
    else Reports(xs, lo, hi - 1) + (if Outlying(xs, hi - 1, 3.0) then [Report(xs, hi - 1)] else [])
  }

  method Detect(xs: seq<real>, std: real) returns (anomalies: seq<Anomaly>)
    requires std >= 0.0 && (|xs| >= 2 ==> Square(std) == Variance(xs))
    ensures |xs| < MIN_POINTS ==> anomalies == []
    ensures |xs| >= MIN_POINTS ==>
      anomalies == if Variance(xs) == 0.0 then [] else Reports(xs, RecentFrom(xs), |xs|)
  {
    hide Mul;
    if |xs| < MIN_POINTS {
      return [];
    }
    var mean := Mean(xs);
    MulUnits(0.0);
    if std == 0.0 {
      return [];
    }
    MulPositive(std, std);
    anomalies := [];
    for i := RecentFrom(xs) to |xs|
      invariant anomalies == Reports(xs, RecentFrom(xs), i)
    {
      var z := Abs((xs[i] - mean) / std);
      ZScore(xs[i] - mean, std, 3.0);
      ZScore(xs[i] - mean, std, 4.0);
      ZScore(xs[i] - mean, std, 5.0);
      if z > 3.0 {
        var severity := if z > 5.0 then Critical else if z > 4.0 then High else Medium;
        anomalies := anomalies + [Anomaly(if xs[i] > mean then Spike else Drop, severity, xs[i], mean)];
      }
    }
  }

  /** Comparing a z-score is comparing squares. */
  lemma ZScore(d: real, std: real, t: real)
    requires std > 0.0 && t > 0.0
    ensures Abs(d / std) > t <==> Square(d) > Mul(Square(t), Square(std))
  {
    var a := Abs(d / std);
    AbsQuotient(d, std);
    hide Mul;
    MulOrder(t, a, std);
    MulNonNegative(t, std);
    MulNonNegative(a, std);
    SquareOrder(Mul(t, std), Mul(a, std));
    SquareProduct(t, std);
    SquareNonNegative(d);
  }

  lemma AbsQuotient(d: real, std: real)
    requires std > 0.0
    ensures Mul(Abs(d / std), std) == Abs(d)
  {
    var q := d / std;
    DivTimes(d, std);
    hide Mul;
    MulUnits(std);
    MulOrder(q, 0.0, std);
    MulSubtracts(0.0, q, std);
  }

  // ---- No point lies further out than (n-1)/sqrt(n) deviations ----

  /** The total deviation from `m`. */
  function Deviation(xs: seq<real>, m: real): real {
    if xs == [] then 0.0 else (xs[0] - m) + Deviation(xs[1..], m)
  }

  lemma {:induction false} DeviationSum(xs: seq<real>, m: real)
    ensures Deviation(xs, m) == Sum(xs) - Mul(|xs| as real, m)
  {
    hide Mul;
    MulUnits(m);
    if xs != [] {
      DeviationSum(xs[1..], m);
      MulAdds(|xs[1..]| as real, 1.0, m);
    }
  }

  lemma DeviationFromMean(xs: seq<real>)
    requires xs != []
    ensures Deviation(xs, Mean(xs)) == 0.0
  {
    hide Mul;
    DeviationSum(xs, Mean(xs));
    DivTimes(Sum(xs), |xs| as real);
  }

  lemma VarianceTimes(xs: seq<real>)
    requires |xs| >= 2
    ensures Mul(|xs| as real - 1.0, Variance(xs)) == Squares(xs, Mean(xs))
  {
    DivTimes(Squares(xs, Mean(xs)), |xs| as real - 1.0);
  }

  /** One step of the Cauchy-Schwarz induction, for `k` earlier terms with sum `s` and squares `q`. */
  lemma CauchyStep(k: real, x: real, s: real, q: real)
    requires k > 0.0 && Square(s) <= Mul(k, q)
    ensures Square(x + s) <= Mul(k + 1.0, Square(x) + q)
  {
    hide Mul;
    var sx := Square(x);
    var gap := Mul(k, sx) + q - 2.0 * Mul(x, s);
    SquareDifference(Mul(k, x), s);
    SquareNonNegative(Mul(k, x) - s);
    SquareProduct(k, x);
    MulAssociates(k, k, sx);
    MulAssociates(k, x, s);
    MulSubtracts(Mul(k, sx) + q, 2.0 * Mul(x, s), k);
    MulAdds(Mul(k, sx), q, k);
    MulAdds(Mul(x, s), Mul(x, s), k);
    assert Mul(k, gap) >= 0.0;
    MulOrder(gap, 0.0, k);
    MulUnits(k);
    SquareSum(x, s);
    MulAdds(k, 1.0, sx + q);
    MulAdds(sx, q, k);
    MulUnits(sx + q);
  }

  /** The squared total deviation is at most `n` times the sum of squared deviations. */
  lemma {:induction false} Cauchy(xs: seq<real>, m: real)
    ensures Square(Deviation(xs, m)) <= Mul(|xs| as real, Squares(xs, m))
    ensures Squares(xs, m) >= 0.0
  {
    hide Mul;
    if |xs| <= 1 {
      assert xs != [] ==> xs[1..] == [];
      SquareNonNegative(Deviation(xs, m));
      MulUnits(Squares(xs, m));
      MulUnits(0.0);
    } else {
      hide Square;
      Cauchy(xs[1..], m);
      SquareNonNegative(xs[0] - m);
      CauchyStep(|xs[1..]| as real, xs[0] - m, Deviation(xs[1..], m), Squares(xs[1..], m));
      assert |xs| as real == |xs[1..]| as real + 1.0;
    }
  }

  lemma {:induction false} TakeOut(xs: seq<real>, i: nat, m: real)
    requires i < |xs|
    ensures var rest := xs[..i] + xs[i + 1..];
      Deviation(rest, m) == Deviation(xs, m) - (xs[i] - m) && Squares(rest, m) == Squares(xs, m) - Square(xs[i] - m)
  {
    hide Mul, Square;
    var rest := xs[..i] + xs[i + 1..];
    if i == 0 {
      assert rest == xs[1..];
    } else {
      TakeOut(xs[1..], i - 1, m);
      assert rest[1..] == xs[1..][..i - 1] + xs[1..][i..];
    }
  }

  /** For every sample and every point: `n (x - mean)^2 <= (n - 1)^2 s^2`. */
  lemma PointBound(xs: seq<real>, i: nat)
    requires |xs| >= 2 && i < |xs|
    ensures var n := |xs| as real;
      Mul(n, Square(xs[i] - Mean(xs))) <= Mul(Square(n - 1.0), Variance(xs))
  {
    hide Mul, Mean, Variance, Squares, Deviation, Sum;
    var n, m, rest := |xs| as real, Mean(xs), xs[..i] + xs[i + 1..];
    var d := xs[i] - m;
    DeviationFromMean(xs);
    TakeOut(xs, i, m);
    Cauchy(rest, m);
    SquareNonNegative(d);
    assert |rest| as real == n - 1.0;
    VarianceTimes(xs);
    MulSubtracts(Squares(xs, m), Square(d), n - 1.0);
    MulSubtracts(n, 1.0, Square(d));
    MulUnits(Square(d));
    MulAssociates(n - 1.0, n - 1.0, Variance(xs));
  }

  lemma VarianceNonNegative(xs: seq<real>)
    requires |xs| >= 2
    ensures Variance(xs) >= 0.0
  {
    hide Mul, Variance, Mean;
    Cauchy(xs, Mean(xs));
    VarianceTimes(xs);
    MulOrder(Variance(xs), 0.0, |xs| as real - 1.0);
    MulUnits(|xs| as real - 1.0);
  }

  /** An outlying point at `t` deviations needs `n t^2 < (n - 1)^2`. */
  lemma OutlyingNeedsPoints(xs: seq<real>, i: nat, t: real)
    requires |xs| >= 2 && i < |xs| && Outlying(xs, i, t)
    ensures var n := |xs| as real; Mul(n, Square(t)) < Square(n - 1.0)
  {
    hide Mul, Variance, Mean, Square;
    var n, v, d2, t2 := |xs| as real, Variance(xs), Square(xs[i] - Mean(xs)), Square(t);
    PointBound(xs, i);
    VarianceNonNegative(xs);
    MulOrder(Mul(t2, v), d2, n);
    MulAssociates(n, t2, v);
    if Mul(n, t2) >= Square(n - 1.0) { MulMonotone(Square(n - 1.0), Mul(n, t2), v); }
  }

  // ---- The bound is attained ----

  function Zeros(k: nat): (r: seq<real>)
    ensures |r| == k
  {
    if k == 0 then [] else [0.0] + Zeros(k - 1)
  }

  /** All zeros but the last point. */
  function OneSpike(n: nat): (r: seq<real>)
    requires n >= 1
    ensures |r| == n && r[n - 1] == 1.0
  {
    Zeros(n - 1) + [1.0]
  }

  lemma {:induction false} OneSpikeSums(n: nat, m: real)
    requires n >= 1
    ensures Sum(OneSpike(n)) == 1.0
    ensures Squares(OneSpike(n), m) == Mul(n as real - 1.0, Square(m)) + Square(1.0 - m)
    decreases n
  {
    hide Mul, Square;
    SquareNonNegative(m);
    MulUnits(Square(m));
    if n > 1 {
      OneSpikeSums(n - 1, m);
      assert OneSpike(n)[1..] == OneSpike(n - 1);
      MulAdds(n as real - 2.0, 1.0, Square(m));
    } else {
      assert OneSpike(1) == [1.0] && [1.0][1..] == [];
    }
  }

  /** The mean of one spike is its variance, and the spike is `(n - 1)` means away from it. */
  lemma OneSpikeStatistics(n: nat)
    requires n >= 2
    ensures var xs, r := OneSpike(n), n as real;
      && Variance(xs) == Mean(xs) > 0.0
      && 1.0 - Mean(xs) == Mul(r - 1.0, Mean(xs)) && Mul(r, Mean(xs)) == 1.0
  {
    hide Mul, Square;
    var xs, r := OneSpike(n), n as real;
    var m, v := Mean(xs), Variance(xs);
    OneSpikeSums(n, m);
    DivTimes(Sum(xs), r);
    VarianceTimes(xs);
    var d := 1.0 - m;
    MulSubtracts(r, 1.0, m);
    MulUnits(m);
    assert Mul(r - 1.0, Square(m)) == Mul(d, m) by {
      hide *;
      MulAssociates(r - 1.0, m, m);
      assert Square(m) == Mul(m, m) by { SquareIsMul(m); }
    }
    SquareIsMul(d);
    MulAdds(m, d, d);
    MulUnits(d);
    MulCommutes(d, m);
    assert Mul(r - 1.0, v) == Mul(r - 1.0, m);
    MulOrder(v, m, r - 1.0);
    MulOrder(m, v, r - 1.0);
    MulOrder(0.0, m, r);
    MulUnits(r);
  }

  lemma SquareIsMul(x: real)
    ensures Square(x) == Mul(x, x)
  {
  }

  lemma OneSpikeAttains(n: nat)
    requires n >= 2
    ensures var xs, r := OneSpike(n), n as real;
      Variance(xs) > 0.0 && Mul(r, Square(xs[n - 1] - Mean(xs))) == Mul(Square(r - 1.0), Variance(xs))
  {
    hide Mul, Square, Mean, Variance;
    var xs, r := OneSpike(n), n as real;
    var m := Mean(xs);
    OneSpikeStatistics(n);
    SquareProduct(r - 1.0, m);
    SquareIsMul(m);
    MulCommutes(r, Mul(Square(r - 1.0), Square(m)));
    MulAssociates(Square(r - 1.0), Square(m), r);
    MulAssociates(m, m, r);
    MulCommutes(m, r);
    MulUnits(m);
  }

  lemma OneSpikeOutlies(n: nat, t: real)
    requires n >= 2 && Mul(n as real, Square(t)) < Square(n as real - 1.0)
    ensures Outlying(OneSpike(n), n - 1, t)
  {
    hide Mul, Square, Mean, Variance;
    var xs, r, t2 := OneSpike(n), n as real, Square(t);
    OneSpikeAttains(n);
    var v, d2 := Variance(xs), Square(xs[n - 1] - Mean(xs));
    MulOrder(Mul(r, t2), Square(r - 1.0), v);
    MulAssociates(r, t2, v);
    MulOrder(Mul(t2, v), d2, r);
  }

  /** A sample of `n` points can have one at more than `t` deviations exactly when `n t^2 < (n - 1)^2`. */
  lemma OutlyingPossible(n: nat, t: real)
    requires n >= 2
    ensures (exists xs: seq<real>, i: nat :: |xs| == n && i < n && Outlying(xs, i, t))
      <==> Mul(n as real, Square(t)) < Square(n as real - 1.0)
  {
    hide Mul, Square, Outlying;
    forall xs: seq<real>, i: nat | |xs| == n && i < n && Outlying(xs, i, t)
      ensures Mul(n as real, Square(t)) < Square(n as real - 1.0)
    {
      OutlyingNeedsPoints(xs, i, t);
    }
    if Mul(n as real, Square(t)) < Square(n as real - 1.0) {
      OneSpikeOutlies(n, t);
      assert |OneSpike(n)| == n && Outlying(OneSpike(n), n - 1, t);
    }
  }

  // ---- What that means for the detector ----

  lemma Threshold(n: nat, t: nat)
    requires n >= 2 && t >= 2
    ensures Mul(n as real, Square(t as real)) < Square(n as real - 1.0) <==> n >= t * t + 2
  {
    var k: int, g: int := n, n - t * t - 2;
    assert Mul(n as real, Square(t as real)) == (k * (t * t)) as real;
    assert Square(n as real - 1.0) == ((k - 1) * (k - 1)) as real;
    assert t * t == k - 2 - g;
    assert k * (k - 2 - g) == k * k - 2 * k - k * g;
    assert (k - 1) * (k - 1) == k * k - 2 * k + 1;
    if g >= 0 {
      ProductSign(k, g);
    } else {
      ProductSign(k, -g - 1);
      assert k * (-g - 1) == -(k * g) - k;
    }
  }

  lemma ProductSign(a: int, b: int)
    requires a >= 0 && b >= 0
    ensures a * b >= 0
  {
  }

  /** Reports come from outlying points. */
  lemma {:induction false} ReportedPoint(xs: seq<real>, lo: nat, hi: nat, a: Anomaly) returns (i: nat)
    requires |xs| >= 2 && lo <= hi <= |xs| && a in Reports(xs, lo, hi)
    ensures lo <= i < hi && Outlying(xs, i, 3.0) && a == Report(xs, i)
    decreases hi
  {
    hide Outlying, Mean;
    if a in Reports(xs, lo, hi - 1) {
      i := ReportedPoint(xs, lo, hi - 1, a);
    } else {
      i := hi - 1;
    }
  }

  lemma OutlyingCount(xs: seq<real>, i: nat, t: nat)
    requires |xs| >= 2 && i < |xs| && t >= 2 && Outlying(xs, i, t as real)
    ensures |xs| >= t * t + 2
  {
    hide Mul, Square, Outlying;
    OutlyingNeedsPoints(xs, i, t as real);
    Threshold(|xs|, t);
  }

  /** Ten points never report anything; `High` takes 18 points and `Critical` 27. */
  lemma SeverityNeedsPoints(xs: seq<real>, lo: nat, hi: nat)
    requires |xs| >= 2 && lo <= hi <= |xs|
    ensures |xs| <= MIN_POINTS ==> Reports(xs, lo, hi) == []
    ensures forall a :: a in Reports(xs, lo, hi) ==>
      && (a.severity.High? ==> |xs| >= 18)
      && (a.severity.Critical? ==> |xs| >= 27)
  {
    hide Mean, Outlying;
    if Reports(xs, lo, hi) != [] {
      var i := ReportedPoint(xs, lo, hi, Reports(xs, lo, hi)[0]);
      OutlyingCount(xs, i, 3);
    }
    forall a | a in Reports(xs, lo, hi)
      ensures a.severity.High? ==> |xs| >= 18
      ensures a.severity.Critical? ==> |xs| >= 27
    {
      var i := ReportedPoint(xs, lo, hi, a);
      if Outlying(xs, i, 4.0) { OutlyingCount(xs, i, 4); }
      if Outlying(xs, i, 5.0) { OutlyingCount(xs, i, 5); }
    }
  }

  lemma SpikeOutliesIff(n: nat, t: nat)
    requires n >= 2 && t >= 2
    ensures Outlying(OneSpike(n), n - 1, t as real) <==> n >= t * t + 2
  {
    hide Mul, Square, Outlying;
    Threshold(n, t);
    if n >= t * t + 2 { OneSpikeOutlies(n, t as real); }
    if Outlying(OneSpike(n), n - 1, t as real) { OutlyingCount(OneSpike(n), n - 1, t); }
  }

  /** Those counts are sharp: one spike among `n` points is reported from 11, 18 and 27 points on. */
  lemma SeveritySharp(n: nat)
    requires n >= MIN_POINTS
    ensures var xs := OneSpike(n); var rs := Reports(xs, RecentFrom(xs), n);
      && (Report(xs, n - 1) in rs <==> n >= 11)
      && (Report(xs, n - 1).severity == if n >= 27 then Critical else if n >= 18 then High else Medium)
  {
    hide Mean, Outlying;
    var xs := OneSpike(n);
    SpikeOutliesIff(n, 3);
    SpikeOutliesIff(n, 4);
    SpikeOutliesIff(n, 5);
    SeverityNeedsPoints(xs, RecentFrom(xs), n);
  }

  // ---- How many points can be reported at once ----

  lemma NineVariances(xs: seq<real>, i: nat)
    requires |xs| >= 2 && i < |xs|
    ensures Outlying(xs, i, 3.0) <==> Square(xs[i] - Mean(xs)) > 9.0 * Variance(xs)
  {
  }

  /** Each reported point takes more than nine variances out of the sum of squares. */
  lemma {:induction false} ReportsTakeSquares(xs: seq<real>, lo: nat, hi: nat)
    requires |xs| >= 2 && lo <= hi <= |xs|
    ensures var k, taken := |Reports(xs, lo, hi)| as real, Squares(xs[lo..hi], Mean(xs));
      Mul(k, 9.0 * Variance(xs)) <= taken && (k > 0.0 ==> Mul(k, 9.0 * Variance(xs)) < taken)
    decreases hi
  {
    hide Mul, Variance, Mean, Square, Outlying;
    var c := 9.0 * Variance(xs);
    MulUnits(c);
    if lo < hi {
      ReportsTakeSquares(xs, lo, hi - 1);
      assert xs[lo..hi] == xs[lo..hi - 1] + [xs[hi - 1]];
      SquaresConcat(xs[lo..hi - 1], [xs[hi - 1]], Mean(xs));
      assert [xs[hi - 1]][1..] == [];
      SquareNonNegative(xs[hi - 1] - Mean(xs));
      MulAdds(|Reports(xs, lo, hi - 1)| as real, 1.0, c);
      NineVariances(xs, hi - 1);
    }
  }

  lemma {:induction false} SquaresConcat(xs: seq<real>, ys: seq<real>, m: real)
    ensures Squares(xs + ys, m) == Squares(xs, m) + Squares(ys, m)
  {
    hide Square;
    if xs == [] {
      assert xs + ys == ys;
    } else {
      SquaresConcat(xs[1..], ys, m);
      assert (xs + ys)[1..] == xs[1..] + ys;
    }
  }

  /** Reporting `k` points at once needs more than `9k + 1` of them. */
  lemma ManyReportsNeedPoints(xs: seq<real>)
    requires |xs| >= 2
    ensures var k := |Reports(xs, RecentFrom(xs), |xs|)|; k > 0 ==> |xs| > 9 * k + 1
  {
    hide Mul, Variance, Mean, Square, Outlying, Squares;
    var lo, m, v := RecentFrom(xs), Mean(xs), Variance(xs);
    var k := |Reports(xs, lo, |xs|)|;
    if k > 0 {
      ReportsTakeSquares(xs, lo, |xs|);
      assert xs == xs[..lo] + xs[lo..] && xs[lo..|xs|] == xs[lo..];
      SquaresConcat(xs[..lo], xs[lo..], m);
      Cauchy(xs[..lo], m);
      VarianceNonNegative(xs);
      VarianceTimes(xs);
      CountArithmetic(k as real, |xs| as real - 1.0, v);
    }
  }

  lemma CountArithmetic(k: real, n1: real, v: real)
    requires v >= 0.0 && Mul(k, 9.0 * v) < Mul(n1, v)
    ensures 9.0 * k < n1
  {
    assert Mul(k, 9.0 * v) == Mul(9.0 * k, v);
    hide Mul;
    if n1 <= 9.0 * k { MulMonotone(n1, 9.0 * k, v); }
  }

  /** `k` points at 1 and -1 in turn, the last at 1. */
  function Swings(k: nat): (r: seq<real>)
    ensures |r| == k && forall i :: 0 <= i < k ==> r[i] == 1.0 || r[i] == -1.0
  {
    if k == 0 then [] else [if k % 2 == 1 then 1.0 else -1.0] + Swings(k - 1)
  }

  /** What the swings of `k` points do not balance themselves. */
  function Excess(k: nat): real {
    if k % 2 == 1 then 1.0 else 0.0
  }

  /** The swings after equal points that balance them. */
  function Swinging(n: nat, k: nat): (xs: seq<real>)
    requires k < n
    ensures |xs| == n && forall i :: n - k <= i < n ==> xs[i] == 1.0 || xs[i] == -1.0
  {
    Copies(-Excess(k) / (n - k) as real, n - k) + Swings(k)
  }

  lemma {:induction false} SwingSums(k: nat)
    ensures Sum(Swings(k)) == Excess(k) && Squares(Swings(k), 0.0) == k as real
  {
    hide Square;
    if k > 0 {
      SwingSums(k - 1);
      assert Swings(k)[1..] == Swings(k - 1);
      SquareOfOne(Swings(k)[0]);
    }
  }

  lemma {:induction false} CopiesSums(c: real, n: nat, m: real)
    ensures Sum(Copies(c, n)) == Mul(n as real, c)
    ensures Squares(Copies(c, n), m) == Mul(n as real, Square(c - m))
  {
    hide Mul, Square;
    MulUnits(c);
    MulUnits(Square(c - m));
    if n > 0 {
      CopiesSums(c, n - 1, m);
      assert Copies(c, n)[1..] == Copies(c, n - 1);
      MulAdds((n - 1) as real, 1.0, c);
      MulAdds((n - 1) as real, 1.0, Square(c - m));
    }
  }

  lemma {:induction false} SumConcat(xs: seq<real>, ys: seq<real>)
    ensures Sum(xs + ys) == Sum(xs) + Sum(ys)
  {
    if xs == [] {
      assert xs + ys == ys;
    } else {
      SumConcat(xs[1..], ys);
      assert (xs + ys)[1..] == xs[1..] + ys;
    }
  }

  /** Their mean is 0, and the equal points add less than a ninth to the squares. */
  lemma SwingingStatistics(n: nat, k: nat)
    requires 1 <= k && n > 9 * k + 1
    ensures Mean(Swinging(n, k)) == 0.0
    ensures 9.0 * Squares(Swinging(n, k), 0.0) < 9.0 * k as real + 1.0
  {
    hide Mul, Square, Swings;
    var e, r := Excess(k), (n - k) as real;
    var c := -e / r;
    SwingSums(k);
    CopiesSums(c, n - k, 0.0);
    SumConcat(Copies(c, n - k), Swings(k));
    SquaresConcat(Copies(c, n - k), Swings(k), 0.0);
    DivTimes(-e, r);
    assert Sum(Swinging(n, k)) == 0.0;
    SquareIsMul(c);
    MulAssociates(r, c, c);
    MulUnits(c);
    assert Mul(r, Square(c)) == Mul(-e, c);
    if k % 2 == 1 {
      assert r >= 10.0;
      SmallShare(r, c);
    }
  }

  lemma SmallShare(r: real, c: real)
    requires r >= 10.0 && c == -1.0 / r
    ensures 9.0 * Mul(-1.0, c) < 1.0
  {
    var u := 1.0 / r;
    assert Mul(-1.0, c) == u;
    NineTimes(u, r);
    DivTimes(1.0, r);
    hide Mul;
    MulUnits(r);
    MulOrder(9.0 * u, 1.0, r);
  }

  lemma NineTimes(x: real, y: real)
    ensures Mul(9.0 * x, y) == 9.0 * Mul(x, y)
  {
  }

  lemma SwingsOutlie(n: nat, k: nat, i: nat)
    requires 1 <= k && n > 9 * k + 1 && n - k <= i < n
    ensures Outlying(Swinging(n, k), i, 3.0)
  {
    hide Mul, Square, Mean, Variance, Squares, Outlying, Swinging;
    var xs := Swinging(n, k);
    SwingingStatistics(n, k);
    VarianceTimes(xs);
    NineVariances(xs, i);
    assert Square(xs[i] - 0.0) == 1.0 by { SquareOfOne(xs[i]); }
    var v, n1 := Variance(xs), n as real - 1.0;
    if 9.0 * v >= 1.0 {
      MulMonotone(1.0 / 9.0, v, n1);
      assert Mul(n1, 1.0 / 9.0) == n1 / 9.0 by { NinthOf(n1); }
      assert false;
    }
  }

  lemma SquareOfOne(x: real)
    requires x == 1.0 || x == -1.0
    ensures Square(x - 0.0) == 1.0
  {
  }

  lemma NinthOf(x: real)
    ensures Mul(x, 1.0 / 9.0) == x / 9.0
  {
  }

  lemma {:induction false} ReportsAtLeast(xs: seq<real>, lo: nat, mid: nat, hi: nat)
    requires |xs| >= 2 && lo <= mid <= hi <= |xs| && forall i :: mid <= i < hi ==> Outlying(xs, i, 3.0)
    ensures |Reports(xs, lo, hi)| >= hi - mid
    decreases hi
  {
    hide Outlying, Mean;
    if mid < hi { ReportsAtLeast(xs, lo, mid, hi - 1); }
  }

  lemma {:induction false} ReportsAtMost(xs: seq<real>, lo: nat, hi: nat)
    requires |xs| >= 2 && lo <= hi <= |xs|
    ensures |Reports(xs, lo, hi)| <= hi - lo
    decreases hi
  {
    hide Outlying, Mean;
    if lo < hi { ReportsAtMost(xs, lo, hi - 1); }
  }

  /**
   Some sample of `n` points gets `k` reports at once exactly when there are more than `9k
   + 1` points, and five reports at most.
   */
  lemma ManyReportsPossible(n: nat, k: nat)
    requires n >= MIN_POINTS
    ensures (exists xs: seq<real> :: |xs| == n && |Reports(xs, RecentFrom(xs), n)| >= k)
      <==> k == 0 || (k <= RECENT && n > 9 * k + 1)
  {
    hide Outlying, Reports;
    forall xs: seq<real> | |xs| == n && |Reports(xs, RecentFrom(xs), n)| >= k
      ensures k == 0 || (k <= RECENT && n > 9 * k + 1)
    {
      ManyReportsNeedPoints(xs);
      ReportsAtMost(xs, RecentFrom(xs), n);
    }
    if k == 0 {
      assert |Copies(0.0, n)| == n && |Reports(Copies(0.0, n), RecentFrom(Copies(0.0, n)), n)| >= k;
    } else if k <= RECENT && n > 9 * k + 1 {
      var xs := Swinging(n, k);
      forall i | n - k <= i < n
        ensures Outlying(xs, i, 3.0)
      {
        SwingsOutlie(n, k, i);
      }
      ReportsAtLeast(xs, RecentFrom(xs), n - k, n);
    }
  }

  /** What a report says: up or down from the mean, how far in three steps, and both values. */
  lemma ReportMeans(xs: seq<real>, i: nat)
    requires |xs| >= 2 && i < |xs|
    ensures var a, d2, v := Report(xs, i), Square(xs[i] - Mean(xs)), Variance(xs);
      && (a.kind == Spike <==> xs[i] > Mean(xs)) && (a.kind == Drop <==> xs[i] <= Mean(xs))
      && (a.severity == Critical <==> d2 > 25.0 * v)
      && (a.severity == High <==> 16.0 * v < d2 <= 25.0 * v)
      && (a.severity == Medium <==> d2 <= 16.0 * v)
      && a.value == xs[i] && a.expected == Mean(xs)
  {
    VarianceNonNegative(xs);
    SquareTimes(4.0, Variance(xs));
    SquareTimes(5.0, Variance(xs));
    hide Mul, Square, Mean, Variance;
  }

  lemma SquareTimes(t: real, v: real)
    ensures Mul(Square(4.0), v) == 16.0 * v && Mul(Square(5.0), v) == 25.0 * v && Mul(Square(3.0), v) == 9.0 * v
  {
  }

  /**
   The mean times the number of points is their sum; the variance times one less is their
   squared distance from it.
   */
  lemma StatisticsExact(xs: seq<real>)
    requires |xs| >= 2
    ensures Mul(Mean(xs), |xs| as real) == Sum(xs)
    ensures Mul(|xs| as real - 1.0, Variance(xs)) == Squares(xs, Mean(xs))
  {
    DivTimes(Sum(xs), |xs| as real);
    VarianceTimes(xs);
  }

  /** Exactly the points among the last five that lie beyond three deviations are reported. */
  lemma ReportedExactly(xs: seq<real>, a: Anomaly)
    requires |xs| >= MIN_POINTS
    ensures a in Reports(xs, RecentFrom(xs), |xs|) <==>
      exists i: nat :: |xs| - 5 <= i < |xs| && IsReportOf(xs, i, a)
  {
    hide Outlying, Reports, Report, IsReportOf;
    if a in Reports(xs, RecentFrom(xs), |xs|) {
      var i := ReportedPoint(xs, RecentFrom(xs), |xs|, a);
      IsReport(xs, i, a);
    }
    forall i: nat | |xs| - 5 <= i < |xs| && IsReportOf(xs, i, a)
      ensures a in Reports(xs, RecentFrom(xs), |xs|)
    {
      IsReport(xs, i, a);
      OutlyingReported(xs, RecentFrom(xs), |xs|, i);
    }
  }

  /** The point lies beyond three deviations, and this is its report. */
  ghost predicate IsReportOf(xs: seq<real>, i: nat, a: Anomaly)
    requires |xs| >= 2 && i < |xs|
  {
    Square(xs[i] - Mean(xs)) > 9.0 * Variance(xs) && a == Report(xs, i)
  }

  lemma IsReport(xs: seq<real>, i: nat, a: Anomaly)
    requires |xs| >= 2 && i < |xs|
    ensures IsReportOf(xs, i, a) <==> Outlying(xs, i, 3.0) && a == Report(xs, i)
  {
    hide Outlying, Report, Mean, Variance;
    NineVariances(xs, i);
  }

  lemma {:induction false} OutlyingReported(xs: seq<real>, lo: nat, hi: nat, i: nat)
    requires |xs| >= 2 && lo <= i < hi <= |xs| && Outlying(xs, i, 3.0)
    ensures Report(xs, i) in Reports(xs, lo, hi)
    decreases hi
  {
    hide Outlying, Report;
    if i < hi - 1 { OutlyingReported(xs, lo, hi - 1, i); }
  }
}
