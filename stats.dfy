/** Population statistics over a window of samples: the aggregates the
    detector takes from numpy (mean, std, min, max, median).

    numpy's std is the square root of the population variance (divisor n).
    Square roots are not modelled: every std comparison of the source is
    stated on the variance, and `IsStd` relates a real square root to it. */
module Stats {

  function Sum(s: seq<real>): real
  {
    if |s| == 0 then 0.0 else s[0] + Sum(s[1..])
  }

  /** np.mean of a non-empty window. */
  function Mean(s: seq<real>): real
    requires |s| > 0
  {
    Sum(s) / (|s| as real)
  }

  /** Sum of the squared deviations of the samples from m. */
  function SquaredDeviations(s: seq<real>, m: real): (r: real)
    ensures r >= 0.0
  {
    if |s| == 0 then 0.0
    else
      Square(s[0] - m) + SquaredDeviations(s[1..], m)
  }

  function Square(x: real): (r: real)
    ensures r >= 0.0
  {
    x * x
  }

  /** Population variance: the square of np.std. */
  function Variance(s: seq<real>): (r: real)
    requires |s| > 0
    ensures r >= 0.0
  {
    SquaredDeviations(s, Mean(s)) / (|s| as real)
  }

  /** `sd` is the (non-negative) standard deviation belonging to variance `v`. */
  ghost predicate IsStd(sd: real, v: real)
  {
    sd >= 0.0 && sd * sd == v
  }

  /** np.min. */
  function Min(s: seq<real>): (r: real)
    requires |s| > 0
    ensures r in s
    ensures forall x | x in s :: r <= x
  {
    if |s| == 1 then s[0]
    else
      var m := Min(s[1..]);
      assert forall x | x in s :: x == s[0] || x in s[1..];
      if s[0] <= m then s[0] else m
  }

  /** np.max. */
  function Max(s: seq<real>): (r: real)
    requires |s| > 0
    ensures r in s
    ensures forall x | x in s :: x <= r
  {
    if |s| == 1 then s[0]
    else
      var m := Max(s[1..]);
      assert forall x | x in s :: x == s[0] || x in s[1..];
      if s[0] >= m then s[0] else m
  }

  predicate SortedAsc(s: seq<real>)
  {
    forall i, j | 0 <= i < j < |s| :: s[i] <= s[j]
  }

  function Insert(x: real, s: seq<real>): (r: seq<real>)
    requires SortedAsc(s)
    ensures |r| == |s| + 1
    ensures SortedAsc(r)
    ensures multiset(r) == multiset(s) + multiset{x}
  {
    if |s| == 0 then [x]
    else if x <= s[0] then [x] + s
    else
      var rest := Insert(x, s[1..]);
      assert s == [s[0]] + s[1..];
      LowerBoundKept(s[0], x, s[1..], rest);
      ConsSorted(s[0], rest);
      [s[0]] + rest
  }

  lemma {:induction false} ConsSorted(lo: real, r: seq<real>)
    requires SortedAsc(r)
    requires forall k | 0 <= k < |r| :: lo <= r[k]
    ensures SortedAsc([lo] + r)
  {
    forall i, j | 0 <= i < j < |r| + 1 ensures ([lo] + r)[i] <= ([lo] + r)[j] {
      if i > 0 {
        assert ([lo] + r)[i] == r[i - 1];
      }
      assert ([lo] + r)[j] == r[j - 1];
    }
  }

  lemma {:induction false} LowerBoundKept(lo: real, x: real, s: seq<real>, r: seq<real>)
    requires lo <= x
    requires forall k | 0 <= k < |s| :: lo <= s[k]
    requires multiset(r) == multiset(s) + multiset{x}
    ensures forall k | 0 <= k < |r| :: lo <= r[k]
  {
    forall k | 0 <= k < |r| ensures lo <= r[k] {
      assert r[k] in multiset(r);
      assert r[k] == x || r[k] in s;
    }
  }

  /** The sorted copy of the window that np.median works on. */
  function Sort(s: seq<real>): (r: seq<real>)
    ensures |r| == |s|
    ensures SortedAsc(r)
    ensures multiset(r) == multiset(s)
  {
    if |s| == 0 then []
    else
      assert s == [s[0]] + s[1..];
      Insert(s[0], Sort(s[1..]))
  }

  lemma {:induction false} SortedElementInRange(s: seq<real>, k: nat)
    requires |s| > 0 && k < |s|
    ensures |Sort(s)| == |s|
    ensures Min(s) <= Sort(s)[k] <= Max(s)
  {
    var t := Sort(s);
    assert t[k] in multiset(t);
    assert t[k] in s;
  }

  /** np.median: the middle sample of the sorted window, or the average of
      the two middle samples when the count is even. */
  function Median(s: seq<real>): real
    requires |s| > 0
  {
    Middle(Sort(s))
  }

  function Middle(t: seq<real>): real
    requires |t| > 0
  {
    var n := |t|;
    if n % 2 == 1 then t[n / 2] else (t[n / 2 - 1] + t[n / 2]) / 2.0
  }

  /** The median lies between the smallest and the largest sample. */
  lemma {:induction false} MedianInRange(s: seq<real>)
    requires |s| > 0
    ensures Min(s) <= Median(s) <= Max(s)
  {
    var t := Sort(s);
    forall k | 0 <= k < |t| ensures Min(s) <= t[k] <= Max(s) {
      SortedElementInRange(s, k);
    }
    MiddleInRange(t, Min(s), Max(s));
  }

  lemma {:induction false} MiddleInRange(t: seq<real>, lo: real, hi: real)
    requires |t| > 0
    requires forall k | 0 <= k < |t| :: lo <= t[k] <= hi
    ensures lo <= Middle(t) <= hi
  {
    var n := |t|;
    assert lo <= t[n / 2] <= hi;
    if n % 2 == 0 {
      assert lo <= t[n / 2 - 1] <= hi;
    }
  }

  lemma {:induction false} SumConcat(a: seq<real>, b: seq<real>)
    ensures Sum(a + b) == Sum(a) + Sum(b)
  {
    if |a| == 0 {
      assert a + b == b;
    } else {
      assert (a + b)[1..] == a[1..] + b;
      SumConcat(a[1..], b);
    }
  }

  lemma {:induction false} SquaredDeviationsConcat(a: seq<real>, b: seq<real>, m: real)
    ensures SquaredDeviations(a + b, m) == SquaredDeviations(a, m) + SquaredDeviations(b, m)
  {
    if |a| == 0 {
      assert a + b == b;
    } else {
      assert (a + b)[1..] == a[1..] + b;
      SquaredDeviationsConcat(a[1..], b, m);
    }
  }

  lemma {:induction false} SumBounds(s: seq<real>, lo: real, hi: real)
    requires forall x | x in s :: lo <= x <= hi
    ensures (|s| as real) * lo <= Sum(s) <= (|s| as real) * hi
  {
    if |s| > 0 {
      assert forall x | x in s[1..] :: x in s;
      assert s[0] in s;
      SumBounds(s[1..], lo, hi);
      BoundStep(|s| as real, |s[1..]| as real, lo, hi, s[0], Sum(s[1..]));
    }
  }

  /** The mean lies between the smallest and the largest sample. */
  lemma {:induction false} MeanInRange(s: seq<real>)
    requires |s| > 0
    ensures Min(s) <= Mean(s) <= Max(s)
  {
    MeanBounds(s, Min(s), Max(s));
  }

  lemma {:induction false} MeanBounds(s: seq<real>, lo: real, hi: real)
    requires |s| > 0
    requires forall x | x in s :: lo <= x <= hi
    ensures lo <= Mean(s) <= hi
  {
    SumBounds(s, lo, hi);
    DivideBounds(Sum(s), |s| as real, lo, hi);
  }

  lemma BoundStep(n: real, k: real, lo: real, hi: real, x: real, rest: real)
    requires n == k + 1.0
    requires lo <= x <= hi && k * lo <= rest <= k * hi
    ensures n * lo <= x + rest <= n * hi
  {
  }

  lemma MulStrict(k: real, x: real, y: real)
    requires k > 0.0 && x < y
    ensures k * x < k * y
  {
  }

  /** Products of non-negative reals are monotone in both factors. (Stated
      on four distinct factors: instantiated with a == b and c == d it
      compares squares, which the solver does not do on its own.) */
  lemma ProductLe(a: real, b: real, c: real, d: real)
    requires 0.0 <= a <= c && 0.0 <= b <= d
    ensures a * b <= c * d
  {
    assert a * b <= c * b;
    assert c * b <= c * d;
  }

  lemma ProductLess(a: real, b: real, c: real, d: real)
    requires 0.0 <= a < c && 0.0 <= b < d
    ensures a * b < c * d
  {
    assert a * b <= c * b;
    assert c * b < c * d;
  }

  /** Dividing both sides of k * x <= k * y by a positive k. */
  lemma MulCancel(k: real, x: real, y: real)
    requires k > 0.0 && k * x <= k * y
    ensures x <= y
  {
    if y < x {
      MulStrict(k, y, x);
    }
  }

  lemma DivideBounds(x: real, n: real, lo: real, hi: real)
    requires n > 0.0
    requires n * lo <= x <= n * hi
    ensures lo <= x / n <= hi
  {
    assert x == n * (x / n);
    MulCancel(n, lo, x / n);
    MulCancel(n, x / n, hi);
  }

  predicate Constant(s: seq<real>)
  {
    forall i, j | 0 <= i < |s| && 0 <= j < |s| :: s[i] == s[j]
  }

  lemma {:induction false} SquaredDeviationsOfConstant(s: seq<real>, c: real)
    requires forall i | 0 <= i < |s| :: s[i] == c
    ensures SquaredDeviations(s, c) == 0.0
  {
    if |s| > 0 {
      assert forall i | 0 <= i < |s[1..]| :: s[1..][i] == c by {
        forall i | 0 <= i < |s[1..]| ensures s[1..][i] == c {
          assert s[1..][i] == s[i + 1];
        }
      }
      SquaredDeviationsOfConstant(s[1..], c);
      assert s[0] - c == 0.0;
    }
  }

  lemma {:induction false} SumOfConstant(s: seq<real>, c: real)
    requires forall i | 0 <= i < |s| :: s[i] == c
    ensures Sum(s) == (|s| as real) * c
  {
    if |s| > 0 {
      assert forall i | 0 <= i < |s[1..]| :: s[1..][i] == c by {
        forall i | 0 <= i < |s[1..]| ensures s[1..][i] == c {
          assert s[1..][i] == s[i + 1];
        }
      }
      SumOfConstant(s[1..], c);
      assert (|s| as real) * c == c + (|s[1..]| as real) * c;
    }
  }

  /** A window whose samples are all equal has zero population std. */
  lemma {:induction false} ConstantHasZeroVariance(s: seq<real>)
    requires |s| > 0 && Constant(s)
    ensures Mean(s) == s[0] && Variance(s) == 0.0
  {
    var n := |s| as real;
    assert forall i | 0 <= i < |s| :: s[i] == s[0];
    SumOfConstant(s, s[0]);
    assert Sum(s) / n == s[0];
    SquaredDeviationsOfConstant(s, s[0]);
  }

  /** Sum of the deviations of the samples from m. */
  function Deviations(s: seq<real>, m: real): real
  {
    if |s| == 0 then 0.0 else (s[0] - m) + Deviations(s[1..], m)
  }

  lemma {:induction false} DeviationsIsSumMinusCount(s: seq<real>, m: real)
    ensures Deviations(s, m) == Sum(s) - (|s| as real) * m
  {
    if |s| > 0 {
      DeviationsIsSumMinusCount(s[1..], m);
      BoundStep(|s| as real, |s[1..]| as real, m, m, m, (|s[1..]| as real) * m);
    }
  }

  /** Cauchy-Schwarz for deviations from m: (sum of (x - m))^2 <= n * sum of (x - m)^2. */
  lemma {:induction false} DeviationSumSquared(t: seq<real>, m: real)
    ensures Square(Deviations(t, m)) <= (|t| as real) * SquaredDeviations(t, m)
  {
    if |t| > 0 {
      var u := t[1..];
      DeviationSumSquared(u, m);
      DeviationStep(|t| as real, |u| as real, t[0] - m, Deviations(u, m), Deviations(t, m),
                    SquaredDeviations(u, m), SquaredDeviations(t, m));
    }
  }

  /** The inductive step of DeviationSumSquared, on plain reals. */
  lemma DeviationStep(n: real, k: real, a: real, S: real, total: real, Q: real, Qt: real)
    requires n == k + 1.0 && k >= 0.0 && Q >= 0.0
    requires total == a + S && Qt == Square(a) + Q
    requires Square(S) <= k * Q
    requires k == 0.0 ==> S == 0.0
    ensures Square(total) <= n * Qt
  {
    CrossTermBound(S, Q, a, k);
    assert Square(S + a) == Square(S) + 2.0 * S * a + a * a;
    assert n * (Square(a) + Q) == k * Q + (Q + k * a * a) + a * a;
  }

  lemma CrossTermBound(S: real, Q: real, a: real, k: real)
    requires k >= 0.0 && Q >= 0.0 && Square(S) <= k * Q
    requires k == 0.0 ==> S == 0.0
    ensures 2.0 * S * a <= Q + k * a * a
  {
    if k != 0.0 {
      var e := S - k * a;
      assert Square(e) == Square(S) - k * (2.0 * S * a) + k * (k * a * a);
      assert k * (2.0 * S * a) <= k * (Q + k * a * a);
      MulCancel(k, 2.0 * S * a, Q + k * a * a);
    }
  }

  /** Samuelson's inequality: every sample lies within sqrt(n - 1) population
      standard deviations of the mean, stated on squares. */
  lemma {:induction false} SampleDeviationBound(s: seq<real>, j: nat)
    requires j < |s|
    ensures Square(s[j] - Mean(s)) <= ((|s| - 1) as real) * Variance(s)
  {
    SampleDeviationNamed(s, j, Mean(s), Variance(s), (|s| - 1) as real);
  }

  /** SampleDeviationBound with the mean m, the variance v and n - 1 named. */
  lemma {:induction false} SampleDeviationNamed(s: seq<real>, j: nat, m: real, v: real, nt: real)
    requires j < |s| && m == Mean(s) && v == Variance(s) && nt == (|s| - 1) as real
    ensures Square(s[j] - m) <= nt * v
  {
    var n := |s| as real;
    var t := s[..j] + s[j + 1..];
    assert |t| == |s| - 1;
    var sum := Sum(s);
    var sq := SquaredDeviations(s, m);
    var sumT := Sum(t);
    var qT := SquaredDeviations(t, m);
    SplitAt(s, j, t, m, sum, sumT, sq, qT);
    MeanAndVarianceOf(s, n, sum, sq, m, v);
    SampleDeviationAt(s[j], t, m, n, nt, sum, sumT, sq, qT, v, nt * v);
  }

  /** Mean and variance as quotients of named values. */
  lemma MeanAndVarianceOf(s: seq<real>, n: real, sum: real, sq: real, m: real, v: real)
    requires |s| > 0 && n == |s| as real
    requires sum == Sum(s) && m == Mean(s) && sq == SquaredDeviations(s, m) && v == Variance(s)
    ensures m == sum / n && v == sq / n
  {
  }

  /** Samuelson's inequality for the sample x, the other samples t, the mean
      m and the variance v of the whole window of n samples, whose sum and
      squared deviations from m are sum and sq: the other samples deviate
      from m by -(x - m) in total, and Cauchy-Schwarz bounds that total by
      their squared deviations. */
  lemma {:induction false} SampleDeviationAt(x: real, t: seq<real>, m: real, n: real, nt: real,
                                             sum: real, sumT: real, sq: real, qT: real, v: real, bound: real)
    requires nt == |t| as real && n == nt + 1.0
    requires sumT == Sum(t) && qT == SquaredDeviations(t, m)
    requires sum == sumT + x && m == sum / n
    requires sq == qT + Square(x - m) && v == sq / n
    requires bound == nt * v
    ensures Square(x - m) <= bound
  {
    var dev := Deviations(t, m);
    OthersDeviation(x, t, m, n, nt, sum, sumT);
    RemainderBound(t, m, nt, dev, qT);
    SamuelsonArithmetic(n, nt, x, m, dev, sq, qT, v, bound);
  }

  /** Around the mean, the other samples deviate by exactly -(x - m) in total. */
  lemma {:induction false} OthersDeviation(x: real, t: seq<real>, m: real, n: real, nt: real, sum: real, sumT: real)
    requires nt == |t| as real && n == nt + 1.0
    requires sumT == Sum(t) && sum == sumT + x && m == sum / n
    ensures Deviations(t, m) == m - x
  {
    DeviationsIsSumMinusCount(t, m);
    CancelAroundMean(n, nt, sum, sumT, x, m, Deviations(t, m));
  }

  lemma CancelAroundMean(n: real, nt: real, sum: real, sumT: real, x: real, m: real, dev: real)
    requires n == nt + 1.0 && nt >= 0.0
    requires sum == sumT + x && m == sum / n
    requires dev == sumT - nt * m
    ensures dev == m - x
  {
    assert sum == n * m;
  }

  /** Cauchy-Schwarz on the deviations of t from m. */
  lemma {:induction false} RemainderBound(t: seq<real>, m: real, nt: real, dev: real, qT: real)
    requires nt == |t| as real && dev == Deviations(t, m) && qT == SquaredDeviations(t, m)
    ensures Square(dev) <= nt * qT
  {
    DeviationSumSquared(t, m);
  }

  /** Taking sample j out of a window splits its sum and its squared deviations. */
  lemma {:induction false} SplitAt(s: seq<real>, j: nat, t: seq<real>, m: real,
                                   sum: real, sumT: real, sq: real, qT: real)
    requires j < |s| && t == s[..j] + s[j + 1..]
    requires sum == Sum(s) && sumT == Sum(t)
    requires sq == SquaredDeviations(s, m) && qT == SquaredDeviations(t, m)
    ensures sum == sumT + s[j]
    ensures sq == qT + Square(s[j] - m)
  {
    assert s == s[..j] + [s[j]] + s[j + 1..];
    SumConcat(s[..j], [s[j]]);
    SumConcat(s[..j] + [s[j]], s[j + 1..]);
    SumConcat(s[..j], s[j + 1..]);
    SquaredDeviationsConcat(s[..j], [s[j]], m);
    SquaredDeviationsConcat(s[..j] + [s[j]], s[j + 1..], m);
    SquaredDeviationsConcat(s[..j], s[j + 1..], m);
  }

  /** The arithmetic that closes Samuelson's inequality: x - m is the
      deviation of one sample, -dev that of the nt others in total, sq the
      squared deviations of all n samples and qT those of the others. */
  lemma SamuelsonArithmetic(n: real, nt: real, x: real, m: real, dev: real, sq: real, qT: real, v: real,
                            bound: real)
    requires n >= 1.0 && nt == n - 1.0
    requires dev == m - x && Square(dev) <= nt * qT
    requires sq == qT + Square(x - m) && v == sq / n && bound == nt * v
    ensures Square(x - m) <= bound
  {
    var q := Square(x - m);
    assert q == Square(dev);
    assert n * q <= nt * sq;
    assert nt * sq == n * bound;
    MulCancel(n, q, bound);
  }
}
