/** The four detection rules of the streaming detector, the ranking of
    their findings by severity, and the verdict built from them. */
module Rules {
  import opened Options
  import opened Stats

  datatype Severity = Low | Medium | High

  /** The sort key of a severity: high 3, medium 2, low 1. */
  function Rank(s: Severity): nat
  {
    match s
    case High => 3
    case Medium => 2
    case Low => 1
  }

  /** One entry of the anomalies list. The statistical finding carries the
      squared z-score and the variance where the source reports the z-score
      and the standard deviation. */
  datatype Finding =
    | AbsoluteThreshold(min: real, max: real, severity: Severity)
    | Statistical(zSquared: real, mean: real, variance: real, severity: Severity)
    | RapidChange(changeRate: real, severity: Severity)
    | Trend(trend: string, severity: Severity)

  /** Which rule produced a finding. */
  datatype Kind = AbsoluteKind | StatisticalKind | RapidChangeKind | TrendKind

  function KindOf(f: Finding): Kind
  {
    match f
    case AbsoluteThreshold(_, _, _) => AbsoluteKind
    case Statistical(_, _, _, _) => StatisticalKind
    case RapidChange(_, _) => RapidChangeKind
    case Trend(_, _) => TrendKind
  }

  /** The 'type' field written for each kind of finding. */
  function TypeName(k: Kind): string
  {
    match k
    case AbsoluteKind => "absolute_threshold"
    case StatisticalKind => "statistical"
    case RapidChangeKind => "rapid_change"
    case TrendKind => "trend"
  }

  /** The 'type' field of a finding. */
  function TypeOf(f: Finding): string
  {
    TypeName(KindOf(f))
  }

  /** Two findings have the same 'type' field exactly when the same rule
      produced them, so filtering by kind is filtering by 'type'. */
  lemma TypeOfDistinguishesKinds(f1: Finding, f2: Finding)
    ensures TypeOf(f1) == TypeOf(f2) <==> KindOf(f1) == KindOf(f2)
  {
    var k1, k2 := KindOf(f1), KindOf(f2);
    if k1 != k2 {
      assert TypeName(k1)[0] != TypeName(k2)[0] || |TypeName(k1)| != |TypeName(k2)|;
    }
  }

  datatype Bounds = Bounds(min: real, max: real)

  /** The normal range of each known sensor type. */
  const DefaultSensorThresholds: map<string, Bounds> :=
    map[
      "hr" := Bounds(40.0, 180.0),
      "temp" := Bounds(35.0, 39.0),
      "eda" := Bounds(0.01, 20.0),
      "bvp" := Bounds(-100.0, 100.0),
      "ibi" := Bounds(300.0, 2000.0),
      "acc" := Bounds(0.0, 5.0)
    ]

  /** The percentage change allowed between consecutive samples. */
  const RapidChangeThresholds: map<string, real> :=
    map["hr" := 30.0, "temp" := 5.0, "eda" := 50.0, "bvp" := 40.0, "ibi" := 25.0, "acc" := 100.0]

  /** The rapid-change threshold of a sensor type, 50 for an unknown type. */
  function RapidChangeThreshold(sensorType: string): real
  {
    if sensorType in RapidChangeThresholds then RapidChangeThresholds[sensorType] else 50.0
  }

  function Abs(x: real): real
  {
    if x < 0.0 then -x else x
  }

  function Maybe(o: Option<Finding>): seq<Finding>
  {
    if o.Some? then [o.value] else []
  }

  // ---------------------------------------------------------------------
  // Rule 1: absolute range

  function CheckAbsolute(thresholds: map<string, Bounds>, sensorType: string, value: real): Option<Finding>
  {
    if sensorType in thresholds then
      var b := thresholds[sensorType];
      if value < b.min || value > b.max then Some(AbsoluteThreshold(b.min, b.max, High)) else None
    else
      None
  }

  // ---------------------------------------------------------------------
  // Rule 2: population z-score

  /** z > t for the z-score z >= 0 whose square is z2. */
  predicate ZExceeds(z2: real, t: real)
  {
    t < 0.0 || z2 > t * t
  }

  function CheckStatistical(zThreshold: real, value: real, window: seq<real>): Option<Finding>
  {
    if |window| < 3 then None
    else
      var m := Mean(window);
      var v := Variance(window);
      if v <= 0.0 then None
      else
        var z2 := Square(value - m) / v;
        if ZExceeds(z2, zThreshold) then
          Some(Statistical(z2, m, v, if z2 < 16.0 then Medium else High))
        else
          None
  }

  /** A window whose samples are all equal has zero std, so the z-score
      rule never fires on it. */
  lemma ConstantWindowNoStatistical(zThreshold: real, value: real, window: seq<real>)
    requires Constant(window)
    ensures CheckStatistical(zThreshold, value, window) == None
  {
    if |window| > 0 {
      ConstantHasZeroVariance(window);
    }
  }

  /** The z-score rule on squares agrees with the source's rule on the real
      z-score |value - mean| / std, for the standard deviation sd of v. */
  lemma ZScoreBridge(value: real, m: real, v: real, sd: real, t: real)
    requires v > 0.0 && IsStd(sd, v)
    ensures sd > 0.0
    ensures Square(Abs((value - m) / sd)) == Square(value - m) / v
    ensures Abs((value - m) / sd) > t <==> ZExceeds(Square(value - m) / v, t)
    ensures Abs((value - m) / sd) < 4.0 <==> Square(value - m) / v < 16.0
  {
    var q := (value - m) / sd;
    var z := Abs(q);
    assert sd != 0.0;
    assert sd > 0.0;
    QuotientSquare(value - m, sd, v);
    assert Square(z) == Square(q);
    if t >= 0.0 {
      SquareLess(t, z);
    }
    SquareLess(z, 4.0);
    assert Square(4.0) == 16.0;
  }

  /** Square((a / b)) == Square(a) / (b * b). */
  lemma QuotientSquare(a: real, b: real, v: real)
    requires b > 0.0 && v > 0.0 && b * b == v
    ensures Square(a / b) == Square(a) / v
  {
    var q := a / b;
    assert a == q * b;
    assert Square(a) == (q * q) * (b * b);
    assert Square(a) == Square(q) * v;
    assert Square(a) / v == Square(q);
  }

  /** For non-negative reals, a < b exactly when a * a < b * b. */
  lemma SquareLess(a: real, b: real)
    requires a >= 0.0 && b >= 0.0
    ensures a < b <==> Square(a) < Square(b)
  {
    if a < b {
      ProductLess(a, a, b, b);
    } else {
      ProductLe(b, b, a, a);
    }
  }

  // ---------------------------------------------------------------------
  // Rule 3: rapid change against the previous sample

  /** |(v - prev) / prev * 100|, or 0 when prev is 0. */
  function ChangeRate(value: real, prev: real): real
  {
    if prev != 0.0 then Abs((value - prev) / prev * 100.0) else 0.0
  }

  function CheckRapidChange(sensorType: string, value: real, window: seq<real>): Option<Finding>
  {
    if |window| < 2 then None
    else
      var rate := ChangeRate(value, window[|window| - 2]);
      var th := RapidChangeThreshold(sensorType);
      if rate > th then Some(RapidChange(rate, if rate < th * 2.0 then Low else Medium)) else None
  }

  // ---------------------------------------------------------------------
  // Rule 4: sustained trend

  /** values[i + 1] - values[i] for every consecutive pair. */
  function Differences(values: seq<real>): (d: seq<real>)
    ensures |d| == if |values| == 0 then 0 else |values| - 1
    ensures forall i | 0 <= i < |d| :: d[i] == values[i + 1] - values[i]
  {
    if |values| <= 1 then [] else [values[1] - values[0]] + Differences(values[1..])
  }

  predicate AllPositive(d: seq<real>)
  {
    forall i | 0 <= i < |d| :: d[i] > 0.0
  }

  predicate AllNegative(d: seq<real>)
  {
    forall i | 0 <= i < |d| :: d[i] < 0.0
  }

  function DetectTrend(values: seq<real>): Option<string>
  {
    if |values| < 3 then None
    else
      var d := Differences(values);
      if AllPositive(d) then Some("crescente")
      else if AllNegative(d) then Some("decrescente")
      else None
  }

  predicate StrictlyIncreasing(s: seq<real>)
  {
    forall i, j | 0 <= i < j < |s| :: s[i] < s[j]
  }

  predicate StrictlyDecreasing(s: seq<real>)
  {
    forall i, j | 0 <= i < j < |s| :: s[i] > s[j]
  }

  /** Positive consecutive differences chain into a strict increase. */
  lemma {:induction false} IncreasingChain(s: seq<real>, i: nat, j: nat)
    requires AllPositive(Differences(s))
    requires i < j < |s|
    ensures s[i] < s[j]
    decreases j - i
  {
    var d := Differences(s);
    assert d[j - 1] == s[j] - s[j - 1];
    if i < j - 1 {
      IncreasingChain(s, i, j - 1);
    }
  }

  lemma {:induction false} DecreasingChain(s: seq<real>, i: nat, j: nat)
    requires AllNegative(Differences(s))
    requires i < j < |s|
    ensures s[i] > s[j]
    decreases j - i
  {
    var d := Differences(s);
    assert d[j - 1] == s[j] - s[j - 1];
    if i < j - 1 {
      DecreasingChain(s, i, j - 1);
    }
  }

  lemma {:induction false} PositiveDifferencesIff(s: seq<real>)
    ensures AllPositive(Differences(s)) <==> StrictlyIncreasing(s)
  {
    var d := Differences(s);
    if AllPositive(d) {
      forall i, j | 0 <= i < j < |s| ensures s[i] < s[j] {
        IncreasingChain(s, i, j);
      }
    }
    if StrictlyIncreasing(s) {
      forall i | 0 <= i < |d| ensures d[i] > 0.0 {
        assert s[i] < s[i + 1];
      }
    }
  }

  lemma {:induction false} NegativeDifferencesIff(s: seq<real>)
    ensures AllNegative(Differences(s)) <==> StrictlyDecreasing(s)
  {
    var d := Differences(s);
    if AllNegative(d) {
      forall i, j | 0 <= i < j < |s| ensures s[i] > s[j] {
        DecreasingChain(s, i, j);
      }
    }
    if StrictlyDecreasing(s) {
      forall i | 0 <= i < |d| ensures d[i] < 0.0 {
        assert s[i] > s[i + 1];
      }
    }
  }

  /** detect_trend names a strictly increasing run "crescente", a strictly
      decreasing one "decrescente", and nothing else, from three values on. */
  lemma {:induction false} DetectTrendMeaning(values: seq<real>)
    ensures DetectTrend(values) == Some("crescente") <==> |values| >= 3 && StrictlyIncreasing(values)
    ensures DetectTrend(values) == Some("decrescente") <==> |values| >= 3 && StrictlyDecreasing(values)
    ensures DetectTrend(values) == None <==>
              |values| < 3 || (!StrictlyIncreasing(values) && !StrictlyDecreasing(values))
  {
    PositiveDifferencesIff(values);
    NegativeDifferencesIff(values);
    if |values| >= 3 && StrictlyIncreasing(values) {
      assert values[0] < values[1];
      assert !StrictlyDecreasing(values);
    }
  }

  function CheckTrend(window: seq<real>): Option<Finding>
  {
    if |window| < 5 then None
    else
      match DetectTrend(window[|window| - 5..])
      case Some(t) => Some(Trend(t, Low))
      case None => None
  }

  // ---------------------------------------------------------------------
  // Ranking

  /** The findings in detection order: absolute, statistical, rapid, trend. */
  function Findings(thresholds: map<string, Bounds>, zThreshold: real, sensorType: string,
                    value: real, window: seq<real>): seq<Finding>
  {
    Maybe(CheckAbsolute(thresholds, sensorType, value))
    + Maybe(CheckStatistical(zThreshold, value, window))
    + Maybe(CheckRapidChange(sensorType, value, window))
    + Maybe(CheckTrend(window))
  }

  /** The findings of one severity, in their original order. */
  function OfSeverity(fs: seq<Finding>, sev: Severity): seq<Finding>
  {
    if |fs| == 0 then []
    else (if fs[0].severity == sev then [fs[0]] else []) + OfSeverity(fs[1..], sev)
  }

  /** The findings of one type, in their original order. */
  function OfType(fs: seq<Finding>, k: Kind): seq<Finding>
  {
    if |fs| == 0 then []
    else (if KindOf(fs[0]) == k then [fs[0]] else []) + OfType(fs[1..], k)
  }

  /** `list.sort(key=rank, reverse=True)`: a stable sort by decreasing rank. */
  function RankBySeverity(fs: seq<Finding>): seq<Finding>
  {
    OfSeverity(fs, High) + OfSeverity(fs, Medium) + OfSeverity(fs, Low)
  }

  predicate NonIncreasingRank(fs: seq<Finding>)
  {
    forall i, j | 0 <= i < j < |fs| :: Rank(fs[i].severity) >= Rank(fs[j].severity)
  }

  lemma {:induction false} ConcatNonIncreasing(a: seq<Finding>, b: seq<Finding>)
    requires NonIncreasingRank(a) && NonIncreasingRank(b)
    requires forall x, y | x in a && y in b :: Rank(x.severity) >= Rank(y.severity)
    ensures NonIncreasingRank(a + b)
  {
    forall i, j | 0 <= i < j < |a + b| ensures Rank((a + b)[i].severity) >= Rank((a + b)[j].severity) {
      if j < |a| {
        assert (a + b)[i] == a[i] && (a + b)[j] == a[j];
      } else if i >= |a| {
        assert (a + b)[i] == b[i - |a|] && (a + b)[j] == b[j - |a|];
      } else {
        assert (a + b)[i] in a && (a + b)[j] in b;
      }
    }
  }

  /** The ranked findings never go up in severity. */
  lemma {:induction false} RankedNonIncreasing(fs: seq<Finding>)
    ensures NonIncreasingRank(RankBySeverity(fs))
  {
    var h, m, l := OfSeverity(fs, High), OfSeverity(fs, Medium), OfSeverity(fs, Low);
    OfSeverityMembers(fs, High);
    OfSeverityMembers(fs, Medium);
    OfSeverityMembers(fs, Low);
    ConcatNonIncreasing(h, m);
    ConcatNonIncreasing(h + m, l);
  }

  /** Each bucket holds findings of the input, all of its severity. */
  lemma {:induction false} OfSeverityMembers(fs: seq<Finding>, sev: Severity)
    ensures forall f | f in OfSeverity(fs, sev) :: f in fs && f.severity == sev
  {
    if |fs| > 0 {
      var t := fs[1..];
      var h := if fs[0].severity == sev then [fs[0]] else [];
      assert OfSeverity(fs, sev) == h + OfSeverity(t, sev);
      OfSeverityMembers(t, sev);
      forall f | f in OfSeverity(fs, sev) ensures f in fs && f.severity == sev {
        if f !in h {
          assert f in OfSeverity(t, sev);
        }
      }
    }
  }

  lemma {:induction false} OfSeverityConcat(a: seq<Finding>, b: seq<Finding>, sev: Severity)
    ensures OfSeverity(a + b, sev) == OfSeverity(a, sev) + OfSeverity(b, sev)
  {
    if |a| == 0 {
      assert a + b == b;
    } else {
      var t := a[1..];
      var h := if a[0].severity == sev then [a[0]] else [];
      var x, y, z := OfSeverity(t, sev), OfSeverity(b, sev), OfSeverity(t + b, sev);
      assert (a + b)[0] == a[0] && (a + b)[1..] == t + b;
      assert OfSeverity(a + b, sev) == h + z;
      assert OfSeverity(a, sev) == h + x;
      OfSeverityConcat(t, b, sev);
      assert z == x + y;
      assert h + (x + y) == (h + x) + y;
    }
  }

  lemma {:induction false} OfSeverityTwice(fs: seq<Finding>, s1: Severity, s2: Severity)
    ensures OfSeverity(OfSeverity(fs, s1), s2) == if s1 == s2 then OfSeverity(fs, s1) else []
  {
    if |fs| > 0 {
      var head := if fs[0].severity == s1 then [fs[0]] else [];
      OfSeverityConcat(head, OfSeverity(fs[1..], s1), s2);
      OfSeverityTwice(fs[1..], s1, s2);
      assert OfSeverity(head, s2) == if s1 == s2 then head else [] by {
        if |head| > 0 {
          assert head[1..] == [];
        }
      }
    }
  }

  /** Findings of equal severity keep their detection order. */
  lemma {:induction false} RankedStable(fs: seq<Finding>, sev: Severity)
    ensures OfSeverity(RankBySeverity(fs), sev) == OfSeverity(fs, sev)
  {
    var h, m, l := OfSeverity(fs, High), OfSeverity(fs, Medium), OfSeverity(fs, Low);
    OfSeverityConcat(h + m, l, sev);
    OfSeverityConcat(h, m, sev);
    OfSeverityTwice(fs, High, sev);
    OfSeverityTwice(fs, Medium, sev);
    OfSeverityTwice(fs, Low, sev);
    match sev
    case High => assert OfSeverity(RankBySeverity(fs), sev) == h + [] + [];
    case Medium => assert OfSeverity(RankBySeverity(fs), sev) == [] + m + [];
    case Low => assert OfSeverity(RankBySeverity(fs), sev) == [] + [] + l;
  }

  /** Ranking drops and adds nothing. */
  lemma {:induction false} RankedPermutation(fs: seq<Finding>)
    ensures multiset(RankBySeverity(fs)) == multiset(fs)
  {
    BucketsCover(fs);
  }

  lemma {:induction false} BucketsCover(fs: seq<Finding>)
    ensures multiset(OfSeverity(fs, High)) + multiset(OfSeverity(fs, Medium)) + multiset(OfSeverity(fs, Low))
            == multiset(fs)
  {
    forall x
      ensures (multiset(OfSeverity(fs, High)) + multiset(OfSeverity(fs, Medium))
               + multiset(OfSeverity(fs, Low)))[x] == multiset(fs)[x]
    {
      OfSeverityCount(fs, High, x);
      OfSeverityCount(fs, Medium, x);
      OfSeverityCount(fs, Low, x);
    }
  }

  lemma {:induction false} OfSeverityCount(fs: seq<Finding>, sev: Severity, x: Finding)
    ensures multiset(OfSeverity(fs, sev))[x] == if x.severity == sev then multiset(fs)[x] else 0
  {
    if |fs| > 0 {
      var t := fs[1..];
      var h := if fs[0].severity == sev then [fs[0]] else [];
      assert fs == [fs[0]] + t;
      assert OfSeverity(fs, sev) == h + OfSeverity(t, sev);
      OfSeverityCount(t, sev, x);
      assert multiset(OfSeverity(fs, sev)) == multiset(h) + multiset(OfSeverity(t, sev));
      assert multiset(fs) == multiset([fs[0]]) + multiset(t);
    }
  }

  /** The findings of one type depend only on the multiset of findings. */
  lemma {:induction false} OfTypeCount(fs: seq<Finding>, k: Kind, x: Finding)
    ensures multiset(OfType(fs, k))[x] == if KindOf(x) == k then multiset(fs)[x] else 0
  {
    if |fs| > 0 {
      var t := fs[1..];
      var h := if KindOf(fs[0]) == k then [fs[0]] else [];
      assert fs == [fs[0]] + t;
      assert OfType(fs, k) == h + OfType(t, k);
      OfTypeCount(t, k, x);
      assert multiset(OfType(fs, k)) == multiset(h) + multiset(OfType(t, k));
      assert multiset(fs) == multiset([fs[0]]) + multiset(t);
    }
  }

  lemma {:induction false} OfTypeOfPermutation(a: seq<Finding>, b: seq<Finding>, k: Kind)
    requires multiset(a) == multiset(b)
    ensures multiset(OfType(a, k)) == multiset(OfType(b, k))
  {
    forall x ensures multiset(OfType(a, k))[x] == multiset(OfType(b, k))[x] {
      OfTypeCount(a, k, x);
      OfTypeCount(b, k, x);
    }
  }

  /** Two sequences of at most one element with the same multiset are equal. */
  lemma SingletonMultiset(a: seq<Finding>, b: seq<Finding>)
    requires |a| <= 1 && multiset(a) == multiset(b)
    ensures a == b
  {
    assert |b| == |multiset(b)|;
    if |a| == 1 {
      assert b[0] in multiset(b);
    }
  }

  lemma {:induction false} OfTypeConcat(a: seq<Finding>, b: seq<Finding>, k: Kind)
    ensures OfType(a + b, k) == OfType(a, k) + OfType(b, k)
  {
    if |a| == 0 {
      assert a + b == b;
    } else {
      var t := a[1..];
      var h := if KindOf(a[0]) == k then [a[0]] else [];
      var x, y, z := OfType(t, k), OfType(b, k), OfType(t + b, k);
      assert (a + b)[0] == a[0] && (a + b)[1..] == t + b;
      assert OfType(a + b, k) == h + z;
      assert OfType(a, k) == h + x;
      OfTypeConcat(t, b, k);
      assert z == x + y;
      assert h + (x + y) == (h + x) + y;
    }
  }

  lemma OfTypeMaybe(o: Option<Finding>, k: Kind)
    ensures OfType(Maybe(o), k) == if o.Some? && KindOf(o.value) == k then [o.value] else []
  {
    if o.Some? {
      assert Maybe(o)[1..] == [];
    }
  }

  // ---------------------------------------------------------------------
  // Verdict

  /** The wall-clock time of a verdict, supplied by the caller. */
  type Timestamp = int

  /** The dictionary detect_anomaly returns; the variance stands in for the
      standard deviation. */
  datatype Verdict = Verdict(timestamp: Timestamp, value: real, anomalies: seq<Finding>,
                             windowMean: real, windowVariance: real)

  /** None when no rule fired, otherwise the ranked findings with the
      statistics of the whole window. */
  function Evaluate(thresholds: map<string, Bounds>, zThreshold: real, sensorType: string,
                    value: real, window: seq<real>, now: Timestamp): (r: Option<Verdict>)
    requires |window| > 0
  {
    var fs := Findings(thresholds, zThreshold, sensorType, value, window);
    if |fs| == 0 then None
    else Some(Verdict(now, value, RankBySeverity(fs), Mean(window), Variance(window)))
  }

  function Anomalies(r: Option<Verdict>): seq<Finding>
  {
    if r.Some? then r.value.anomalies else []
  }

  /** No verdict exactly when no rule fires; a verdict carries the input value,
      the window's own mean and variance, and its findings ranked. */
  lemma {:induction false} VerdictShape(thresholds: map<string, Bounds>, zThreshold: real, sensorType: string,
                                        value: real, window: seq<real>, now: Timestamp)
    requires |window| > 0
    ensures var r := Evaluate(thresholds, zThreshold, sensorType, value, window, now);
      && (r.None? <==>
            CheckAbsolute(thresholds, sensorType, value).None?
            && CheckStatistical(zThreshold, value, window).None?
            && CheckRapidChange(sensorType, value, window).None?
            && CheckTrend(window).None?)
      && (r.Some? ==>
            && r.value.timestamp == now
            && r.value.value == value
            && r.value.anomalies != []
            && r.value.windowMean == Mean(window)
            && r.value.windowVariance == Variance(window)
            && NonIncreasingRank(r.value.anomalies)
            && multiset(r.value.anomalies) == multiset(Findings(thresholds, zThreshold, sensorType, value, window))
            && forall sev :: OfSeverity(r.value.anomalies, sev)
                               == OfSeverity(Findings(thresholds, zThreshold, sensorType, value, window), sev))
  {
    var fs := Findings(thresholds, zThreshold, sensorType, value, window);
    RankedNonIncreasing(fs);
    RankedPermutation(fs);
    forall sev ensures OfSeverity(RankBySeverity(fs), sev) == OfSeverity(fs, sev) {
      RankedStable(fs, sev);
    }
    if |fs| > 0 {
      assert |RankBySeverity(fs)| == |fs| by {
        assert |multiset(RankBySeverity(fs))| == |multiset(fs)|;
      }
    }
  }

  /** An absolute finding is high and detected first, so the stable ranking
      always puts it at the head of the verdict. */
  lemma {:induction false} AbsoluteRankedFirst(thresholds: map<string, Bounds>, zThreshold: real,
                                               sensorType: string, value: real, window: seq<real>, now: Timestamp)
    requires |window| > 0
    requires CheckAbsolute(thresholds, sensorType, value).Some?
    ensures var a := Anomalies(Evaluate(thresholds, zThreshold, sensorType, value, window, now));
      |a| > 0 && a[0] == CheckAbsolute(thresholds, sensorType, value).value
  {
    var f := CheckAbsolute(thresholds, sensorType, value).value;
    var fs := Findings(thresholds, zThreshold, sensorType, value, window);
    var rest := Maybe(CheckStatistical(zThreshold, value, window))
                + Maybe(CheckRapidChange(sensorType, value, window))
                + Maybe(CheckTrend(window));
    assert fs == [f] + rest;
    assert fs[0] == f && fs[1..] == rest;
    assert OfSeverity(fs, High) == [f] + OfSeverity(rest, High);
  }

  /** Each rule reports findings of its own type only. */
  lemma RuleTypes(thresholds: map<string, Bounds>, zThreshold: real, sensorType: string, value: real,
                  window: seq<real>)
    ensures var o := CheckAbsolute(thresholds, sensorType, value);
      o.Some? ==> KindOf(o.value) == AbsoluteKind
    ensures var o := CheckStatistical(zThreshold, value, window);
      o.Some? ==> KindOf(o.value) == StatisticalKind
    ensures var o := CheckRapidChange(sensorType, value, window);
      o.Some? ==> KindOf(o.value) == RapidChangeKind
    ensures var o := CheckTrend(window);
      o.Some? ==> KindOf(o.value) == TrendKind
  {
  }

  /** Picking one type out of the four rules' findings. */
  lemma FindingsOfType(o1: Option<Finding>, o2: Option<Finding>, o3: Option<Finding>, o4: Option<Finding>,
                       k: Kind)
    requires o1.Some? ==> KindOf(o1.value) == AbsoluteKind
    requires o2.Some? ==> KindOf(o2.value) == StatisticalKind
    requires o3.Some? ==> KindOf(o3.value) == RapidChangeKind
    requires o4.Some? ==> KindOf(o4.value) == TrendKind
    ensures OfType(Maybe(o1) + Maybe(o2) + Maybe(o3) + Maybe(o4), k)
            == (if k == AbsoluteKind then Maybe(o1) else [])
               + (if k == StatisticalKind then Maybe(o2) else [])
               + (if k == RapidChangeKind then Maybe(o3) else [])
               + (if k == TrendKind then Maybe(o4) else [])
  {
    OfTypeConcat(Maybe(o1) + Maybe(o2) + Maybe(o3), Maybe(o4), k);
    OfTypeConcat(Maybe(o1) + Maybe(o2), Maybe(o3), k);
    OfTypeConcat(Maybe(o1), Maybe(o2), k);
    OfTypeMaybe(o1, k);
    OfTypeMaybe(o2, k);
    OfTypeMaybe(o3, k);
    OfTypeMaybe(o4, k);
  }

  /** Ranking does not move the only finding of a type. */
  lemma {:induction false} RankingKeepsType(fs: seq<Finding>, k: Kind)
    requires |OfType(fs, k)| <= 1
    ensures OfType(RankBySeverity(fs), k) == OfType(fs, k)
  {
    RankedPermutation(fs);
    OfTypeOfPermutation(fs, RankBySeverity(fs), k);
    SingletonMultiset(OfType(fs, k), OfType(RankBySeverity(fs), k));
  }

  /** The findings of one type in a verdict are exactly what that type's rule
      reported: at most one per type, wherever the ranking put it. */
  lemma {:induction false} ReportedByType(thresholds: map<string, Bounds>, zThreshold: real, sensorType: string,
                                          value: real, window: seq<real>, now: Timestamp, k: Kind)
    requires |window| > 0
    ensures OfType(Anomalies(Evaluate(thresholds, zThreshold, sensorType, value, window, now)), k)
            == (if k == AbsoluteKind then Maybe(CheckAbsolute(thresholds, sensorType, value)) else [])
               + (if k == StatisticalKind then Maybe(CheckStatistical(zThreshold, value, window)) else [])
               + (if k == RapidChangeKind then Maybe(CheckRapidChange(sensorType, value, window)) else [])
               + (if k == TrendKind then Maybe(CheckTrend(window)) else [])
  {
    var o1 := CheckAbsolute(thresholds, sensorType, value);
    var o2 := CheckStatistical(zThreshold, value, window);
    var o3 := CheckRapidChange(sensorType, value, window);
    var o4 := CheckTrend(window);
    var fs := Findings(thresholds, zThreshold, sensorType, value, window);
    assert fs == Maybe(o1) + Maybe(o2) + Maybe(o3) + Maybe(o4);
    RuleTypes(thresholds, zThreshold, sensorType, value, window);
    FindingsOfType(o1, o2, o3, o4, k);
    if |fs| > 0 {
      RankingKeepsType(fs, k);
    }
  }

  // ---------------------------------------------------------------------
  // What each rule contributes to a verdict

  /** An absolute finding, always high, is reported exactly when the sensor
      type has a normal range and the value lies strictly outside it. */
  lemma {:induction false} AbsoluteReported(thresholds: map<string, Bounds>, zThreshold: real, sensorType: string,
                                            value: real, window: seq<real>, now: Timestamp)
    requires |window| > 0
    ensures var a := OfType(Anomalies(Evaluate(thresholds, zThreshold, sensorType, value, window, now)),
                            AbsoluteKind);
      && (a != [] <==> sensorType in thresholds
                       && (value < thresholds[sensorType].min || value > thresholds[sensorType].max))
      && (a != [] ==> a == [AbsoluteThreshold(thresholds[sensorType].min, thresholds[sensorType].max, High)])
  {
    ReportedByType(thresholds, zThreshold, sensorType, value, window, now, AbsoluteKind);
  }

  /** A statistical finding is reported exactly when the window has three
      samples, a positive variance and a z-score above the threshold; it is
      medium below z = 4 and high from there on. */
  lemma {:induction false} StatisticalReported(thresholds: map<string, Bounds>, zThreshold: real,
                                               sensorType: string, value: real, window: seq<real>, now: Timestamp)
    requires |window| > 0
    ensures var a := OfType(Anomalies(Evaluate(thresholds, zThreshold, sensorType, value, window, now)),
                            StatisticalKind);
      && (a != [] <==> |window| >= 3 && Variance(window) > 0.0
                       && ZExceeds(Square(value - Mean(window)) / Variance(window), zThreshold))
      && (a != [] ==>
            var z2 := Square(value - Mean(window)) / Variance(window);
            a == [Statistical(z2, Mean(window), Variance(window), if z2 < 16.0 then Medium else High)])
  {
    ReportedByType(thresholds, zThreshold, sensorType, value, window, now, StatisticalKind);
  }

  /** A rapid-change finding is reported exactly when the change rate against
      the previous sample exceeds the sensor's threshold; it is low below
      twice the threshold and medium from there on. */
  lemma {:induction false} RapidChangeReported(thresholds: map<string, Bounds>, zThreshold: real,
                                               sensorType: string, value: real, window: seq<real>, now: Timestamp)
    requires |window| > 0
    ensures var a := OfType(Anomalies(Evaluate(thresholds, zThreshold, sensorType, value, window, now)),
                            RapidChangeKind);
      && (a != [] <==> |window| >= 2
                       && ChangeRate(value, window[|window| - 2]) > RapidChangeThreshold(sensorType))
      && (a != [] ==>
            var rate := ChangeRate(value, window[|window| - 2]);
            a == [RapidChange(rate, if rate < RapidChangeThreshold(sensorType) * 2.0 then Low else Medium)])
  {
    ReportedByType(thresholds, zThreshold, sensorType, value, window, now, RapidChangeKind);
  }

  /** A trend finding, always low, is reported exactly when the last five
      samples are strictly increasing ("crescente") or strictly decreasing
      ("decrescente"). */
  lemma {:induction false} TrendReported(thresholds: map<string, Bounds>, zThreshold: real, sensorType: string,
                                         value: real, window: seq<real>, now: Timestamp)
    requires |window| > 0
    ensures var a := OfType(Anomalies(Evaluate(thresholds, zThreshold, sensorType, value, window, now)), TrendKind);
      && (a != [] <==> |window| >= 5
                       && (StrictlyIncreasing(window[|window| - 5..]) || StrictlyDecreasing(window[|window| - 5..])))
      && (a != [] ==>
            a == [Trend(if StrictlyIncreasing(window[|window| - 5..]) then "crescente" else "decrescente", Low)])
  {
    ReportedByType(thresholds, zThreshold, sensorType, value, window, now, TrendKind);
    if |window| >= 5 {
      DetectTrendMeaning(window[|window| - 5..]);
    }
  }

  // ---------------------------------------------------------------------
  // Small windows cannot produce a statistical finding

  /** By Samuelson's inequality, a sample's squared z-score within its own
      window of n samples is at most n - 1, so a threshold t with
      n - 1 <= t * t is never exceeded. */
  lemma {:induction false} NoStatisticalFindingInSmallWindow(zThreshold: real, value: real, window: seq<real>)
    requires value in window
    requires zThreshold >= 0.0 && ((|window| - 1) as real) <= zThreshold * zThreshold
    ensures CheckStatistical(zThreshold, value, window) == None
  {
    if |window| >= 3 && Variance(window) > 0.0 {
      var j :| 0 <= j < |window| && window[j] == value;
      var m, v := Mean(window), Variance(window);
      var k := (|window| - 1) as real;
      SampleDeviationBound(window, j);
      QuotientBound(Square(value - m), k, v);
      assert !ZExceeds(Square(value - m) / v, zThreshold);
    }
  }

  lemma QuotientBound(q: real, k: real, v: real)
    requires v > 0.0 && q <= k * v
    ensures q / v <= k
  {
    assert q / v * v == q;
    MulCancel(v, q / v, k);
  }

  /** With the default threshold 3, no statistical finding on the newest
      sample occurs in a window of fewer than 11 samples. */
  lemma {:induction false} NoDefaultStatisticalBelowEleven(value: real, window: seq<real>)
    requires value in window && |window| <= 10
    ensures CheckStatistical(3.0, value, window) == None
  {
    NoStatisticalFindingInSmallWindow(3.0, value, window);
  }

  /** Five readings of 10 followed by 1000: the z-score of 1000 in its own
      six-sample window is only sqrt(5), below the default threshold 3. */
  lemma FiveTensThenThousand()
    ensures CheckStatistical(3.0, 1000.0, [10.0, 10.0, 10.0, 10.0, 10.0, 1000.0]) == None
  {
    var w := [10.0, 10.0, 10.0, 10.0, 10.0, 1000.0];
    assert w[5] == 1000.0;
    NoDefaultStatisticalBelowEleven(1000.0, w);
  }

  /** The same jump is caught by the heart-rate range. */
  lemma ThousandOutOfHeartRateRange()
    ensures CheckAbsolute(DefaultSensorThresholds, "hr", 1000.0) == Some(AbsoluteThreshold(40.0, 180.0, High))
  {
  }
}
