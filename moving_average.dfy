/** The server's moving-average rule: the newest reading of a (user, sensor)
    series against the mean plus a multiple of the standard deviation of the
    readings just before it. The recent readings arrive newest first, as the
    database query returns them; a missing reading is None. */
module MovingAverage {
  import opened Options
  import opened Stats

  const DefaultWindowSize: nat := 10
  const DefaultThresholdMultiplier: real := 2.0

  /** The query's `LIMIT window_size + 1` over the newest-first history. */
  function FetchRecent(history: seq<Option<real>>, windowSize: nat): (r: seq<Option<real>>)
    ensures |r| <= windowSize + 1 && |r| <= |history|
    ensures r == history[..|r|]
    ensures |r| == |history| || |r| == windowSize + 1
  {
    if |history| <= windowSize + 1 then history else history[..windowSize + 1]
  }

  /** The readings that are not null, in their order. */
  function NonNull(rows: seq<Option<real>>): (r: seq<real>)
    ensures |r| <= |rows|
  {
    if |rows| == 0 then []
    else (if rows[0].Some? then [rows[0].value] else []) + NonNull(rows[1..])
  }

  /** A threshold mean + multiplier * sd, where sd is the square root of
      `variance`; it is kept symbolic because square roots are not modelled. */
  datatype Threshold = Threshold(mean: real, multiplier: real, variance: real)

  /** `current > mean + multiplier * sd` decided on squares. */
  predicate Exceeds(current: real, t: Threshold)
  {
    var d := current - t.mean;
    var bound := t.multiplier * t.multiplier * t.variance;
    if t.multiplier >= 0.0 then d > 0.0 && Square(d) > bound
    else d > 0.0 || Square(d) < bound
  }

  /** The Anomaly row stored for a detection. */
  datatype AnomalyRecord = AnomalyRecord(userId: int, sensorType: string, value: real,
                                         threshold: Threshold, movingAvg: real)

  /** The arguments of the notification sent for a detection. */
  datatype Notification = Notification(userId: int, sensorType: string, value: real, threshold: Threshold)

  datatype Detection = Detection(record: AnomalyRecord, notification: Notification)

  /** The baseline: values[1 : windowSize + 1]. */
  function Baseline(values: seq<real>, windowSize: nat): seq<real>
    requires |values| >= 1
  {
    values[1..if |values| <= windowSize + 1 then |values| else windowSize + 1]
  }

  /** check_anomalies: None when fewer than windowSize rows are fetched, when
      fewer than windowSize of them are non-null, or when the newest value
      does not exceed the threshold built from the readings before it. */
  function CheckAnomalies(userId: int, sensorType: string, history: seq<Option<real>>,
                          windowSize: nat := DefaultWindowSize,
                          multiplier: real := DefaultThresholdMultiplier): (r: Option<Detection>)
    requires windowSize >= 1
  {
    var recent := FetchRecent(history, windowSize);
    if |recent| < windowSize then None
    else
      var values := NonNull(recent);
      if |values| < windowSize then None
      else
        var baseline := Baseline(values, windowSize);
        if |baseline| == 0 then None
        else
          var movingAvg := Mean(baseline);
          var current := values[0];
          var threshold := Threshold(movingAvg, multiplier, Variance(baseline));
          if Exceeds(current, threshold) then
            Some(Detection(AnomalyRecord(userId, sensorType, current, threshold, movingAvg),
                           Notification(userId, sensorType, current, threshold)))
          else
            None
  }

  // ---------------------------------------------------------------------
  // Properties

  /** The squared comparison agrees with `current > mean + k * sd` for the
      standard deviation sd of the variance. */
  lemma ExceedsMeaning(current: real, t: Threshold, sd: real)
    requires IsStd(sd, t.variance)
    ensures Exceeds(current, t) <==> current > t.mean + t.multiplier * sd
  {
    var d := current - t.mean;
    var k := t.multiplier;
    var ksd := k * sd;
    assert Square(ksd) == k * k * t.variance by {
      assert Square(ksd) == (k * k) * (sd * sd);
    }
    if k >= 0.0 {
      assert ksd >= 0.0;
      if d > 0.0 {
        SquareOrder(d, ksd);
      }
    } else {
      assert ksd <= 0.0;
      if d <= 0.0 {
        SquareOrder(-ksd, -d);
        SquareOfNegation(d);
        SquareOfNegation(ksd);
      }
    }
  }

  lemma SquareOfNegation(x: real)
    ensures Square(-x) == Square(x)
  {
  }

  lemma SquareOrder(a: real, b: real)
    requires a >= 0.0 && b >= 0.0
    ensures a > b <==> Square(a) > Square(b)
  {
    if b < a {
      ProductLess(b, b, a, a);
    } else {
      ProductLe(a, a, b, b);
    }
  }

  /** The first non-null reading of a prefix is the first non-null reading
      of the whole history. */
  lemma {:induction false} NewestNonNull(rows: seq<Option<real>>, k: nat)
    requires k <= |rows| && NonNull(rows[..k]) != []
    ensures NonNull(rows) != [] && NonNull(rows[..k])[0] == NonNull(rows)[0]
  {
    assert rows[..k] != [];
    assert rows[..k][0] == rows[0];
    if rows[0].None? {
      assert rows[..k][1..] == rows[1..][..k - 1];
      NewestNonNull(rows[1..], k - 1);
    }
  }

  /** No detection from too few rows or too few non-null readings. */
  lemma {:induction false} TooFewReadings(userId: int, sensorType: string, history: seq<Option<real>>,
                                          windowSize: nat, multiplier: real)
    requires windowSize >= 1
    requires |FetchRecent(history, windowSize)| < windowSize
             || |NonNull(FetchRecent(history, windowSize))| < windowSize
    ensures CheckAnomalies(userId, sensorType, history, windowSize, multiplier) == None
  {
  }

  /** A detection reports the newest non-null reading, the mean of the at
      most windowSize readings after it as the moving average, and a
      threshold it strictly exceeds; the notification carries the same
      value and threshold, and values not above the moving average are
      never flagged for a non-negative multiplier. */
  lemma {:induction false} DetectionMeaning(userId: int, sensorType: string, history: seq<Option<real>>,
                                            windowSize: nat, multiplier: real)
    requires windowSize >= 1
    ensures var r := CheckAnomalies(userId, sensorType, history, windowSize, multiplier);
      r.Some? ==>
        var values := NonNull(FetchRecent(history, windowSize));
        var baseline := values[1..];
        && values != []
        && NonNull(history) != []
        && values[0] == NonNull(history)[0]
        && 1 <= |baseline| <= windowSize
        && r.value.record.value == NonNull(history)[0]
        && r.value.record.movingAvg == Mean(baseline)
        && r.value.record.threshold == Threshold(Mean(baseline), multiplier, Variance(baseline))
        && Exceeds(r.value.record.value, r.value.record.threshold)
        && r.value.record.userId == userId && r.value.record.sensorType == sensorType
        && r.value.notification == Notification(userId, sensorType, r.value.record.value,
                                                r.value.record.threshold)
        && (multiplier >= 0.0 ==> r.value.record.value > r.value.record.movingAvg)
  {
    var r := CheckAnomalies(userId, sensorType, history, windowSize, multiplier);
    if r.Some? {
      var recent := FetchRecent(history, windowSize);
      var values := NonNull(recent);
      assert values != [];
      NewestNonNull(history, |recent|);
      assert Baseline(values, windowSize) == values[1..];
    }
  }

  /** A detection happens exactly when the newest reading exceeds the
      threshold of the readings after it, once enough readings are there. */
  lemma {:induction false} DetectionIff(userId: int, sensorType: string, history: seq<Option<real>>,
                                        windowSize: nat, multiplier: real, sd: real)
    requires windowSize >= 1
    requires var values := NonNull(FetchRecent(history, windowSize));
      |values| >= 2 ==> IsStd(sd, Variance(values[1..]))
    ensures var recent := FetchRecent(history, windowSize);
      var values := NonNull(recent);
      CheckAnomalies(userId, sensorType, history, windowSize, multiplier).Some? <==>
        && |recent| >= windowSize
        && |values| >= windowSize
        && |values| >= 2
        && values[0] > Mean(values[1..]) + multiplier * sd
  {
    var recent := FetchRecent(history, windowSize);
    var values := NonNull(recent);
    if |recent| >= windowSize && |values| >= windowSize && |values| >= 2 {
      assert Baseline(values, windowSize) == values[1..];
      ExceedsMeaning(values[0], Threshold(Mean(values[1..]), multiplier, Variance(values[1..])), sd);
    }
  }
}
