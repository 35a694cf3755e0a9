/** The streaming detector object: one bounded window per (user, sensor)
    key, updated in place by `AddValue`, evaluated by `DetectAnomaly` and
    summarised by `GetStatistics`. */
module Detector {
  import opened Options
  import opened Stats
  import opened Windows
  import opened Rules

  /** The default of `z_threshold`; the default window size is
      `Windows.DefaultWindowSize`. */
  const DefaultZThreshold: real := 3.0

  /** The dictionary get_statistics returns; the variance stands in for the
      standard deviation. */
  datatype Summary = Summary(mean: real, variance: real, min: real, max: real, median: real, count: nat)

  class AnomalyDetector {
    const windowSize: nat
    const zThreshold: real
    const sensorThresholds: map<string, Bounds>
    var dataWindows: map<string, seq<real>>

    /** Every window is bounded by the deque's maxlen. */
    ghost predicate Valid()
      reads this
    {
      windowSize >= 1 && forall key | key in dataWindows :: |dataWindows[key]| <= windowSize
    }

    constructor (windowSize: nat := DefaultWindowSize, zThreshold: real := DefaultZThreshold)
      requires windowSize >= 1
      ensures Valid()
      ensures this.windowSize == windowSize && this.zThreshold == zThreshold
      ensures sensorThresholds == DefaultSensorThresholds
      ensures dataWindows == map[]
    {
      this.windowSize := windowSize;
      this.zThreshold := zThreshold;
      sensorThresholds := DefaultSensorThresholds;
      dataWindows := map[];
    }

    /** The window of a key, empty when the key has none yet. */
    function WindowOf(key: string): seq<real>
      reads this
    {
      if key in dataWindows then dataWindows[key] else []
    }

    /** Appends the value to its key's window (creating the window on first
        use, evicting the oldest sample when full) and evaluates the window
        once it holds at least windowSize / 2 samples. No other window
        changes. */
    method AddValue(userId: string, sensorType: string, value: real, now: Timestamp) returns (r: Option<Verdict>)
      requires Valid()
      modifies this
      ensures Valid()
      ensures var key := Key(userId, sensorType);
        dataWindows == old(dataWindows)[key := Slide(old(WindowOf(key)), value, windowSize)]
      ensures var w := dataWindows[Key(userId, sensorType)];
        && w == LastN(old(WindowOf(Key(userId, sensorType))) + [value], windowSize)
        && r == if Warm(w, windowSize) then Evaluate(sensorThresholds, zThreshold, sensorType, value, w, now)
                else None
    {
      var key := Key(userId, sensorType);
      if key !in dataWindows {
        dataWindows := dataWindows[key := []];
      }
      var window := dataWindows[key];
      window := Slide(window, value, windowSize);
      dataWindows := dataWindows[key := window];
      if |window| >= windowSize / 2 {
        r := DetectAnomaly(sensorType, value, window, now);
      } else {
        r := None;
      }
    }

    /** Runs the four rules in order, appending each finding, ranks the list
        by severity and wraps it with the window's statistics. */
    method DetectAnomaly(sensorType: string, currentValue: real, window: seq<real>, now: Timestamp)
      returns (r: Option<Verdict>)
      requires |window| > 0
      ensures r == Evaluate(sensorThresholds, zThreshold, sensorType, currentValue, window, now)
    {
      var anomalies: seq<Finding> := [];
      anomalies := AppendAbsolute(anomalies, sensorType, currentValue);
      anomalies := AppendStatistical(anomalies, currentValue, window);
      anomalies := AppendRapidChange(anomalies, sensorType, currentValue, window);
      anomalies := AppendTrend(anomalies, window);
      assert anomalies == Findings(sensorThresholds, zThreshold, sensorType, currentValue, window) by {
        assert [] + Maybe(CheckAbsolute(sensorThresholds, sensorType, currentValue))
               == Maybe(CheckAbsolute(sensorThresholds, sensorType, currentValue));
      }

      if |anomalies| > 0 {
        anomalies := RankBySeverity(anomalies);
        r := Some(Verdict(now, currentValue, anomalies, Mean(window), Variance(window)));
      } else {
        r := None;
      }
    }

    /** Rule 1: a high finding when the value leaves its sensor's range. */
    method AppendAbsolute(anomalies: seq<Finding>, sensorType: string, currentValue: real)
      returns (r: seq<Finding>)
      ensures r == anomalies + Maybe(CheckAbsolute(sensorThresholds, sensorType, currentValue))
    {
      r := anomalies;
      if sensorType in sensorThresholds {
        var b := sensorThresholds[sensorType];
        if currentValue < b.min || currentValue > b.max {
          r := r + [AbsoluteThreshold(b.min, b.max, High)];
        }
      }
    }

    /** Rule 2: the z-score of the value within a window of at least three. */
    method AppendStatistical(anomalies: seq<Finding>, currentValue: real, window: seq<real>)
      returns (r: seq<Finding>)
      ensures r == anomalies + Maybe(CheckStatistical(zThreshold, currentValue, window))
    {
      r := anomalies;
      if |window| >= 3 {
        var mean := Mean(window);
        var variance := Variance(window);
        if variance > 0.0 {
          var zSquared := Square(currentValue - mean) / variance;
          if ZExceeds(zSquared, zThreshold) {
            var severity := if zSquared < 16.0 then Medium else High;
            r := r + [Statistical(zSquared, mean, variance, severity)];
          }
        }
      }
    }

    /** Rule 3: the relative change against the previous sample. */
    method AppendRapidChange(anomalies: seq<Finding>, sensorType: string, currentValue: real, window: seq<real>)
      returns (r: seq<Finding>)
      ensures r == anomalies + Maybe(CheckRapidChange(sensorType, currentValue, window))
    {
      r := anomalies;
      if |window| >= 2 {
        var prev := window[|window| - 2];
        var changeRate := ChangeRate(currentValue, prev);
        var threshold := RapidChangeThreshold(sensorType);
        if changeRate > threshold {
          var severity := if changeRate < threshold * 2.0 then Low else Medium;
          r := r + [RapidChange(changeRate, severity)];
        }
      }
    }

    /** Rule 4: a monotone run over the last five samples. */
    method AppendTrend(anomalies: seq<Finding>, window: seq<real>) returns (r: seq<Finding>)
      ensures r == anomalies + Maybe(CheckTrend(window))
    {
      r := anomalies;
      if |window| >= 5 {
        var trend := DetectTrend(window[|window| - 5..]);
        if trend.Some? {
          r := r + [Trend(trend.value, Low)];
        }
      }
    }

    /** The summary of one window: None for an absent key or an empty
        window; otherwise the window's aggregates, ordered as min <= median
        <= max and min <= mean <= max. Reads the windows only. */
    function GetStatistics(userId: string, sensorType: string): (r: Option<Summary>)
      reads this
      ensures var key := Key(userId, sensorType);
        r.None? <==> key !in dataWindows || dataWindows[key] == []
      ensures r.Some? ==>
        var w := dataWindows[Key(userId, sensorType)];
        && r.value == Summary(Mean(w), Variance(w), Min(w), Max(w), Median(w), |w|)
        && r.value.min <= r.value.median <= r.value.max
        && r.value.min <= r.value.mean <= r.value.max
    {
      var key := Key(userId, sensorType);
      if key !in dataWindows || |dataWindows[key]| == 0 then None
      else
        var w := dataWindows[key];
        MeanInRange(w);
        MedianInRange(w);
        Some(Summary(Mean(w), Variance(w), Min(w), Max(w), Median(w), |w|))
    }
  }
}
