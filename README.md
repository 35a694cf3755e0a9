# Streaming sensor anomaly detector

This project models the core of a wearable-sensor monitoring system. The
core is in two parts.

**The streaming detector** is `AnomalyDetector` in
`client/email-anomaly-utils.py`. It keeps one bounded FIFO window per
(user, sensor type) key, a `deque(maxlen=window_size)`:

- `add_value` appends a reading to its key's window.
- Once the window holds at least `window_size // 2` readings, `add_value`
  runs `detect_anomaly`. That method runs four rules on the newest reading:
  - the absolute normal range of the sensor type;
  - the population z-score within the window;
  - the percentage change against the previous reading;
  - a strictly monotone run over the last five readings (`detect_trend`).
- `detect_anomaly` sorts the findings by severity, stably. It returns them
  with the window's mean and standard deviation, or nothing when no rule
  fired.
- `get_statistics` summarises one window.

**The server's moving-average rule** is `check_anomalies` in
`client/server-main.py`. It takes the newest `window_size + 1` readings of
a series, newest first, and drops the missing ones. It compares the newest
reading against the mean plus `threshold_multiplier` standard deviations of
the readings before it. A reading above that threshold gives an Anomaly
record and a notification.

Modules:

- `Options`: the Option datatype.
- `Stats`: sum, mean, population variance, min, max, sorting and median of
  a window. It also proves Samuelson's inequality: every sample lies within
  sqrt(n - 1) standard deviations of the mean.
- `Windows`: the dictionary key and the bounded FIFO.
- `Rules`: the four rules, the ranking, the verdict, and what each rule
  contributes to a verdict.
- `Detector`: the `AnomalyDetector` class. Its `dataWindows` field is a
  `map<string, seq<real>>` that `AddValue` reassigns in place.
- `MovingAverage`: `check_anomalies`, with the database query given as the
  series' newest-first history.

Readings and statistics are `real`, and square roots are not modelled. Every
comparison with a standard deviation is made on squares against the
population variance, which is exact for real numbers. The ghost predicate
`IsStd(sd, v)` ("sd is the non-negative square root of v") relates each
squared rule to the source's own comparison:

- `Rules.ZScoreBridge` covers `|x - mean| / std > t` and `z < 4`.
- `MovingAverage.ExceedsMeaning` covers `x > mean + k * std`.

The verdict and the summary therefore carry the variance where the source
carries the standard deviation. A statistical finding carries the squared
z-score.

Three behaviours of the code are worth stating outright:

- **Cold-start gate.** The gate uses floor division,
  `len(window) >= window_size // 2` (line 204), so with an odd window size
  the first evaluation comes one sample earlier than half the size rounded
  up.
- **Five 10s then 1000.** Five readings of 10 followed by 1000 give no
  statistical finding: in a window of n readings no reading's z-score
  exceeds sqrt(n - 1), and sqrt(5) < 3 (`Rules.NoStatisticalFindingInSmallWindow`,
  `Rules.FiveTensThenThousand`). For sensor type `hr` the reading is caught
  by the absolute range instead (`Rules.ThousandOutOfHeartRateRange`).
- **Trend labels.** The trend labels are "crescente" and "decrescente".

## Model

| member | source | states |
|---|---|---|
| Windows.Key | client/email-anomaly-utils.py:192 | The key `user_id + "_" + sensor_type`; its collisions and its injectivity are stated by `Windows.KeyCollision` and `Windows.KeyInjective`. |
| Stats.Mean | client/email-anomaly-utils.py:231 | np.mean as sum over count; `Stats.MeanInRange` bounds it by min and max, `Stats.ConstantHasZeroVariance` evaluates it on a constant window. |
| Stats.Variance | client/email-anomaly-utils.py:232 | The population variance, the square of np.std; `Stats.SampleDeviationBound` (Samuelson's inequality) and `Stats.ConstantHasZeroVariance` state its properties. |
| Stats.Median | client/email-anomaly-utils.py:328 | np.median: the middle of the sorted copy (`Stats.Sort`), the average of the two middle samples for an even count; `Stats.MedianInRange` bounds it. |
| Rules.CheckAbsolute | client/email-anomaly-utils.py:219-227 | Rule 1; `Rules.AbsoluteReported` states when it fires and what it reports. |
| Rules.CheckStatistical | client/email-anomaly-utils.py:229-244 | Rule 2; `Rules.StatisticalReported` states when it fires, `Rules.ZScoreBridge` ties it to the real z-score, `Rules.NoStatisticalFindingInSmallWindow` shows when it cannot fire. |
| Rules.CheckRapidChange | client/email-anomaly-utils.py:246-268 | Rule 3; `Rules.RapidChangeReported` states when it fires and its severity. |
| Rules.DetectTrend | client/email-anomaly-utils.py:299-313 | detect_trend; `Rules.DetectTrendMeaning` states its three outcomes as iffs with strict monotonicity. |
| Rules.CheckTrend | client/email-anomaly-utils.py:270-281 | Rule 4 over the last five samples; `Rules.TrendReported` states when it fires. |
| Rules.RankBySeverity | client/email-anomaly-utils.py:284-287 | The stable sort by severity; `Rules.RankedNonIncreasing`, `Rules.RankedStable` and `Rules.RankedPermutation` pin it down. |
| Rules.Evaluate | client/email-anomaly-utils.py:283-297 | The result of detect_anomaly; `Rules.VerdictShape`, `Rules.ReportedByType` and the four `Rules.*Reported` lemmas state its contents. |
| MovingAverage.NonNull | client/server-main.py:267 | The non-null readings in their order; `MovingAverage.NewestNonNull` states that its first element is the newest non-null reading. |
| MovingAverage.Baseline | client/server-main.py:272-274 | `values[1:window_size + 1]`; `MovingAverage.DetectionMeaning` states that it is the 1 to window_size readings after the newest. |
| MovingAverage.Exceeds | client/server-main.py:275-278 | `current > moving_avg + multiplier * std` on squares; `MovingAverage.ExceedsMeaning` proves the equivalence. |
| MovingAverage.CheckAnomalies | client/server-main.py:257-289 | check_anomalies with defaults 10 and 2; `MovingAverage.DetectionIff`, `MovingAverage.DetectionMeaning` and `MovingAverage.TooFewReadings` state when it detects and what it records. |
| Windows.KeyCollision | client/email-anomaly-utils.py:192 | The key is plain concatenation, so the pairs ("a_b", "c") and ("a", "b_c") get the same key and share one window. |
| Windows.KeyInjective | client/email-anomaly-utils.py:192 | When neither user id contains '_', equal keys mean equal user ids and equal sensor types. |
| Windows.Slide | client/email-anomaly-utils.py:195-201 | Appending to a deque of maxlen cap gives the last cap samples of old + [v], with v last. A window below cap grows by v; a full window loses its oldest sample. |
| Windows.FeedAllKeepsLast | client/email-anomaly-utils.py:195-201 | After any run of appends, the window is exactly the last cap samples of everything it was given, in arrival order. |
| Windows.FreshWindow | client/email-anomaly-utils.py:194-201 | After n samples a new key's window holds min(n, cap) samples, the last ones. |
| Windows.DefaultFirstEvaluation | client/email-anomaly-utils.py:204-207 | With the default size `DefaultWindowSize` (20), a fresh key is evaluated exactly from its 10th sample on. |
| Detector.AnomalyDetector.constructor | client/email-anomaly-utils.py:167-187 | Stores the window size and the z threshold (defaults 20 and 3), installs the six default sensor ranges, and starts with no windows. |
| Detector.AnomalyDetector.AddValue | client/email-anomaly-utils.py:189-207 | Only the reading's own key changes: its window (empty if the key is new) slides by the value, and every window stays within maxlen. The result is the evaluation of the new window when it holds at least windowSize / 2 (floor) samples, and None otherwise. |
| Detector.AnomalyDetector.DetectAnomaly | client/email-anomaly-utils.py:209-297 | The result is exactly `Evaluate`: the four rules in order, ranked by severity, with the window's mean and variance, or None when no rule fired. |
| Detector.AnomalyDetector.AppendAbsolute | client/email-anomaly-utils.py:219-227 | Appends a high absolute finding exactly when the sensor type has a range and the value is strictly outside it. |
| Detector.AnomalyDetector.AppendStatistical | client/email-anomaly-utils.py:229-244 | Appends the z-score finding of a window of at least 3 samples with positive variance, when the z-score exceeds the threshold. |
| Detector.AnomalyDetector.AppendRapidChange | client/email-anomaly-utils.py:246-268 | Appends the rapid-change finding when the change against the previous sample exceeds the sensor's threshold. |
| Detector.AnomalyDetector.AppendTrend | client/email-anomaly-utils.py:270-281 | Appends a low trend finding when the last five samples form a trend. |
| Detector.AnomalyDetector.GetStatistics | client/email-anomaly-utils.py:315-330 | None exactly when the key is absent or its window is empty. Otherwise: the window's mean, variance, min, max, median and count, with min <= median <= max and min <= mean <= max. |
| Stats.Min | client/email-anomaly-utils.py:326 | The minimum is a sample of the window and no sample is smaller. |
| Stats.Max | client/email-anomaly-utils.py:327 | The maximum is a sample of the window and no sample is larger. |
| Stats.Sort | client/email-anomaly-utils.py:328 | The sorted copy the median is taken from is ascending and a permutation of the window. |
| Stats.MeanInRange | client/email-anomaly-utils.py:324 | The window mean lies between its min and its max. |
| Stats.MedianInRange | client/email-anomaly-utils.py:328 | The median (the middle sample, or the average of the two middle samples) lies between min and max. |
| Stats.ConstantHasZeroVariance | client/email-anomaly-utils.py:231-234 | A window of equal samples has that sample as its mean and zero std. |
| Stats.SampleDeviationBound | client/email-anomaly-utils.py:231-235 | Samuelson's inequality: (x - mean)^2 <= (n - 1) * variance for every sample x of a window of n. |
| Rules.TypeOfDistinguishesKinds | client/email-anomaly-utils.py:224-277 | Two findings have the same 'type' string exactly when the same rule produced them. |
| Rules.ConstantWindowNoStatistical | client/email-anomaly-utils.py:229-236 | A window of equal samples never yields a statistical finding. |
| Rules.ZScoreBridge | client/email-anomaly-utils.py:234-240 | With sd the square root of a positive variance: `abs((x - mean) / sd) > t` iff the squared test fires, and `z < 4` (medium rather than high) iff `z^2 < 16`. |
| Rules.Differences | client/email-anomaly-utils.py:304 | One difference per consecutive pair, each `values[i + 1] - values[i]`. |
| Rules.DetectTrendMeaning | client/email-anomaly-utils.py:299-313 | detect_trend returns "crescente" iff there are at least 3 values, strictly increasing. It returns "decrescente" iff there are at least 3 values, strictly decreasing. It returns None otherwise. |
| Rules.RankedNonIncreasing | client/email-anomaly-utils.py:284-287 | The sorted findings never go up in severity (high 3, medium 2, low 1). |
| Rules.RankedStable | client/email-anomaly-utils.py:284-287 | The sort is stable: the findings of each severity keep their detection order. |
| Rules.RankedPermutation | client/email-anomaly-utils.py:284-287 | The sort drops and adds nothing. |
| Rules.VerdictShape | client/email-anomaly-utils.py:283-297 | No verdict iff none of the four rules fires. A verdict carries the timestamp given, the value, a non-empty list of findings sorted by severity that is a stable permutation of those detected, and the window's mean and variance. |
| Rules.AbsoluteRankedFirst | client/email-anomaly-utils.py:219-287 | When the value is out of range, the absolute finding heads the verdict's list. |
| Rules.ReportedByType | client/email-anomaly-utils.py:217-287 | The findings of one type in a verdict are exactly what that type's rule reported, at most one per type, wherever the sort put it. |
| Rules.AbsoluteReported | client/email-anomaly-utils.py:219-227 | The verdict has an absolute finding iff the sensor type has a range and the value is strictly below its min or above its max. The finding is high and carries that range. |
| Rules.StatisticalReported | client/email-anomaly-utils.py:229-244 | The verdict has a statistical finding iff the window has at least 3 samples, a positive variance, and a z-score above the threshold. The finding carries the mean and the variance, and is medium for z < 4 and high otherwise. |
| Rules.RapidChangeReported | client/email-anomaly-utils.py:246-268 | The verdict has a rapid-change finding iff the window has at least 2 samples and the change against the previous sample exceeds the sensor's threshold (50 for an unknown type). The finding is low below twice the threshold and medium otherwise. |
| Rules.TrendReported | client/email-anomaly-utils.py:270-281 | The verdict has a trend finding iff the window has at least 5 samples and its last five are strictly increasing ("crescente") or strictly decreasing ("decrescente"). The finding is always low. |
| Rules.NoStatisticalFindingInSmallWindow | client/email-anomaly-utils.py:229-244 | For a threshold t >= 0, a sample of a window of n samples never yields a statistical finding when n - 1 <= t^2. (A negative threshold is exceeded by every z-score.) |
| Rules.NoDefaultStatisticalBelowEleven | client/email-anomaly-utils.py:229-244 | With the default threshold 3, windows of up to 10 samples never yield a statistical finding for any of their samples. |
| Rules.FiveTensThenThousand | client/email-anomaly-utils.py:229-244 | 1000 after five readings of 10 gives no statistical finding, since its z-score is sqrt(5). |
| Rules.ThousandOutOfHeartRateRange | client/email-anomaly-utils.py:181 | A heart rate of 1000 is outside the 40-180 range and gives a high absolute finding. |
| MovingAverage.FetchRecent | client/server-main.py:259-262 | The query returns a prefix of the newest-first history: all of it, or exactly window_size + 1 rows. |
| MovingAverage.NewestNonNull | client/server-main.py:267-273 | The first non-null reading of the fetched rows is the newest non-null reading of the whole history. |
| MovingAverage.ExceedsMeaning | client/server-main.py:274-278 | With sd the square root of the variance, the squared comparison holds iff `current > moving_avg + multiplier * sd`, for either sign of the multiplier. |
| MovingAverage.TooFewReadings | client/server-main.py:264-269 | Fewer than window_size fetched rows, or fewer than window_size non-null readings, give no detection. |
| MovingAverage.DetectionMeaning | client/server-main.py:257-289 | A detection is for the newest non-null reading. Its moving average is the mean of the 1 to window_size readings after it, and its threshold is built from their variance and is strictly exceeded. The notification repeats the value and the threshold. For a non-negative multiplier the value is above the moving average. |
| MovingAverage.DetectionIff | client/server-main.py:264-278 | A detection happens exactly when enough rows and non-null readings are present and the newest reading exceeds the mean plus multiplier * sd of the readings after it. |

## Left out

- Square roots: std is handled through the variance, as described above, so the verdict, the summary and the Anomaly record carry the variance. The z-score is reported squared.
- Floating point: NaN, infinities and rounding are not modelled. Readings are exact reals.
- `datetime.now()` is the `now` parameter of `AddValue` and `DetectAnomaly`.
- The `message` strings of the findings are not modelled; they are display text built from the fields kept.
- Detector.AnomalyDetector.constructor: requires windowSize >= 1. `deque(maxlen=0)` keeps nothing, and the source would then take the mean of an empty window (NaN).
- Detector.AnomalyDetector.DetectAnomaly: requires a non-empty window. Its only caller, `add_value`, always passes the window it has just appended to.
- MovingAverage.CheckAnomalies: requires windowSize >= 1. With `window_size = 0` and no readings, `values[0]` raises in the source.
- An empty baseline is modelled as no detection. This happens with `window_size = 1` and a single reading: the source's threshold is then NaN, and the comparison with NaN is false.
- The in-place `list.sort` is modelled by its result: the stable sort as three filtered buckets, high, medium and low.
- The deque that is mutated in place is modelled by reassigning the key's entry in the `dataWindows` map. No window is shared between keys, so no aliasing is lost.
- The user id is a string in the detector's key and an integer in the Anomaly record, as in the two source files.
- `send_anomaly_notification` is modelled only by its arguments (the `Notification` value). Its user lookup and its console message are not modelled.
- `db.session.add` is modelled by returning the Anomaly record.
- `EmailNotifier` in `client/email-anomaly-utils.py`, the other functions of `client/server-main.py`, `server/app.py`, `server/check_db.py` and the client scripts are not part of this model. They are I/O and web plumbing around the two parts modelled here.
- Concurrency: nothing models concurrent calls on the detector. The source has no locking.
