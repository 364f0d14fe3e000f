# trade_strat signal engine in Dafny

This project models the signal-composition engine of `trade_strat`, a small
Python library that turns indicator columns of a price table into a
{-1, 0, +1} trade signal. It covers four parts:

* **The detectors.** These are the stateless column transforms:
  * `crossover`: the lead column crosses the trailing column;
  * `crossover_fixed`: a column crosses two fixed bands;
  * `grad_check`: every column of a table rises, or every column falls;
  * `indicator_threshold`: a value is above an upper bound or below a lower bound;
  * `higher_trend`: the last present value is higher than the one before it.
* **The trailing simple moving average.**
* **The `double_rsi` scan.** The scan computes its threshold and limit flags,
  the fast crossover signal, and the extrema zone filter. It projects the slow
  RSI onto the qualified extrema and runs the latched higher-high / higher-low
  tracker. A first-match rule table then produces the signal.
* **The `triple_ema_stoch_rsi` scan.** The scan computes the EMA-gradient,
  close-above-EMA, threshold and crossover columns, then its rule table.

Every column is a Dafny sequence with one entry per bar. A pandas NaN is
`Series.None`. Every comparison with a missing value is false, as numpy
compares NaN. Values are `real`, so sums and means are exact. The stateful
part of the engine is the tracker. It is modelled twice:

* `TrendTracker.Track`, a left fold over a two-field state;
* `TrendTracker.ScanTrends`, a loop written as the source writes it.

The two are proved equal. On every prefix that holds at least two present
values, both give `higher_trend` of that prefix; on a shorter prefix, where
`higher_trend` would index past the start of its array, the flag is false.

Modules follow the source files:

* `Series`: missing values, comparisons, the present-value filter and truncation;
* `Crossover`, `CrossoverFixed`, `Threshold`, `HigherTrend`, `Gradient` and `Sma`: one each for the detector files and `sma.py`;
* `TrendTracker`: the tracker loop of the `double_rsi` scan;
* `DoubleRsi` and `TripleEmaStochRsi`: the two scans.

The external indicator columns are inputs to the model. The extrema positions
are an input too.

## Code over documentation

Where a docstring or a comment disagrees with the code, the model follows the
code:

- `crossover_fixed` gives +1 for a cross up through the low band and -1 for a cross down through the high band (`crossover_fixed.py` lines 45-51). Its docstring (lines 16-17) and the comment at line 43 state the opposite signs.
- The short rule tests "Higher High is false" (`double_rsi.py` line 114). The class docstring (line 17) describes a lower high on a crossing of the low threshold.

Further points of the code that the model keeps:

- The `crossover_fixed` thresholds are written into integer arrays (lines 36-41). They are therefore truncated toward zero before any comparison, which `Series.Trunc` models.
- The extrema filter keeps a local maximum only when it is at or above the high threshold. It keeps a local minimum only when it is at or below the low threshold (`double_rsi.py` lines 69-70).
- `threshold.py` is called at `double_rsi.py` line 59 with the low threshold as the upper bound and the high threshold as the lower bound. `DoubleRsi.SwappedThresholdColumn` states what that column then means.
- No function validates its parameters, and the model has no error cases.
- `grad_check` writes 0 on the first row, because its difference is missing and both of its tests are false.

The code also has a warm-up edge. Suppose the bar before `i` is missing, as at
the end of the fast RSI's warm-up in `double_rsi`. A missing value is neither
above the low band nor below the high band, so each contribution fires as soon
as bar `i` is on its side of its band. Bar `i` is then classified like
`indicator_threshold` with the truncated low band as upper bound and the
truncated high band as lower bound, not by a crossing:

- +1 when the bar is above the truncated low band and at or above the truncated high band;
- -1 when the bar is below the truncated high band and at or below the truncated low band;
- 0 otherwise.

When the truncated low band is below the truncated high band, this reads +1 at
or above the high band, -1 at or below the low band, and 0 in between, where
both contributions fire and cancel. With equal bands the reading differs: with
both bands at 50, a bar at exactly 50 after a missing bar gives 0.
`CrossoverFixed.AfterMissingBar`, `CrossoverFixed.AfterMissingBarClasses`,
`CrossoverFixed.AfterMissingBarEqualBands` and
`CrossoverFixed.BothCrossingsNeedMissingPredecessor` state this exactly. The
docstring (line 23) excludes NaN input.

## Model

| member | source | states |
|---|---|---|
| Series.Present | trade_strat/signals/higher_trend.py:26 | dropping NaN keeps exactly the present values: nothing is invented, and every present value of the column appears |
| Series.PresentConcat | trade_strat/signals/higher_trend.py:26 | dropping missing values commutes with concatenating columns |
| Series.PresentSkipsMissing | trade_strat/signals/higher_trend.py:26 | a missing value between two stretches of a column is dropped without trace |
| Series.PresentOfAllPresent | trade_strat/signals/higher_trend.py:26 | a column with no missing value keeps every value in order |
| Series.Trunc | trade_strat/signals/crossover_fixed.py:36-41 | a threshold stored in an integer array loses its fraction toward zero: for x >= 0, n <= x < n + 1; for x < 0, n - 1 < x <= n |
| Crossover.Crossover | trade_strat/signals/crossover.py:27-32 | the output has the input length and is 0 at bar 0, in {-1,0,1} everywhere; for i > 0 it is +1 iff lead > trailing now and not at i-1, and -1 iff lead > trailing at i-1 and not now (ties and missing values count as not above) |
| Crossover.CrossoverTelescopes | trade_strat/signals/crossover.py:31-32 | summing the output up to bar i gives the above-indicator at i minus the indicator at bar 0 |
| Crossover.QuietStretchKeepsSide | trade_strat/signals/crossover.py:32 | across bars with output 0 the lead stays on the same side of the trailing column |
| Crossover.CrossoverTies | trade_strat/signals/crossover.py:32 | lead 2, 1, 1 against trailing 1, 1, 1 gives [0, -1, 0]: from above to equal is -1, and equal to equal is 0 |
| Crossover.CrossoverAlternates | trade_strat/signals/crossover.py:32 | two consecutive non-zero outputs have opposite signs |
| CrossoverFixed.LowCross | trade_strat/signals/crossover_fixed.py:45-46 | the low-band contribution is in {0,1}, and is 1 exactly where lead > trunc(low) now but not on the previous bar (at or below it, or missing) |
| CrossoverFixed.HighCross | trade_strat/signals/crossover_fixed.py:47-48 | the high-band contribution is in {-1,0}, and is -1 exactly where lead < trunc(high) now but not on the previous bar (at or above it, or missing) |
| CrossoverFixed.CrossoverFixed | trade_strat/signals/crossover_fixed.py:30-51 | the output has the input length and is 0 at bar 0, in {-1,0,1} everywhere; +1 iff a low cross-up without a high cross-down, -1 iff a high cross-down without a low cross-up |
| CrossoverFixed.BothCrossingsNeedMissingPredecessor | trade_strat/signals/crossover_fixed.py:45-51 | both contributions fire on a bar iff the previous bar is missing and trunc(low) < lead < trunc(high); with a present predecessor no bar has both |
| CrossoverFixed.CrossoverFixedOrderedBands | trade_strat/signals/crossover_fixed.py:45-51 | with trunc(low) < trunc(high) and a present predecessor: +1 iff prev <= trunc(low) < cur, and -1 iff cur < trunc(high) <= prev |
| CrossoverFixed.AfterMissingBarClasses | trade_strat/signals/crossover_fixed.py:45-51 | after a missing bar: +1 iff the bar is above trunc(low) and at or above trunc(high); -1 iff it is below trunc(high) and at or below trunc(low), for any bands |
| CrossoverFixed.AfterMissingBarEqualBands | trade_strat/signals/crossover_fixed.py:45-51 | with both bands 50, a bar at 50 after a missing bar gives 0 |
| CrossoverFixed.AfterMissingBar | trade_strat/signals/crossover_fixed.py:45-51 | after a missing bar the output is the threshold classification with the truncated low band as upper bound and the truncated high band as lower bound |
| CrossoverFixed.CrossoverFixedFromCrossover | trade_strat/signals/crossover_fixed.py:36-51 | with the bands as filled constant columns (`Series.Constant`, lines 39-41), the output equals the upward steps of `crossover(lead, low band)` minus the upward steps of `crossover(high band, lead)` |
| CrossoverFixed.CrossoverFixedExample | trade_strat/signals/crossover_fixed.py:45-51 | lead [10,25,30,15,5] with bands 20 and 80 gives [0,1,0,0,0] |
| CrossoverFixed.CrossoverFixedTruncatesBands | trade_strat/signals/crossover_fixed.py:36-41 | a low band of 20.9 acts as 20, so a move from 20 to 20.5 is a cross-up |
| Threshold.Level | trade_strat/signals/threshold.py:24-27 | the classification is in {-1,0,1}; +1 only above upper and -1 only below lower; missing gives 0; with upper >= lower, +1 iff above upper and -1 iff below lower |
| Threshold.IndicatorThreshold | trade_strat/signals/threshold.py:24-27 | the output has the input length, and each bar depends only on that bar's value |
| Threshold.BoundsAreStrict | trade_strat/signals/threshold.py:24-25 | a value equal to upper is never +1, and a value equal to lower is never -1 |
| Threshold.CrossedBoundsCancel | trade_strat/signals/threshold.py:27 | with upper < lower, a value strictly between them gets both terms, and they cancel to 0 |
| Threshold.CrossedBoundsClasses | trade_strat/signals/threshold.py:24-27 | with upper < lower, +1 iff value >= lower and -1 iff value <= upper |
| Threshold.IndicatorThresholdSplits | trade_strat/signals/threshold.py:24-27 | the detector of a concatenation is the concatenation of the detectors |
| HigherTrend.TieIsNotHigher | trade_strat/signals/higher_trend.py:26-27 | any column ending in two equal present values gives false, including a column of just those two |
| HigherTrend.AppendValue | trade_strat/signals/higher_trend.py:26-27 | appending a present value v yields "the previous last present value < v" |
| HigherTrend.MissingValueIgnored | trade_strat/signals/higher_trend.py:26 | inserting a missing value anywhere does not change the result |
| Gradient.RowSignal | trade_strat/indicators/gradient.py:30-41 | one row's value is in {-1,0,1}; 0 on row 0 and with no columns; otherwise +1 iff every column is present on both rows and did not go down, -1 iff every column is present on both rows and went strictly down |
| Gradient.GradCheck | trade_strat/indicators/gradient.py:30-41 | one entry per row, 0 on row 0, in {-1,0,1}; with at least one column, +1 iff every column is present on both rows and did not go down, -1 iff every column is present and went strictly down; with no column, 0 everywhere |
| Gradient.RowMeaning | trade_strat/indicators/gradient.py:30-39 | the sign tests on the differences read as comparisons of raw values; with at least one column the two tests exclude each other |
| Gradient.MissingValueRowIsZero | trade_strat/indicators/gradient.py:30-41 | a missing value in any column on either row gives 0 |
| Gradient.MixedRowIsZero | trade_strat/indicators/gradient.py:37-41 | one column rising while another falls gives 0 |
| Gradient.SingleColumnNeverMixed | trade_strat/indicators/gradient.py:37-41 | a single present column is classified +1 or -1 on every row after the first |
| Sma.SimpleMovingAverage | trade_strat/indicators/sma.py:26-29 | same length; missing before bar p-1 and everywhere when p = 0; from bar p-1 on, present iff the window has no missing value, and then p times the mean is the window sum |
| Sma.DropFirst | trade_strat/indicators/sma.py:29 | a window's sum and count split into its first bar plus the rest |
| Sma.FullCountMeansAllPresent | trade_strat/indicators/sma.py:29 | a window has as many observations as bars exactly when none is missing |
| Sma.Advance | trade_strat/indicators/sma.py:29 | sliding the window adds the entering bar and removes the leaving one |
| Sma.MeanFromRunningTotals | trade_strat/indicators/sma.py:29 | the mean of a full window is sum / p when the count is p, and missing otherwise |
| Sma.RollingMean | trade_strat/indicators/sma.py:29 | the one-pass running-sum computation yields exactly the moving-average column |
| Sma.UnitPeriodIsIdentity | trade_strat/indicators/sma.py:29 | with p = 1 the output equals the input |
| Sma.ConstantSum | trade_strat/indicators/sma.py:29 | a window of k copies of c sums to k * c |
| Sma.ConstantColumn | trade_strat/indicators/sma.py:29 | a constant column c averages to c at every bar from p-1 on |
| Sma.SlidingWindow | trade_strat/indicators/sma.py:29 | for neighbouring full windows, p * mean[i] = p * mean[i-1] + x[i] - x[i-p] |
| TrendTracker.TrackSummarisesPresentValues | trade_strat/strategies/double_rsi.py:81-106 | after any prefix the state holds the last present event, and its flag is true iff there are two events and the last is strictly higher than the one before |
| TrendTracker.Flags | trade_strat/strategies/double_rsi.py:88-110 | the flag written at bar i equals `higher_trend` of the events up to i when there are two of them, and false otherwise |
| TrendTracker.FlagLatchedBetweenEvents | trade_strat/strategies/double_rsi.py:90-110 | a bar without an event keeps the previous bar's flag |
| TrendTracker.FirstEventNeverSetsFlag | trade_strat/strategies/double_rsi.py:77-93 | before the second event the flag is false |
| TrendTracker.FlagAtLaterEvent | trade_strat/strategies/double_rsi.py:94-97 | at every later event the flag is "previous event < this event" |
| TrendTracker.RepeatedEventIsNotHigher | trade_strat/strategies/double_rsi.py:97 | two equal events in a row give false |
| TrendTracker.TrendMaxExample | trade_strat/strategies/double_rsi.py:88-110 | events 90, 88, 95 at bars 2, 5, 9 give false up to bar 8 and true at bar 9 |
| TrendTracker.ScanTrends | trade_strat/strategies/double_rsi.py:77-110 | the loop over both extrema columns writes exactly the two fold columns; each depends only on its own column |
| DoubleRsi.Shift | trade_strat/strategies/double_rsi.py:60-61 | `shift(1)` moves each value one bar later, and bar 0 becomes missing |
| DoubleRsi.LowLimit | trade_strat/strategies/double_rsi.py:60 | false at bar 0; at i > 0, true iff the fast RSI at i-1 is present and below the low threshold |
| DoubleRsi.HighLimit | trade_strat/strategies/double_rsi.py:61 | false at bar 0; at i > 0, true iff the fast RSI at i-1 is present and above the high threshold |
| DoubleRsi.Candidates | trade_strat/strategies/double_rsi.py:66-67 | the candidate column holds the fast RSI at every reported extremum bar and is missing at every other bar |
| DoubleRsi.FilterMaxima | trade_strat/strategies/double_rsi.py:69 | a local max survives iff present and at or above the high threshold, and keeps its value |
| DoubleRsi.FilterMinima | trade_strat/strategies/double_rsi.py:70 | a local min survives iff present and at or below the low threshold, and keeps its value |
| DoubleRsi.TrendValues | trade_strat/strategies/double_rsi.py:73-74 | the slow RSI where a qualified extremum is present, missing elsewhere |
| DoubleRsi.ComposeSignal | trade_strat/strategies/double_rsi.py:112-117 | in {-1,0,1}; +1 iff fast signal 1 and Higher Low; -1 iff fast signal -1 and not Higher High |
| DoubleRsi.RunScan | trade_strat/strategies/double_rsi.py:59-117 | every added column has one entry per bar; the signal is 0 at bar 0 and in {-1,0,1} |
| DoubleRsi.Run | trade_strat/strategies/double_rsi.py:59-117 | the scan with the tracker as a loop produces the same columns as the fold model |
| DoubleRsi.SwappedThresholdColumn | trade_strat/strategies/double_rsi.py:59 | with low < high, the swapped-bounds threshold column is +1 iff fast RSI >= high and -1 iff fast RSI <= low |
| DoubleRsi.QualifiedExtrema | trade_strat/strategies/double_rsi.py:66-74 | Trend Max is present iff the bar is a reported local max with fast RSI >= high and a present slow RSI, and then equals the slow RSI; likewise Trend Min with <= low |
| DoubleRsi.LongSignal | trade_strat/strategies/double_rsi.py:64-117 | signal +1 iff the fast RSI crosses up through trunc(low) without crossing down through trunc(high), and the last two qualified minima so far are strictly rising |
| DoubleRsi.ShortSignal | trade_strat/strategies/double_rsi.py:64-117 | signal -1 iff the fast RSI crosses down through trunc(high) without crossing up through trunc(low), and the last two qualified maxima so far are not strictly rising |
| DoubleRsi.ComposeExample | trade_strat/strategies/double_rsi.py:113-117 | fast signal [0,1,0,-1,0] with Higher Low always true gives [0,1,0,-1,0] when Higher High is false, and [0,1,0,0,0] when Higher High is true from bar 3 |
| TripleEmaStochRsi.EmaRows | trade_strat/strategies/triple_ema_stoch_rsi.py:69 | the three EMA columns form a rectangular three-column table, slowest first |
| TripleEmaStochRsi.CloseAboveEma | trade_strat/strategies/triple_ema_stoch_rsi.py:71 | in {0,1}; 1 iff close and fast EMA are both present and close > fast EMA |
| TripleEmaStochRsi.ComposeSignal | trade_strat/strategies/triple_ema_stoch_rsi.py:76-80 | in {-1,0,1}; +1 iff EMA GRAD 1 and Crossover 1; -1 iff EMA GRAD -1 and Crossover -1 |
| TripleEmaStochRsi.RunScan | trade_strat/strategies/triple_ema_stoch_rsi.py:69-80 | every added column has one entry per bar; the signal is 0 at bar 0 and in {-1,0,1} |
| TripleEmaStochRsi.EmaGradMeaning | trade_strat/strategies/triple_ema_stoch_rsi.py:69 | EMA GRAD is 1 iff no EMA went down, and -1 iff every EMA went strictly down (all present on both bars) |
| TripleEmaStochRsi.SignalMeaning | trade_strat/strategies/triple_ema_stoch_rsi.py:69-80 | long iff no EMA went down and %K crossed above %D; short iff every EMA fell and %K crossed below %D |
| TripleEmaStochRsi.RsiThresholdEqualBounds | trade_strat/strategies/triple_ema_stoch_rsi.py:72 | with both bounds rsi_upper: +1 above it, -1 below it, and 0 exactly at it or when missing |

## Left out

- RSI and stochastic RSI (`pta.rsi`, `pta.stochrsi`): external library calls. Their columns are inputs.
- Local extrema detection (`argrelextrema`, `double_rsi.py` lines 66-67): external. The model takes, per bar, whether the bar was reported as a local max or min. It keeps the source's reindexing of the fast RSI at those bars.
- `indicators/ema.py`: pandas exponential weighting. It is floating-point smoothing whose weighting lives in the library. The EMA columns are inputs.
- `strategies/weekly_stoch_rsi.py`: it only wires library outputs into `indicator_threshold` and `crossover`, which are modelled, and it produces no signal.
- `setup.py`: packaging and file reads.
- Table mechanics: column names, in-place assignment, `iterrows`/`.at` indexing (a unique positional index is assumed) and dtype casts. Columns are aligned sequences instead.
- The `try/except` in `grad_check` that prints and returns `None` when no table is passed (lines 29-34). Calls with no argument are not modelled in any function.
- IEEE floating point: values are exact reals, NaN is the missing value, and infinities are not modelled.
- HigherTrend.HigherTrend: the source raises an index error when fewer than two present values remain. The model makes two present values a precondition instead of modelling the exception.
- Sma.SimpleMovingAverage: negative periods, which pandas rejects with an exception, are excluded by the `nat` type. A period of 0 gives a missing value at every bar, as pandas does for a mean over no observations.
- CrossoverFixed.CrossoverFixed: thresholds are reals, so a NaN or infinite threshold cast to an integer is not modelled, and thresholds outside the int64 range are not modelled either: `fill` into an integer array overflows there, while `Series.Trunc` returns the exact truncation.
