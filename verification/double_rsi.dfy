/**
 * The `double_rsi` scan, from the two RSI columns and the local extrema
 * positions to the {-1, 0, +1} trade signal.
 *
 * The RSI columns and the extrema positions are inputs: the indicator library
 * and the extrema utility that produce them are not part of this model.
 */
module DoubleRsi {
  import opened Series
  import Threshold
  import CrossoverFixed
  import HigherTrend
  import TrendTracker

  /**
   * The columns the scan reads, one entry per bar: the slow and fast RSI, and
   * whether the extrema utility reported a local maximum / minimum of the
   * fast RSI at that bar.
   */
  datatype Bars = Bars(rsiSlow: seq<Value>, rsiFast: seq<Value>, isLocalMax: seq<bool>, isLocalMin: seq<bool>)
  {
    predicate Aligned() {
      |rsiSlow| == |rsiFast| && |isLocalMax| == |rsiFast| && |isLocalMin| == |rsiFast|
    }
  }

  /** The columns the scan adds to the table. */
  datatype Scan = Scan(
    rsiThreshold: seq<int>,
    lowLimit: seq<bool>,
    highLimit: seq<bool>,
    fastSignal: seq<int>,
    localMax: seq<Value>,
    localMin: seq<Value>,
    trendMin: seq<Value>,
    trendMax: seq<Value>,
    higherHigh: seq<bool>,
    higherLow: seq<bool>,
    signal: seq<int>)
  {
    /** Every added column has one entry per bar. */
    predicate HasLength(n: nat) {
      && |rsiThreshold| == n && |lowLimit| == n && |highLimit| == n && |fastSignal| == n
      && |localMax| == n && |localMin| == n && |trendMin| == n && |trendMax| == n
      && |higherHigh| == n && |higherLow| == n && |signal| == n
    }
  }

  /** `shift(1)`: every value moves one bar later and bar 0 becomes missing. */
  function Shift(s: seq<Value>): (r: seq<Value>)
    ensures |r| == |s|
    ensures |r| > 0 ==> r[0].None?
    ensures forall i :: 0 < i < |s| ==> r[i] == s[i - 1]
  {
    if |s| == 0 then [] else [None] + s[..|s| - 1]
  }

  /** RSI Low Limit: the fast RSI of the previous bar is below the low threshold. */
  function LowLimit(rsiFast: seq<Value>, low: real): (r: seq<bool>)
    ensures |r| == |rsiFast|
    ensures |r| > 0 ==> !r[0]
    ensures forall i :: 0 < i < |r| ==> (r[i] <==> rsiFast[i - 1].Some? && rsiFast[i - 1].value < low)
  {
    var previous := Shift(rsiFast);
    seq(|previous|, i requires 0 <= i < |previous| => Below(previous[i], low))
  }

  /** RSI High Limit: the fast RSI of the previous bar is above the high threshold. */
  function HighLimit(rsiFast: seq<Value>, high: real): (r: seq<bool>)
    ensures |r| == |rsiFast|
    ensures |r| > 0 ==> !r[0]
    ensures forall i :: 0 < i < |r| ==> (r[i] <==> rsiFast[i - 1].Some? && rsiFast[i - 1].value > high)
  {
    var previous := Shift(rsiFast);
    seq(|previous|, i requires 0 <= i < |previous| => Above(previous[i], high))
  }

  /** The fast RSI at the reported extrema positions, missing elsewhere. */
  function Candidates(isExtremum: seq<bool>, rsiFast: seq<Value>): (r: seq<Value>)
    requires |isExtremum| == |rsiFast|
    ensures |r| == |rsiFast|
    ensures forall i :: 0 <= i < |r| && isExtremum[i] ==> r[i] == rsiFast[i]
    ensures forall i :: 0 <= i < |r| && r[i].Some? ==> isExtremum[i]
  {
    seq(|rsiFast|, i requires 0 <= i < |rsiFast| => if isExtremum[i] then rsiFast[i] else None)
  }

  /** The extrema filter for maxima: a candidate below the high threshold is dropped. */
  function FilterMaxima(localMax: seq<Value>, high: real): (r: seq<Value>)
    ensures |r| == |localMax|
    ensures forall i :: 0 <= i < |r| ==> (r[i].Some? <==> localMax[i].Some? && localMax[i].value >= high)
    ensures forall i :: 0 <= i < |r| && r[i].Some? ==> r[i] == localMax[i]
  {
    seq(|localMax|, i requires 0 <= i < |localMax| => if Below(localMax[i], high) then None else localMax[i])
  }

  /** The extrema filter for minima: a candidate above the low threshold is dropped. */
  function FilterMinima(localMin: seq<Value>, low: real): (r: seq<Value>)
    ensures |r| == |localMin|
    ensures forall i :: 0 <= i < |r| ==> (r[i].Some? <==> localMin[i].Some? && localMin[i].value <= low)
    ensures forall i :: 0 <= i < |r| && r[i].Some? ==> r[i] == localMin[i]
  {
    seq(|localMin|, i requires 0 <= i < |localMin| => if Above(localMin[i], low) then None else localMin[i])
  }

  /** RSI Trend Max / Min: the slow RSI where a qualified extremum sits, missing elsewhere. */
  function TrendValues(qualified: seq<Value>, rsiSlow: seq<Value>): (r: seq<Value>)
    requires |qualified| == |rsiSlow|
    ensures |r| == |rsiSlow|
    ensures forall i :: 0 <= i < |r| && qualified[i].Some? ==> r[i] == rsiSlow[i]
    ensures forall i :: 0 <= i < |r| && qualified[i].None? ==> r[i].None?
  {
    seq(|rsiSlow|, i requires 0 <= i < |rsiSlow| => if qualified[i].None? then None else rsiSlow[i])
  }

  /** The rule table of one bar: long first, then short, otherwise no action. */
  function Rule(fastSignal: int, higherLow: bool, higherHigh: bool): int {
    if fastSignal == 1 && higherLow then 1
    else if fastSignal == -1 && !higherHigh then -1
    else 0
  }

  /** The signal column. */
  function ComposeSignal(fastSignal: seq<int>, higherLow: seq<bool>, higherHigh: seq<bool>): (r: seq<int>)
    requires |fastSignal| == |higherLow| == |higherHigh|
    ensures |r| == |fastSignal|
    ensures forall i :: 0 <= i < |r| ==> Ternary(r[i])
    ensures forall i :: 0 <= i < |r| ==> (r[i] == 1 <==> fastSignal[i] == 1 && higherLow[i])
    ensures forall i :: 0 <= i < |r| ==> (r[i] == -1 <==> fastSignal[i] == -1 && !higherHigh[i])
  {
    seq(|fastSignal|, i requires 0 <= i < |fastSignal| => Rule(fastSignal[i], higherLow[i], higherHigh[i]))
  }

  /** The whole scan. */
  function RunScan(bars: Bars, thresholdLow: real, thresholdHigh: real): (scan: Scan)
    requires bars.Aligned()
    ensures scan.HasLength(|bars.rsiFast|)
    ensures |bars.rsiFast| > 0 ==> scan.signal[0] == 0
    ensures forall i :: 0 <= i < |scan.signal| ==> Ternary(scan.signal[i])
  {
    // the threshold column is called with the two bounds swapped
    var rsiThreshold := Threshold.IndicatorThreshold(bars.rsiFast, thresholdLow, thresholdHigh);
    var fastSignal := CrossoverFixed.CrossoverFixed(bars.rsiFast, thresholdLow, thresholdHigh);
    var localMax := FilterMaxima(Candidates(bars.isLocalMax, bars.rsiFast), thresholdHigh);
    var localMin := FilterMinima(Candidates(bars.isLocalMin, bars.rsiFast), thresholdLow);
    var trendMin := TrendValues(localMin, bars.rsiSlow);
    var trendMax := TrendValues(localMax, bars.rsiSlow);
    var higherHigh := TrendTracker.Flags(trendMax);
    var higherLow := TrendTracker.Flags(trendMin);
    Scan(
      rsiThreshold,
      LowLimit(bars.rsiFast, thresholdLow),
      HighLimit(bars.rsiFast, thresholdHigh),
      fastSignal,
      localMax,
      localMin,
      trendMin,
      trendMax,
      higherHigh,
      higherLow,
      ComposeSignal(fastSignal, higherLow, higherHigh))
  }

  /**
   * The scan as the source runs it, with the tracker as a loop over the bars;
   * it produces the same columns as `RunScan`.
   */
  method Run(bars: Bars, thresholdLow: real, thresholdHigh: real) returns (scan: Scan)
    requires bars.Aligned()
    ensures scan == RunScan(bars, thresholdLow, thresholdHigh)
  {
    var rsiThreshold := Threshold.IndicatorThreshold(bars.rsiFast, thresholdLow, thresholdHigh);
    var lowLimit := LowLimit(bars.rsiFast, thresholdLow);
    var highLimit := HighLimit(bars.rsiFast, thresholdHigh);
    var fastSignal := CrossoverFixed.CrossoverFixed(bars.rsiFast, thresholdLow, thresholdHigh);
    var localMax := FilterMaxima(Candidates(bars.isLocalMax, bars.rsiFast), thresholdHigh);
    var localMin := FilterMinima(Candidates(bars.isLocalMin, bars.rsiFast), thresholdLow);
    var trendMin := TrendValues(localMin, bars.rsiSlow);
    var trendMax := TrendValues(localMax, bars.rsiSlow);
    var higherHigh, higherLow := TrendTracker.ScanTrends(trendMax, trendMin);
    var signal := ComposeSignal(fastSignal, higherLow, higherHigh);
    scan := Scan(rsiThreshold, lowLimit, highLimit, fastSignal, localMax, localMin,
                 trendMin, trendMax, higherHigh, higherLow, signal);
  }

  /**
   * With the bounds swapped and `low < high`, the threshold column is +1 from
   * the high threshold upward and -1 from the low threshold downward, both
   * inclusive.
   */
  lemma SwappedThresholdColumn(bars: Bars, thresholdLow: real, thresholdHigh: real, i: nat)
    requires bars.Aligned() && i < |bars.rsiFast|
    requires thresholdLow < thresholdHigh
    ensures var x := bars.rsiFast[i];
            var t := RunScan(bars, thresholdLow, thresholdHigh).rsiThreshold[i];
            && (t == 1 <==> x.Some? && x.value >= thresholdHigh)
            && (t == -1 <==> x.Some? && x.value <= thresholdLow)
  {
  }

  /**
   * A bar carries a Trend Max value exactly when it is a reported local
   * maximum whose fast RSI is at or above the high threshold and whose slow
   * RSI is present; the value is the slow RSI. Likewise for Trend Min with the
   * low threshold.
   */
  lemma QualifiedExtrema(bars: Bars, thresholdLow: real, thresholdHigh: real, i: nat)
    requires bars.Aligned() && i < |bars.rsiFast|
    ensures var scan := RunScan(bars, thresholdLow, thresholdHigh);
            var fast := bars.rsiFast[i];
            && (scan.trendMax[i].Some? <==>
                 bars.isLocalMax[i] && fast.Some? && fast.value >= thresholdHigh && bars.rsiSlow[i].Some?)
            && (scan.trendMin[i].Some? <==>
                 bars.isLocalMin[i] && fast.Some? && fast.value <= thresholdLow && bars.rsiSlow[i].Some?)
            && (scan.trendMax[i].Some? ==> scan.trendMax[i] == bars.rsiSlow[i])
            && (scan.trendMin[i].Some? ==> scan.trendMin[i] == bars.rsiSlow[i])
  {
  }

  /**
   * A long signal: the fast RSI crosses up through the (truncated) low
   * threshold without crossing down through the high one, and the last two
   * qualified minima so far show a strictly higher slow RSI.
   */
  lemma LongSignal(bars: Bars, thresholdLow: real, thresholdHigh: real, i: nat)
    requires bars.Aligned() && i < |bars.rsiFast|
    ensures var scan := RunScan(bars, thresholdLow, thresholdHigh);
            scan.signal[i] == 1 <==>
              && 0 < i
              && CrossoverFixed.CrossesUp(bars.rsiFast, Trunc(thresholdLow), i)
              && !CrossoverFixed.CrossesDown(bars.rsiFast, Trunc(thresholdHigh), i)
              && |Present(scan.trendMin[..i + 1])| >= 2
              && HigherTrend.HigherTrend(scan.trendMin[..i + 1])
  {
  }

  /**
   * A short signal: the fast RSI crosses down through the (truncated) high
   * threshold without crossing up through the low one, and the last two
   * qualified maxima so far do not show a strictly higher slow RSI (which
   * includes having fewer than two of them).
   */
  lemma ShortSignal(bars: Bars, thresholdLow: real, thresholdHigh: real, i: nat)
    requires bars.Aligned() && i < |bars.rsiFast|
    ensures var scan := RunScan(bars, thresholdLow, thresholdHigh);
            scan.signal[i] == -1 <==>
              && 0 < i
              && CrossoverFixed.CrossesDown(bars.rsiFast, Trunc(thresholdHigh), i)
              && !CrossoverFixed.CrossesUp(bars.rsiFast, Trunc(thresholdLow), i)
              && !(|Present(scan.trendMax[..i + 1])| >= 2 && HigherTrend.HigherTrend(scan.trendMax[..i + 1]))
  {
  }

  /** Higher Low at every bar lets every fast-signal bar through; Higher High false lets the short through. */
  lemma ComposeExample()
    ensures ComposeSignal([0, 1, 0, -1, 0], [true, true, true, true, true], [false, false, false, false, false])
         == [0, 1, 0, -1, 0]
    ensures ComposeSignal([0, 1, 0, -1, 0], [true, true, true, true, true], [false, false, false, true, true])
         == [0, 1, 0, 0, 0]
  {
  }
}
