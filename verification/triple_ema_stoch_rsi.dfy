/**
 * The `triple_ema_stoch_rsi` scan: flag columns and the {-1, 0, +1} signal
 * from three EMAs, an RSI and a stochastic RSI.
 *
 * The EMA, RSI and stochastic RSI columns are inputs: the smoothing and the
 * indicator library that produce them are not part of this model.
 */
module TripleEmaStochRsi {
  import opened Series
  import Gradient
  import Threshold
  import Crossover

  /** The columns the scan reads, one entry per bar. */
  datatype Bars = Bars(
    close: seq<Value>,
    emaSlow: seq<Value>,
    emaMed: seq<Value>,
    emaFast: seq<Value>,
    rsi: seq<Value>,
    stochK: seq<Value>,
    stochD: seq<Value>)
  {
    predicate Aligned() {
      && |emaSlow| == |close| && |emaMed| == |close| && |emaFast| == |close|
      && |rsi| == |close| && |stochK| == |close| && |stochD| == |close|
    }
  }

  /** The thresholds of the scan. */
  datatype Params = Params(rsiUpper: real, stochRsiUpper: real, stochRsiLower: real)

  /** The columns the scan adds to the table. */
  datatype Scan = Scan(
    emaGrad: seq<int>,
    closeAboveEma: seq<int>,
    rsiThreshold: seq<int>,
    stochKThreshold: seq<int>,
    crossover: seq<int>,
    signal: seq<int>)
  {
    /** Every added column has one entry per bar. */
    predicate HasLength(n: nat) {
      && |emaGrad| == n && |closeAboveEma| == n && |rsiThreshold| == n
      && |stochKThreshold| == n && |crossover| == n && |signal| == n
    }
  }

  /** The three EMA columns as the rows of one table, slowest first. */
  function EmaRows(bars: Bars): (rows: seq<seq<Value>>)
    requires bars.Aligned()
    ensures |rows| == |bars.close|
    ensures Gradient.Rectangular(rows)
    ensures |rows| > 0 ==> |rows[0]| == 3
    ensures forall i :: 0 <= i < |rows| ==> rows[i] == [bars.emaSlow[i], bars.emaMed[i], bars.emaFast[i]]
  {
    seq(|bars.close|, i requires 0 <= i < |bars.close| => [bars.emaSlow[i], bars.emaMed[i], bars.emaFast[i]])
  }

  /** `Close > EMA`: 1 where the close is strictly above the fast EMA, 0 otherwise. */
  function CloseAboveEma(close: seq<Value>, emaFast: seq<Value>): (r: seq<int>)
    requires |close| == |emaFast|
    ensures |r| == |close|
    ensures forall i :: 0 <= i < |r| ==> r[i] == 0 || r[i] == 1
    ensures forall i :: 0 <= i < |r| ==>
      (r[i] == 1 <==> close[i].Some? && emaFast[i].Some? && close[i].value > emaFast[i].value)
  {
    seq(|close|, i requires 0 <= i < |close| => Bit(Greater(close[i], emaFast[i])))
  }

  /** The rule table of one bar: long first, then short, otherwise no action. */
  function Rule(emaGrad: int, crossover: int): int {
    if emaGrad == 1 && crossover == 1 then 1
    else if emaGrad == -1 && crossover == -1 then -1
    else 0
  }

  /** The signal column. */
  function ComposeSignal(emaGrad: seq<int>, crossover: seq<int>): (r: seq<int>)
    requires |emaGrad| == |crossover|
    ensures |r| == |emaGrad|
    ensures forall i :: 0 <= i < |r| ==> Ternary(r[i])
    ensures forall i :: 0 <= i < |r| ==> (r[i] == 1 <==> emaGrad[i] == 1 && crossover[i] == 1)
    ensures forall i :: 0 <= i < |r| ==> (r[i] == -1 <==> emaGrad[i] == -1 && crossover[i] == -1)
  {
    seq(|emaGrad|, i requires 0 <= i < |emaGrad| => Rule(emaGrad[i], crossover[i]))
  }

  /** The whole scan. */
  function RunScan(bars: Bars, params: Params): (scan: Scan)
    requires bars.Aligned()
    ensures scan.HasLength(|bars.close|)
    ensures |bars.close| > 0 ==> scan.signal[0] == 0
    ensures forall i :: 0 <= i < |scan.signal| ==> Ternary(scan.signal[i])
  {
    var emaGrad := Gradient.GradCheck(EmaRows(bars));
    var crossover := Crossover.Crossover(bars.stochK, bars.stochD);
    Scan(
      emaGrad,
      CloseAboveEma(bars.close, bars.emaFast),
      Threshold.IndicatorThreshold(bars.rsi, params.rsiUpper, params.rsiUpper),
      Threshold.IndicatorThreshold(bars.stochK, params.stochRsiUpper, params.stochRsiLower),
      crossover,
      ComposeSignal(emaGrad, crossover))
  }

  /** All three EMAs present on both bars and none of them went down. */
  predicate EmasRise(bars: Bars, i: nat)
    requires bars.Aligned() && 0 < i < |bars.close|
  {
    && Gradient.Rises(bars.emaSlow[i - 1], bars.emaSlow[i])
    && Gradient.Rises(bars.emaMed[i - 1], bars.emaMed[i])
    && Gradient.Rises(bars.emaFast[i - 1], bars.emaFast[i])
  }

  /** All three EMAs present on both bars and each went strictly down. */
  predicate EmasFall(bars: Bars, i: nat)
    requires bars.Aligned() && 0 < i < |bars.close|
  {
    && Gradient.Falls(bars.emaSlow[i - 1], bars.emaSlow[i])
    && Gradient.Falls(bars.emaMed[i - 1], bars.emaMed[i])
    && Gradient.Falls(bars.emaFast[i - 1], bars.emaFast[i])
  }

  /** The EMA gradient column read on the three EMA columns. */
  lemma EmaGradMeaning(bars: Bars, i: nat)
    requires bars.Aligned() && 0 < i < |bars.close|
    ensures var g := Gradient.GradCheck(EmaRows(bars))[i];
            (g == 1 <==> EmasRise(bars, i)) && (g == -1 <==> EmasFall(bars, i))
  {
    var rows := EmaRows(bars);
    assert rows[i - 1] == [bars.emaSlow[i - 1], bars.emaMed[i - 1], bars.emaFast[i - 1]];
    assert rows[i] == [bars.emaSlow[i], bars.emaMed[i], bars.emaFast[i]];
    assert (forall c :: 0 <= c < 3 ==> Gradient.Rises(rows[i - 1][c], rows[i][c])) <==> EmasRise(bars, i) by {
      if EmasRise(bars, i) {
        forall c | 0 <= c < 3
          ensures Gradient.Rises(rows[i - 1][c], rows[i][c])
        {
          assert c == 0 || c == 1 || c == 2;
        }
      } else {
        assert !Gradient.Rises(rows[i - 1][0], rows[i][0]) || !Gradient.Rises(rows[i - 1][1], rows[i][1])
            || !Gradient.Rises(rows[i - 1][2], rows[i][2]);
      }
    }
    assert (forall c :: 0 <= c < 3 ==> Gradient.Falls(rows[i - 1][c], rows[i][c])) <==> EmasFall(bars, i) by {
      if EmasFall(bars, i) {
        forall c | 0 <= c < 3
          ensures Gradient.Falls(rows[i - 1][c], rows[i][c])
        {
          assert c == 0 || c == 1 || c == 2;
        }
      } else {
        assert !Gradient.Falls(rows[i - 1][0], rows[i][0]) || !Gradient.Falls(rows[i - 1][1], rows[i][1])
            || !Gradient.Falls(rows[i - 1][2], rows[i][2]);
      }
    }
  }

  /**
   * A long signal: no EMA went down since the previous bar, and the
   * stochastic %K crossed above %D. A short signal: every EMA went strictly
   * down and %K crossed below %D.
   */
  lemma SignalMeaning(bars: Bars, params: Params, i: nat)
    requires bars.Aligned() && 0 < i < |bars.close|
    ensures var s := RunScan(bars, params).signal[i];
            var kAbove := Greater(bars.stochK[i], bars.stochD[i]);
            var kWasAbove := Greater(bars.stochK[i - 1], bars.stochD[i - 1]);
            && (s == 1 <==> EmasRise(bars, i) && kAbove && !kWasAbove)
            && (s == -1 <==> EmasFall(bars, i) && kWasAbove && !kAbove)
  {
    EmaGradMeaning(bars, i);
  }

  /** With both RSI bounds equal, the RSI threshold column is +1 above, -1 below and 0 at the bound or when missing. */
  lemma RsiThresholdEqualBounds(bars: Bars, params: Params, i: nat)
    requires bars.Aligned() && i < |bars.close|
    ensures var t := RunScan(bars, params).rsiThreshold[i];
            var x := bars.rsi[i];
            && (t == 1 <==> x.Some? && x.value > params.rsiUpper)
            && (t == -1 <==> x.Some? && x.value < params.rsiUpper)
            && (t == 0 <==> x.None? || x.value == params.rsiUpper)
  {
  }
}
