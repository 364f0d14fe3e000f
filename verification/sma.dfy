/**
 * `simple_moving_average`: the trailing mean over `period` bars.
 *
 * A bar gets a mean only when its trailing window holds `period` bars and
 * none of them is missing; the first `period - 1` bars are missing. Over
 * `real` the mean is exact.
 */
module Sma {
  import opened Series

  /** No value of the window is missing. */
  predicate AllPresent(w: seq<Value>) {
    forall j :: 0 <= j < |w| ==> w[j].Some?
  }

  /** A missing value contributes nothing to a running sum. */
  function Val(x: Value): real {
    match x
    case Some(v) => v
    case None => 0.0
  }

  /** The sum of the present values of a window. */
  function PresentSum(w: seq<Value>): real {
    if |w| == 0 then 0.0 else PresentSum(w[..|w| - 1]) + Val(w[|w| - 1])
  }

  /** The number of present values of a window (the observations pandas counts). */
  function PresentCount(w: seq<Value>): nat {
    if |w| == 0 then 0 else PresentCount(w[..|w| - 1]) + Bit(w[|w| - 1].Some?)
  }

  /** The mean written at bar `i`: defined only for a full window with no missing value. */
  function MeanAt(period: nat, data: seq<Value>, i: nat): Value
    requires i < |data|
  {
    if period == 0 || i + 1 < period then None
    else
      var w := data[i + 1 - period..i + 1];
      if AllPresent(w) then Some(PresentSum(w) / period as real) else None
  }

  /** The moving-average column. */
  function SimpleMovingAverage(period: nat, data: seq<Value>): (r: seq<Value>)
    ensures |r| == |data|
    ensures forall i :: 0 <= i < |r| && i + 1 < period ==> r[i].None?
    ensures period == 0 ==> forall i :: 0 <= i < |r| ==> r[i].None?
    ensures forall i :: 0 < period <= i + 1 <= |r| ==>
      (r[i].Some? <==> AllPresent(data[i + 1 - period..i + 1]))
    ensures forall i :: 0 < period <= i + 1 <= |r| && r[i].Some? ==>
      r[i].value * period as real == PresentSum(data[i + 1 - period..i + 1])
  {
    seq(|data|, i requires 0 <= i < |data| => MeanAt(period, data, i))
  }

  /** Taking the first value off a window. */
  lemma {:induction false} DropFirst(w: seq<Value>)
    requires |w| > 0
    ensures PresentSum(w) == Val(w[0]) + PresentSum(w[1..])
    ensures PresentCount(w) == Bit(w[0].Some?) + PresentCount(w[1..])
  {
    if |w| > 1 {
      DropFirst(w[..|w| - 1]);
      assert w[..|w| - 1][1..] == w[1..][..|w[1..]| - 1];
    } else {
      assert w[..0] == [] && w[1..] == [];
    }
  }

  /** A window has as many observations as bars exactly when nothing in it is missing. */
  lemma {:induction false} FullCountMeansAllPresent(w: seq<Value>)
    ensures PresentCount(w) <= |w|
    ensures PresentCount(w) == |w| <==> AllPresent(w)
  {
    if |w| > 0 {
      var init := w[..|w| - 1];
      FullCountMeansAllPresent(init);
      assert AllPresent(w) <==> AllPresent(init) && w[|w| - 1].Some?;
    }
  }

  /** The first bar of the trailing window of `period` bars that ends before bar `i`. */
  function WindowStart(period: nat, i: nat): nat {
    if i >= period then i - period else 0
  }

  /** Moving the window one bar forward: bar `i` enters and, once the window is full, bar `i - period` leaves. */
  lemma Advance(period: nat, data: seq<Value>, i: nat)
    requires i < |data|
    ensures var lo, lo' := WindowStart(period, i), WindowStart(period, i + 1);
            var leaving := if i >= period then data[i - period] else None;
            && PresentSum(data[lo'..i + 1]) == PresentSum(data[lo..i]) + Val(data[i]) - Val(leaving)
            && PresentCount(data[lo'..i + 1]) == PresentCount(data[lo..i]) + Bit(data[i].Some?) - Bit(leaving.Some?)
  {
    var lo := WindowStart(period, i);
    assert data[lo..i + 1][..i - lo] == data[lo..i];
    if i >= period {
      DropFirst(data[lo..i + 1]);
      assert data[lo..i + 1][1..] == data[lo + 1..i + 1];
    }
  }

  /** The mean read off the running sum and count of a full window. */
  lemma MeanFromRunningTotals(period: nat, data: seq<Value>, i: nat)
    requires 0 < period <= i + 1 <= |data|
    ensures var w := data[i + 1 - period..i + 1];
            MeanAt(period, data, i) == if PresentCount(w) == period then Some(PresentSum(w) / period as real) else None
  {
    FullCountMeansAllPresent(data[i + 1 - period..i + 1]);
  }

  /** The moving-average column up to bar `i` is the column before it plus the mean at `i`. */
  lemma ColumnExtends(period: nat, data: seq<Value>, i: nat)
    requires i < |data|
    ensures SimpleMovingAverage(period, data)[..i + 1] == SimpleMovingAverage(period, data)[..i] + [MeanAt(period, data, i)]
  {
  }

  /**
   * The rolling computation: one pass keeping the sum and the count of the
   * present values in the trailing window, adding the bar that enters and
   * removing the bar that leaves. It yields exactly the moving-average column.
   */
  method RollingMean(period: nat, data: seq<Value>) returns (r: seq<Value>)
    ensures r == SimpleMovingAverage(period, data)
  {
    r := [];
    var sum := 0.0;
    var count := 0;
    var i := 0;
    while i < |data|
      invariant i <= |data|
      invariant r == SimpleMovingAverage(period, data)[..i]
      invariant sum == PresentSum(data[WindowStart(period, i)..i])
      invariant count == PresentCount(data[WindowStart(period, i)..i])
    {
      Advance(period, data, i);
      sum := sum + Val(data[i]);
      count := count + Bit(data[i].Some?);
      if i >= period {
        sum := sum - Val(data[i - period]);
        count := count - Bit(data[i - period].Some?);
      }
      var mean: Value := None;
      if period > 0 && i + 1 >= period {
        MeanFromRunningTotals(period, data, i);
        if count == period {
          mean := Some(sum / period as real);
        }
      }
      ColumnExtends(period, data, i);
      r := r + [mean];
      i := i + 1;
    }
  }

  /** A one-bar window reproduces the column. */
  lemma UnitPeriodIsIdentity(data: seq<Value>)
    ensures SimpleMovingAverage(1, data) == data
  {
    var r := SimpleMovingAverage(1, data);
    forall i | 0 <= i < |data|
      ensures r[i] == data[i]
    {
      var w := data[i..i + 1];
      assert w[..0] == [] && w[0] == data[i];
      assert PresentSum(w) == Val(data[i]);
      assert AllPresent(w) <==> data[i].Some?;
      assert r[i] == MeanAt(1, data, i);
    }
  }

  /** The sum of `k` copies of one present value. */
  lemma {:induction false} ConstantSum(w: seq<Value>, c: real)
    requires forall j :: 0 <= j < |w| ==> w[j] == Some(c)
    ensures AllPresent(w)
    ensures PresentSum(w) == |w| as real * c
  {
    if |w| > 0 {
      ConstantSum(w[..|w| - 1], c);
    }
  }

  /** A constant column averages to itself once the window is full. */
  lemma ConstantColumn(period: nat, n: nat, c: real, i: nat)
    requires 0 < period <= i + 1 <= n
    ensures SimpleMovingAverage(period, Constant(n, c))[i] == Some(c)
  {
    var w := Constant(n, c)[i + 1 - period..i + 1];
    ConstantSum(w, c);
    assert |w| == period;
    assert PresentSum(w) == period as real * c;
    assert period as real * c / period as real == c;
  }

  /**
   * Two neighbouring full windows differ by the bar that entered and the bar
   * that left: `p * mean[i] == p * mean[i - 1] + x[i] - x[i - p]`.
   */
  lemma SlidingWindow(period: nat, data: seq<Value>, i: nat)
    requires 0 < period <= i < |data|
    requires AllPresent(data[i - period..i + 1])
    ensures var r := SimpleMovingAverage(period, data);
            r[i].Some? && r[i - 1].Some?
            && period as real * r[i].value
               == period as real * r[i - 1].value + data[i].value - data[i - period].value
  {
    var all := data[i - period..i + 1];
    assert data[i + 1 - period..i + 1] == all[1..];
    assert data[i - period..i] == all[..|all| - 1];
    DropFirst(all);
    assert all[0] == data[i - period];
    assert all[|all| - 1] == data[i];
  }
}
