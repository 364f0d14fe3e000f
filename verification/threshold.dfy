/**
 * `indicator_threshold`: +1 above an upper bound, -1 below a lower bound.
 *
 * The result is `(x > upper) - (x < lower)` per bar. The bounds are not
 * checked against each other, so with `upper < lower` both terms can fire and
 * cancel.
 */
module Threshold {
  import opened Series

  /** The classification of one value. */
  function Level(x: Value, upper: real, lower: real): (v: int)
    ensures Ternary(v)
    ensures v == 1 ==> Above(x, upper)
    ensures v == -1 ==> Below(x, lower)
    ensures x.None? ==> v == 0
    ensures upper >= lower ==> (v == 1 <==> Above(x, upper)) && (v == -1 <==> Below(x, lower))
  {
    Bit(Above(x, upper)) - Bit(Below(x, lower))
  }

  /** The detector over a whole column. */
  function IndicatorThreshold(column: seq<Value>, upper: real, lower: real): (r: seq<int>)
    ensures |r| == |column|
    ensures forall i :: 0 <= i < |r| ==> r[i] == Level(column[i], upper, lower)
  {
    seq(|column|, i requires 0 <= i < |column| => Level(column[i], upper, lower))
  }

  /** A value equal to a bound is never classified past it. */
  lemma BoundsAreStrict(upper: real, lower: real)
    ensures Level(Some(upper), upper, lower) != 1
    ensures Level(Some(lower), upper, lower) != -1
  {
  }

  /** With crossed bounds, a value strictly between them gets both terms, which cancel. */
  lemma CrossedBoundsCancel(x: real, upper: real, lower: real)
    requires upper < x < lower
    ensures Level(Some(x), upper, lower) == 0
  {
  }

  /**
   * With crossed bounds (`upper < lower`) the classes become inclusive and
   * swap roles: +1 from `lower` upward, -1 from `upper` downward.
   */
  lemma CrossedBoundsClasses(x: Value, upper: real, lower: real)
    requires upper < lower
    ensures Level(x, upper, lower) == 1 <==> x.Some? && x.value >= lower
    ensures Level(x, upper, lower) == -1 <==> x.Some? && x.value <= upper
  {
  }

  /** The detector is elementwise: it distributes over concatenation of columns. */
  lemma IndicatorThresholdSplits(a: seq<Value>, b: seq<Value>, upper: real, lower: real)
    ensures IndicatorThreshold(a + b, upper, lower)
         == IndicatorThreshold(a, upper, lower) + IndicatorThreshold(b, upper, lower)
  {
  }
}
