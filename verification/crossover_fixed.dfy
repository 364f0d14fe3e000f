/**
 * `crossover_fixed`: crossings of one column through two fixed bands.
 *
 * The thresholds are stored in integer arrays first, so they are truncated
 * toward zero before any comparison. A cross up through the low band gives +1,
 * a cross down through the high band gives -1; the two contributions are
 * computed independently and added.
 */
module CrossoverFixed {
  import opened Series
  import Crossover
  import Threshold

  /** The lead rises strictly above the low band at bar `i`, coming from at or below it, or from a missing value. */
  predicate CrossesUp(lead: seq<Value>, low: int, i: nat)
    requires 0 < i < |lead|
  {
    Above(lead[i], low as real) && !Above(lead[i - 1], low as real)
  }

  /** The lead drops strictly below the high band at bar `i`, coming from at or above it, or from a missing value. */
  predicate CrossesDown(lead: seq<Value>, high: int, i: nat)
    requires 0 < i < |lead|
  {
    Below(lead[i], high as real) && !Below(lead[i - 1], high as real)
  }

  /** The low-band contribution: the first difference of `lead > low` with its -1 steps set to 0. */
  function LowCross(lead: seq<Value>, low: int, i: nat): (c: int)
    requires 0 < i < |lead|
    ensures c == 0 || c == 1
    ensures c == 1 <==> CrossesUp(lead, low, i)
  {
    var d := Bit(Above(lead[i], low as real)) - Bit(Above(lead[i - 1], low as real));
    if d == -1 then 0 else d
  }

  /** The high-band contribution: the first difference of `-(lead < high)` with its +1 steps set to 0. */
  function HighCross(lead: seq<Value>, high: int, i: nat): (c: int)
    requires 0 < i < |lead|
    ensures c == 0 || c == -1
    ensures c == -1 <==> CrossesDown(lead, high, i)
  {
    var d := -Bit(Below(lead[i], high as real)) - -Bit(Below(lead[i - 1], high as real));
    if d == 1 then 0 else d
  }

  /** The summed detector of both bands. */
  function CrossoverFixed(lead: seq<Value>, thresholdLow: real, thresholdHigh: real): (r: seq<int>)
    ensures |r| == |lead|
    ensures |r| > 0 ==> r[0] == 0
    ensures forall i :: 0 <= i < |r| ==> Ternary(r[i])
    ensures forall i :: 0 < i < |r| ==>
      (r[i] == 1 <==> CrossesUp(lead, Trunc(thresholdLow), i) && !CrossesDown(lead, Trunc(thresholdHigh), i))
    ensures forall i :: 0 < i < |r| ==>
      (r[i] == -1 <==> CrossesDown(lead, Trunc(thresholdHigh), i) && !CrossesUp(lead, Trunc(thresholdLow), i))
  {
    var low := Trunc(thresholdLow);
    var high := Trunc(thresholdHigh);
    seq(|lead|, i requires 0 <= i < |lead| =>
      if i == 0 then 0 else LowCross(lead, low, i) + HighCross(lead, high, i))
  }

  /**
   * Both bands fire on the same bar exactly when the previous bar is missing
   * and the current value lies strictly between the truncated bands; the two
   * contributions then cancel.
   */
  lemma BothCrossingsNeedMissingPredecessor(lead: seq<Value>, thresholdLow: real, thresholdHigh: real, i: nat)
    requires 0 < i < |lead|
    ensures CrossesUp(lead, Trunc(thresholdLow), i) && CrossesDown(lead, Trunc(thresholdHigh), i)
        <==> lead[i - 1].None? && lead[i].Some?
             && Trunc(thresholdLow) as real < lead[i].value < Trunc(thresholdHigh) as real
  {
  }

  /**
   * With ordered bands and a present previous bar, the detector reads as the
   * two band crossings on their own.
   */
  lemma CrossoverFixedOrderedBands(lead: seq<Value>, thresholdLow: real, thresholdHigh: real, i: nat)
    requires 0 < i < |lead|
    requires lead[i - 1].Some?
    requires Trunc(thresholdLow) < Trunc(thresholdHigh)
    ensures var r := CrossoverFixed(lead, thresholdLow, thresholdHigh);
            && (r[i] == 1 <==> lead[i].Some? && lead[i - 1].value <= Trunc(thresholdLow) as real < lead[i].value)
            && (r[i] == -1 <==> lead[i].Some? && lead[i].value < Trunc(thresholdHigh) as real <= lead[i - 1].value)
  {
  }

  /**
   * After a missing bar (the end of a warm-up) there is no crossing to detect,
   * yet both bands compare against "not above" / "not below": the bar is
   * classified like `indicator_threshold` with the truncated low band as its
   * upper bound and the truncated high band as its lower bound.
   */
  lemma AfterMissingBar(lead: seq<Value>, thresholdLow: real, thresholdHigh: real, i: nat)
    requires 0 < i < |lead| && lead[i - 1].None?
    ensures CrossoverFixed(lead, thresholdLow, thresholdHigh)[i]
         == Threshold.Level(lead[i], Trunc(thresholdLow) as real, Trunc(thresholdHigh) as real)
  {
  }

  /**
   * The classes after a missing bar, for any bands: each band fires as soon as
   * the bar is on its side of it, and the two contributions are added.
   */
  lemma AfterMissingBarClasses(lead: seq<Value>, thresholdLow: real, thresholdHigh: real, i: nat)
    requires 0 < i < |lead| && lead[i - 1].None?
    ensures var r := CrossoverFixed(lead, thresholdLow, thresholdHigh);
            var low := Trunc(thresholdLow) as real;
            var high := Trunc(thresholdHigh) as real;
            && (r[i] == 1 <==> lead[i].Some? && lead[i].value > low && lead[i].value >= high)
            && (r[i] == -1 <==> lead[i].Some? && lead[i].value < high && lead[i].value <= low)
  {
  }

  /** With equal bands a bar exactly at the band after a missing bar is 0, not +1 or -1. */
  lemma AfterMissingBarEqualBands()
    ensures CrossoverFixed([None, Some(50.0)], 50.0, 50.0) == [0, 0]
  {
  }

  /** The positive part of an integer. */
  function PositivePart(x: int): int {
    if x > 0 then x else 0
  }

  /**
   * The fixed-band detector is the upward half of `crossover` against the
   * constant low band, minus the upward half of `crossover` of the constant
   * high band against the lead.
   */
  lemma {:induction false} CrossoverFixedFromCrossover(lead: seq<Value>, thresholdLow: real, thresholdHigh: real)
    ensures var n := |lead|;
            var low := Constant(n, Trunc(thresholdLow) as real);
            var high := Constant(n, Trunc(thresholdHigh) as real);
            var up := Crossover.Crossover(lead, low);
            var down := Crossover.Crossover(high, lead);
            forall i :: 0 <= i < n ==>
              CrossoverFixed(lead, thresholdLow, thresholdHigh)[i] == PositivePart(up[i]) - PositivePart(down[i])
  {
  }

  /** The low band 20 crossed once, the high band 80 never: a single +1 at bar 1. */
  lemma CrossoverFixedExample()
    ensures CrossoverFixed([Some(10.0), Some(25.0), Some(30.0), Some(15.0), Some(5.0)], 20.0, 80.0)
         == [0, 1, 0, 0, 0]
  {
  }

  /** A fractional low band is truncated: 20.9 behaves as 20, so 20.5 already counts as above it. */
  lemma CrossoverFixedTruncatesBands()
    ensures CrossoverFixed([Some(20.0), Some(20.5)], 20.9, 80.0) == [0, 1]
  {
  }
}
