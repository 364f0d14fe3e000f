/**
 * `higher_trend`: is the last present value of a column strictly higher than
 * the one before it?
 *
 * Missing values are dropped first; the column must keep at least two values,
 * otherwise the source indexes past the start of the filtered array.
 */
module HigherTrend {
  import opened Series

  /** The last element of a non-empty sequence. */
  function Last(p: seq<real>): real
    requires |p| > 0
  {
    p[|p| - 1]
  }

  /** Last present value strictly above the second-to-last present value. */
  function HigherTrend(column: seq<Value>): bool
    requires |Present(column)| >= 2
  {
    var x := Present(column);
    x[|x| - 1] > x[|x| - 2]
  }

  /** Two equal last values are not a higher trend. */
  lemma TieIsNotHigher(column: seq<Value>, v: real)
    ensures |Present(column + [Some(v), Some(v)])| >= 2
    ensures !HigherTrend(column + [Some(v), Some(v)])
  {
  }

  /** Appending a present value compares it with the last present value before it. */
  lemma AppendValue(column: seq<Value>, v: real)
    requires |Present(column)| >= 1
    ensures |Present(column + [Some(v)])| >= 2
    ensures HigherTrend(column + [Some(v)]) <==> Last(Present(column)) < v
  {
  }

  /** A missing value inserted anywhere leaves the result unchanged. */
  lemma MissingValueIgnored(before: seq<Value>, after: seq<Value>)
    requires |Present(before + after)| >= 2
    ensures |Present(before + [None] + after)| >= 2
    ensures HigherTrend(before + [None] + after) == HigherTrend(before + after)
  {
    PresentSkipsMissing(before, after);
  }
}
