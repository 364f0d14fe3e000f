/**
 * Aligned bar series with explicit missing values.
 *
 * Every column of the scanned table is a sequence with one entry per bar. A
 * pandas NaN is `None`; every comparison that involves `None` is false, as
 * numpy compares NaN.
 */
module Series {

  /** A value that may be absent. */
  datatype Option<+T> = None | Some(value: T)

  /** One bar of a numeric column; `None` is NaN. */
  type Value = Option<real>

  /** `a > b` on two columns: false as soon as either side is missing. */
  predicate Greater(a: Value, b: Value) {
    a.Some? && b.Some? && a.value > b.value
  }

  /** `a > c` against a scalar: false when `a` is missing. */
  predicate Above(a: Value, c: real) {
    a.Some? && a.value > c
  }

  /** `a < c` against a scalar: false when `a` is missing. */
  predicate Below(a: Value, c: real) {
    a.Some? && a.value < c
  }

  /** A boolean column cast to integers (`astype(int)`). */
  function Bit(b: bool): int {
    if b then 1 else 0
  }

  /** The alphabet of every detector and signal column. */
  predicate Ternary(x: int) {
    -1 <= x <= 1
  }

  /** A column holding the same present value at every bar. */
  function Constant(n: nat, c: real): (s: seq<Value>)
    ensures |s| == n
    ensures forall i :: 0 <= i < n ==> s[i] == Some(c)
  {
    seq(n, i requires 0 <= i < n => Some(c))
  }

  /** The present values of a column in bar order (`x[~np.isnan(x)]`). */
  function Present(s: seq<Value>): (p: seq<real>)
    ensures |p| <= |s|
    ensures forall v :: v in p ==> Some(v) in s
    ensures forall i :: 0 <= i < |s| && s[i].Some? ==> s[i].value in p
  {
    if |s| == 0 then []
    else
      var init := s[..|s| - 1];
      assert forall x :: x in init ==> x in s;
      Present(init) + (match s[|s| - 1] case Some(v) => [v] case None => [])
  }

  /** Dropping missing values commutes with concatenation. */
  lemma {:induction false} PresentConcat(a: seq<Value>, b: seq<Value>)
    ensures Present(a + b) == Present(a) + Present(b)
  {
    if |b| == 0 {
      assert a + b == a;
    } else {
      var b' := b[..|b| - 1];
      assert (a + b)[..|a + b| - 1] == a + b';
      PresentConcat(a, b');
    }
  }

  /** A missing value between two stretches contributes nothing. */
  lemma PresentSkipsMissing(before: seq<Value>, after: seq<Value>)
    ensures Present(before + [None] + after) == Present(before + after)
  {
    var gap: seq<Value> := [None];
    assert Present(gap) == [] by {
      assert gap[..0] == [];
    }
    PresentConcat(before, gap);
    PresentConcat(before + gap, after);
    PresentConcat(before, after);
  }

  /** Only present values survive: a column of present values keeps all of them. */
  lemma {:induction false} PresentOfAllPresent(s: seq<Value>)
    requires forall i :: 0 <= i < |s| ==> s[i].Some?
    ensures |Present(s)| == |s|
    ensures forall i :: 0 <= i < |s| ==> Present(s)[i] == s[i].value
  {
    if |s| > 0 {
      PresentOfAllPresent(s[..|s| - 1]);
    }
  }

  /**
   * A real threshold stored in a numpy integer array: the fractional part is
   * dropped, rounding toward zero.
   */
  function Trunc(x: real): (n: int)
    ensures 0.0 <= x ==> n as real <= x < n as real + 1.0
    ensures x < 0.0 ==> n as real - 1.0 < x <= n as real
  {
    if x >= 0.0 then x.Floor else -((-x).Floor)
  }

  /** The sum of an integer column. */
  function Sum(s: seq<int>): int {
    if |s| == 0 then 0 else Sum(s[..|s| - 1]) + s[|s| - 1]
  }
}
