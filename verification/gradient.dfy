/**
 * `grad_check`: do all columns of a table rise, or all fall, between two bars?
 *
 * The table is a sequence of rows of equal width. Each column is differenced
 * (the first row's difference is missing), the sign of every difference is
 * taken, and a row gives +1 when every sign is non-negative and -1 when every
 * sign is negative; the two tests are added.
 */
module Gradient {
  import opened Series

  /** Every row has the width of the first one, as in a data frame. */
  predicate Rectangular(rows: seq<seq<Value>>) {
    forall i :: 0 <= i < |rows| ==> |rows[i]| == |rows[0]|
  }

  /** `diff()` of column `c` at row `i`: missing on row 0 or when either operand is missing. */
  function Delta(rows: seq<seq<Value>>, i: nat, c: nat): Value
    requires Rectangular(rows) && i < |rows| && c < |rows[0]|
  {
    if i == 0 then None
    else match (rows[i][c], rows[i - 1][c])
      case (Some(x), Some(y)) => Some(x - y)
      case _ => None
  }

  /** `np.sign` of a possibly missing value: a missing value stays missing. */
  function Sign(d: Value): Option<int> {
    match d
    case None => None
    case Some(x) => Some(if x > 0.0 then 1 else if x < 0.0 then -1 else 0)
  }

  /** `np.all(np.sign(diff) >= 0, axis = 1)` at row `i`. */
  predicate AllSignsNonNegative(rows: seq<seq<Value>>, i: nat)
    requires Rectangular(rows) && i < |rows|
  {
    forall c :: 0 <= c < |rows[0]| ==> var s := Sign(Delta(rows, i, c)); s.Some? && s.value >= 0
  }

  /** `np.all(np.sign(diff) < 0, axis = 1)` at row `i`. */
  predicate AllSignsNegative(rows: seq<seq<Value>>, i: nat)
    requires Rectangular(rows) && i < |rows|
  {
    forall c :: 0 <= c < |rows[0]| ==> var s := Sign(Delta(rows, i, c)); s.Some? && s.value < 0
  }

  /** A column value present on both bars that did not go down. */
  predicate Rises(before: Value, after: Value) {
    before.Some? && after.Some? && after.value >= before.value
  }

  /** A column value present on both bars that went strictly down. */
  predicate Falls(before: Value, after: Value) {
    before.Some? && after.Some? && after.value < before.value
  }

  /** Every column is present on rows `i - 1` and `i` and did not go down. */
  predicate AllRise(rows: seq<seq<Value>>, i: nat)
    requires Rectangular(rows) && 0 < i < |rows|
  {
    forall c :: 0 <= c < |rows[0]| ==> Rises(rows[i - 1][c], rows[i][c])
  }

  /** Every column is present on rows `i - 1` and `i` and went strictly down. */
  predicate AllFall(rows: seq<seq<Value>>, i: nat)
    requires Rectangular(rows) && 0 < i < |rows|
  {
    forall c :: 0 <= c < |rows[0]| ==> Falls(rows[i - 1][c], rows[i][c])
  }

  /** The detector at one row: the two `np.all` tests cast to integers and added. */
  function RowSignal(rows: seq<seq<Value>>, i: nat): (v: int)
    requires Rectangular(rows) && i < |rows|
    ensures Ternary(v)
    ensures i == 0 || |rows[0]| == 0 ==> v == 0
    ensures i > 0 && |rows[0]| > 0 ==>
      (v == 1 <==> AllRise(rows, i))
    ensures i > 0 && |rows[0]| > 0 ==>
      (v == -1 <==> AllFall(rows, i))
  {
    RowMeaning(rows, i);
    Bit(AllSignsNonNegative(rows, i)) - Bit(AllSignsNegative(rows, i))
  }

  /** The gradient-sign detector of a rectangular table. */
  function GradCheck(rows: seq<seq<Value>>): (r: seq<int>)
    requires Rectangular(rows)
    ensures |r| == |rows|
    ensures |r| > 0 ==> r[0] == 0
    ensures forall i :: 0 <= i < |r| ==> Ternary(r[i])
    ensures forall i :: 0 < i < |r| && |rows[0]| > 0 ==>
      (r[i] == 1 <==> AllRise(rows, i))
    ensures forall i :: 0 < i < |r| && |rows[0]| > 0 ==>
      (r[i] == -1 <==> AllFall(rows, i))
    ensures |rows| > 0 && |rows[0]| == 0 ==> forall i :: 0 <= i < |r| ==> r[i] == 0
  {
    seq(|rows|, i requires 0 <= i < |rows| => RowSignal(rows, i))
  }

  /** The two per-row tests, read on the raw column values. */
  lemma RowMeaning(rows: seq<seq<Value>>, i: nat)
    requires Rectangular(rows) && i < |rows|
    ensures i == 0 && |rows[0]| > 0 ==> !AllSignsNonNegative(rows, i) && !AllSignsNegative(rows, i)
    ensures i > 0 ==> (AllSignsNonNegative(rows, i) <==> forall c :: 0 <= c < |rows[0]| ==> Rises(rows[i - 1][c], rows[i][c]))
    ensures i > 0 ==> (AllSignsNegative(rows, i) <==> forall c :: 0 <= c < |rows[0]| ==> Falls(rows[i - 1][c], rows[i][c]))
    ensures |rows[0]| > 0 ==> !(AllSignsNonNegative(rows, i) && AllSignsNegative(rows, i))
    ensures |rows[0]| == 0 ==> AllSignsNonNegative(rows, i) && AllSignsNegative(rows, i)
  {
    if i == 0 && |rows[0]| > 0 {
      assert Sign(Delta(rows, i, 0)).None?;
    }
    if i > 0 {
      forall c | 0 <= c < |rows[0]|
        ensures (var s := Sign(Delta(rows, i, c)); s.Some? && s.value >= 0) <==> Rises(rows[i - 1][c], rows[i][c])
        ensures (var s := Sign(Delta(rows, i, c)); s.Some? && s.value < 0) <==> Falls(rows[i - 1][c], rows[i][c])
      {
      }
    }
    if |rows[0]| > 0 {
      var s := Sign(Delta(rows, i, 0));
      assert !(s.Some? && s.value >= 0 && s.value < 0);
    }
  }

  /** A single column: after the first bar, a present pair of values is always classified +1 or -1. */
  lemma SingleColumnNeverMixed(column: seq<Value>, i: nat)
    requires 0 < i < |column| && column[i - 1].Some? && column[i].Some?
    ensures var rows := seq(|column|, j requires 0 <= j < |column| => [column[j]]);
            Rectangular(rows) && GradCheck(rows)[i] != 0
  {
  }

  /** A missing value in any column, on either bar, gives 0. */
  lemma MissingValueRowIsZero(rows: seq<seq<Value>>, i: nat, c: nat)
    requires Rectangular(rows) && 0 < i < |rows| && c < |rows[0]|
    requires rows[i - 1][c].None? || rows[i][c].None?
    ensures GradCheck(rows)[i] == 0
  {
    assert !Rises(rows[i - 1][c], rows[i][c]) && !Falls(rows[i - 1][c], rows[i][c]);
  }

  /** One column rising while another falls gives 0. */
  lemma MixedRowIsZero(rows: seq<seq<Value>>, i: nat, c: nat, d: nat)
    requires Rectangular(rows) && 0 < i < |rows| && c < |rows[0]| && d < |rows[0]|
    requires Rises(rows[i - 1][c], rows[i][c]) && Falls(rows[i - 1][d], rows[i][d])
    ensures GradCheck(rows)[i] == 0
  {
  }
}
