/**
 * `crossover`: where a lead column crosses a trailing column.
 *
 * The detector is the zero-prepended first difference of the 0/1 indicator
 * "lead is strictly above trailing"; a missing value on either side counts as
 * "not above".
 */
module Crossover {
  import opened Series

  /** The indicator `(lead > trailing).astype(int)` at bar `i`. */
  function AboveBit(lead: seq<Value>, trailing: seq<Value>, i: nat): int
    requires i < |lead| == |trailing|
  {
    Bit(Greater(lead[i], trailing[i]))
  }

  /** +1 where lead crosses above trailing, -1 where it falls back to or below it. */
  function Crossover(lead: seq<Value>, trailing: seq<Value>): (r: seq<int>)
    requires |lead| == |trailing|
    ensures |r| == |lead|
    ensures |r| > 0 ==> r[0] == 0
    ensures forall i :: 0 <= i < |r| ==> Ternary(r[i])
    ensures forall i :: 0 < i < |r| ==>
      (r[i] == 1 <==> Greater(lead[i], trailing[i]) && !Greater(lead[i - 1], trailing[i - 1]))
    ensures forall i :: 0 < i < |r| ==>
      (r[i] == -1 <==> Greater(lead[i - 1], trailing[i - 1]) && !Greater(lead[i], trailing[i]))
  {
    seq(|lead|, i requires 0 <= i < |lead| =>
      if i == 0 then 0 else AboveBit(lead, trailing, i) - AboveBit(lead, trailing, i - 1))
  }

  /**
   * The detector telescopes: summing it up to bar `i` gives the change of the
   * above-indicator between bar 0 and bar `i`.
   */
  lemma {:induction false} CrossoverTelescopes(lead: seq<Value>, trailing: seq<Value>, i: nat)
    requires i < |lead| == |trailing|
    ensures Sum(Crossover(lead, trailing)[..i + 1]) == AboveBit(lead, trailing, i) - AboveBit(lead, trailing, 0)
  {
    var r := Crossover(lead, trailing);
    if i == 0 {
      assert r[..1] == [0];
      assert r[..1][..0] == [];
    } else {
      CrossoverTelescopes(lead, trailing, i - 1);
      assert r[..i + 1][..i] == r[..i];
    }
  }

  /** Between two bars with no crossing, the lead stays on the same side. */
  lemma {:induction false} QuietStretchKeepsSide(lead: seq<Value>, trailing: seq<Value>, j: nat, k: nat)
    requires j <= k < |lead| == |trailing|
    requires forall m :: j < m <= k ==> Crossover(lead, trailing)[m] == 0
    ensures AboveBit(lead, trailing, k) == AboveBit(lead, trailing, j)
  {
    if j < k {
      QuietStretchKeepsSide(lead, trailing, j, k - 1);
      assert Crossover(lead, trailing)[k] == 0;
    }
  }

  /** Consecutive crossings alternate: an upward crossing is always followed by a downward one. */
  lemma CrossoverAlternates(lead: seq<Value>, trailing: seq<Value>, j: nat, k: nat)
    requires j < k < |lead| == |trailing|
    requires Crossover(lead, trailing)[j] != 0 && Crossover(lead, trailing)[k] != 0
    requires forall m :: j < m < k ==> Crossover(lead, trailing)[m] == 0
    ensures Crossover(lead, trailing)[k] == -Crossover(lead, trailing)[j]
  {
    QuietStretchKeepsSide(lead, trailing, j, k - 1);
  }

  /** Ties count as "not above": moving from above to equal is -1, and equal to equal is 0. */
  lemma CrossoverTies()
    ensures Crossover([Some(2.0), Some(1.0), Some(1.0)], [Some(1.0), Some(1.0), Some(1.0)]) == [0, -1, 0]
  {
  }
}
