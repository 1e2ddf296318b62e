/** Maximum drawdown as the reports compute it (scripts/hybrid_martingale_frontier_probe.py). */
module Drawdown {
  import opened Common

  /** Highest value up to and including index j. */
  ghost function Peak(values: seq<real>, j: nat): real
    requires j < |values|
  {
    if j == 0 then values[0] else Max(Peak(values, j - 1), values[j])
  }

  /** Loss from `peak` to `value` as a fraction of `peak`, and in percent. */
  function Loss(peak: real, value: real): real
    requires peak > 0.0
  {
    (peak - value) / peak
  }

  function LossPct(peak: real, value: real): real
    requires peak > 0.0
  {
    Loss(peak, value) * 100.0
  }

  /** The loss at time k is exactly dd percent. */
  ghost predicate Attains(values: seq<real>, k: nat, dd: real)
    requires k < |values|
  {
    Peak(values, k) > 0.0 && LossPct(Peak(values, k), values[k]) == dd
  }

  ghost predicate Drop(earlier: real, later: real, d: real) {
    earlier - later <= d / 100.0 * earlier
  }

  /** At no time is the value more than d percent below the running peak. */
  ghost predicate LossesWithin(values: seq<real>, d: real) {
    forall j :: 0 <= j < |values| ==> Drop(Peak(values, j), values[j], d)
  }

  /** The maximum drawdown: the least non-negative allowance that covers the whole curve. */
  ghost predicate IsMaxDrawdown(values: seq<real>, dd: real) {
    && dd >= 0.0
    && LossesWithin(values, dd)
    && forall d :: d >= 0.0 && LossesWithin(values, d) ==> dd <= d
  }

  lemma DropMeansLoss(earlier: real, later: real, d: real)
    requires earlier > 0.0
    ensures Drop(earlier, later, d) <==> LossPct(earlier, later) <= d
  {
    var q := (earlier - later) / earlier;
    assert q * earlier == earlier - later;
    if q * 100.0 <= d {
      assert q <= d / 100.0;
      assert q * earlier <= d / 100.0 * earlier;
    } else {
      assert q > d / 100.0;
      assert q * earlier > d / 100.0 * earlier;
    }
  }

  lemma {:induction false} PeakBound(values: seq<real>, i: nat, j: nat)
    requires i <= j < |values|
    ensures values[i] <= Peak(values, j)
  {
    if i < j {
      PeakBound(values, i, j - 1);
    }
  }

  lemma {:induction false} PeakIsValue(values: seq<real>, j: nat) returns (i: nat)
    requires j < |values|
    ensures i <= j && Peak(values, j) == values[i]
  {
    if j == 0 || values[j] >= Peak(values, j - 1) {
      i := j;
    } else {
      i := PeakIsValue(values, j - 1);
    }
  }

  /** The loss at time k, if there is a peak to lose from. */
  ghost function LossAt(values: seq<real>, k: nat): real
    requires k < |values|
  {
    if Peak(values, k) > 0.0 then LossPct(Peak(values, k), values[k]) else 0.0
  }

  /** What the loop holds after j values. */
  ghost function WorstOf(values: seq<real>, j: nat): (dd: real)
    requires j <= |values|
    ensures dd >= 0.0
  {
    if j == 0 then 0.0 else Max(WorstOf(values, j - 1), LossAt(values, j - 1))
  }

  lemma {:induction false} WorstCovers(values: seq<real>, j: nat, k: nat)
    requires k < j <= |values|
    ensures LossAt(values, k) <= WorstOf(values, j)
  {
    if k < j - 1 {
      WorstCovers(values, j - 1, k);
    }
  }

  lemma {:induction false} WorstIsAttained(values: seq<real>, j: nat)
    requires j <= |values|
    ensures WorstOf(values, j) == 0.0 || exists k :: 0 <= k < j && LossAt(values, k) == WorstOf(values, j)
  {
    if j > 0 {
      WorstIsAttained(values, j - 1);
    }
  }

  /** The loop of `compute_metrics` finds the maximum drawdown of every curve that starts positive. */
  method MaxDrawdownPct(values: seq<real>) returns (dd: real)
    requires values != [] && values[0] > 0.0
    ensures IsMaxDrawdown(values, dd)
  {
    var peak := values[0];
    dd := 0.0;
    for j := 0 to |values|
      invariant peak == if j == 0 then values[0] else Peak(values, j - 1)
      invariant dd == WorstOf(values, j)
    {
      peak := Max(peak, values[j]);
      if peak > 0.0 {
        dd := Max(dd, LossPct(peak, values[j]));
      }
    }
    WorstIsMaximum(values);
  }

  lemma WorstIsMaximum(values: seq<real>)
    requires values != [] && values[0] > 0.0
    ensures IsMaxDrawdown(values, WorstOf(values, |values|))
  {
    var dd := WorstOf(values, |values|);
    forall k | 0 <= k < |values|
      ensures Peak(values, k) > 0.0 && LossPct(Peak(values, k), values[k]) <= dd
    {
      PeakBound(values, 0, k);
      WorstCovers(values, |values|, k);
    }
    WorstIsAttained(values, |values|);
    if dd != 0.0 {
      var k :| 0 <= k < |values| && LossAt(values, k) == dd;
      assert Attains(values, k, dd);
    }
    AttainedBoundIsLeast(values, dd);
  }

  lemma AttainedBoundIsLeast(values: seq<real>, dd: real)
    requires dd >= 0.0
    requires forall k :: 0 <= k < |values| ==> Peak(values, k) > 0.0 && LossPct(Peak(values, k), values[k]) <= dd
    requires dd == 0.0 || exists k :: 0 <= k < |values| && Attains(values, k, dd)
    ensures IsMaxDrawdown(values, dd)
  {
    forall k | 0 <= k < |values|
      ensures Drop(Peak(values, k), values[k], dd)
    {
      DropMeansLoss(Peak(values, k), values[k], dd);
    }
    forall d | d >= 0.0 && LossesWithin(values, d)
      ensures dd <= d
    {
      if dd != 0.0 {
        var k :| 0 <= k < |values| && Attains(values, k, dd);
        assert Drop(Peak(values, k), values[k], d);
        DropMeansLoss(Peak(values, k), values[k], d);
      }
    }
  }

  // ---------------------------------------------------------------- positive curves

  /** Against every earlier value, not only the peak. */
  ghost predicate PairsWithin(values: seq<real>, d: real) {
    forall i, j :: 0 <= i <= j < |values| ==> Drop(values[i], values[j], d)
  }

  lemma DropFromPeak(earlier: real, peak: real, later: real, d: real)
    requires 0.0 < earlier <= peak && 0.0 <= later && Drop(peak, later, d)
    ensures Drop(earlier, later, d)
  {
    var r := 1.0 - d / 100.0;
    assert r * peak == peak - d / 100.0 * peak;
    assert r * earlier == earlier - d / 100.0 * earlier;
    if r >= 0.0 {
      assert r * earlier <= r * peak;
    } else {
      assert r * earlier < 0.0;
    }
  }

  /** On positive curves the running-peak losses bound the loss between any two times. */
  lemma PeaksCoverPairs(values: seq<real>, d: real)
    requires forall i :: 0 <= i < |values| ==> values[i] > 0.0
    ensures LossesWithin(values, d) <==> PairsWithin(values, d)
  {
    if LossesWithin(values, d) {
      forall i, j | 0 <= i <= j < |values|
        ensures Drop(values[i], values[j], d)
      {
        PeakBound(values, i, j);
        assert Drop(Peak(values, j), values[j], d);
        DropFromPeak(values[i], Peak(values, j), values[j], d);
      }
    }
    if PairsWithin(values, d) {
      forall j | 0 <= j < |values|
        ensures Drop(Peak(values, j), values[j], d)
      {
        var i := PeakIsValue(values, j);
        assert Drop(values[i], values[j], d);
      }
    }
  }

  lemma AllowanceMonotone(values: seq<real>, d: real, e: real)
    requires forall i :: 0 <= i < |values| ==> values[i] > 0.0
    requires d <= e && LossesWithin(values, d)
    ensures LossesWithin(values, e)
  {
    forall j | 0 <= j < |values|
      ensures Drop(Peak(values, j), values[j], e)
    {
      PeakBound(values, j, j);
      DropMonotone(Peak(values, j), values[j], d, e);
    }
  }

  lemma DropMonotone(earlier: real, later: real, d: real, e: real)
    requires earlier > 0.0 && d <= e && Drop(earlier, later, d)
    ensures Drop(earlier, later, e)
  {
    assert d / 100.0 * earlier <= e / 100.0 * earlier;
  }
}
