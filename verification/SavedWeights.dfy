/** The weights that scripts/optimize_martingale_lp_portfolios.py saves: the answer of the optimiser without its
    vanishing entries, in descending order, in percent with six decimals, the last one topped up to a sum of 100. */
module SavedWeights {
  import opened Common
  import opened Arithmetic
  import opened Drawdown
  import opened CuttingPlane

  // ---------------------------------------------------------------- active entries

  datatype Entry = Entry(index: nat, weight: real)

  const THRESHOLD: real := 0.0000001

  /** Larger weights first; equal ones as they came. */
  predicate Before(x: Entry, y: Entry) {
    x.weight > y.weight || (x.weight == y.weight && x.index < y.index)
  }

  predicate Ordered(active: seq<Entry>) {
    forall i, j :: 0 <= i < j < |active| ==> Before(active[i], active[j])
  }

  /** The entries above the threshold, each once, in the order of the sort. */
  ghost predicate IsActive(weights: seq<real>, active: seq<Entry>) {
    && Ordered(active)
    && forall x :: x in active <==> x.index < |weights| && x.weight == weights[x.index] && x.weight > THRESHOLD
  }

  /** `active` as the loop builds it, with `sort` as insertion. */
  method ActiveEntries(weights: seq<real>) returns (active: seq<Entry>)
    ensures IsActive(weights, active)
  {
    active := [];
    for i := 0 to |weights|
      invariant Ordered(active)
      invariant forall x :: x in active <==> x.index < i && x.weight == weights[x.index] && x.weight > THRESHOLD
    {
      if weights[i] > THRESHOLD {
        active := Insert(active, Entry(i, weights[i]));
      }
    }
  }

  method Insert(active: seq<Entry>, x: Entry) returns (wider: seq<Entry>)
    requires Ordered(active) && forall y :: y in active ==> y.index < x.index
    ensures Ordered(wider)
    ensures forall y :: y in wider <==> y in active || y == x
  {
    var pos := |active|;
    while pos > 0 && active[pos - 1].weight < x.weight
      invariant 0 <= pos <= |active|
      invariant forall k :: pos <= k < |active| ==> active[k].weight < x.weight
    {
      pos := pos - 1;
    }
    wider := Inserted(active, pos, x);
    InPlace(active, pos, x);
    InsertedInOrder(active, pos, x);
    InsertedElements(active, pos, x);
  }

  function Inserted(active: seq<Entry>, pos: nat, x: Entry): (wider: seq<Entry>)
    requires pos <= |active|
    ensures |wider| == |active| + 1
    ensures forall k :: 0 <= k < |wider| ==>
              wider[k] == if k < pos then active[k] else if k == pos then x else active[k - 1]
  {
    active[..pos] + [x] + active[pos..]
  }

  lemma InsertedElements(active: seq<Entry>, pos: nat, x: Entry)
    requires pos <= |active|
    ensures forall y :: y in active[..pos] + [x] + active[pos..] <==> y in active || y == x
  {
    assert active == active[..pos] + active[pos..];
  }

  lemma InPlace(active: seq<Entry>, pos: nat, x: Entry)
    requires Ordered(active) && pos <= |active| && forall y :: y in active ==> y.index < x.index
    requires pos > 0 ==> active[pos - 1].weight >= x.weight
    ensures forall k :: 0 <= k < pos ==> Before(active[k], x)
  {
    forall k | 0 <= k < pos ensures Before(active[k], x) {
      assert active[k] in active;
      assert k < pos - 1 ==> Before(active[k], active[pos - 1]);
    }
  }

  lemma InsertedInOrder(active: seq<Entry>, pos: nat, x: Entry)
    requires Ordered(active) && pos <= |active|
    requires forall k :: 0 <= k < pos ==> Before(active[k], x)
    requires forall k :: pos <= k < |active| ==> Before(x, active[k])
    ensures Ordered(Inserted(active, pos, x))
  {
  }

  // ---------------------------------------------------------------- rounding to a sum of 100

  /** One hundred percent, in the millionths of a percent that six decimals can say. */
  const HUNDRED: int := 100_000_000

  /** `Decimal(weight * 100).quantize(0.000001)`, in those units. */
  function Millionths(weight: real): int {
    RoundHalfEven(weight * 100_000_000.0)
  }

  function Sum(values: seq<int>): int {
    if values == [] then 0 else values[0] + Sum(values[1..])
  }

  function Rounded(active: seq<Entry>): (values: seq<int>)
    ensures |values| == |active|
  {
    seq(|active|, i requires 0 <= i < |active| => Millionths(active[i].weight))
  }

  /** `weight_decimals`. */
  function WeightDecimals(active: seq<Entry>): (values: seq<int>)
    ensures |values| == |active|
  {
    if active == [] then []
    else
      var values := Rounded(active);
      values[|values| - 1 := HUNDRED - Sum(Init(values))]
  }

  lemma {:induction false} SumSplits(a: seq<int>, b: seq<int>)
    ensures Sum(a + b) == Sum(a) + Sum(b)
  {
    if a == [] {
      assert a + b == b;
    } else {
      SumSplits(a[1..], b);
      assert (a + b)[1..] == a[1..] + b;
    }
  }

  /** What is saved adds up to exactly 100, whatever the weights; so the last one is negative exactly when the others,
      rounded, add up to more. */
  lemma SavedSumsToHundred(active: seq<Entry>)
    requires active != []
    ensures Sum(WeightDecimals(active)) == HUNDRED
    ensures Last(WeightDecimals(active)) < 0 <==> Sum(Rounded(Init(active))) > HUNDRED
  {
    var values := WeightDecimals(active);
    var others := Init(Rounded(active));
    assert others == Rounded(Init(active));
    assert values == others + [Last(values)];
    SumSplits(others, [Last(values)]);
    assert Sum([Last(values)]) == Last(values) + Sum([]);
  }

  // ---------------------------------------------------------------- how far the last one is off

  function Weights(active: seq<Entry>): seq<real> {
    seq(|active|, i requires 0 <= i < |active| => active[i].weight)
  }

  lemma {:induction false} TotalSplits(a: seq<real>, b: seq<real>)
    ensures Total(a + b) == Total(a) + Total(b)
  {
    if a == [] {
      assert a + b == b;
    } else {
      TotalSplits(a[1..], b);
      assert (a + b)[1..] == a[1..] + b;
    }
  }

  /** Rounding adds at most half a unit per entry. */
  lemma {:induction false} RoundedSum(active: seq<Entry>)
    ensures Sum(Rounded(active)) as real <= Total(Weights(active)) * 100_000_000.0 + 0.5 * |active| as real
  {
    if active != [] {
      RoundedSum(active[1..]);
      assert Rounded(active)[1..] == Rounded(active[1..]);
      assert Weights(active)[1..] == Weights(active[1..]);
      RoundError(active[0].weight * 100_000_000.0);
    }
  }

  lemma {:induction false} TotalWithout(w: seq<real>, i: nat)
    requires i < |w|
    ensures Total(w[i := 0.0]) == Total(w) - w[i]
  {
    if i == 0 {
      assert w[0 := 0.0][1..] == w[1..];
    } else {
      TotalWithout(w[1..], i - 1);
      assert w[i := 0.0][1..] == w[1..][i - 1 := 0.0];
    }
  }

  lemma {:induction false} TotalNonNegative(w: seq<real>)
    requires forall k :: 0 <= k < |w| ==> w[k] >= 0.0
    ensures Total(w) >= 0.0
  {
    if w != [] {
      TotalNonNegative(w[1..]);
    }
  }

  /** Entries of different positions weigh no more than all positions together. */
  lemma {:induction false} ActiveWithinTotal(w: seq<real>, active: seq<Entry>)
    requires forall k :: 0 <= k < |w| ==> w[k] >= 0.0
    requires forall k :: 0 <= k < |active| ==> active[k].index < |w| && active[k].weight == w[active[k].index]
    requires forall j, k :: 0 <= j < k < |active| ==> active[j].index != active[k].index
    ensures Total(Weights(active)) <= Total(w)
    decreases |active|
  {
    if active == [] {
      TotalNonNegative(w);
    } else {
      var rest, i := active[1..], active[0].index;
      forall k | 0 <= k < |rest|
        ensures rest[k].index != i && rest[k].index < |w| && rest[k].weight == w[rest[k].index]
      {
        assert rest[k] == active[k + 1];
      }
      ActiveWithinTotal(w[i := 0.0], rest);
      TotalWithout(w, i);
      assert Weights(active)[1..] == Weights(rest);
    }
  }

  lemma ActiveDiffer(weights: seq<real>, active: seq<Entry>)
    requires IsActive(weights, active)
    ensures forall k :: 0 <= k < |active| ==>
              && active[k].index < |weights| && active[k].weight == weights[active[k].index]
              && active[k].weight > THRESHOLD
    ensures forall j, k :: 0 <= j < k < |active| ==> active[j].index != active[k].index
  {
    forall k | 0 <= k < |active|
      ensures active[k].index < |weights| && active[k].weight == weights[active[k].index]
      ensures active[k].weight > THRESHOLD
    {
      assert active[k] in active;
    }
    forall j, k | 0 <= j < k < |active| ensures active[j].index != active[k].index {
      assert Before(active[j], active[k]);
    }
  }

  /** The last saved weight is more than ten units less half a unit for each of the others. */
  lemma LastAbove(prob: Problem, w: seq<real>, active: seq<Entry>)
    requires BaseFeasible(prob, w) && IsActive(w, active) && active != []
    ensures Last(WeightDecimals(active)) as real > 10.0 - 0.5 * (|active| - 1) as real
    ensures forall i :: 0 <= i < |active| - 1 ==> WeightDecimals(active)[i] >= 10
  {
    ActiveDiffer(w, active);
    ActiveWithinTotal(w, active);
    var others, last := Init(active), Last(active);
    assert Weights(active) == Weights(others) + [last.weight];
    TotalSplits(Weights(others), [last.weight]);
    assert Total([last.weight]) == last.weight + Total([]);
    assert Init(Rounded(active)) == Rounded(others);
    RoundedSum(others);
    forall i | 0 <= i < |active| - 1 ensures WeightDecimals(active)[i] >= 10 {
      TenUnits(active[i].weight);
    }
  }

  lemma TenUnits(weight: real)
    requires weight > THRESHOLD
    ensures Millionths(weight) >= 10
  {
    RoundMonotone(10.0, weight * 100_000_000.0);
  }

  // ---------------------------------------------------------------- how many entries are safe

  /** `w` is what the loop returns for this problem with an exact solver. */
  ghost predicate Answer(prob: Problem, gap: real, solve: Solver, run: seq<Relaxation>, w: seq<real>) {
    && WellFormed(prob)
    && SoundSolver(prob, gap, solve) && ExactSolver(prob, solve) && RunOf(prob, solve, run)
    && solve(Last(run).aUb) == Solved(w) && |w| == |prob.symbols|
    && DrawdownWithin(Equity(prob, w), prob.ddLimit + TOLERANCE)
  }

  /** Whatever is saved of any answer with at most n active entries, no weight is below `low`. */
  ghost predicate SavedAtLeast(n: nat, low: int) {
    forall prob, gap, solve, run, w, active |
      Answer(prob, gap, solve, run, w) && IsActive(w, active) && |active| <= n ::
      AllAtLeast(WeightDecimals(active), low)
  }

  ghost predicate AllAtLeast(values: seq<int>, low: int) {
    forall i :: 0 <= i < |values| ==> values[i] >= low
  }

  /** No saved weight is negative, exactly for up to 23 active entries. */
  lemma SavedNonNegativeIff(n: nat)
    ensures SavedAtLeast(n, 0) <==> n <= 23
  {
    if n <= 23 {
      SavedWithin(n, 0);
    } else {
      NegativeWeightSaved();
    }
  }

  /** Every saved weight is positive, exactly for up to 21 active entries. */
  lemma SavedPositiveIff(n: nat)
    ensures SavedAtLeast(n, 1) <==> n <= 21
  {
    if n <= 21 {
      SavedWithin(n, 1);
    } else {
      ZeroWeightSaved();
    }
  }

  lemma SavedWithin(n: nat, low: int)
    requires 0 <= low <= 1 && n <= 23 - 2 * low
    ensures SavedAtLeast(n, low)
  {
    forall prob, gap, solve, run, w, active |
      Answer(prob, gap, solve, run, w) && IsActive(w, active) && |active| <= n
      ensures AllAtLeast(WeightDecimals(active), low)
    {
      assert GapOptimal(prob, gap, Last(run).aUb, w);
      if active != [] {
        LastAbove(prob, w, active);
      }
    }
  }

  // ---------------------------------------------------------------- answers that are saved badly

  function Repeat<T>(x: T, count: nat): (items: seq<T>)
    ensures |items| == count
  {
    seq(count, _ => x)
  }

  lemma {:induction false} TotalOfRepeat(x: real, count: nat)
    ensures Total(Repeat(x, count)) == x * count as real
  {
    if count > 0 {
      TotalOfRepeat(x, count - 1);
      assert Repeat(x, count)[1..] == Repeat(x, count - 1);
    }
  }

  lemma {:induction false} SumOfRepeat(x: int, count: nat)
    ensures Sum(Repeat(x, count)) == x * count
  {
    if count > 0 {
      SumOfRepeat(x, count - 1);
      assert Repeat(x, count)[1..] == Repeat(x, count - 1);
    }
  }

  const SLIVER: real := 0.0000001151

  /** One large entry, `count` slivers of 11.51 units and a last entry of just over ten. */
  function Spread(big: real, count: nat, small: real): (w: seq<real>)
    ensures |w| == count + 2
  {
    [big] + Repeat(SLIVER, count) + [small]
  }

  function Numbered(w: seq<real>): seq<Entry> {
    seq(|w|, i requires 0 <= i < |w| => Entry(i, w[i]))
  }

  lemma TotalOfSpread(big: real, count: nat, small: real)
    ensures Total(Spread(big, count, small)) == big + SLIVER * count as real + small
  {
    TotalOfRepeat(SLIVER, count);
    TotalSplits([big] + Repeat(SLIVER, count), [small]);
    TotalSplits([big], Repeat(SLIVER, count));
    assert Total([big]) == big + Total([]) && Total([small]) == small + Total([]);
  }

  lemma SpreadIsActive(big: real, count: nat, small: real)
    requires big > SLIVER > small > THRESHOLD
    ensures IsActive(Spread(big, count, small), Numbered(Spread(big, count, small)))
  {
    var w := Spread(big, count, small);
    var active := Numbered(w);
    forall x: Entry | x.index < |w| && x.weight == w[x.index] ensures x in active {
      assert active[x.index] == x;
    }
  }

  /** Candidates with one and the same flat curve: every convex combination is optimal, so each is an answer. */
  function Flat(count: nat): Problem {
    Problem([Repeat(1.0, count)], Repeat("BTCUSDT", count), 10.0, 1, 0.01)
  }

  lemma {:induction false} DotOfOnes(w: seq<real>)
    ensures Dot(Repeat(1.0, |w|), w) == Total(w)
  {
    if w != [] {
      DotOfOnes(w[1..]);
      assert Repeat(1.0, |w|)[1..] == Repeat(1.0, |w| - 1);
    }
  }

  function Returning(w: seq<real>): Solver {
    (aUb: seq<seq<real>>) => if aUb == [] then Solved(w) else Unsolved("infeasible")
  }

  lemma FlatIsWellFormed(count: nat)
    requires count > 0
    ensures WellFormed(Flat(count))
  {
    var prob := Flat(count);
    assert prob.matrix == [Repeat(1.0, count)];
  }

  lemma FlatCurve(v: seq<real>)
    requires v != []
    ensures WellFormed(Flat(|v|)) && Equity(Flat(|v|), v) == [Total(v)]
  {
    FlatIsWellFormed(|v|);
    DotOfOnes(v);
    var e := Equity(Flat(|v|), v);
    assert |e| == 1 && e[0] == Dot(Flat(|v|).matrix[0], v);
  }

  lemma ReturningIsSound(w: seq<real>)
    requires w != [] && BaseFeasible(Flat(|w|), w)
    ensures WellFormed(Flat(|w|)) && SoundSolver(Flat(|w|), 0.0, Returning(w))
  {
    var prob := Flat(|w|);
    FlatCurve(w);
    forall v | BaseFeasible(prob, v) ensures FinalEquity(prob, v) == 1.0 {
      FlatCurve(v);
    }
    assert GapOptimal(prob, 0.0, [], w);
  }

  lemma ReturningIsExact(w: seq<real>)
    requires w != []
    ensures ExactSolver(Flat(|w|), Returning(w))
  {
  }

  lemma FlatStaysWithin(w: seq<real>)
    requires w != [] && Total(w) == 1.0
    ensures WellFormed(Flat(|w|)) && DrawdownWithin(Equity(Flat(|w|), w), Flat(|w|).ddLimit + TOLERANCE)
  {
    FlatCurve(w);
    CutIsLimit(1.0, 1.0, 10.0 + TOLERANCE);
  }

  lemma StartIsRun(prob: Problem, solve: Solver)
    requires WellFormed(prob)
    ensures RunOf(prob, solve, [NOTHING_FORBIDDEN])
  {
  }

  lemma AnyConvexIsAnswer(w: seq<real>)
    requires w != [] && (forall i :: 0 <= i < |w| ==> 0.0 <= w[i] <= 1.0) && Total(w) == 1.0
    ensures Answer(Flat(|w|), 0.0, Returning(w), [NOTHING_FORBIDDEN], w)
  {
    ReturningIsSound(w);
    ReturningIsExact(w);
    FlatStaysWithin(w);
    StartIsRun(Flat(|w|), Returning(w));
  }

  lemma SavedOfSpread(big: real, count: nat, small: real)
    ensures Last(WeightDecimals(Numbered(Spread(big, count, small)))) == HUNDRED - Millionths(big) - 12 * count
  {
    var active := Numbered(Spread(big, count, small));
    var others := [Millionths(big)] + Repeat(Millionths(SLIVER), count);
    assert Init(Rounded(active)) == others;
    SumSplits([Millionths(big)], Repeat(Millionths(SLIVER), count));
    SumOfRepeat(Millionths(SLIVER), count);
    assert Millionths(SLIVER) == 12;
    assert Sum([Millionths(big)]) == Millionths(big) + Sum([]);
  }

  lemma SpreadSavedBelow(big: real, count: nat, small: real, low: int)
    requires 1.0 >= big > SLIVER > small > THRESHOLD && big + SLIVER * count as real + small == 1.0
    requires HUNDRED - Millionths(big) - 12 * count < low
    ensures forall n: nat :: n >= count + 2 ==> !SavedAtLeast(n, low)
  {
    var w := Spread(big, count, small);
    TotalOfSpread(big, count, small);
    AnyConvexIsAnswer(w);
    SpreadIsActive(big, count, small);
    SavedOfSpread(big, count, small);
    assert !AllAtLeast(WeightDecimals(Numbered(w)), low);
  }

  /** 24 entries that sum to 1 exactly, of which the last is saved as -0.000001 percent. */
  lemma NegativeWeightSaved()
    ensures forall n: nat :: n >= 24 ==> !SavedAtLeast(n, 0)
    ensures Last(WeightDecimals(Numbered(Spread(0.9999973651, 22, 0.0000001027)))) == -1
  {
    var big := 0.9999973651;
    assert Millionths(big) == 99999737;
    SpreadSavedBelow(big, 22, 0.0000001027, 0);
    SavedOfSpread(big, 22, 0.0000001027);
  }

  /** 22 entries of which the last is saved as zero. */
  lemma ZeroWeightSaved()
    ensures forall n: nat :: n >= 22 ==> !SavedAtLeast(n, 1)
    ensures Last(WeightDecimals(Numbered(Spread(0.9999975951, 20, 0.0000001029)))) == 0
  {
    var big := 0.9999975951;
    assert Millionths(big) == 99999760;
    SpreadSavedBelow(big, 20, 0.0000001029, 1);
    SavedOfSpread(big, 20, 0.0000001029);
  }
}
