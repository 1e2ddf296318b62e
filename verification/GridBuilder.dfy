/** Grid plans of apps/trading-engine/src/grid_builder.rs.

    Every level is rounded, half to even, to eight decimals.  Prices are exact decimals and are modelled as reals. */
module GridBuilder {
  import opened Common
  import opened Arithmetic

  // ---------------------------------------------------------------- rounding

  /** Units of 10^-8 in one. */
  const UNITS: real := 100000000.0
  const UNIT: real := 0.00000001

  /** `round_dp(8)`. */
  function Normalize(level: real): real {
    RoundHalfEven(level * UNITS) as real * UNIT
  }

  lemma NormalizeError(x: real)
    ensures Abs(Normalize(x) - x) <= UNIT / 2.0
  {
    RoundError(x * UNITS);
  }

  lemma NormalizeMonotone(x: real, y: real)
    requires x <= y
    ensures Normalize(x) <= Normalize(y)
  {
    RoundMonotone(x * UNITS, y * UNITS);
  }

  // ---------------------------------------------------------------- plans

  datatype GridMode = SpotGrid | FuturesLong | FuturesShort | ClassicBilateralSpot | ClassicBilateralFutures {
    predicate IsOrdinary() { SpotGrid? || FuturesLong? || FuturesShort? }
  }

  datatype GridPlan = GridPlan(mode: GridMode, levels: seq<real>, lowerLevels: seq<real>, upperLevels: seq<real>)

  datatype GridBuildError =
    | OrdinaryModeOnly | BilateralModeOnly | AnchorNotPositive | SpacingNotPositive | NoLevels
    | LevelNotPositive | LowerRatioNotPositive | NotMonotonic | LowerNotDescending | UpperNotAscending | WrongSides

  datatype Result = Ok(plan: GridPlan) | Err(error: GridBuildError)

  predicate Ascending(levels: seq<real>) {
    forall i :: 0 <= i < |levels| - 1 ==> levels[i] < levels[i + 1]
  }

  predicate Descending(levels: seq<real>) {
    forall i :: 0 <= i < |levels| - 1 ==> levels[i] > levels[i + 1]
  }

  predicate Positive(levels: seq<real>) {
    forall i :: 0 <= i < |levels| ==> levels[i] > 0.0
  }

  predicate Directed(mode: GridMode, levels: seq<real>) {
    match mode
    case SpotGrid => Descending(levels)
    case FuturesLong => Descending(levels)
    case FuturesShort => Ascending(levels)
    case ClassicBilateralSpot => true
    case ClassicBilateralFutures => true
  }

  /** `validate_shape`: `None` when the plan is accepted. */
  function ValidateShape(plan: GridPlan): Option<GridBuildError> {
    if plan.mode.IsOrdinary() then
      if plan.levels == [] then Some(NoLevels)
      else if plan.lowerLevels != [] || plan.upperLevels != [] then Some(WrongSides)
      else if !Positive(plan.levels) then Some(LevelNotPositive)
      else if !Directed(plan.mode, plan.levels) then Some(NotMonotonic)
      else None
    else
      if plan.levels != [] then Some(WrongSides)
      else if plan.lowerLevels == [] || plan.upperLevels == [] then Some(NoLevels)
      else if |plan.lowerLevels| != |plan.upperLevels| then Some(WrongSides)
      else if !Descending(plan.lowerLevels) then Some(LowerNotDescending)
      else if !Ascending(plan.upperLevels) then Some(UpperNotAscending)
      else None
  }

  function Checked(plan: GridPlan): Result {
    match ValidateShape(plan)
    case None => Ok(plan)
    case Some(error) => Err(error)
  }

  function ValidateAnchor(price: real, spacingBps: nat, count: nat): Option<GridBuildError> {
    if price <= 0.0 then Some(AnchorNotPositive)
    else if spacingBps == 0 then Some(SpacingNotPositive)
    else if count == 0 then Some(NoLevels)
    else None
  }

  function SpacingRatio(bps: nat): real { bps as real / 10000.0 }

  function FixedStep(price: real, bps: nat): real { Normalize(price * SpacingRatio(bps)) }

  function Offset(step: real, i: nat): real { step * i as real }

  /** Level i of a fixed-step grid below or above the price. */
  function FixedLevel(price: real, step: real, below: bool, i: nat): real {
    Normalize(if below then price - Offset(step, i) else price + Offset(step, i))
  }

  function Times(x: real, ratio: real): real { x * ratio }

  /** Level i of a geometric grid: each level is rounded before the next is computed from it. */
  function GeometricLevel(center: real, ratio: real, i: nat): real {
    if i == 0 then center else Normalize(Times(GeometricLevel(center, ratio, i - 1), ratio))
  }

  /** The first `count` values of a level formula. */
  function Levels(count: nat, level: nat -> real): (levels: seq<real>)
    ensures |levels| == count && forall i :: 0 <= i < count ==> levels[i] == level(i)
  {
    seq(count, i requires 0 <= i < count => level(i))
  }

  lemma NextLevel(index: nat, level: nat -> real)
    ensures Levels(index + 1, level) == Levels(index, level) + [level(index)]
  {
  }

  function OrdinaryFormula(mode: GridMode, anchor: real, step: real): nat -> real {
    (i: nat) => FixedLevel(anchor, step, !mode.FuturesShort?, i)
  }

  function SideFormula(center: real, step: real, below: bool): nat -> real {
    (i: nat) => FixedLevel(center, step, below, i + 1)
  }

  function GeometricFormula(center: real, ratio: real): nat -> real {
    (i: nat) => GeometricLevel(center, ratio, i + 1)
  }

  function OrdinaryLevels(mode: GridMode, anchor: real, spacingBps: nat, count: nat): seq<real> {
    Levels(count, OrdinaryFormula(mode, anchor, FixedStep(anchor, spacingBps)))
  }

  function FixedSide(center: real, spacingBps: nat, below: bool, count: nat): seq<real> {
    Levels(count, SideFormula(center, FixedStep(center, spacingBps), below))
  }

  function GeometricSide(center: real, ratio: real, count: nat): seq<real> {
    Levels(count, GeometricFormula(center, ratio))
  }

  // ---------------------------------------------------------------- builders

  /** The loop of `ordinary_fixed_step`; `None` as soon as a level is not positive. */
  method PushOrdinary(mode: GridMode, anchor: real, step: real, count: nat) returns (r: Option<seq<real>>)
    ensures r.Some? <==> Positive(Levels(count, OrdinaryFormula(mode, anchor, step)))
    ensures r.Some? ==> r.value == Levels(count, OrdinaryFormula(mode, anchor, step))
  {
    ghost var formula := OrdinaryFormula(mode, anchor, step);
    var levels: seq<real> := [];
    for index := 0 to count
      invariant levels == Levels(index, formula) && Positive(levels)
    {
      var offset := Offset(step, index);
      var level: real;
      if mode.FuturesShort? {
        level := Normalize(anchor + offset);
      } else {
        level := Normalize(anchor - offset);
      }
      assert level == FixedLevel(anchor, step, !mode.FuturesShort?, index) == formula(index);
      if level <= 0.0 {
        assert Levels(count, formula)[index] <= 0.0;
        return None;
      }
      NextLevel(index, formula);
      levels := levels + [level];
    }
    return Some(levels);
  }

  /** `ordinary_fixed_step`: accepts exactly when the rounded levels are positive and strictly monotonic. */
  method OrdinaryFixedStep(mode: GridMode, anchor: real, spacingBps: nat, count: nat) returns (r: Result)
    ensures r.Ok? <==>
              mode.IsOrdinary() && anchor > 0.0 && spacingBps > 0 && count > 0 &&
              Positive(OrdinaryLevels(mode, anchor, spacingBps, count))
                  && Directed(mode, OrdinaryLevels(mode, anchor, spacingBps, count))
    ensures r.Ok? ==> r.plan == GridPlan(mode, OrdinaryLevels(mode, anchor, spacingBps, count), [], [])
  {
    if !mode.IsOrdinary() {
      return Err(OrdinaryModeOnly);
    }
    var invalid := ValidateAnchor(anchor, spacingBps, count);
    if invalid.Some? {
      return Err(invalid.value);
    }
    var step := FixedStep(anchor, spacingBps);
    var levels := PushOrdinary(mode, anchor, step, count);
    if levels.None? {
      return Err(LevelNotPositive);
    }
    if !Directed(mode, levels.value) {
      return Err(NotMonotonic);
    }
    var plan := GridPlan(mode, levels.value, [], []);
    return Checked(plan);
  }

  datatype Sides = Sides(lower: seq<real>, upper: seq<real>)

  ghost predicate BilateralInputs(mode: GridMode, center: real, spacingBps: nat, count: nat) {
    !mode.IsOrdinary() && center > 0.0 && spacingBps > 0 && count > 0
  }

  /** What `classic_bilateral_fixed` accepts. */
  ghost predicate FixedAccepted(mode: GridMode, center: real, spacingBps: nat, count: nat) {
    var lower, upper := FixedSide(center, spacingBps, true, count), FixedSide(center, spacingBps, false, count);
    BilateralInputs(mode, center, spacingBps, count) && Positive(lower) && Descending(lower) && Ascending(upper)
  }

  /** What `classic_bilateral_geometric` accepts. */
  ghost predicate GeometricAccepted(mode: GridMode, center: real, spacingBps: nat, count: nat) {
    var s := SpacingRatio(spacingBps);
    var lower, upper := GeometricSide(center, 1.0 - s, count), GeometricSide(center, 1.0 + s, count);
    && BilateralInputs(mode, center, spacingBps, count) && s < 1.0
    && Positive(lower) && Descending(lower) && Ascending(upper)
  }

  /** The loop of `classic_bilateral_fixed`. */
  method PushFixed(center: real, step: real, count: nat) returns (r: Option<Sides>)
    ensures r.Some? <==> Positive(Levels(count, SideFormula(center, step, true)))
    ensures r.Some? ==>
      r.value == Sides(Levels(count, SideFormula(center, step, true)), Levels(count, SideFormula(center, step, false)))
  {
    ghost var below, above := SideFormula(center, step, true), SideFormula(center, step, false);
    var lowerLevels: seq<real>, upperLevels: seq<real> := [], [];
    for index := 0 to count
      invariant lowerLevels == Levels(index, below) && upperLevels == Levels(index, above) && Positive(lowerLevels)
    {
      var offset := Offset(step, index + 1);
      var lower := Normalize(center - offset);
      var upper := Normalize(center + offset);
      assert lower == below(index) && upper == above(index);
      if lower <= 0.0 {
        assert Levels(count, below)[index] <= 0.0;
        return None;
      }
      NextLevel(index, below);
      NextLevel(index, above);
      lowerLevels, upperLevels := lowerLevels + [lower], upperLevels + [upper];
    }
    return Some(Sides(lowerLevels, upperLevels));
  }

  /** `classic_bilateral_fixed`. */
  method ClassicBilateralFixed(mode: GridMode, center: real, spacingBps: nat, count: nat) returns (r: Result)
    ensures r.Ok? <==> FixedAccepted(mode, center, spacingBps, count)
    ensures r.Ok? ==> r.plan == GridPlan(mode, [], FixedSide(center, spacingBps, true, count),
                                         FixedSide(center, spacingBps, false, count))
  {
    if mode.IsOrdinary() {
      return Err(BilateralModeOnly);
    }
    var invalid := ValidateAnchor(center, spacingBps, count);
    if invalid.Some? {
      return Err(invalid.value);
    }
    var sides := PushFixed(center, FixedStep(center, spacingBps), count);
    if sides.None? {
      return Err(LevelNotPositive);
    }
    var plan := GridPlan(mode, [], sides.value.lower, sides.value.upper);
    return Checked(plan);
  }

  /** The loop of `classic_bilateral_geometric`. */
  method PushGeometric(center: real, lowerRatio: real, upperRatio: real, count: nat) returns (r: Option<Sides>)
    ensures r.Some? <==> Positive(GeometricSide(center, lowerRatio, count))
    ensures r.Some? ==>
      r.value == Sides(GeometricSide(center, lowerRatio, count), GeometricSide(center, upperRatio, count))
  {
    ghost var below, above := GeometricFormula(center, lowerRatio), GeometricFormula(center, upperRatio);
    var lowerLevels: seq<real>, upperLevels: seq<real> := [], [];
    var lower, upper := center, center;
    for index := 0 to count
      invariant lower == GeometricLevel(center, lowerRatio, index) && upper == GeometricLevel(center, upperRatio, index)
      invariant lowerLevels == Levels(index, below) && upperLevels == Levels(index, above) && Positive(lowerLevels)
    {
      lower := Normalize(Times(lower, lowerRatio));
      upper := Normalize(Times(upper, upperRatio));
      assert lower == below(index) && upper == above(index);
      if lower <= 0.0 {
        assert Levels(count, below)[index] <= 0.0;
        return None;
      }
      NextLevel(index, below);
      NextLevel(index, above);
      lowerLevels, upperLevels := lowerLevels + [lower], upperLevels + [upper];
    }
    return Some(Sides(lowerLevels, upperLevels));
  }

  /** `classic_bilateral_geometric`. */
  method ClassicBilateralGeometric(mode: GridMode, center: real, spacingBps: nat, count: nat) returns (r: Result)
    ensures r.Ok? <==> GeometricAccepted(mode, center, spacingBps, count)
    ensures var s := SpacingRatio(spacingBps);
      r.Ok? ==> r.plan == GridPlan(mode, [], GeometricSide(center, 1.0 - s, count),
          GeometricSide(center, 1.0 + s, count))
  {
    if mode.IsOrdinary() {
      return Err(BilateralModeOnly);
    }
    var invalid := ValidateAnchor(center, spacingBps, count);
    if invalid.Some? {
      return Err(invalid.value);
    }
    var spacing := SpacingRatio(spacingBps);
    if 1.0 - spacing <= 0.0 {
      return Err(LowerRatioNotPositive);
    }
    var sides := PushGeometric(center, 1.0 - spacing, 1.0 + spacing, count);
    if sides.None? {
      return Err(LevelNotPositive);
    }
    var plan := GridPlan(mode, [], sides.value.lower, sides.value.upper);
    return Checked(plan);
  }

  // ---------------------------------------------------------------- accuracy of the geometric grid

  function Power(x: real, n: nat): real {
    if n == 0 then 1.0 else Times(Power(x, n - 1), x)
  }

  /** Bound on the accumulated rounding: (u/2) * (ratio^n - 1) / (ratio - 1), written without the division. */
  function Drift(ratio: real, n: nat): real {
    if n == 0 then 0.0 else Times(Drift(ratio, n - 1), ratio) + UNIT / 2.0
  }

  /** The geometric sum 1 + ratio + ... + ratio^(n-1). */
  function GeometricSum(ratio: real, n: nat): real
    requires ratio != 1.0
  {
    (Power(ratio, n) - 1.0) / (ratio - 1.0)
  }

  lemma {:induction false} DriftClosedForm(ratio: real, n: nat)
    requires 0.0 < ratio != 1.0
    ensures Drift(ratio, n) == (UNIT / 2.0) * GeometricSum(ratio, n)
    ensures Drift(ratio, n) >= 0.0
  {
    if n > 0 {
      DriftClosedForm(ratio, n - 1);
      ClosedFormStep(ratio - 1.0, Power(ratio, n - 1));
      NonNegativeTimes(Drift(ratio, n - 1), ratio);
    } else {
      ZeroQuotient(ratio - 1.0);
    }
  }

  lemma ZeroQuotient(s: real)
    requires s != 0.0
    ensures 0.0 / s == 0.0
  {
  }

  lemma NonNegativeTimes(x: real, ratio: real)
    requires x >= 0.0 && ratio >= 0.0
    ensures Times(x, ratio) >= 0.0
  {
  }

  lemma CancelFactor(x: real, y: real, s: real)
    requires s != 0.0 && x * s == y * s
    ensures x == y
  {
    assert (x - y) * s == 0.0;
  }

  lemma ClosedFormStep(s: real, p: real)
    requires s != 0.0
    ensures Times((UNIT / 2.0) * ((p - 1.0) / s), 1.0 + s) + UNIT / 2.0
         == (UNIT / 2.0) * ((Times(p, 1.0 + s) - 1.0) / s)
  {
    var q := (p - 1.0) / s;
    assert q * s == p - 1.0;
    var z := (p * (1.0 + s) - 1.0) / s;
    assert z * s == p * (1.0 + s) - 1.0;
    assert (q * (1.0 + s) + 1.0) * s == (q * s) * (1.0 + s) + s;
    assert (p - 1.0) * (1.0 + s) + s == p * (1.0 + s) - 1.0;
    CancelFactor(q * (1.0 + s) + 1.0, z, s);
    assert ((UNIT / 2.0) * q) * (1.0 + s) == (UNIT / 2.0) * (q * (1.0 + s));
  }

  lemma GapScales(gap: real, drift: real, r: real)
    requires r > 0.0 && -drift <= gap <= drift
    ensures -Times(drift, r) <= Times(gap, r) <= Times(drift, r)
  {
    assert (drift - gap) * r >= 0.0;
    assert (drift + gap) * r >= 0.0;
  }

  lemma GapTimes(level: real, exact: real, ratio: real)
    ensures Times(level - exact, ratio) == Times(level, ratio) - Times(exact, ratio)
  {
  }

  lemma StepDrift(level: real, exact: real, drift: real, ratio: real)
    requires ratio > 0.0 && drift >= 0.0 && Abs(level - exact) <= drift
    ensures Abs(Normalize(Times(level, ratio)) - Times(exact, ratio)) <= Times(drift, ratio) + UNIT / 2.0
  {
    NormalizeError(Times(level, ratio));
    var gap := level - exact;
    GapScales(gap, drift, ratio);
    GapTimes(level, exact, ratio);
    assert -drift <= gap <= drift;
  }

  function Exact(center: real, ratio: real, n: nat): real { Times(center, Power(ratio, n)) }

  /** Level n of a geometric grid, on either side, is within (u/2) * (ratio^n - 1) / (ratio - 1) of center * ratio^n. */
  lemma GeometricAccuracy(center: real, ratio: real, n: nat)
    requires 0.0 < ratio != 1.0
    ensures Abs(GeometricLevel(center, ratio, n) - Exact(center, ratio, n)) <= (UNIT / 2.0) * GeometricSum(ratio, n)
  {
    DriftClosedForm(ratio, n);
    GeometricDrift(center, ratio, n);
  }

  /** The same for the two sides of a plan with spacing s, as the two sides are built. */
  lemma SideAccuracy(center: real, s: real, n: nat)
    requires 0.0 < s < 1.0
    ensures Abs(GeometricLevel(center, 1.0 + s, n) - Exact(center, 1.0 + s, n))
         <= (UNIT / 2.0) * ((Power(1.0 + s, n) - 1.0) / s)
    ensures Abs(GeometricLevel(center, 1.0 - s, n) - Exact(center, 1.0 - s, n))
         <= (UNIT / 2.0) * ((1.0 - Power(1.0 - s, n)) / s)
  {
    GeometricAccuracy(center, 1.0 + s, n);
    GeometricAccuracy(center, 1.0 - s, n);
    SumBelowOne(Power(1.0 - s, n), s);
  }

  lemma SumBelowOne(p: real, s: real)
    requires s > 0.0
    ensures (p - 1.0) / (1.0 - s - 1.0) == (1.0 - p) / s
  {
    var t := 1.0 - s - 1.0;
    var x, y := (p - 1.0) / t, (1.0 - p) / s;
    assert x * t == p - 1.0 && y * s == 1.0 - p;
    assert y * t == -(y * s);
    CancelFactor(x, y, t);
  }

  lemma {:induction false} GeometricDrift(center: real, ratio: real, n: nat)
    requires 0.0 < ratio != 1.0
    ensures Abs(GeometricLevel(center, ratio, n) - Exact(center, ratio, n)) <= Drift(ratio, n)
  {
    if n > 0 {
      GeometricDrift(center, ratio, n - 1);
      DriftClosedForm(ratio, n - 1);
      StepDrift(GeometricLevel(center, ratio, n - 1), Exact(center, ratio, n - 1), Drift(ratio, n - 1), ratio);
      ExactStep(center, ratio, n);
    }
  }

  lemma ExactStep(center: real, ratio: real, n: nat)
    requires n > 0
    ensures Exact(center, ratio, n) == Times(Exact(center, ratio, n - 1), ratio)
  {
    var p := Power(ratio, n - 1);
    assert center * (p * ratio) == (center * p) * ratio;
  }

  // ---------------------------------------------------------------- accepted plans bracket the centre

  lemma TimesMonotone(x: real, y: real, ratio: real)
    requires x <= y && ratio >= 0.0
    ensures Times(x, ratio) <= Times(y, ratio)
  {
    assert (y - x) * ratio >= 0.0;
  }

  lemma {:induction false} AscendingFromFirst(levels: seq<real>, i: nat)
    requires Ascending(levels) && i < |levels|
    ensures levels[0] <= levels[i]
  {
    if i > 0 {
      AscendingFromFirst(levels, i - 1);
    }
  }

  lemma {:induction false} DescendingFromFirst(levels: seq<real>, i: nat)
    requires Descending(levels) && i < |levels|
    ensures levels[0] >= levels[i]
  {
    if i > 0 {
      DescendingFromFirst(levels, i - 1);
    }
  }

  ghost predicate Brackets(lower: seq<real>, center: real, upper: seq<real>) {
    && (forall i :: 0 <= i < |lower| ==> lower[i] < center)
    && (forall i :: 0 <= i < |upper| ==> upper[i] > center)
  }

  lemma FirstLevelsBracket(lower: seq<real>, center: real, upper: seq<real>)
    requires lower != [] && upper != [] && Descending(lower) && Ascending(upper)
    requires lower[0] < center < upper[0]
    ensures Brackets(lower, center, upper)
  {
    forall i | 0 <= i < |lower| ensures lower[i] < center {
      DescendingFromFirst(lower, i);
    }
    forall i | 0 <= i < |upper| ensures upper[i] > center {
      AscendingFromFirst(upper, i);
    }
  }

  /** If the first rounded level did not pass the centre, the second would not pass the first. */
  lemma FirstUpperPasses(center: real, ratio: real)
    requires ratio >= 0.0 && GeometricLevel(center, ratio, 1) < GeometricLevel(center, ratio, 2)
    ensures center < GeometricLevel(center, ratio, 1)
  {
    var first := GeometricLevel(center, ratio, 1);
    assert first == Normalize(Times(GeometricLevel(center, ratio, 0), ratio));
    if first <= center {
      TimesMonotone(first, center, ratio);
      NormalizeMonotone(Times(first, ratio), Times(center, ratio));
    }
  }

  lemma FirstLowerPasses(center: real, ratio: real)
    requires ratio >= 0.0 && GeometricLevel(center, ratio, 1) > GeometricLevel(center, ratio, 2)
    ensures center > GeometricLevel(center, ratio, 1)
  {
    var first := GeometricLevel(center, ratio, 1);
    assert first == Normalize(Times(GeometricLevel(center, ratio, 0), ratio));
    if first >= center {
      TimesMonotone(center, first, ratio);
      NormalizeMonotone(Times(center, ratio), Times(first, ratio));
    }
  }

  /** No validator compares a level with the centre; two levels per side are enough to make sure. */
  lemma GeometricBrackets(center: real, s: real, count: nat)
    requires 0.0 < s < 1.0 && count >= 2
    requires Descending(GeometricSide(center, 1.0 - s, count)) && Ascending(GeometricSide(center, 1.0 + s, count))
    ensures Brackets(GeometricSide(center, 1.0 - s, count), center, GeometricSide(center, 1.0 + s, count))
  {
    var lower, upper := GeometricSide(center, 1.0 - s, count), GeometricSide(center, 1.0 + s, count);
    assert lower[0] > lower[0 + 1] && upper[0] < upper[0 + 1];
    FirstUpperPasses(center, 1.0 + s);
    FirstLowerPasses(center, 1.0 - s);
    FirstLevelsBracket(lower, center, upper);
  }

  lemma RoundedStep(x: real)
    requires x > 0.0
    ensures Normalize(x) >= 0.0
    ensures Normalize(x) > 0.0 <==> x > UNIT / 2.0
    ensures Normalize(x) > 0.0 ==> Normalize(x) >= UNIT
  {
    RoundError(x * UNITS);
  }

  /** One step of at least a unit moves the rounded price strictly away from the centre. */
  lemma FixedFirstLevels(center: real, step: real)
    requires step == 0.0 || step >= UNIT
    ensures FixedLevel(center, step, true, 1) < center < FixedLevel(center, step, false, 1) <==> step > 0.0
    ensures step == 0.0 ==> forall i, below :: FixedLevel(center, step, below, i) == Normalize(center)
  {
    NormalizeError(center - Offset(step, 1));
    NormalizeError(center + Offset(step, 1));
    if step == 0.0 {
      forall i: nat, below ensures FixedLevel(center, step, below, i) == Normalize(center) {
        assert Offset(step, i) == 0.0;
      }
    }
  }

  lemma SpacingPositive(center: real, bps: nat)
    requires center > 0.0 && bps > 0
    ensures center * SpacingRatio(bps) > 0.0
  {
  }

  lemma FixedBrackets(center: real, spacingBps: nat, count: nat)
    requires center > 0.0 && spacingBps > 0 && count >= 2
    requires Descending(FixedSide(center, spacingBps, true, count))
          && Ascending(FixedSide(center, spacingBps, false, count))
    ensures Brackets(FixedSide(center, spacingBps, true, count), center, FixedSide(center, spacingBps, false, count))
  {
    var lower, upper := FixedSide(center, spacingBps, true, count), FixedSide(center, spacingBps, false, count);
    assert upper[0] < upper[0 + 1];
    FixedFirstPass(center, spacingBps);
    FirstLevelsBracket(lower, center, upper);
  }

  /** Two different levels above the centre mean a step that carries the first ones past it. */
  lemma FixedFirstPass(center: real, spacingBps: nat)
    requires center > 0.0 && spacingBps > 0
    ensures var step := FixedStep(center, spacingBps);
      FixedLevel(center, step, false, 1) != FixedLevel(center, step, false, 2) ==>
        FixedLevel(center, step, true, 1) < center < FixedLevel(center, step, false, 1)
  {
    SpacingPositive(center, spacingBps);
    RoundedStep(center * SpacingRatio(spacingBps));
    FixedFirstLevels(center, FixedStep(center, spacingBps));
  }

  // ---------------------------------------------------------------- a single level per side

  /** A value rounds to something positive exactly when it is more than half a unit. */
  lemma PositiveWhenRounded(x: real)
    ensures Normalize(x) > 0.0 <==> x > UNIT / 2.0
  {
    RoundError(x * UNITS);
    if x > 0.0 {
      RoundedStep(x);
    }
  }

  lemma OneFixedLevel(center: real, spacingBps: nat, below: bool)
    ensures FixedSide(center, spacingBps, below, 1) == [FixedLevel(center, FixedStep(center, spacingBps), below, 1)]
  {
  }

  lemma SidesOfOne(low: real, high: real, center: real)
    ensures Descending([low]) && Ascending([high]) && (Positive([low]) <==> low > 0.0)
    ensures Brackets([low], center, [high]) <==> low < center < high
  {
    assert [low][0] == low && [high][0] == high;
  }

  lemma SingleFixedShape(center: real, step: real)
    requires step == 0.0 || step >= UNIT
    ensures var low, high := FixedLevel(center, step, true, 1), FixedLevel(center, step, false, 1);
      (low > 0.0 <==> center - step > UNIT / 2.0) && (low < center < high <==> step > 0.0)
  {
    assert Offset(step, 1) == step;
    PositiveWhenRounded(center - step);
    FixedFirstLevels(center, step);
  }

  /** Exactly when a fixed plan with one level per side is accepted and when it brackets its centre, both decided from
      centre and spacing.  No validator compares the level with the centre, so the two conditions differ. */
  lemma SingleFixedLevel(mode: GridMode, center: real, spacingBps: nat)
    requires BilateralInputs(mode, center, spacingBps, 1)
    ensures var lower, upper := FixedSide(center, spacingBps, true, 1), FixedSide(center, spacingBps, false, 1);
      var spacing := center * SpacingRatio(spacingBps);
      && (FixedAccepted(mode, center, spacingBps, 1) <==> center - FixedStep(center, spacingBps) > UNIT / 2.0)
      && (Brackets(lower, center, upper) <==> spacing > UNIT / 2.0)
      && (FixedAccepted(mode, center, spacingBps, 1) && !Brackets(lower, center, upper)
          <==> spacing <= UNIT / 2.0 && UNIT / 2.0 < center)
  {
    var step := FixedStep(center, spacingBps);
    SpacingPositive(center, spacingBps);
    RoundedStep(center * SpacingRatio(spacingBps));
    SingleFixedShape(center, step);
    OneFixedLevel(center, spacingBps, true);
    OneFixedLevel(center, spacingBps, false);
    SidesOfOne(FixedLevel(center, step, true, 1), FixedLevel(center, step, false, 1), center);
  }

  /** Largest whole number below x. */
  function WholeBelow(x: real): int { if x.Floor as real == x then x.Floor - 1 else x.Floor }

  /** Smallest whole number above x. */
  function WholeAbove(x: real): int { x.Floor + 1 }

  /** A move of d units from x rounds past x on both sides. */
  ghost predicate Clears(x: real, d: real) {
    var m, n := WholeBelow(x), WholeAbove(x);
    && (x - d < m as real + 0.5 || (x - d == m as real + 0.5 && m % 2 == 0))
    && (x + d > n as real - 0.5 || (x + d == n as real - 0.5 && n % 2 == 0))
  }

  lemma RoundsTo(y: real, m: int)
    ensures RoundHalfEven(y) <= m <==> y < m as real + 0.5 || (y == m as real + 0.5 && m % 2 == 0)
    ensures RoundHalfEven(y) >= m <==> y > m as real - 0.5 || (y == m as real - 0.5 && m % 2 == 0)
  {
    RoundError(y);
  }

  lemma RoundedAcross(x: real, y: real)
    ensures (RoundHalfEven(y) as real) < x <==> RoundHalfEven(y) <= WholeBelow(x)
    ensures (RoundHalfEven(y) as real) > x <==> RoundHalfEven(y) >= WholeAbove(x)
  {
  }

  lemma InUnits(level: real, center: real)
    ensures Normalize(level) < center <==> (RoundHalfEven(level * UNITS) as real) < center * UNITS
    ensures Normalize(level) > center <==> (RoundHalfEven(level * UNITS) as real) > center * UNITS
  {
  }

  /** One rounded geometric step leaves the centre on both sides exactly when the spacing, in units, clears it. */
  lemma GeometricStepClears(center: real, s: real)
    ensures Normalize(Times(center, 1.0 - s)) < center < Normalize(Times(center, 1.0 + s))
            <==> Clears(center * UNITS, center * s * UNITS)
  {
    var x, d := center * UNITS, center * s * UNITS;
    var low, high := Times(center, 1.0 - s) * UNITS, Times(center, 1.0 + s) * UNITS;
    assert low == x - d && high == x + d;
    InUnits(Times(center, 1.0 - s), center);
    InUnits(Times(center, 1.0 + s), center);
    RoundedAcross(x, low);
    RoundedAcross(x, high);
    RoundsTo(low, WholeBelow(x));
    RoundsTo(high, WholeAbove(x));
  }

  lemma OneGeometricLevel(center: real, ratio: real)
    ensures GeometricSide(center, ratio, 1) == [Normalize(Times(center, ratio))]
  {
    assert GeometricLevel(center, ratio, 1) == Normalize(Times(GeometricLevel(center, ratio, 0), ratio));
  }

  /** Exactly when one geometric level per side brackets the centre. */
  lemma SingleGeometricBrackets(center: real, s: real)
    ensures Brackets(GeometricSide(center, 1.0 - s, 1), center, GeometricSide(center, 1.0 + s, 1))
            <==> Clears(center * UNITS, center * s * UNITS)
  {
    OneGeometricLevel(center, 1.0 - s);
    OneGeometricLevel(center, 1.0 + s);
    GeometricStepClears(center, s);
    SidesOfOne(Normalize(Times(center, 1.0 - s)), Normalize(Times(center, 1.0 + s)), center);
  }

  lemma SingleGeometricShape(center: real, lowerRatio: real, upperRatio: real)
    ensures var lower, upper := GeometricSide(center, lowerRatio, 1), GeometricSide(center, upperRatio, 1);
      Descending(lower) && Ascending(upper) && (Positive(lower) <==> Times(center, lowerRatio) > UNIT / 2.0)
  {
    OneGeometricLevel(center, lowerRatio);
    OneGeometricLevel(center, upperRatio);
    PositiveWhenRounded(Times(center, lowerRatio));
    SidesOfOne(Normalize(Times(center, lowerRatio)), Normalize(Times(center, upperRatio)), center);
  }

  /** Exactly when a geometric plan with one level per side is accepted. */
  lemma SingleGeometricAccepted(mode: GridMode, center: real, spacingBps: nat)
    requires BilateralInputs(mode, center, spacingBps, 1)
    ensures GeometricAccepted(mode, center, spacingBps, 1)
            <==> SpacingRatio(spacingBps) < 1.0 && Times(center, 1.0 - SpacingRatio(spacingBps)) > UNIT / 2.0
  {
    var s := SpacingRatio(spacingBps);
    SingleGeometricShape(center, 1.0 - s, 1.0 + s);
  }

  /** For a centre of whole units it takes more than half a unit of spacing, or exactly half on an odd centre. */
  lemma WholeCentreClears(n: int, d: real)
    ensures Clears(n as real, d) <==> d > 0.5 || (d == 0.5 && n % 2 == 1)
  {
    assert WholeBelow(n as real) == n - 1 && WholeAbove(n as real) == n + 1;
  }

  const TINY: real := 0.00001

  /** A centre of 1000 units spaced by one basis point: the fixed builder accepts one level per side, and the lower one
      is the centre itself. */
  lemma FixedLevelOnCentre()
    ensures FixedAccepted(ClassicBilateralSpot, TINY, 1, 1) && FixedSide(TINY, 1, true, 1) == [TINY]
    ensures !Brackets(FixedSide(TINY, 1, true, 1), TINY, FixedSide(TINY, 1, false, 1))
  {
    SingleFixedLevel(ClassicBilateralSpot, TINY, 1);
    TinyStep();
  }

  lemma TinyStep()
    ensures FixedStep(TINY, 1) == 0.0 && FixedLevel(TINY, 0.0, true, 1) == TINY
  {
    assert FixedLevel(TINY, 0.0, true, 1) == Normalize(TINY);
    assert Normalize(TINY) == TINY;
  }

  /** The geometric builder accepts the same input, and both levels are the centre. */
  lemma GeometricLevelsOnCentre()
    ensures var s := SpacingRatio(1);
      var lower, upper := GeometricSide(TINY, 1.0 - s, 1), GeometricSide(TINY, 1.0 + s, 1);
      && GeometricAccepted(ClassicBilateralSpot, TINY, 1, 1) && lower == [TINY] && upper == [TINY]
      && !Brackets(lower, TINY, upper)
  {
    var s := SpacingRatio(1);
    SingleGeometricAccepted(ClassicBilateralSpot, TINY, 1);
    OneGeometricLevel(TINY, 1.0 - s);
    OneGeometricLevel(TINY, 1.0 + s);
    TinyRounds();
    SidesOfOne(TINY, TINY, TINY);
  }

  lemma TinyRounds()
    ensures Normalize(Times(TINY, 1.0 - SpacingRatio(1))) == TINY == Normalize(Times(TINY, 1.0 + SpacingRatio(1)))
    ensures SpacingRatio(1) < 1.0 && Times(TINY, 1.0 - SpacingRatio(1)) > UNIT / 2.0
  {
    assert SpacingRatio(1) == 0.0001;
  }

  // ---------------------------------------------------------------- when an ordinary grid stays strictly monotonic

  /** Halfway between two units. */
  predicate Halfway(x: real) { x - x.Floor as real == 0.5 }

  lemma RoundShift(x: real, n: int)
    requires !Halfway(x)
    ensures RoundHalfEven(x + n as real) == RoundHalfEven(x) + n
  {
    assert (x + n as real).Floor == x.Floor + n;
  }

  /** Rounding halfway points one unit apart: of any three in a row, two neighbours collide. */
  lemma HalfwayCollides(x: real)
    requires Halfway(x)
    ensures RoundHalfEven(x) == RoundHalfEven(x + 1.0) || RoundHalfEven(x + 1.0) == RoundHalfEven(x + 2.0)
  {
    assert (x + 1.0).Floor == x.Floor + 1;
    assert (x + 2.0).Floor == x.Floor + 2;
  }

  lemma WideStepIsStrict(x: real, k: int)
    requires k >= 2
    ensures RoundHalfEven(x) < RoundHalfEven(x + k as real)
  {
    RoundError(x);
    RoundError(x + k as real);
  }

  /** The rounded step in units. */
  function StepUnits(anchor: real, bps: nat): int { RoundHalfEven(anchor * SpacingRatio(bps) * UNITS) }

  /** Rounded position, in units, of level i. */
  function LevelUnits(x: real, k: int, below: bool, i: nat): int {
    RoundHalfEven(if below then x - (k * i) as real else x + (k * i) as real)
  }

  lemma LevelInUnits(anchor: real, bps: nat, below: bool, i: nat)
    ensures FixedLevel(anchor, FixedStep(anchor, bps), below, i)
            == LevelUnits(anchor * UNITS, StepUnits(anchor, bps), below, i) as real * UNIT
  {
    var k, step := StepUnits(anchor, bps), FixedStep(anchor, bps);
    OffsetInUnits(step, k, i);
    var offset := Offset(step, i);
    if below {
      assert (anchor - offset) * UNITS == anchor * UNITS - (k * i) as real;
    } else {
      assert (anchor + offset) * UNITS == anchor * UNITS + (k * i) as real;
    }
  }

  lemma OffsetInUnits(step: real, k: int, i: nat)
    requires step == k as real * UNIT
    ensures Offset(step, i) * UNITS == (k * i) as real
  {
    assert (k * i) as real == k as real * i as real;
    var a, b := k as real, i as real;
    assert (a * UNIT) * b == (a * b) * UNIT;
  }

  /** A grid of three or more levels is strictly monotonic exactly when the rounded step is at least two units, or is
      one unit and the anchor is not halfway between two units. */
  ghost predicate Spread(x: real, k: int) { k >= 2 || (k == 1 && !Halfway(x)) }

  /** Where level i lies before rounding, as a shift of the anchor. */
  function Shift(k: int, below: bool, i: nat): int { if below then -(k * i) else k * i }

  lemma LevelUnitsShift(x: real, k: int, below: bool, i: nat)
    ensures LevelUnits(x, k, below, i) == RoundHalfEven(x + Shift(k, below, i) as real)
    ensures Shift(k, below, i + 1) == Shift(k, below, i) + if below then -k else k
  {
    assert k * (i + 1) == k * i + k;
  }

  lemma SpreadIsStrict(x: real, k: int, n: int)
    requires Spread(x, k)
    ensures RoundHalfEven(x + n as real) < RoundHalfEven(x + (n + k) as real)
  {
    if k >= 2 {
      WideStepIsStrict(x + n as real, k);
    } else {
      RoundShift(x, n);
      RoundShift(x, n + 1);
    }
  }

  lemma ConsecutiveUnits(x: real, k: int, below: bool, i: nat)
    ensures Spread(x, k) ==> if below then LevelUnits(x, k, below, i) > LevelUnits(x, k, below, i + 1)
                             else LevelUnits(x, k, below, i) < LevelUnits(x, k, below, i + 1)
    ensures k == 0 ==> LevelUnits(x, k, below, i) == LevelUnits(x, k, below, i + 1)
  {
    LevelUnitsShift(x, k, below, i);
    LevelUnitsShift(x, k, below, i + 1);
    if Spread(x, k) {
      SpreadIsStrict(x, k, if below then Shift(k, below, i + 1) else Shift(k, below, i));
    }
  }

  lemma TightStepCollides(x: real, below: bool)
    requires Halfway(x)
    ensures LevelUnits(x, 1, below, 0) == LevelUnits(x, 1, below, 1)
          || LevelUnits(x, 1, below, 1) == LevelUnits(x, 1, below, 2)
  {
    if below {
      assert (x - 2.0).Floor == x.Floor - 2;
      HalfwayCollides(x - 2.0);
    } else {
      HalfwayCollides(x);
    }
  }

  lemma StepUnitsNonNegative(anchor: real, bps: nat)
    requires anchor > 0.0 && bps > 0
    ensures StepUnits(anchor, bps) >= 0
  {
    SpacingPositive(anchor, bps);
    RoundError(anchor * SpacingRatio(bps) * UNITS);
  }

  lemma LevelOrder(anchor: real, bps: nat, below: bool, i: nat, j: nat)
    ensures var k := StepUnits(anchor, bps);
            FixedLevel(anchor, FixedStep(anchor, bps), below, i) < FixedLevel(anchor, FixedStep(anchor, bps), below, j)
            <==> LevelUnits(anchor * UNITS, k, below, i) < LevelUnits(anchor * UNITS, k, below, j)
  {
    LevelInUnits(anchor, bps, below, i);
    LevelInUnits(anchor, bps, below, j);
  }

  lemma SpreadOrdersLevels(mode: GridMode, anchor: real, spacingBps: nat, count: nat)
    requires mode.IsOrdinary() && Spread(anchor * UNITS, StepUnits(anchor, spacingBps))
    ensures Directed(mode, OrdinaryLevels(mode, anchor, spacingBps, count))
  {
    var levels, below := OrdinaryLevels(mode, anchor, spacingBps, count), !mode.FuturesShort?;
    forall i | 0 <= i < |levels| - 1
      ensures if below then levels[i] > levels[i + 1] else levels[i] < levels[i + 1]
    {
      ConsecutiveUnits(anchor * UNITS, StepUnits(anchor, spacingBps), below, i);
      LevelOrder(anchor, spacingBps, below, i, i + 1);
      LevelOrder(anchor, spacingBps, below, i + 1, i);
    }
  }

  lemma CrowdedLevelsCollide(anchor: real, spacingBps: nat, below: bool)
    requires anchor > 0.0 && spacingBps > 0 && !Spread(anchor * UNITS, StepUnits(anchor, spacingBps))
    ensures var step := FixedStep(anchor, spacingBps);
            FixedLevel(anchor, step, below, 0) == FixedLevel(anchor, step, below, 1) ||
            FixedLevel(anchor, step, below, 1) == FixedLevel(anchor, step, below, 2)
  {
    StepUnitsNonNegative(anchor, spacingBps);
    if StepUnits(anchor, spacingBps) == 1 {
      TightStepCollides(anchor * UNITS, below);
    } else {
      ConsecutiveUnits(anchor * UNITS, 0, below, 0);
    }
    LevelInUnits(anchor, spacingBps, below, 0);
    LevelInUnits(anchor, spacingBps, below, 1);
    LevelInUnits(anchor, spacingBps, below, 2);
  }

  /** Two levels one unit apart with a halfway anchor round apart or together by the parity of the anchor. */
  lemma HalfwayPair(x: real, below: bool)
    requires Halfway(x)
    ensures if below then LevelUnits(x, 1, below, 0) > LevelUnits(x, 1, below, 1) <==> x.Floor % 2 == 1
            else LevelUnits(x, 1, below, 0) < LevelUnits(x, 1, below, 1) <==> x.Floor % 2 == 0
  {
    assert (x - 1.0).Floor == x.Floor - 1 && (x + 1.0).Floor == x.Floor + 1;
  }

  /** Exactly when the levels of an ordinary grid stay strictly monotonic, from anchor, step and count. */
  ghost predicate KeepsApart(x: real, k: int, below: bool, count: nat) {
    || count <= 1
    || Spread(x, k)
    || (count == 2 && k == 1 && x.Floor % 2 == if below then 1 else 0)
  }

  lemma PairDirected(mode: GridMode, levels: seq<real>)
    requires mode.IsOrdinary() && |levels| == 2
    ensures Directed(mode, levels) <==> if mode.FuturesShort? then levels[0] < levels[1] else levels[0] > levels[1]
  {
    assert Descending(levels) <==> levels[0] > levels[0 + 1];
    assert Ascending(levels) <==> levels[0] < levels[0 + 1];
  }

  lemma PairOfUnits(x: real, k: int, below: bool)
    requires k >= 0 && !Spread(x, k)
    ensures (if below then LevelUnits(x, k, below, 0) > LevelUnits(x, k, below, 1)
             else LevelUnits(x, k, below, 0) < LevelUnits(x, k, below, 1)) <==> KeepsApart(x, k, below, 2)
  {
    if k == 1 {
      HalfwayPair(x, below);
    } else {
      ConsecutiveUnits(x, 0, below, 0);
    }
  }

  lemma PairOfLevels(mode: GridMode, anchor: real, spacingBps: nat)
    requires mode.IsOrdinary() && anchor > 0.0 && spacingBps > 0
    requires !Spread(anchor * UNITS, StepUnits(anchor, spacingBps))
    ensures Directed(mode, OrdinaryLevels(mode, anchor, spacingBps, 2))
            <==> KeepsApart(anchor * UNITS, StepUnits(anchor, spacingBps), !mode.FuturesShort?, 2)
  {
    var below := !mode.FuturesShort?;
    StepUnitsNonNegative(anchor, spacingBps);
    LevelOrder(anchor, spacingBps, below, 0, 1);
    LevelOrder(anchor, spacingBps, below, 1, 0);
    PairOfUnits(anchor * UNITS, StepUnits(anchor, spacingBps), below);
    PairDirected(mode, OrdinaryLevels(mode, anchor, spacingBps, 2));
  }

  /** The monotonicity check of `ordinary_fixed_step`, decided before any level is built. */
  lemma OrdinaryMonotoneIff(mode: GridMode, anchor: real, spacingBps: nat, count: nat)
    requires mode.IsOrdinary() && anchor > 0.0 && spacingBps > 0
    ensures Directed(mode, OrdinaryLevels(mode, anchor, spacingBps, count))
            <==> KeepsApart(anchor * UNITS, StepUnits(anchor, spacingBps), !mode.FuturesShort?, count)
  {
    if Spread(anchor * UNITS, StepUnits(anchor, spacingBps)) {
      SpreadOrdersLevels(mode, anchor, spacingBps, count);
    } else if count == 2 {
      PairOfLevels(mode, anchor, spacingBps);
    } else if count > 2 {
      CrowdedLevelsCollide(anchor, spacingBps, !mode.FuturesShort?);
      var levels := OrdinaryLevels(mode, anchor, spacingBps, count);
      assert levels[0] == levels[0 + 1] || levels[1] == levels[1 + 1];
    }
  }

  // ---------------------------------------------------------------- accuracy of the fixed grids

  /** A whole number of units of 10^-8, at most half a unit from the exact value. */
  predicate Near(level: real, exact: real) {
    var units := level * 100000000.0;
    units == units.Floor as real && Abs(level - exact) <= 0.000000005
  }

  lemma NormalizeIsNear(x: real)
    ensures Near(Normalize(x), x)
  {
    NormalizeError(x);
    assert Normalize(x) * 100000000.0 == RoundHalfEven(x * UNITS) as real;
  }

  /** Offsets grow by one step each. */
  lemma OffsetGrows(step: real, i: nat)
    ensures Offset(step, 0) == 0.0 && Offset(step, i + 1) == Offset(step, i) + step
  {
    assert (i + 1) as real == i as real + 1.0;
  }

  lemma StepIsNear(price: real, spacingBps: nat)
    ensures Near(FixedStep(price, spacingBps), price * (spacingBps as real / 10000.0))
  {
    NormalizeIsNear(price * SpacingRatio(spacingBps));
  }

  lemma LevelIsNear(price: real, step: real, below: bool, i: nat)
    ensures Near(FixedLevel(price, step, below, i), if below then price - Offset(step, i) else price + Offset(step, i))
  {
    NormalizeIsNear(if below then price - Offset(step, i) else price + Offset(step, i));
  }

  /** Level i of an ordinary grid lies i steps from the anchor, above it for a short grid and below it for the others,
      rounded; the step is the spacing of the price, rounded (`StepIsNear`). */
  lemma OrdinaryAccuracy(mode: GridMode, anchor: real, spacingBps: nat, count: nat, i: nat)
    requires i < count
    ensures var step := FixedStep(anchor, spacingBps);
      Near(OrdinaryLevels(mode, anchor, spacingBps, count)[i],
           if mode.FuturesShort? then anchor + Offset(step, i) else anchor - Offset(step, i))
  {
    LevelIsNear(anchor, FixedStep(anchor, spacingBps), !mode.FuturesShort?, i);
  }

  /** Level i of a side of the fixed bilateral grid lies i + 1 steps from the centre, rounded. */
  lemma FixedSideAccuracy(center: real, spacingBps: nat, below: bool, count: nat, i: nat)
    requires i < count
    ensures var step := FixedStep(center, spacingBps);
      Near(FixedSide(center, spacingBps, below, count)[i],
           if below then center - Offset(step, i + 1) else center + Offset(step, i + 1))
  {
    LevelIsNear(center, FixedStep(center, spacingBps), below, i + 1);
  }
}
