/** The cache of scripts/dgt_dynamic_grid_probe.py: one simulation per symbol, spacing and width at principal 1,
    scaled for every principal of the search.  The theorem is that a scaled stream is the stream a direct
    simulation would have given, errors included. */
module GridScaling {
  import opened Common
  import opened DynamicGrid
  import opened Timeline

  /** Multiplication under a name. */
  function Times(k: real, x: real): real { k * x }

  /** Every amount of quote or base currency times k; prices, positions and counts unchanged. */
  function ScaleGrid(g: Grid, k: real): Grid {
    g.(wallet := Times(k, g.wallet), inventory := Times(k, g.inventory), totalInput := Times(k, g.totalInput),
       maxInput := Times(k, g.maxInput), fees := Times(k, g.fees))
  }

  function ScaleParams(p: Params, k: real): Params { p.(principal := Times(k, p.principal)) }

  function ScalePoint(point: Point, k: real): Point { point.(equity := Times(k, point.equity)) }

  function ScalePoints(points: seq<Point>, k: real): (scaled: seq<Point>)
    ensures |scaled| == |points|
  {
    seq(|points|, i requires 0 <= i < |points| => ScalePoint(points[i], k))
  }

  function ScaleOption(g: Option<Grid>, k: real): Option<Grid> {
    match g
    case None => None
    case Some(v) => Some(ScaleGrid(v, k))
  }

  // ---------------------------------------------------------------- real arithmetic

  lemma QuotientScales(k: real, x: real, n: real)
    requires n != 0.0
    ensures Times(k, x) / n == Times(k, x / n)
  {
    var q := x / n;
    assert q * n == x;
    assert (k * q) * n == k * (q * n);
  }

  lemma ProductScales(k: real, a: real, x: real, b: real)
    ensures a * Times(k, x) * b == Times(k, a * x * b)
  {
    assert a * (k * x) == k * (a * x);
    var y := a * x;
    assert (k * y) * b == k * (y * b);
  }

  lemma OrderScales(k: real, x: real, y: real)
    requires k > 0.0
    ensures Times(k, x) <= Times(k, y) <==> x <= y
  {
    if x <= y {
      assert k * (y - x) >= 0.0;
      assert k * (y - x) == k * y - k * x;
    } else {
      assert k * (x - y) > 0.0;
      assert k * (x - y) == k * x - k * y;
    }
  }

  lemma SumScales(k: real, x: real, y: real)
    ensures Times(k, x + y) == Times(k, x) + Times(k, y)
    ensures Times(k, x - y) == Times(k, x) - Times(k, y)
  {
  }

  // ---------------------------------------------------------------- one segment

  lemma FeesScale(p: Params, k: real, steps: int)
    requires p.half > 0
    ensures Slice(ScaleParams(p, k)) == Times(k, Slice(p))
    ensures StepFees(ScaleParams(p, k), steps) == Times(k, StepFees(p, steps))
  {
    QuotientScales(k, p.principal, (2 * p.half) as real);
    ProductScales(k, steps as real, Slice(p), p.feeRate);
    var fee := steps as real * Slice(p) * p.feeRate;
    SumScales(k, fee, fee);
    assert fee * 2.0 == fee + fee;
  }

  lemma ProfitScales(p: Params, k: real, steps: int)
    requires p.half > 0
    ensures ArbitrageProfit(ScaleParams(p, k), steps) == Times(k, ArbitrageProfit(p, steps))
  {
    FeesScale(p, k, steps);
    ProductScales(k, steps as real, Slice(p), p.spacing);
    SumScales(k, steps as real * Slice(p) * p.spacing, StepFees(p, steps));
  }

  lemma FundingScales(p: Params, g: Grid, k: real)
    requires k > 0.0
    ensures FundNextGrid(ScaleParams(p, k), ScaleGrid(g, k)) == ScaleGrid(FundNextGrid(p, g), k)
  {
    OrderScales(k, p.principal, g.wallet);
    SumScales(k, g.wallet, p.principal);
    SumScales(k, p.principal, g.wallet);
    var need := p.principal - g.wallet;
    SumScales(k, g.totalInput, need);
    OrderScales(k, g.totalInput + need, g.maxInput);
    assert Times(k, 0.0) == 0.0;
  }

  lemma ResetScales(p: Params, g: Grid, k: real, price: real)
    ensures ResetGrid(ScaleParams(p, k), ScaleGrid(g, k), price) == ScaleOption(ResetGrid(p, g, price), k)
  {
  }

  /** Paying an exit's profit into the wallet, before the next grid is funded. */
  lemma ExitScales(p: Params, g: Grid, k: real, gain: real, fees: real, bought: real, exits: seq<Exit>, price: real)
    requires k > 0.0
    ensures var paid := g.(wallet := g.wallet + gain, fees := g.fees + fees, inventory := g.inventory + bought,
                           exits := exits);
            var s := ScaleGrid(g, k);
            var paidScaled := s.(wallet := s.wallet + Times(k, gain), fees := s.fees + Times(k, fees),
                                 inventory := s.inventory + Times(k, bought), exits := exits);
            ResetGrid(ScaleParams(p, k), FundNextGrid(ScaleParams(p, k), paidScaled), price)
            == ScaleOption(ResetGrid(p, FundNextGrid(p, paid), price), k)
  {
    var paid := g.(wallet := g.wallet + gain, fees := g.fees + fees, inventory := g.inventory + bought,
                   exits := exits);
    SumScales(k, g.wallet, gain);
    SumScales(k, g.fees, fees);
    SumScales(k, g.inventory, bought);
    var s := ScaleGrid(g, k);
    assert s.(wallet := s.wallet + Times(k, gain), fees := s.fees + Times(k, fees),
              inventory := s.inventory + Times(k, bought), exits := exits) == ScaleGrid(paid, k);
    FundingScales(p, paid, k);
    ResetScales(p, FundNextGrid(p, paid), k, price);
  }

  lemma UpperExitScales(p: Params, g: Grid, k: real, price: real)
    requires k > 0.0 && p.half > 0
    ensures UpperExit(ScaleParams(p, k), ScaleGrid(g, k), price) == ScaleOption(UpperExit(p, g, price), k)
  {
    var steps := p.half + NonNegative(g.traversals - p.half);
    var profit := ArbitrageProfit(p, steps);
    ProfitScales(p, k, steps);
    FeesScale(p, k, steps);
    SumScales(k, p.principal, profit);
    assert Times(k, 0.0) == 0.0;
    ExitScales(p, g, k, p.principal + profit, StepFees(p, steps), 0.0,
        g.exits + [Exit(true, g.center, price, g.traversals)], price);
  }

  lemma BoughtScales(p: Params, k: real, center: real)
    ensures Bought(ScaleParams(p, k), center) == Times(k, Bought(p, center))
  {
    QuotientScales(k, p.principal, Max(center, 0.000000000001));
    ProductScales(k, 1.0, p.principal / Max(center, 0.000000000001), 1.0 - p.feeRate);
  }

  lemma LowerExitScales(p: Params, g: Grid, k: real, price: real)
    requires k > 0.0 && p.half > 0
    ensures LowerExit(ScaleParams(p, k), ScaleGrid(g, k), price) == ScaleOption(LowerExit(p, g, price), k)
  {
    var steps := NonNegative(g.traversals - p.half);
    var profit := ArbitrageProfit(p, steps);
    var bought := Bought(p, g.center);
    ProfitScales(p, k, steps);
    FeesScale(p, k, steps);
    BoughtScales(p, k, g.center);
    ExitScales(p, g, k, profit, StepFees(p, steps), bought,
        g.exits + [Exit(false, g.center, price, g.traversals)], price);
  }

  lemma SegmentScales(p: Params, g: Grid, k: real, start: real, end: real)
    requires k > 0.0 && Shape(p, g)
    ensures Segment(ScaleParams(p, k), ScaleGrid(g, k), start, end) == ScaleOption(Segment(p, g, start, end), k)
  {
    var moved := Moved(g, Walk(g.levels, g.cursor, start, end));
    assert Moved(ScaleGrid(g, k), Walk(g.levels, g.cursor, start, end)) == ScaleGrid(moved, k);
    UpperExitScales(p, moved, k, end);
    var up := AfterUpper(p, moved, end);
    if up.Some? {
      LowerExitScales(p, up.value, k, end);
    }
  }

  lemma {:induction false} SegmentsScale(p: Params, g: Grid, k: real, path: seq<real>)
    requires k > 0.0 && Shape(p, g)
    ensures Segments(ScaleParams(p, k), ScaleGrid(g, k), path) == ScaleOption(Segments(p, g, path), k)
    decreases |path|
  {
    if |path| >= 2 {
      SegmentScales(p, g, k, path[0], path[1]);
      var next := Segment(p, g, path[0], path[1]);
      if next.Some? {
        SegmentsScale(p, next.value, k, path[1..]);
      }
    }
  }

  lemma ObserveScales(p: Params, g: Grid, k: real, bar: Bar)
    ensures Observe(ScaleParams(p, k), ScaleGrid(g, k), bar) == ScalePoint(Observe(p, g, bar), k)
  {
    var price := bar.close;
    ProductScales(k, 1.0, g.inventory, price);
    SumScales(k, g.wallet, g.inventory * price);
    SumScales(k, g.wallet + g.inventory * price, p.principal);
  }

  // ---------------------------------------------------------------- a whole run

  function ScalePlayed(r: Option<Played>, k: real): Option<Played> {
    match r
    case None => None
    case Some(v) => Some(Played(ScaleGrid(v.grid, k), ScalePoints(v.points, k)))
  }

  lemma ConcatScales(a: seq<Point>, b: seq<Point>, k: real)
    ensures ScalePoints(a + b, k) == ScalePoints(a, k) + ScalePoints(b, k)
  {
  }

  lemma AppendScales(a: seq<Point>, point: Point, k: real)
    ensures ScalePoints(a + [point], k) == ScalePoints(a, k) + [ScalePoint(point, k)]
  {
  }

  lemma StartScales(p: Params, k: real, open: real)
    ensures Start(ScaleParams(p, k), open) == ScaleOption(Start(p, open), k)
  {
    assert Times(k, 0.0) == 0.0;
  }

  lemma NextBarScales(p: Params, before: Played, k: real, path: seq<real>, bar: Bar)
    requires k > 0.0 && Shape(p, before.grid)
    ensures NextBar(ScaleParams(p, k), ScalePlayed(Some(before), k).value, path, bar)
          == ScalePlayed(NextBar(p, before, path, bar), k)
  {
    SegmentsScale(p, before.grid, k, path);
    var g := Segments(p, before.grid, path);
    if g.Some? {
      ObserveScales(p, g.value, k, bar);
      AppendScales(before.points, Observe(p, g.value, bar), k);
    }
  }

  lemma {:induction false} PlayScales(p: Params, k: real, bars: seq<Bar>, n: nat)
    requires k > 0.0 && 0 < |bars| && n <= |bars|
    ensures Play(ScaleParams(p, k), bars, n) == ScalePlayed(Play(p, bars, n), k)
  {
    if n == 0 {
      StartScales(p, k, bars[0].open);
      assert ScalePoints([], k) == [];
    } else {
      PlayScales(p, k, bars, n - 1);
      var before := Play(p, bars, n - 1);
      if before.Some? {
        NextBarScales(p, before.value, k, Path(bars, n - 1), bars[n - 1]);
      }
    }
  }

  // ---------------------------------------------------------------- compaction

  lemma FrontScales(points: seq<Point>, k: real)
    requires points != []
    ensures ScalePoints(points, k)[..|points| - 1] == ScalePoints(points[..|points| - 1], k)
  {
  }

  lemma {:induction false} HighestScales(points: seq<Point>, k: real)
    requires points != [] && k > 0.0
    ensures Highest(ScalePoints(points, k)) == ScalePoint(Highest(points), k)
  {
    if |points| > 1 {
      var front, last := points[..|points| - 1], points[|points| - 1];
      HighestScales(front, k);
      FrontScales(points, k);
      OrderScales(k, last.equity, Highest(front).equity);
    }
  }

  lemma {:induction false} LowestScales(points: seq<Point>, k: real)
    requires points != [] && k > 0.0
    ensures Lowest(ScalePoints(points, k)) == ScalePoint(Lowest(points), k)
  {
    if |points| > 1 {
      var front, last := points[..|points| - 1], points[|points| - 1];
      LowestScales(front, k);
      FrontScales(points, k);
      OrderScales(k, Lowest(front).equity, last.equity);
    }
  }

  lemma ExtremesScale(points: seq<Point>, k: real)
    requires points != [] && k > 0.0
    ensures Highest(ScalePoints(points, k)) == ScalePoint(Highest(points), k)
    ensures Lowest(ScalePoints(points, k)) == ScalePoint(Lowest(points), k)
  {
    HighestScales(points, k);
    LowestScales(points, k);
  }

  lemma {:induction false} InsertScales(points: seq<Point>, point: Point, k: real)
    ensures Place(ScalePoints(points, k), ScalePoint(point, k), TimeOf) == ScalePoints(Place(points, point, TimeOf), k)
  {
    if points == [] || points[|points| - 1].time <= point.time {
      assert ScalePoints(points + [point], k) == ScalePoints(points, k) + [ScalePoint(point, k)];
    } else {
      var front, last := points[..|points| - 1], points[|points| - 1];
      InsertScales(front, point, k);
      assert ScalePoints(points, k)[..|points| - 1] == ScalePoints(front, k);
      assert ScalePoints(Place(front, point, TimeOf) + [last], k)
          == ScalePoints(Place(front, point, TimeOf), k) + [ScalePoint(last, k)];
    }
  }

  lemma {:induction false} SortScales(points: seq<Point>, k: real)
    ensures SortByTime(ScalePoints(points, k)) == ScalePoints(SortByTime(points), k)
  {
    if points == [] {
      assert ScalePoints([], k) == [];
    } else {
      var front := points[..|points| - 1];
      SortScales(front, k);
      assert ScalePoints(points, k)[..|points| - 1] == ScalePoints(front, k);
      InsertScales(SortByTime(front), points[|points| - 1], k);
    }
  }

  lemma {:induction false} DropRepeatsScales(points: seq<Point>, k: real)
    ensures DropRepeats(ScalePoints(points, k)) == ScalePoints(DropRepeats(points), k)
  {
    if points == [] {
      assert ScalePoints([], k) == [];
    } else {
      var front, last := points[..|points| - 1], points[|points| - 1];
      DropRepeatsScales(front, k);
      assert ScalePoints(points, k)[..|points| - 1] == ScalePoints(front, k);
      var before := DropRepeats(front);
      assert forall i :: 0 <= i < |before| ==> ScalePoints(before, k)[i].time == before[i].time;
      assert ScalePoints(before + [last], k) == ScalePoints(before, k) + [ScalePoint(last, k)];
    }
  }

  function Kept(points: seq<Point>): seq<Point>
    requires points != []
  {
    [points[0], Highest(points), Lowest(points), points[|points| - 1]]
  }

  lemma KeptScales(points: seq<Point>, k: real)
    requires points != [] && k > 0.0
    ensures Kept(ScalePoints(points, k)) == ScalePoints(Kept(points), k)
  {
    ExtremesScale(points, k);
  }

  lemma FlushScales(points: seq<Point>, k: real)
    requires k > 0.0
    ensures FlushDay(ScalePoints(points, k)) == ScalePoints(FlushDay(points), k)
  {
    if points == [] {
      assert ScalePoints([], k) == [];
    } else {
      KeptScales(points, k);
      SortScales(Kept(points), k);
      DropRepeatsScales(SortByTime(Kept(points)), k);
    }
  }

  function ScaleBuffer(b: Buffer, k: real): Buffer {
    Buffer(ScalePoints(b.compacted, k), ScalePoints(b.dayPoints, k), b.currentDay)
  }

  lemma AbsorbScales(b: Buffer, point: Point, k: real)
    requires k > 0.0
    ensures Absorb(ScaleBuffer(b, k), ScalePoint(point, k)) == ScaleBuffer(Absorb(b, point), k)
  {
    FlushScales(b.dayPoints, k);
    ConcatScales(b.compacted, FlushDay(b.dayPoints), k);
    ConcatScales(b.dayPoints, [point], k);
    assert ScalePoints([point], k) == [ScalePoint(point, k)];
  }

  lemma {:induction false} AbsorbAllScales(points: seq<Point>, k: real)
    requires points != [] && k > 0.0
    ensures AbsorbAll(ScalePoints(points, k)) == ScaleBuffer(AbsorbAll(points), k)
  {
    if |points| == 1 {
      var b := Buffer([], [], Day(points[0]));
      AbsorbScales(b, points[0], k);
      assert ScaleBuffer(b, k) == b;
    } else {
      var front := points[..|points| - 1];
      AbsorbAllScales(front, k);
      assert ScalePoints(points, k)[..|points| - 1] == ScalePoints(front, k);
      AbsorbScales(AbsorbAll(front), points[|points| - 1], k);
    }
  }

  lemma CompactScales(points: seq<Point>, k: real)
    requires k > 0.0
    ensures Compact(ScalePoints(points, k)) == ScalePoints(Compact(points), k)
  {
    if |points| > 3 {
      AbsorbAllScales(points, k);
      var b := AbsorbAll(points);
      FlushScales(b.dayPoints, k);
      ConcatScales(b.compacted, FlushDay(b.dayPoints), k);
    }
  }

  // ---------------------------------------------------------------- the cache

  /** `scale_dgt_stream`; `None` stands for its ValueError. */
  function ScaleStream(s: Stream, principal: real): Option<Stream> {
    if principal <= 0.0 || s.principal <= 0.0 then None
    else
      var scale := principal / s.principal;
      Some(s.(points := ScalePoints(s.points, scale), maxInput := Times(scale, s.maxInput),
              totalInput := Times(scale, s.totalInput), fees := Times(scale, s.fees), principal := principal))
  }

  lemma ScaleFactor(base: real, principal: real)
    requires base > 0.0 && principal > 0.0
    ensures principal / base > 0.0 && Times(principal / base, base) == principal
  {
    var k := principal / base;
    assert k * base == principal;
  }

  lemma ReportScales(p: Params, end: Played, k: real)
    requires k > 0.0
    ensures Report(ScaleParams(p, k), ScalePlayed(Some(end), k).value).points == ScalePoints(Report(p, end).points, k)
  {
    CompactScales(end.points, k);
  }

  /** Scaling a stream cached at one principal gives exactly what simulating at another would have given:
      points, inputs, fees and resets; and the one simulation fails exactly when the other does. */
  lemma ScaledCacheAgrees(bars: seq<Bar>, base: real, principal: real, spacing: real, half: int, feeBps: real)
    requires base > 0.0 && principal > 0.0
    ensures match Simulate(bars, base, spacing, half, feeBps)
            case Err(e) => Simulate(bars, principal, spacing, half, feeBps) == Err(e)
            case Ok(cached) =>
              && ScaleStream(cached, principal).Some?
              && Simulate(bars, principal, spacing, half, feeBps) == Ok(ScaleStream(cached, principal).value)
  {
    if bars != [] {
      var p := Params(base, spacing, half, feeBps / 10000.0);
      var k := principal / base;
      ScaleFactor(base, principal);
      assert ScaleParams(p, k) == Params(principal, spacing, half, feeBps / 10000.0);
      PlayScales(p, k, bars, |bars|);
      var end := Play(p, bars, |bars|);
      if end.Some? {
        ReportScales(p, end.value, k);
      }
    }
  }

  /** The form the search uses: one run at principal 1. */
  lemma UnitCacheAgrees(bars: seq<Bar>, principal: real, spacing: real, half: int, feeBps: real)
    requires principal > 0.0
    ensures match Simulate(bars, 1.0, spacing, half, feeBps)
            case Err(e) => Simulate(bars, principal, spacing, half, feeBps) == Err(e)
            case Ok(unit) => Simulate(bars, principal, spacing, half, feeBps) == Ok(ScaleStream(unit, principal).value)
  {
    ScaledCacheAgrees(bars, 1.0, principal, spacing, half, feeBps);
  }
}
