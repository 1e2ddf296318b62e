/** The dynamic grid simulation of scripts/dgt_dynamic_grid_probe.py.

    This module gives the simulation as a specification, `Simulate`, and proves what every run conserves.  The loops
    that compute it are in GridRun, and GridScaling proves that a run cached at one principal can be scaled. */
module DynamicGrid {
  import opened Common
  import opened Timeline

  const MS_PER_DAY: int := 86_400_000

  datatype Bar = Bar(timestamp: int, open: real, high: real, low: real, close: real)
  datatype Params = Params(principal: real, spacing: real, half: int, feeRate: real)

  /** A grid that was left, above or below: its centre, the price at that moment, and the lines crossed until then. */
  datatype Exit = Exit(above: bool, center: real, price: real, crossed: int)

  /** The simulation state.  `exits` is a history that the simulation itself never reads. */
  datatype Grid = Grid(
    center: real, levels: seq<real>, cursor: int, traversals: int, resets: nat,
    wallet: real, inventory: real, totalInput: real, maxInput: real, fees: real, exits: seq<Exit>)

  // ---------------------------------------------------------------- specification of one segment

  /** `grid_levels`; `None` stands for its ValueError. */
  function GridLevels(center: real, spacing: real, half: int): (r: Option<seq<real>>)
    ensures r.Some? <==> center > 0.0 && spacing > 0.0 && half > 0
    ensures r.Some? ==> |r.value| == 2 * half + 1 && r.value[half] == center
  {
    if center <= 0.0 || spacing <= 0.0 || half <= 0 then None
    else Some(seq(2 * half + 1, i requires 0 <= i < 2 * half + 1 =>
                if i < half then center * (1.0 - spacing * (half - i) as real)
                else if i == half then center
                else center * (1.0 + spacing * (i - half) as real)))
  }

  function Climb(levels: seq<real>, cursor: int, start: real, end: real): (c: int)
    requires 0 <= cursor < |levels|
    ensures cursor <= c < |levels|
    decreases |levels| - cursor
  {
    if cursor + 1 < |levels| && start <= levels[cursor + 1] < end then Climb(levels, cursor + 1, start, end) else cursor
  }

  function Descend(levels: seq<real>, cursor: int, start: real, end: real): (c: int)
    requires 0 <= cursor < |levels|
    ensures 0 <= c <= cursor
    decreases cursor
  {
    if cursor > 0 && end <= levels[cursor - 1] < start then Descend(levels, cursor - 1, start, end) else cursor
  }

  function Walk(levels: seq<real>, cursor: int, start: real, end: real): (c: int)
    requires 0 <= cursor < |levels|
    ensures 0 <= c < |levels|
  {
    if start < end then Climb(levels, cursor, start, end)
    else if start > end then Descend(levels, cursor, start, end)
    else cursor
  }

  function NonNegative(n: int): int { if n < 0 then 0 else n }

  /** Share of the principal that works on one grid line. */
  function Slice(p: Params): real
    requires p.half > 0
  {
    p.principal / (2 * p.half) as real
  }

  function StepFees(p: Params, steps: int): real
    requires p.half > 0
  {
    steps as real * Slice(p) * p.feeRate * 2.0
  }

  function ArbitrageProfit(p: Params, steps: int): real
    requires p.half > 0
  {
    steps as real * Slice(p) * p.spacing - StepFees(p, steps)
  }

  function FundNextGrid(p: Params, g: Grid): Grid {
    if g.wallet >= p.principal then g.(wallet := g.wallet - p.principal)
    else
      var total := g.totalInput + (p.principal - g.wallet);
      g.(totalInput := total, maxInput := Max(g.maxInput, total), wallet := 0.0)
  }

  function ResetGrid(p: Params, g: Grid, price: real): Option<Grid> {
    match GridLevels(price, p.spacing, p.half)
    case None => None
    case Some(levels) =>
      Some(g.(center := price, levels := levels, cursor := p.half, traversals := 0, resets := g.resets + 1))
  }

  function UpperExit(p: Params, g: Grid, price: real): Option<Grid>
    requires p.half > 0
  {
    var steps := p.half + NonNegative(g.traversals - p.half);
    var profit := ArbitrageProfit(p, steps);
    var paid := g.(wallet := g.wallet + (p.principal + profit), fees := g.fees + StepFees(p, steps),
        exits := g.exits + [Exit(true, g.center, price, g.traversals)]);
    ResetGrid(p, FundNextGrid(p, paid), price)
  }

  /** Base currency kept when a grid is left at its lower edge. */
  function Bought(p: Params, center: real): real {
    (p.principal / Max(center, 0.000000000001)) * (1.0 - p.feeRate)
  }

  function LowerExit(p: Params, g: Grid, price: real): Option<Grid>
    requires p.half > 0
  {
    var steps := NonNegative(g.traversals - p.half);
    var profit := ArbitrageProfit(p, steps);
    var bought := Bought(p, g.center);
    var paid := g.(wallet := g.wallet + profit, fees := g.fees + StepFees(p, steps), inventory := g.inventory + bought,
                   exits := g.exits + [Exit(false, g.center, price, g.traversals)]);
    ResetGrid(p, FundNextGrid(p, paid), price)
  }

  predicate Shape(p: Params, g: Grid) {
    p.half > 0 && p.spacing > 0.0 && |g.levels| == 2 * p.half + 1 && 0 <= g.cursor <= 2 * p.half
  }

  function Moved(g: Grid, c: int): Grid {
    g.(cursor := c, traversals := g.traversals + (if c >= g.cursor then c - g.cursor else g.cursor - c))
  }

  function AfterUpper(p: Params, g: Grid, price: real): Option<Grid>
    requires Shape(p, g)
  {
    if price >= g.levels[2 * p.half] || g.cursor == 2 * p.half then UpperExit(p, g, price) else Some(g)
  }

  function AfterLower(p: Params, g: Grid, price: real): Option<Grid>
    requires Shape(p, g)
  {
    if price <= g.levels[0] || g.cursor == 0 then LowerExit(p, g, price) else Some(g)
  }

  /** One leg of a bar's price path: walk the grid lines, then the upper and the lower exit tests. */
  function Segment(p: Params, g: Grid, start: real, end: real): Option<Grid>
    requires Shape(p, g)
  {
    match AfterUpper(p, Moved(g, Walk(g.levels, g.cursor, start, end)), end)
    case None => None
    case Some(up) => AfterLower(p, up, end)
  }

  // ---------------------------------------------------------------- specification of a run

  function Segments(p: Params, g: Grid, path: seq<real>): (r: Option<Grid>)
    requires Shape(p, g)
    ensures r.Some? ==> Shape(p, r.value)
    decreases |path|
  {
    if |path| < 2 then Some(g)
    else
      match Segment(p, g, path[0], path[1])
      case None => None
      case Some(next) => Segments(p, next, path[1..])
  }

  function Path(bars: seq<Bar>, n: nat): (path: seq<real>)
    requires n < |bars|
    ensures |path| == 4
  {
    [if n == 0 then bars[0].open else bars[n - 1].close, bars[n].low, bars[n].high, bars[n].close]
  }

  function EquityAt(p: Params, g: Grid, price: real): real {
    g.wallet + g.inventory * price + p.principal
  }

  function Start(p: Params, open: real): Option<Grid> {
    match GridLevels(open, p.spacing, p.half)
    case None => None
    case Some(levels) =>
      Some(Grid(open, levels, p.half, 0, 0, 0.0, 0.0, p.principal, p.principal, 0.0, []))
  }

  function Observe(p: Params, g: Grid, bar: Bar): Point {
    Point(bar.timestamp, EquityAt(p, g, bar.close))
  }

  datatype Played = Played(grid: Grid, points: seq<Point>)

  function NextBar(p: Params, before: Played, path: seq<real>, bar: Bar): (r: Option<Played>)
    requires Shape(p, before.grid)
    ensures r.Some? ==> Shape(p, r.value.grid) && |r.value.points| == |before.points| + 1
  {
    match Segments(p, before.grid, path)
    case None => None
    case Some(g) => Some(Played(g, before.points + [Observe(p, g, bar)]))
  }

  /** State and recorded points after the first n bars. */
  function Play(p: Params, bars: seq<Bar>, n: nat): (r: Option<Played>)
    requires 0 < |bars| && n <= |bars|
    ensures r.Some? ==> Shape(p, r.value.grid) && |r.value.points| == n
  {
    if n == 0 then
      match Start(p, bars[0].open)
      case None => None
      case Some(g) => Some(Played(g, []))
    else
      match Play(p, bars, n - 1)
      case None => None
      case Some(before) => NextBar(p, before, Path(bars, n - 1), bars[n - 1])
  }

  datatype Failure = NoBars | BadPrincipal | BadGrid

  datatype Stream = Stream(
    points: seq<Point>, maxInput: real, totalInput: real, resets: nat, fees: real, principal: real, spacing: real,
        half: int)

  datatype Result<+T> = Ok(value: T) | Err(failure: Failure)

  /** `simulate_dgt_symbol`. */
  function Simulate(bars: seq<Bar>, principal: real, spacing: real, half: int, feeBps: real): Result<Stream> {
    if bars == [] then Err(NoBars)
    else if principal <= 0.0 then Err(BadPrincipal)
    else
      var p := Params(principal, spacing, half, feeBps / 10000.0);
      match Play(p, bars, |bars|)
      case None => Err(BadGrid)
      case Some(end) => Ok(Report(p, end))
  }

  function Report(p: Params, end: Played): Stream {
    var g := end.grid;
    Stream(Compact(end.points), g.maxInput, g.totalInput, g.resets, g.fees, p.principal, p.spacing, p.half)
  }

  // ---------------------------------------------------------------- compaction

  function Day(point: Point): int { point.time / MS_PER_DAY }

  /** First point with the highest equity (`max` keeps the first of equals). */
  function Highest(points: seq<Point>): (best: Point)
    requires points != []
    ensures best in points && forall q :: q in points ==> q.equity <= best.equity
  {
    if |points| == 1 then points[0]
    else
      var best := Highest(points[..|points| - 1]);
      if points[|points| - 1].equity > best.equity then points[|points| - 1] else best
  }

  function Lowest(points: seq<Point>): (best: Point)
    requires points != []
    ensures best in points && forall q :: q in points ==> q.equity >= best.equity
  {
    if |points| == 1 then points[0]
    else
      var best := Lowest(points[..|points| - 1]);
      if points[|points| - 1].equity < best.equity then points[|points| - 1] else best
  }

  /** Python's stable sort: equal timestamps stay in arrival order. */
  function SortByTime(points: seq<Point>): seq<Point> { Sorted(points, TimeOf) }

  /** Keeps the first point of each timestamp. */
  function DropRepeats(points: seq<Point>): seq<Point> {
    if points == [] then []
    else
      var before := DropRepeats(points[..|points| - 1]);
      var point := points[|points| - 1];
      if exists i :: 0 <= i < |before| && before[i].time == point.time then before else before + [point]
  }

  function FlushDay(points: seq<Point>): seq<Point> {
    if points == [] then []
    else DropRepeats(SortByTime([points[0], Highest(points), Lowest(points), points[|points| - 1]]))
  }

  datatype Buffer = Buffer(compacted: seq<Point>, dayPoints: seq<Point>, currentDay: int)

  function Absorb(buffer: Buffer, point: Point): Buffer {
    if Day(point) != buffer.currentDay
    then Buffer(buffer.compacted + FlushDay(buffer.dayPoints), [point], Day(point))
    else buffer.(dayPoints := buffer.dayPoints + [point])
  }

  function AbsorbAll(points: seq<Point>): Buffer
    requires points != []
  {
    if |points| == 1 then Absorb(Buffer([], [], Day(points[0])), points[0])
    else Absorb(AbsorbAll(points[..|points| - 1]), points[|points| - 1])
  }

  /** `compact_equity_points`. */
  function Compact(points: seq<Point>): seq<Point> {
    if |points| <= 3 then points
    else
      var buffer := AbsorbAll(points);
      buffer.compacted + FlushDay(buffer.dayPoints)
  }

  // ---------------------------------------------------------------- what a run conserves

  /** Grid lines that pay when a grid is left: above, the upper half or all that were crossed if those are more; below,
      those beyond the half that was lost. */
  function Paying(half: int, e: Exit): int {
    if e.above then (if e.crossed > half then e.crossed else half)
    else if e.crossed > half then e.crossed - half else 0
  }

  /** What an exit earns: per paying line, the spacing less two fees on one of 2 * half shares of the principal. */
  function Earned(p: Params, e: Exit): real
    requires p.half > 0
  {
    Paying(p.half, e) as real * (p.principal / (2 * p.half) as real) * (p.spacing - 2.0 * p.feeRate)
  }

  function AllEarned(p: Params, exits: seq<Exit>): real
    requires p.half > 0
  {
    if exits == [] then 0.0 else AllEarned(p, Init(exits)) + Earned(p, Last(exits))
  }

  /** How many grids were left below. */
  function Below(exits: seq<Exit>): nat {
    if exits == [] then 0 else Below(Init(exits)) + if Last(exits).above then 0 else 1
  }

  /** One principal for the open grid and one for each grid left below. */
  function Committed(p: Params, exits: seq<Exit>): real {
    p.principal * (1 + Below(exits)) as real
  }

  /** What is put in and earned is in the wallet or committed to grids. */
  predicate Balanced(g: Grid, earned: real, committed: real) {
    g.totalInput + earned == g.wallet + committed
  }

  /** Between segments: every quote put in or earned is in the wallet or in a grid that was opened; the wallet
      is not overdrawn; the recorded peak of the input is the input; the cursor is strictly inside the grid. */
  predicate Conserved(p: Params, g: Grid)
    requires p.half > 0
  {
    && Balanced(g, AllEarned(p, g.exits), Committed(p, g.exits))
    && g.wallet >= 0.0
    && g.maxInput == g.totalInput
    && g.resets == |g.exits|
    && 0 < g.cursor < 2 * p.half
    && GridLevels(g.center, p.spacing, p.half) == Some(g.levels)
  }

  lemma OneMore(principal: real, n: nat)
    ensures principal * (1 + (n + 1)) as real == principal * (1 + n) as real + principal
  {
    assert (1 + (n + 1)) as real == (1 + n) as real + 1.0;
  }

  lemma HistoryGrows(p: Params, exits: seq<Exit>, e: Exit)
    requires p.half > 0
    ensures AllEarned(p, exits + [e]) == AllEarned(p, exits) + Earned(p, e)
    ensures Below(exits + [e]) == Below(exits) + if e.above then 0 else 1
  {
    assert Init(exits + [e]) == exits;
  }

  /** `arbitrage_profit` of the steps counted at an exit is what the exit earns. */
  lemma ProfitIsEarned(p: Params, e: Exit)
    requires p.half > 0
    ensures var extra := NonNegative(e.crossed - p.half);
      ArbitrageProfit(p, if e.above then p.half + extra else extra) == Earned(p, e)
  {
    var n := Paying(p.half, e) as real * Slice(p);
    assert n * p.spacing - n * p.feeRate * 2.0 == n * (p.spacing - 2.0 * p.feeRate);
  }

  lemma FundingConserves(p: Params, g: Grid)
    requires p.principal > 0.0 && g.maxInput == g.totalInput
    ensures var f := FundNextGrid(p, g);
            && f.totalInput - f.wallet == g.totalInput - g.wallet + p.principal
            && f.wallet >= 0.0 && f.maxInput == f.totalInput
            && f.exits == g.exits && f.resets == g.resets
  {
  }

  /** The walk never leaves the grid, and an exit re-centres the grid strictly around the price. */
  lemma ResetIsCentred(p: Params, g: Grid, price: real)
    requires p.half > 0 && ResetGrid(p, g, price).Some?
    ensures var r := ResetGrid(p, g, price).value;
            && r.levels[0] < price < r.levels[2 * p.half]
            && 0 < r.cursor < 2 * p.half && Shape(p, r)
            && GridLevels(r.center, p.spacing, p.half) == Some(r.levels)
  {
    var r := ResetGrid(p, g, price).value;
    var width := p.spacing * p.half as real;
    assert width > 0.0;
    assert r.levels[0] == price * (1.0 - width);
    assert r.levels[2 * p.half] == price * (1.0 + width);
    assert price * width > 0.0;
  }

  /** The grid after an exit that paid `gain` into the wallet. */
  function Paid(p: Params, g: Grid, gain: real, fees: real, bought: real, e: Exit): Grid {
    g.(wallet := g.wallet + gain, fees := g.fees + fees, inventory := g.inventory + bought, exits := g.exits + [e])
  }

  lemma UpperExitPays(p: Params, g: Grid, price: real, e: Exit)
    requires p.half > 0 && e == Exit(true, g.center, price, g.traversals)
    ensures var fees := StepFees(p, p.half + NonNegative(g.traversals - p.half));
      UpperExit(p, g, price) ==
      ResetGrid(p, FundNextGrid(p, Paid(p, g, p.principal + Earned(p, e), fees, 0.0, e)), price)
  {
    ProfitIsEarned(p, e);
    assert g.inventory + 0.0 == g.inventory;
  }

  lemma LowerExitPays(p: Params, g: Grid, price: real, e: Exit)
    requires p.half > 0 && e == Exit(false, g.center, price, g.traversals)
    ensures var fees := StepFees(p, NonNegative(g.traversals - p.half));
      LowerExit(p, g, price) ==
      ResetGrid(p, FundNextGrid(p, Paid(p, g, Earned(p, e), fees, Bought(p, g.center), e)), price)
  {
    ProfitIsEarned(p, e);
  }

  lemma ExitBalances(p: Params, g: Grid, gain: real, fees: real, bought: real, e: Exit, earned: real, committed: real,
                     x: real)
    requires p.principal > 0.0 && g.maxInput == g.totalInput && Balanced(g, earned, committed)
    requires gain == x + if e.above then p.principal else 0.0
    ensures var f := FundNextGrid(p, Paid(p, g, gain, fees, bought, e));
      && Balanced(f, earned + x, committed + if e.above then 0.0 else p.principal)
      && f.wallet >= 0.0 && f.maxInput == f.totalInput && f.exits == g.exits + [e] && f.resets == g.resets
  {
    FundingConserves(p, Paid(p, g, gain, fees, bought, e));
  }

  lemma CommittedGrows(p: Params, exits: seq<Exit>, e: Exit)
    requires p.half > 0
    ensures Committed(p, exits + [e]) == Committed(p, exits) + if e.above then 0.0 else p.principal
  {
    HistoryGrows(p, exits, e);
    if !e.above {
      OneMore(p.principal, Below(exits));
    }
  }

  /** The books after an exit, before the grid is built anew. */
  lemma FundedConserves(p: Params, g: Grid, gain: real, fees: real, bought: real, e: Exit, x: real)
    requires p.principal > 0.0 && p.half > 0 && g.maxInput == g.totalInput && x == Earned(p, e)
    requires Balanced(g, AllEarned(p, g.exits), Committed(p, g.exits))
    requires gain == x + if e.above then p.principal else 0.0
    ensures var f := FundNextGrid(p, Paid(p, g, gain, fees, bought, e));
      && Balanced(f, AllEarned(p, f.exits), Committed(p, f.exits))
      && f.wallet >= 0.0 && f.maxInput == f.totalInput && f.exits == g.exits + [e] && f.resets == g.resets
  {
    ExitBalances(p, g, gain, fees, bought, e, AllEarned(p, g.exits), Committed(p, g.exits), x);
    HistoryGrows(p, g.exits, e);
    CommittedGrows(p, g.exits, e);
  }

  lemma ExitConserves(p: Params, g: Grid, f: Grid, e: Exit, price: real)
    requires p.principal > 0.0 && p.half > 0 && ResetGrid(p, f, price).Some?
    requires Balanced(f, AllEarned(p, f.exits), Committed(p, f.exits)) && f.wallet >= 0.0 && f.maxInput == f.totalInput
    requires f.exits == g.exits + [e] && f.resets == |g.exits|
    ensures var r := ResetGrid(p, f, price).value;
      Conserved(p, r) && Shape(p, r) && r.levels[0] < price < r.levels[2 * p.half] && r.exits == g.exits + [e]
  {
    ResetIsCentred(p, f, price);
  }

  lemma UpperExitConserves(p: Params, g: Grid, price: real)
    requires p.principal > 0.0 && Shape(p, g) && UpperExit(p, g, price).Some?
    requires Conserved(p, g.(cursor := p.half))
    ensures var r := UpperExit(p, g, price).value;
            Conserved(p, r) && Shape(p, r) && r.levels[0] < price < r.levels[2 * p.half] &&
            r.exits == g.exits + [Exit(true, g.center, price, g.traversals)]
  {
    var e := Exit(true, g.center, price, g.traversals);
    var gain, fees := p.principal + Earned(p, e), StepFees(p, p.half + NonNegative(g.traversals - p.half));
    UpperExitPays(p, g, price, e);
    FundedConserves(p, g, gain, fees, 0.0, e, Earned(p, e));
    ExitConserves(p, g, FundNextGrid(p, Paid(p, g, gain, fees, 0.0, e)), e, price);
  }

  lemma LowerExitConserves(p: Params, g: Grid, price: real)
    requires p.principal > 0.0 && Shape(p, g) && LowerExit(p, g, price).Some?
    requires Conserved(p, g.(cursor := p.half))
    ensures var r := LowerExit(p, g, price).value;
            Conserved(p, r) && Shape(p, r) && r.exits == g.exits + [Exit(false, g.center, price, g.traversals)]
  {
    var e := Exit(false, g.center, price, g.traversals);
    var gain, fees, bought := Earned(p, e), StepFees(p, NonNegative(g.traversals - p.half)), Bought(p, g.center);
    LowerExitPays(p, g, price, e);
    FundedConserves(p, g, gain, fees, bought, e, Earned(p, e));
    ExitConserves(p, g, FundNextGrid(p, Paid(p, g, gain, fees, bought, e)), e, price);
  }

  lemma AfterUpperConserves(p: Params, g: Grid, price: real)
    requires p.principal > 0.0 && Shape(p, g) && AfterUpper(p, g, price).Some?
    requires Conserved(p, g.(cursor := p.half))
    ensures var r := AfterUpper(p, g, price).value;
            && Shape(p, r) && Conserved(p, r.(cursor := p.half)) && r.cursor < 2 * p.half
            && (r == g || (r.exits == g.exits + [Exit(true, g.center, price, g.traversals)] && price > r.levels[0] &&
                           r.cursor > 0))
  {
    if price >= g.levels[2 * p.half] || g.cursor == 2 * p.half {
      UpperExitConserves(p, g, price);
    }
  }

  lemma AfterLowerConserves(p: Params, g: Grid, price: real)
    requires p.principal > 0.0 && Shape(p, g) && AfterLower(p, g, price).Some?
    requires Conserved(p, g.(cursor := p.half)) && g.cursor < 2 * p.half
    ensures var r := AfterLower(p, g, price).value;
            && Shape(p, r) && Conserved(p, r)
            && (price > g.levels[0] && g.cursor > 0 ==> r == g)
            && (r == g || r.exits == g.exits + [Exit(false, g.center, price, g.traversals)])
  {
    if price <= g.levels[0] || g.cursor == 0 {
      LowerExitConserves(p, g, price);
    }
  }

  /** Every segment keeps the balance and leaves the cursor strictly inside, and never fires both exits. */
  lemma SegmentConserves(p: Params, g: Grid, start: real, end: real)
    requires p.principal > 0.0 && Shape(p, g) && Conserved(p, g) && Segment(p, g, start, end).Some?
    ensures var r, moved := Segment(p, g, start, end).value, Moved(g, Walk(g.levels, g.cursor, start, end));
            && Conserved(p, r) && Shape(p, r)
            && (r == moved || exists above :: r.exits == g.exits + [Exit(above, g.center, end, moved.traversals)])
  {
    var moved := Moved(g, Walk(g.levels, g.cursor, start, end));
    AfterUpperConserves(p, moved, end);
    AfterLowerConserves(p, AfterUpper(p, moved, end).value, end);
  }

  lemma {:induction false} SegmentsConserve(p: Params, g: Grid, path: seq<real>)
    requires p.principal > 0.0 && Shape(p, g) && Conserved(p, g) && Segments(p, g, path).Some?
    ensures Conserved(p, Segments(p, g, path).value)
    decreases |path|
  {
    if |path| >= 2 {
      SegmentConserves(p, g, path[0], path[1]);
      SegmentsConserve(p, Segment(p, g, path[0], path[1]).value, path[1..]);
    }
  }

  /** In every run, after every bar: total input plus profits equals the wallet plus one principal for the open
      grid and one for each grid left below. */
  lemma {:induction false} RunConserves(p: Params, bars: seq<Bar>, n: nat)
    requires p.principal > 0.0 && 0 < |bars| && n <= |bars| && Play(p, bars, n).Some?
    ensures Conserved(p, Play(p, bars, n).value.grid)
  {
    if n == 0 {
      assert (1 + Below([])) as real == 1.0;
    } else {
      RunConserves(p, bars, n - 1);
      SegmentsConserve(p, Play(p, bars, n - 1).value.grid, Path(bars, n - 1));
    }
  }
}
