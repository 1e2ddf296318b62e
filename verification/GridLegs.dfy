/** When the dynamic grid simulation (scripts/dgt_dynamic_grid_probe.py) leaves a grid, told by prices alone: every
    bar is walked from its start to its low, its high and its close, and the grid is left exactly where such a leg
    ends on or beyond its outermost lines. */
module GridLegs {
  import opened Common
  import opened Timeline
  import opened DynamicGrid

  // ---------------------------------------------------------------- grid lines

  /** A line k spacings from the centre. */
  function Line(center: real, spacing: real, k: real): real {
    center * (1.0 + spacing * k)
  }

  /** Line i lies i - half spacings from the centre. */
  lemma LevelAt(center: real, spacing: real, half: int, i: nat)
    requires GridLevels(center, spacing, half).Some? && i <= 2 * half
    ensures GridLevels(center, spacing, half).value[i] == Line(center, spacing, (i - half) as real)
  {
    if i < half {
      assert (half - i) as real == -((i - half) as real);
      assert 1.0 - spacing * (half - i) as real == 1.0 + spacing * (i - half) as real;
    } else if i == half {
      assert spacing * (i - half) as real == 0.0;
    }
  }

  ghost predicate Rising(levels: seq<real>) {
    forall i, j :: 0 <= i < j < |levels| ==> levels[i] < levels[j]
  }

  lemma LinesApart(center: real, spacing: real, a: real, b: real)
    requires center > 0.0 && spacing > 0.0 && a < b
    ensures Line(center, spacing, a) < Line(center, spacing, b)
  {
    assert spacing * (b - a) > 0.0;
    assert center * (spacing * (b - a)) > 0.0;
    assert spacing * (b - a) == spacing * b - spacing * a;
  }

  lemma LevelsApart(center: real, spacing: real, half: int, i: nat, j: nat)
    requires GridLevels(center, spacing, half).Some? && i < j <= 2 * half
    ensures GridLevels(center, spacing, half).value[i] < GridLevels(center, spacing, half).value[j]
  {
    LevelAt(center, spacing, half, i);
    LevelAt(center, spacing, half, j);
    LinesApart(center, spacing, (i - half) as real, (j - half) as real);
  }

  lemma LevelsRise(center: real, spacing: real, half: int)
    requires GridLevels(center, spacing, half).Some?
    ensures Rising(GridLevels(center, spacing, half).value)
  {
    var levels := GridLevels(center, spacing, half).value;
    forall i, j | 0 <= i < j < |levels| ensures levels[i] < levels[j] {
      LevelsApart(center, spacing, half, i, j);
    }
  }

  // ---------------------------------------------------------------- one leg

  /** Line c is the last one touched on the way from `start` to `end`, when line `cursor` was the last one before: going
      up, a line is touched when the price ends above it; going down, also when it ends on it. */
  ghost predicate Touched(levels: seq<real>, cursor: int, start: real, end: real, c: int) {
    && 0 <= c < |levels|
    && (start < end ==>
          && cursor <= c && (cursor < c ==> levels[c] < end)
          && (c + 1 < |levels| ==> end <= levels[c + 1]))
    && (start > end ==>
          && c <= cursor && (c < cursor ==> end <= levels[c])
          && (0 < c ==> levels[c - 1] < end))
    && (start == end ==> c == cursor)
  }

  /** The price is between the lines next to the one last touched. */
  ghost predicate Near(levels: seq<real>, cursor: int, price: real) {
    && 0 <= cursor < |levels|
    && (0 < cursor ==> levels[cursor - 1] < price)
    && (cursor + 1 < |levels| ==> price <= levels[cursor + 1])
  }

  lemma {:induction false} ClimbTouches(levels: seq<real>, cursor: int, start: real, end: real)
    requires Rising(levels) && 0 <= cursor < |levels| && start < end
    requires cursor + 1 < |levels| ==> start <= levels[cursor + 1]
    ensures Touched(levels, cursor, start, end, Climb(levels, cursor, start, end))
    decreases |levels| - cursor
  {
    if cursor + 1 < |levels| && start <= levels[cursor + 1] < end {
      if cursor + 2 < |levels| {
        assert levels[cursor + 1] < levels[cursor + 2];
      }
      ClimbTouches(levels, cursor + 1, start, end);
    }
  }

  lemma {:induction false} DescendTouches(levels: seq<real>, cursor: int, start: real, end: real)
    requires Rising(levels) && 0 <= cursor < |levels| && start > end
    requires 0 < cursor ==> levels[cursor - 1] < start
    ensures Touched(levels, cursor, start, end, Descend(levels, cursor, start, end))
    decreases cursor
  {
    if cursor > 0 && end <= levels[cursor - 1] < start {
      if cursor > 1 {
        assert levels[cursor - 2] < levels[cursor - 1];
      }
      DescendTouches(levels, cursor - 1, start, end);
    }
  }

  /** The walk touches the lines on the way, and afterwards the price is near the last of them. */
  lemma WalkTouches(levels: seq<real>, cursor: int, start: real, end: real)
    requires Rising(levels) && Near(levels, cursor, start)
    ensures var c := Walk(levels, cursor, start, end);
      Touched(levels, cursor, start, end, c) && Near(levels, c, end)
  {
    if start < end {
      ClimbTouches(levels, cursor, start, end);
    } else if start > end {
      DescendTouches(levels, cursor, start, end);
    }
    NearAfter(levels, cursor, start, end, Walk(levels, cursor, start, end));
  }

  lemma NearAfter(levels: seq<real>, cursor: int, start: real, end: real, c: int)
    requires Rising(levels) && Near(levels, cursor, start) && Touched(levels, cursor, start, end, c)
    ensures Near(levels, c, end)
  {
    assert 0 < c ==> levels[c - 1] < levels[c];
    assert c + 1 < |levels| ==> levels[c] < levels[c + 1];
  }

  function Distance(a: int, b: int): nat { if a < b then b - a else a - b }

  /** Between legs: the grid is built around its centre, the price is strictly inside it and near the line last touched,
      and as many lines were crossed as lead there from the centre, or an even number more. */
  ghost predicate Tracked(p: Params, g: Grid, price: real) {
    && Shape(p, g) && GridLevels(g.center, p.spacing, p.half) == Some(g.levels)
    && g.levels[0] < price < g.levels[2 * p.half]
    && 0 < g.cursor < 2 * p.half && Near(g.levels, g.cursor, price)
    && g.traversals >= Distance(g.cursor, p.half) && (g.traversals - Distance(g.cursor, p.half)) % 2 == 0
  }

  /** The rule of one leg.  Inside the outermost lines only the line last touched and the count of crossed lines change;
      on or beyond them the grid is left, above or below, and built anew around the price. */
  ghost predicate Leg(p: Params, g: Grid, start: real, end: real, r: Grid)
    requires Shape(p, g)
  {
    exists c :: Touched(g.levels, g.cursor, start, end, c) && LegTo(p, g, end, c, r)
  }

  ghost predicate LegTo(p: Params, g: Grid, end: real, c: int, r: Grid)
    requires Shape(p, g)
  {
    var crossed := g.traversals + Distance(c, g.cursor);
    if g.levels[0] < end < g.levels[2 * p.half] then r == g.(cursor := c, traversals := crossed)
    else Anew(p, g, Exit(end >= g.levels[2 * p.half], g.center, end, crossed), r)
  }

  /** A grid built anew after an exit. */
  ghost predicate Anew(p: Params, g: Grid, e: Exit, r: Grid) {
    && r.exits == g.exits + [e]
    && r.center == e.price && GridLevels(e.price, p.spacing, p.half) == Some(r.levels)
    && r.cursor == p.half && r.traversals == 0
  }

  lemma Parity(traversals: int, cursor: int, half: int, c: int)
    requires traversals >= Distance(cursor, half) && (traversals - Distance(cursor, half)) % 2 == 0
    ensures var after := traversals + Distance(c, cursor);
      after >= Distance(c, half) && (after - Distance(c, half)) % 2 == 0
  {
    var m := Detour(cursor, half, c);
    StaysEven(traversals - Distance(cursor, half), m);
  }

  lemma StaysEven(x: int, m: int)
    requires x % 2 == 0
    ensures (x + 2 * m) % 2 == 0
  {
  }

  /** Going by way of the cursor is longer by twice its distance from the way. */
  lemma Detour(cursor: int, half: int, c: int) returns (m: nat)
    ensures Distance(c, cursor) + Distance(cursor, half) == Distance(c, half) + 2 * m
  {
    var lo, hi := if c < half then c else half, if c < half then half else c;
    m := if cursor > hi then cursor - hi else if cursor < lo then lo - cursor else 0;
  }

  /** A line on the rim is touched only when the price ends there or beyond. */
  lemma InsideStaysInside(levels: seq<real>, cursor: int, start: real, end: real, c: int)
    requires Rising(levels) && |levels| > 1 && 0 < cursor < |levels| - 1 && Touched(levels, cursor, start, end, c)
    requires levels[0] < end < levels[|levels| - 1]
    ensures 0 < c < |levels| - 1
  {
  }

  lemma ResetTracks(p: Params, g: Grid, price: real)
    requires p.half > 0 && ResetGrid(p, g, price).Some?
    ensures Tracked(p, ResetGrid(p, g, price).value, price)
  {
    ResetIsCentred(p, g, price);
    LevelsRise(price, p.spacing, p.half);
    var r := ResetGrid(p, g, price).value;
    assert r.levels[p.half] == price;
    assert r.levels[p.half - 1] < r.levels[p.half] < r.levels[p.half + 1];
  }

  lemma LeavesAbove(p: Params, g: Grid, end: real)
    requires Shape(p, g) && end >= g.levels[2 * p.half] && AfterUpper(p, g, end).Some?
    ensures var r := AfterUpper(p, g, end).value;
      && Shape(p, r) && AfterLower(p, r, end) == Some(r) && Tracked(p, r, end)
      && Anew(p, g, Exit(true, g.center, end, g.traversals), r)
  {
    var steps := p.half + NonNegative(g.traversals - p.half);
    var profit := ArbitrageProfit(p, steps);
    var paid := g.(wallet := g.wallet + (p.principal + profit), fees := g.fees + StepFees(p, steps),
        exits := g.exits + [Exit(true, g.center, end, g.traversals)]);
    ResetTracks(p, FundNextGrid(p, paid), end);
  }

  lemma LeavesBelow(p: Params, g: Grid, end: real)
    requires Shape(p, g) && end <= g.levels[0] && AfterLower(p, g, end).Some?
    ensures var r := AfterLower(p, g, end).value;
      Tracked(p, r, end) && Anew(p, g, Exit(false, g.center, end, g.traversals), r)
  {
    var steps := NonNegative(g.traversals - p.half);
    var profit := ArbitrageProfit(p, steps);
    var paid := g.(wallet := g.wallet + profit, fees := g.fees + StepFees(p, steps),
        inventory := g.inventory + Bought(p, g.center), exits := g.exits + [Exit(false, g.center, end, g.traversals)]);
    ResetTracks(p, FundNextGrid(p, paid), end);
  }

  /** The exit tests behind a walk that ended at line c. */
  lemma TestsAreLeg(p: Params, g: Grid, moved: Grid, start: real, end: real, c: int)
    requires Tracked(p, g, start) && Rising(g.levels) && Touched(g.levels, g.cursor, start, end, c)
    requires moved == g.(cursor := c, traversals := g.traversals + Distance(c, g.cursor))
    requires AfterUpper(p, moved, end).Some? && AfterLower(p, AfterUpper(p, moved, end).value, end).Some?
    ensures LegTo(p, g, end, c, AfterLower(p, AfterUpper(p, moved, end).value, end).value)
    ensures !(g.levels[0] < end < g.levels[2 * p.half]) ==>
      Tracked(p, AfterLower(p, AfterUpper(p, moved, end).value, end).value, end)
  {
    if g.levels[0] < end < g.levels[2 * p.half] {
      InsideStaysInside(g.levels, g.cursor, start, end, c);
    } else if end >= g.levels[2 * p.half] {
      LeavesAbove(p, moved, end);
    } else {
      BelowIsNotAbove(p, g, start, end, c);
      LeavesBelow(p, moved, end);
    }
  }

  lemma BelowIsNotAbove(p: Params, g: Grid, start: real, end: real, c: int)
    requires Tracked(p, g, start) && Rising(g.levels) && Touched(g.levels, g.cursor, start, end, c)
    requires end <= g.levels[0]
    ensures end < g.levels[2 * p.half] && c < 2 * p.half
  {
    assert g.levels[0] < g.levels[2 * p.half];
  }

  lemma InsideTracks(p: Params, g: Grid, start: real, end: real, c: int)
    requires Tracked(p, g, start) && Rising(g.levels) && Touched(g.levels, g.cursor, start, end, c)
    requires Near(g.levels, c, end) && g.levels[0] < end < g.levels[2 * p.half]
    ensures Tracked(p, g.(cursor := c, traversals := g.traversals + Distance(c, g.cursor)), end)
  {
    InsideStaysInside(g.levels, g.cursor, start, end, c);
    Parity(g.traversals, g.cursor, p.half, c);
  }

  /** Every leg follows the rule. */
  lemma SegmentIsLeg(p: Params, g: Grid, start: real, end: real)
    requires Tracked(p, g, start) && Segment(p, g, start, end).Some?
    ensures var r := Segment(p, g, start, end).value; Leg(p, g, start, end, r) && Tracked(p, r, end)
  {
    var c := Walk(g.levels, g.cursor, start, end);
    LevelsRise(g.center, p.spacing, p.half);
    WalkTouches(g.levels, g.cursor, start, end);
    TestsAreLeg(p, g, Moved(g, c), start, end, c);
    if g.levels[0] < end < g.levels[2 * p.half] {
      InsideTracks(p, g, start, end, c);
    }
  }

  // ---------------------------------------------------------------- whole runs

  /** One bar: down to the low, up to the high, and to the close. */
  ghost predicate BarRule(p: Params, g: Grid, start: real, bar: Bar, r: Grid)
    requires Shape(p, g)
  {
    exists a, b ::
      && Shape(p, a) && Shape(p, b)
      && Leg(p, g, start, bar.low, a) && Leg(p, a, bar.low, bar.high, b) && Leg(p, b, bar.high, bar.close, r)
  }

  lemma NextSegment(p: Params, g: Grid, x: real, y: real, rest: seq<real>)
    requires Shape(p, g) && Segments(p, g, [x, y] + rest).Some?
    ensures Segment(p, g, x, y).Some? && Shape(p, Segment(p, g, x, y).value)
    ensures Segments(p, g, [x, y] + rest) == Segments(p, Segment(p, g, x, y).value, [y] + rest)
  {
    assert ([x, y] + rest)[1..] == [y] + rest;
  }

  /** The legs of a bar, one after the other. */
  lemma ThreeSegments(p: Params, g: Grid, x: real, low: real, high: real, close: real) returns (a: Grid, b: Grid)
    requires Shape(p, g) && Segments(p, g, [x, low, high, close]).Some?
    ensures Segment(p, g, x, low) == Some(a) && Shape(p, a)
    ensures Segment(p, a, low, high) == Some(b) && Shape(p, b)
    ensures Segment(p, b, high, close) == Segments(p, g, [x, low, high, close])
  {
    assert [x, low, high, close] == [x, low] + [high, close];
    NextSegment(p, g, x, low, [high, close]);
    a := Segment(p, g, x, low).value;
    assert [low] + [high, close] == [low, high] + [close];
    NextSegment(p, a, low, high, [close]);
    b := Segment(p, a, low, high).value;
    assert [high] + [close] == [high, close] + [];
    NextSegment(p, b, high, close, []);
    assert [close] + [] == [close];
  }

  lemma BarFollowsRule(p: Params, g: Grid, start: real, bar: Bar)
    requires Tracked(p, g, start) && Segments(p, g, [start, bar.low, bar.high, bar.close]).Some?
    ensures var r := Segments(p, g, [start, bar.low, bar.high, bar.close]).value;
      BarRule(p, g, start, bar, r) && Tracked(p, r, bar.close)
  {
    var a, b := ThreeSegments(p, g, start, bar.low, bar.high, bar.close);
    SegmentIsLeg(p, g, start, bar.low);
    SegmentIsLeg(p, a, bar.low, bar.high);
    SegmentIsLeg(p, b, bar.high, bar.close);
  }

  /** The price before bar n. */
  function PriceBefore(bars: seq<Bar>, n: nat): real
    requires 0 < |bars| && n <= |bars|
  {
    if n == 0 then bars[0].open else bars[n - 1].close
  }

  lemma StartTracks(p: Params, open: real)
    requires Start(p, open).Some?
    ensures Tracked(p, Start(p, open).value, open)
  {
    var g := Start(p, open).value;
    assert ResetGrid(p, g, open).Some?;
    ResetTracks(p, g, open);
  }

  lemma BarTracks(p: Params, g: Grid, start: real, bar: Bar, r: Grid)
    requires Tracked(p, g, start) && Segments(p, g, [start, bar.low, bar.high, bar.close]) == Some(r)
    ensures Tracked(p, r, bar.close)
  {
    BarFollowsRule(p, g, start, bar);
  }

  /** One bar of a run. */
  lemma BarOfRun(p: Params, bars: seq<Bar>, n: nat) returns (g: Grid, r: Grid)
    requires n < |bars| && Play(p, bars, n + 1).Some?
    ensures Play(p, bars, n).Some? && g == Play(p, bars, n).value.grid && r == Play(p, bars, n + 1).value.grid
    ensures Segments(p, g, [PriceBefore(bars, n), bars[n].low, bars[n].high, bars[n].close]) == Some(r)
  {
    g, r := Play(p, bars, n).value.grid, Play(p, bars, n + 1).value.grid;
    assert Path(bars, n) == [PriceBefore(bars, n), bars[n].low, bars[n].high, bars[n].close];
  }

  /** A run, where it has not failed, is tracked at the price. */
  ghost predicate OnTrack(p: Params, played: Option<Played>, price: real) {
    match played
    case None => true
    case Some(Played(grid, _)) => Tracked(p, grid, price)
  }

  /** In every run the price is inside the grid after every bar, near the line last touched. */
  lemma {:induction false} RunTracks(p: Params, bars: seq<Bar>, n: nat)
    requires 0 < |bars| && n <= |bars|
    ensures OnTrack(p, Play(p, bars, n), PriceBefore(bars, n))
  {
    if Play(p, bars, n).Some? {
      if n == 0 {
        StartTracks(p, bars[0].open);
      } else {
        RunTracks(p, bars, n - 1);
        var g, r := BarOfRun(p, bars, n - 1);
        BarTracks(p, g, PriceBefore(bars, n - 1), bars[n - 1], r);
      }
    }
  }

  /** In every run every bar follows the rule, from the close before it, or from the first open. */
  lemma RunFollowsRule(p: Params, bars: seq<Bar>, n: nat)
    requires 0 < |bars| && n < |bars| && Play(p, bars, n + 1).Some?
    ensures Play(p, bars, n).Some?
    ensures BarRule(p, Play(p, bars, n).value.grid, PriceBefore(bars, n), bars[n], Play(p, bars, n + 1).value.grid)
  {
    var g, r := BarOfRun(p, bars, n);
    RunTracks(p, bars, n);
    BarFollowsRule(p, g, PriceBefore(bars, n), bars[n]);
  }

  // ---------------------------------------------------------------- a bar that leaves two grids

  const SMALL := Params(100.0, 0.1, 1, 0.0)
  const AFTER_LOW := Grid(90.0, [81.0, 90.0, 99.0], 1, 0, 1, 0.0, 1.0, 200.0, 200.0, 0.0, [Exit(false, 100.0, 90.0, 1)])
  const AFTER_HIGH := Grid(100.0, [90.0, 100.0, 110.0], 1, 0, 2, 5.0, 1.0, 200.0, 200.0, 0.0,
                           [Exit(false, 100.0, 90.0, 1), Exit(true, 90.0, 100.0, 1)])

  lemma SmallLevels()
    ensures GridLevels(100.0, 0.1, 1) == Some([90.0, 100.0, 110.0])
    ensures GridLevels(90.0, 0.1, 1) == Some([81.0, 90.0, 99.0])
  {
    var a, b := GridLevels(100.0, 0.1, 1).value, GridLevels(90.0, 0.1, 1).value;
    assert a[0] == 90.0 && a[1] == 100.0 && a[2] == 110.0;
    assert b[0] == 81.0 && b[1] == 90.0 && b[2] == 99.0;
    assert a == [90.0, 100.0, 110.0];
    assert b == [81.0, 90.0, 99.0];
  }

  lemma LegToLow()
    ensures Start(SMALL, 100.0).Some? && Segment(SMALL, Start(SMALL, 100.0).value, 100.0, 90.0) == Some(AFTER_LOW)
  {
    SmallLevels();
    var g, e := Start(SMALL, 100.0).value, Exit(false, 100.0, 90.0, 1);
    assert Descend(g.levels, 0, 100.0, 90.0) == 0;
    assert Walk(g.levels, 1, 100.0, 90.0) == 0;
    var moved := Moved(g, 0);
    assert AfterUpper(SMALL, moved, 90.0) == Some(moved);
    assert ArbitrageProfit(SMALL, 0) == 0.0 && StepFees(SMALL, 0) == 0.0;
    assert Bought(SMALL, 100.0) == 1.0;
    assert moved.exits + [e] == [e];
  }

  lemma LegToHigh()
    ensures Segment(SMALL, AFTER_LOW, 90.0, 100.0) == Some(AFTER_HIGH)
  {
    SmallLevels();
    var g, e := AFTER_LOW, Exit(true, 90.0, 100.0, 1);
    assert Climb(g.levels, 2, 90.0, 100.0) == 2;
    assert Walk(g.levels, 1, 90.0, 100.0) == 2;
    assert Slice(SMALL) == 50.0;
    assert ArbitrageProfit(SMALL, 1) == 5.0 && StepFees(SMALL, 1) == 0.0;
    assert g.exits + [e] == AFTER_HIGH.exits;
    assert AfterUpper(SMALL, Moved(g, 2), 100.0) == Some(AFTER_HIGH);
  }

  lemma LegToClose()
    ensures Segment(SMALL, AFTER_HIGH, 100.0, 100.0) == Some(AFTER_HIGH)
  {
  }

  lemma LegsOfBar()
    ensures Start(SMALL, 100.0).Some?
    ensures Segments(SMALL, Start(SMALL, 100.0).value, [100.0, 90.0, 100.0, 100.0]) == Some(AFTER_HIGH)
  {
    LegToLow();
    LegToHigh();
    LegToClose();
    var g, path := Start(SMALL, 100.0).value, [100.0, 90.0, 100.0, 100.0];
    assert path[1..] == [90.0, 100.0, 100.0] && path[1..][1..] == [100.0, 100.0];
    assert Segments(SMALL, AFTER_HIGH, [100.0, 100.0][1..]) == Some(AFTER_HIGH);
    assert Segments(SMALL, AFTER_LOW, path[1..]) == Segments(SMALL, AFTER_HIGH, path[1..][1..]);
  }

  const FALL_AND_RISE := Bar(0, 100.0, 100.0, 90.0, 100.0)

  lemma PlayedOnce()
    ensures Play(SMALL, [FALL_AND_RISE], 1) == Some(Played(AFTER_HIGH, [Point(0, 205.0)]))
  {
    LegsOfBar();
    var g := Start(SMALL, 100.0).value;
    assert Play(SMALL, [FALL_AND_RISE], 0) == Some(Played(g, []));
    assert Path([FALL_AND_RISE], 0) == [100.0, 90.0, 100.0, 100.0];
    assert Observe(SMALL, AFTER_HIGH, FALL_AND_RISE) == Point(0, 205.0);
    assert [] + [Point(0, 205.0)] == [Point(0, 205.0)];
  }

  /** One bar that falls from 100 to 90 and closes at 100: the unit bought below, the profit of one line and the open
      grid make 205, on an input of 200. */
  lemma TwoExits()
    ensures var r := Simulate([FALL_AND_RISE], 100.0, 0.1, 1, 0.0);
      r.Ok? && r.value.points == [Point(0, 205.0)] && r.value.totalInput == 200.0 && r.value.resets == 2
  {
    PlayedOnce();
    assert Params(100.0, 0.1, 1, 0.0 / 10000.0) == SMALL;
  }
}
