/** The loops of scripts/dgt_dynamic_grid_probe.py: the variables that `simulate_dgt_symbol` and its nested
    functions update, and the day buffer of `compact_equity_points`, proved to compute the specification. */
module GridRun {
  import opened Common
  import opened Timeline
  import opened DynamicGrid

  class Simulation {
    const params: Params
    var center: real
    var levels: seq<real>
    var cursor: int
    var traversals: int
    var resets: nat
    var wallet: real
    var inventory: real
    var totalInput: real
    var maxInput: real
    var fees: real
    ghost var exits: seq<Exit>

    ghost function State(): Grid
      reads this
    {
      Grid(center, levels, cursor, traversals, resets, wallet, inventory, totalInput, maxInput, fees, exits)
    }

    ghost predicate Valid()
      reads this
    {
      Shape(params, State())
    }

    constructor (p: Params, open: real, gridLevels: seq<real>)
      requires GridLevels(open, p.spacing, p.half) == Some(gridLevels)
      ensures params == p && Valid() && Start(p, open) == Some(State())
    {
      params := p;
      center, levels, cursor, traversals, resets := open, gridLevels, p.half, 0, 0;
      wallet, inventory, totalInput, maxInput, fees := 0.0, 0.0, p.principal, p.principal, 0.0;
      exits := [];
    }

    /** `equity(price)`. */
    method Equity(price: real) returns (e: real)
      ensures e == EquityAt(params, State(), price)
    {
      e := wallet + inventory * price + params.principal;
    }

    method FundNext()
      modifies this
      ensures State() == FundNextGrid(params, old(State()))
    {
      if wallet >= params.principal {
        wallet := wallet - params.principal;
      } else {
        var needed := params.principal - wallet;
        totalInput := totalInput + needed;
        maxInput := Max(maxInput, totalInput);
        wallet := 0.0;
      }
    }

    method Reset(price: real) returns (ok: bool)
      modifies this
      ensures ok <==> ResetGrid(params, old(State()), price).Some?
      ensures ok ==> ResetGrid(params, old(State()), price) == Some(State())
    {
      var fresh' := GridLevels(price, params.spacing, params.half);
      if fresh'.None? {
        return false;
      }
      center, levels, cursor, traversals := price, fresh'.value, params.half, 0;
      resets := resets + 1;
      return true;
    }

    /** The two `while` loops over grid lines. */
    method WalkLevels(start: real, end: real)
      requires Valid()
      modifies this`cursor, this`traversals
      ensures Valid() && State() == Moved(old(State()), Walk(levels, old(cursor), start, end))
    {
      if start < end {
        while cursor < 2 * params.half && start <= levels[cursor + 1] < end
          invariant old(cursor) <= cursor <= 2 * params.half
          invariant traversals == old(traversals) + (cursor - old(cursor))
          invariant Climb(levels, cursor, start, end) == Climb(levels, old(cursor), start, end)
        {
          cursor := cursor + 1;
          traversals := traversals + 1;
        }
      } else if start > end {
        while cursor > 0 && end <= levels[cursor - 1] < start
          invariant 0 <= cursor <= old(cursor)
          invariant traversals == old(traversals) + (old(cursor) - cursor)
          invariant Descend(levels, cursor, start, end) == Descend(levels, old(cursor), start, end)
        {
          cursor := cursor - 1;
          traversals := traversals + 1;
        }
      }
    }

    method LeaveAbove(price: real) returns (ok: bool)
      requires Valid()
      modifies this
      ensures ok <==> UpperExit(params, old(State()), price).Some?
      ensures ok ==> Valid() && UpperExit(params, old(State()), price) == Some(State())
    {
      var steps := params.half + NonNegative(traversals - params.half);
      var profit := ArbitrageProfit(params, steps);
      wallet := wallet + (params.principal + profit);
      fees := fees + StepFees(params, steps);
      exits := exits + [Exit(true, center, price, traversals)];
      FundNext();
      ok := Reset(price);
    }

    method LeaveBelow(price: real) returns (ok: bool)
      requires Valid()
      modifies this
      ensures ok <==> LowerExit(params, old(State()), price).Some?
      ensures ok ==> Valid() && LowerExit(params, old(State()), price) == Some(State())
    {
      var steps := NonNegative(traversals - params.half);
      var profit := ArbitrageProfit(params, steps);
      wallet := wallet + profit;
      fees := fees + StepFees(params, steps);
      inventory := inventory + Bought(params, center);
      exits := exits + [Exit(false, center, price, traversals)];
      FundNext();
      ok := Reset(price);
    }

    method RunSegment(start: real, end: real) returns (ok: bool)
      requires Valid()
      modifies this
      ensures ok <==> Segment(params, old(State()), start, end).Some?
      ensures ok ==> Valid() && Segment(params, old(State()), start, end) == Some(State())
    {
      WalkLevels(start, end);
      if end >= levels[2 * params.half] || cursor == 2 * params.half {
        ok := LeaveAbove(end);
        if !ok { return; }
      }
      ok := true;
      if end <= levels[0] || cursor == 0 {
        ok := LeaveBelow(end);
      }
    }

    method RunBar(path: seq<real>) returns (ok: bool)
      requires Valid() && |path| == 4
      modifies this
      ensures ok <==> Segments(params, old(State()), path).Some?
      ensures ok ==> Valid() && Segments(params, old(State()), path) == Some(State())
    {
      ghost var goal := Segments(params, State(), path);
      for leg := 0 to 3
        invariant Valid() && Segments(params, State(), path[leg..]) == goal
      {
        assert path[leg..][1..] == path[leg + 1..];
        ok := RunSegment(path[leg], path[leg + 1]);
        if !ok { return; }
      }
      ok := true;
    }
  }

  lemma AbsorbNext(points: seq<Point>, i: nat)
    requires i < |points|
    ensures AbsorbAll(points[..i + 1]) ==
            Absorb(if i == 0 then Buffer([], [], Day(points[0])) else AbsorbAll(points[..i]), points[i])
  {
    assert points[..i + 1][..i] == points[..i];
  }

  /** One turn of the day-wise loop: close the day when the point belongs to another one. */
  method AbsorbPoint(compacted0: seq<Point>, dayPoints0: seq<Point>, currentDay0: int, point: Point)
    returns (compacted: seq<Point>, dayPoints: seq<Point>, currentDay: int)
    ensures Buffer(compacted, dayPoints, currentDay) == Absorb(Buffer(compacted0, dayPoints0, currentDay0), point)
  {
    compacted, dayPoints, currentDay := compacted0, dayPoints0, currentDay0;
    if Day(point) != currentDay {
      compacted := compacted + FlushDay(dayPoints);
      dayPoints := [];
      currentDay := Day(point);
    }
    dayPoints := dayPoints + [point];
  }

  /** `compact_equity_points`. */
  method CompactLoop(points: seq<Point>) returns (compacted: seq<Point>)
    ensures compacted == Compact(points)
  {
    if |points| <= 3 {
      return points;
    }
    compacted := [];
    var dayPoints: seq<Point> := [];
    var currentDay := Day(points[0]);
    ghost var first := Buffer([], [], Day(points[0]));
    for i := 0 to |points|
      invariant Buffer(compacted, dayPoints, currentDay) == if i == 0 then first else AbsorbAll(points[..i])
    {
      AbsorbNext(points, i);
      compacted, dayPoints, currentDay := AbsorbPoint(compacted, dayPoints, currentDay, points[i]);
    }
    assert points[..|points|] == points;
    compacted := compacted + FlushDay(dayPoints);
  }

  /** One turn of the loop over bars. */
  method PlayBar(p: Params, ghost bars: seq<Bar>, ghost index: nat, bar: Bar, start: real, sim: Simulation,
      before: seq<Point>)
    returns (ok: bool, points: seq<Point>)
    requires index < |bars| && bar == bars[index] && start == Path(bars, index)[0]
    requires sim.params == p && sim.Valid() && Play(p, bars, index) == Some(Played(sim.State(), before))
    modifies sim
    ensures ok <==> Play(p, bars, index + 1).Some?
    ensures ok ==> sim.Valid() && Play(p, bars, index + 1) == Some(Played(sim.State(), points))
  {
    points := before;
    var path := [start, bar.low, bar.high, bar.close];
    assert path == Path(bars, index);
    ok := sim.RunBar(path);
    if ok {
      var equity := sim.Equity(bar.close);
      points := points + [Point(bar.timestamp, equity)];
    }
  }

  /** The loop over bars; stops at the first bar whose grid cannot be rebuilt. */
  method PlayBars(p: Params, bars: seq<Bar>, sim: Simulation) returns (ok: bool, points: seq<Point>)
    requires 0 < |bars| && sim.params == p && sim.Valid() && Play(p, bars, 0) == Some(Played(sim.State(), []))
    modifies sim
    ensures ok <==> Play(p, bars, |bars|).Some?
    ensures ok ==> Play(p, bars, |bars|) == Some(Played(sim.State(), points))
  {
    points := [];
    var lastClose := bars[0].open;
    for index := 0 to |bars|
      invariant sim.Valid()
      invariant Play(p, bars, index) == Some(Played(sim.State(), points))
      invariant lastClose == if index == 0 then bars[0].open else bars[index - 1].close
    {
      var bar := bars[index];
      ok, points := PlayBar(p, bars, index, bar, if index > 0 then lastClose else bar.open, sim, points);
      if !ok {
        PlayFails(p, bars, index + 1, |bars|);
        return;
      }
      lastClose := bar.close;
    }
    ok := true;
  }

  /** `simulate_dgt_symbol`. */
  method RunSymbol(bars: seq<Bar>, principal: real, spacing: real, half: int, feeBps: real) returns (r: Result<Stream>)
    ensures r == Simulate(bars, principal, spacing, half, feeBps)
  {
    if bars == [] {
      return Err(NoBars);
    }
    if principal <= 0.0 {
      return Err(BadPrincipal);
    }
    var p := Params(principal, spacing, half, feeBps / 10000.0);
    var levels := GridLevels(bars[0].open, spacing, half);
    if levels.None? {
      PlayFails(p, bars, 0, |bars|);
      return Err(BadGrid);
    }
    var sim := new Simulation(p, bars[0].open, levels.value);
    var ok, points := PlayBars(p, bars, sim);
    if !ok {
      return Err(BadGrid);
    }
    var compacted := CompactLoop(points);
    r := Ok(Stream(compacted, sim.maxInput, sim.totalInput, sim.resets, sim.fees, principal, spacing, half));
  }

  lemma {:induction false} PlayFails(p: Params, bars: seq<Bar>, m: nat, n: nat)
    requires 0 < |bars| && m <= n <= |bars| && Play(p, bars, m).None?
    ensures Play(p, bars, n).None?
  {
    if m < n {
      PlayFails(p, bars, m, n - 1);
    }
  }
}
