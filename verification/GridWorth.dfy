/** What a run of the dynamic grid simulation (scripts/dgt_dynamic_grid_probe.py) is worth, in terms of the grids it
    left: equity, input, wallet, inventory and fees are functions of that history alone. */
module GridWorth {
  import opened Common
  import opened Timeline
  import opened DynamicGrid

  // ---------------------------------------------------------------- amounts as functions of the history

  /** Base currency kept by an exit below, bought at the centre of the grid and reduced by the fee. */
  function Bag(p: Params, e: Exit): real {
    if e.above then 0.0 else p.principal * (1.0 - p.feeRate) / Max(e.center, 0.000000000001)
  }

  function AllBags(p: Params, exits: seq<Exit>): real {
    if exits == [] then 0.0 else AllBags(p, Init(exits)) + Bag(p, Last(exits))
  }

  /** Two fees per paying line, each on one of 2 * half shares of the principal. */
  function Fee(p: Params, e: Exit): real
    requires p.half > 0
  {
    Paying(p.half, e) as real * (p.principal / (2 * p.half) as real) * (2.0 * p.feeRate)
  }

  function AllFees(p: Params, exits: seq<Exit>): real
    requires p.half > 0
  {
    if exits == [] then 0.0 else AllFees(p, Init(exits)) + Fee(p, Last(exits))
  }

  /** What the grids left below cost beyond all that was earned. */
  function Missing(p: Params, exits: seq<Exit>): real
    requires p.half > 0
  {
    Committed(p, exits) - p.principal - AllEarned(p, exits)
  }

  /** The most that was ever missing. */
  function MostMissing(p: Params, exits: seq<Exit>): real
    requires p.half > 0
  {
    if exits == [] then 0.0 else Max(MostMissing(p, Init(exits)), Missing(p, exits))
  }

  /** It is what was missing after some of the exits, and no less than after any. */
  lemma {:induction false} MostMissingIsLeast(p: Params, exits: seq<Exit>) returns (k: nat)
    requires p.half > 0
    ensures k <= |exits| && MostMissing(p, exits) == Missing(p, exits[..k])
    ensures forall i :: 0 <= i <= |exits| ==> Missing(p, exits[..i]) <= MostMissing(p, exits)
  {
    NothingMissing(p);
    if exits == [] {
      k := 0;
    } else {
      var n := |exits|;
      k := MostMissingIsLeast(p, Init(exits));
      assert exits[..n] == exits;
      forall i | 0 <= i <= n ensures Missing(p, exits[..i]) <= MostMissing(p, exits) {
        if i < n {
          assert Init(exits)[..i] == exits[..i];
        }
      }
      if Missing(p, exits) > MostMissing(p, Init(exits)) {
        k := n;
      } else {
        assert Init(exits)[..k] == exits[..k];
      }
    }
  }

  lemma NothingMissing(p: Params)
    requires p.half > 0
    ensures Missing(p, []) == 0.0 && Committed(p, []) == p.principal
  {
    assert (1 + Below([])) as real == 1.0;
  }

  /** Total input, wallet, inventory and fees, told by the grids that were left. */
  ghost predicate Books(p: Params, g: Grid)
    requires p.half > 0
  {
    && g.totalInput == p.principal + MostMissing(p, g.exits)
    && g.wallet == MostMissing(p, g.exits) - Missing(p, g.exits)
    && g.inventory == AllBags(p, g.exits)
    && g.fees == AllFees(p, g.exits)
  }

  lemma HistoryAdds(p: Params, exits: seq<Exit>, e: Exit)
    requires p.half > 0
    ensures AllBags(p, exits + [e]) == AllBags(p, exits) + Bag(p, e)
    ensures AllFees(p, exits + [e]) == AllFees(p, exits) + Fee(p, e)
    ensures MostMissing(p, exits + [e]) == Max(MostMissing(p, exits), Missing(p, exits + [e]))
  {
    assert Init(exits + [e]) == exits;
  }

  lemma MissingGrows(p: Params, exits: seq<Exit>, e: Exit)
    requires p.half > 0
    ensures Missing(p, exits + [e]) == Missing(p, exits) - Earned(p, e) + if e.above then 0.0 else p.principal
  {
    HistoryGrows(p, exits, e);
    CommittedGrows(p, exits, e);
  }

  /** Funding the next grid: the wallet pays as far as it can, and the rest is new input. */
  lemma FundingTopsUp(p: Params, g: Grid, most: real, missing: real, x: real, above: bool)
    requires p.principal > 0.0 && g.totalInput == p.principal + most
    requires g.wallet == most - missing + x + if above then p.principal else 0.0
    ensures var f, after := FundNextGrid(p, g), missing - x + if above then 0.0 else p.principal;
      f.totalInput == p.principal + Max(most, after) && f.wallet == Max(most, after) - after
  {
  }

  /** The books after an exit. */
  lemma ExitBooks(p: Params, g: Grid, gain: real, fees: real, bought: real, e: Exit, x: real)
    requires p.principal > 0.0 && p.half > 0 && Books(p, g) && x == Earned(p, e)
    requires gain == x + (if e.above then p.principal else 0.0) && fees == Fee(p, e) && bought == Bag(p, e)
    ensures Books(p, FundNextGrid(p, Paid(p, g, gain, fees, bought, e)))
  {
    var paid := Paid(p, g, gain, fees, bought, e);
    HistoryAdds(p, g.exits, e);
    MissingGrows(p, g.exits, e);
    FundingTopsUp(p, paid, MostMissing(p, g.exits), Missing(p, g.exits), x, e.above);
  }

  /** Building the next grid leaves the books alone. */
  lemma ResetBooks(p: Params, g: Grid, price: real)
    requires p.half > 0 && Books(p, g) && ResetGrid(p, g, price).Some?
    ensures Books(p, ResetGrid(p, g, price).value)
  {
  }

  lemma StepFeesAreFee(p: Params, e: Exit)
    requires p.half > 0
    ensures var extra := NonNegative(e.crossed - p.half);
      StepFees(p, if e.above then p.half + extra else extra) == Fee(p, e)
  {
    var n := Paying(p.half, e) as real * Slice(p);
    assert n * p.feeRate * 2.0 == n * (2.0 * p.feeRate);
  }

  lemma BoughtIsBag(p: Params, e: Exit)
    requires !e.above
    ensures Bought(p, e.center) == Bag(p, e)
  {
    var m, f := Max(e.center, 0.000000000001), 1.0 - p.feeRate;
    var q := p.principal / m;
    assert q * m == p.principal;
    assert (q * f) * m == (q * m) * f;
  }

  lemma UpperExitBooks(p: Params, g: Grid, price: real)
    requires p.principal > 0.0 && Shape(p, g) && Books(p, g) && UpperExit(p, g, price).Some?
    ensures Books(p, UpperExit(p, g, price).value)
  {
    var funded := UpperExitFunds(p, g, price);
    ResetBooks(p, funded, price);
  }

  lemma UpperExitFunds(p: Params, g: Grid, price: real) returns (funded: Grid)
    requires p.principal > 0.0 && p.half > 0 && Books(p, g)
    ensures UpperExit(p, g, price) == ResetGrid(p, funded, price) && Books(p, funded)
  {
    var e := Exit(true, g.center, price, g.traversals);
    UpperExitPays(p, g, price, e);
    StepFeesAreFee(p, e);
    ExitBooks(p, g, p.principal + Earned(p, e), Fee(p, e), 0.0, e, Earned(p, e));
    funded := FundNextGrid(p, Paid(p, g, p.principal + Earned(p, e), Fee(p, e), 0.0, e));
  }

  lemma LowerExitBooks(p: Params, g: Grid, price: real)
    requires p.principal > 0.0 && Shape(p, g) && Books(p, g) && LowerExit(p, g, price).Some?
    ensures Books(p, LowerExit(p, g, price).value)
  {
    var funded := LowerExitFunds(p, g, price);
    ResetBooks(p, funded, price);
  }

  lemma LowerExitFunds(p: Params, g: Grid, price: real) returns (funded: Grid)
    requires p.principal > 0.0 && p.half > 0 && Books(p, g)
    ensures LowerExit(p, g, price) == ResetGrid(p, funded, price) && Books(p, funded)
  {
    var e := Exit(false, g.center, price, g.traversals);
    LowerExitPays(p, g, price, e);
    StepFeesAreFee(p, e);
    BoughtIsBag(p, e);
    ExitBooks(p, g, Earned(p, e), Fee(p, e), Bought(p, g.center), e, Earned(p, e));
    funded := FundNextGrid(p, Paid(p, g, Earned(p, e), Fee(p, e), Bought(p, g.center), e));
  }

  lemma SegmentBooks(p: Params, g: Grid, start: real, end: real)
    requires p.principal > 0.0 && Shape(p, g) && Books(p, g) && Segment(p, g, start, end).Some?
    ensures Books(p, Segment(p, g, start, end).value)
  {
    var moved := Moved(g, Walk(g.levels, g.cursor, start, end));
    if end >= moved.levels[2 * p.half] || moved.cursor == 2 * p.half {
      UpperExitBooks(p, moved, end);
    }
    var up := AfterUpper(p, moved, end).value;
    if end <= up.levels[0] || up.cursor == 0 {
      LowerExitBooks(p, up, end);
    }
  }

  lemma {:induction false} SegmentsBooks(p: Params, g: Grid, path: seq<real>)
    requires p.principal > 0.0 && Shape(p, g) && Books(p, g) && Segments(p, g, path).Some?
    ensures Books(p, Segments(p, g, path).value)
    decreases |path|
  {
    if |path| >= 2 {
      SegmentBooks(p, g, path[0], path[1]);
      SegmentsBooks(p, Segment(p, g, path[0], path[1]).value, path[1..]);
    }
  }

  /** In every run, after every bar, the amounts are those told by the grids that were left: the input is one principal
      and the most that was ever missing, so no smaller input would have carried the run. */
  lemma {:induction false} RunBooks(p: Params, bars: seq<Bar>, n: nat)
    requires p.principal > 0.0 && 0 < |bars| && n <= |bars| && Play(p, bars, n).Some?
    ensures Books(p, Play(p, bars, n).value.grid)
  {
    if n == 0 {
      NothingMissing(p);
    } else {
      RunBooks(p, bars, n - 1);
      SegmentsBooks(p, Play(p, bars, n - 1).value.grid, Path(bars, n - 1));
    }
  }

  // ---------------------------------------------------------------- what a point is worth

  /** Input plus earnings, less one principal for each grid left below, plus what those grids bought, at the price. */
  function Worth(p: Params, g: Grid, price: real): real
    requires p.half > 0
  {
    g.totalInput + AllEarned(p, g.exits) - p.principal * Below(g.exits) as real + price * AllBags(p, g.exits)
  }

  lemma EquityIsWorth(p: Params, g: Grid, price: real)
    requires p.half > 0 && Conserved(p, g) && Books(p, g)
    ensures EquityAt(p, g, price) == Worth(p, g, price)
  {
    var n := Below(g.exits);
    assert p.principal * (1 + n) as real == p.principal + p.principal * n as real by {
      assert (1 + n) as real == 1.0 + n as real;
    }
    assert g.inventory * price == price * g.inventory;
  }

  lemma {:induction false} PlayedBefore(p: Params, bars: seq<Bar>, m: nat, n: nat)
    requires 0 < |bars| && m <= n <= |bars| && Play(p, bars, n).Some?
    ensures Play(p, bars, m).Some? && Play(p, bars, n).value.points[..m] == Play(p, bars, m).value.points
  {
    if m < n {
      PlayedBefore(p, bars, m, n - 1);
      var before, after := Play(p, bars, n - 1).value, Play(p, bars, n).value;
      assert after.points[..m] == before.points[..m];
    } else {
      assert Play(p, bars, n).value.points[..n] == Play(p, bars, n).value.points;
    }
  }

  lemma LastPointIsWorth(p: Params, bars: seq<Bar>, k: nat)
    requires p.principal > 0.0 && k < |bars| && Play(p, bars, k + 1).Some?
    ensures var played := Play(p, bars, k + 1).value;
      played.points[k] == Point(bars[k].timestamp, Worth(p, played.grid, bars[k].close))
  {
    RunConserves(p, bars, k + 1);
    RunBooks(p, bars, k + 1);
    EquityIsWorth(p, Play(p, bars, k + 1).value.grid, bars[k].close);
  }

  /** In every run, point k is bar k's time and what the run is worth at that bar's close, given the grids left until
      then. */
  lemma PointIsWorth(p: Params, bars: seq<Bar>, n: nat, k: nat)
    requires p.principal > 0.0 && 0 < |bars| && k < n <= |bars| && Play(p, bars, n).Some?
    ensures Play(p, bars, k + 1).Some?
    ensures Play(p, bars, n).value.points[k] ==
            Point(bars[k].timestamp, Worth(p, Play(p, bars, k + 1).value.grid, bars[k].close))
  {
    PlayedBefore(p, bars, k + 1, n);
    assert Play(p, bars, n).value.points[k] == Play(p, bars, k + 1).value.points[k];
    LastPointIsWorth(p, bars, k);
  }
}
