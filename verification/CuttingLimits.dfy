/** What the two limits of scripts/optimize_martingale_lp_portfolios.py promise, and exactly when: the drawdown limit,
    whose cuts the loop adds one by one, and the weight cap of a symbol. */
module CuttingLimits {
  import opened Common
  import opened Drawdown
  import opened CuttingPlane

  // ---------------------------------------------------------------- the drawdown limit

  ghost predicate Admissible(prob: Problem, v: seq<real>)
    requires WellFormed(prob)
  {
    BaseFeasible(prob, v) && DrawdownWithin(Equity(prob, v), prob.ddLimit)
  }

  /** For every problem with this limit and every solver: no relaxation the loop reaches has lost a portfolio that meets
      the limit.  `exact` narrows this to solvers whose answers satisfy their cuts. */
  ghost predicate LoopKeepsAdmissible(limit: real, exact: bool) {
    forall prob: Problem, gap, solve, run, v |
      && WellFormed(prob) && prob.ddLimit == limit
      && SoundSolver(prob, gap, solve) && (exact ==> ExactSolver(prob, solve))
      && RunOf(prob, solve, run) && Admissible(prob, v) ::
      Satisfies(prob, Last(run).aUb, v)
  }

  /** The cuts the loop adds never remove an admissible portfolio, exactly for limits of at most 100 percent. */
  lemma LoopKeepsAdmissibleIff(limit: real, exact: bool)
    ensures LoopKeepsAdmissible(limit, exact) <==> limit <= 100.0
  {
    if limit <= 100.0 {
      forall prob: Problem, gap, solve, run, v |
        && WellFormed(prob) && prob.ddLimit == limit
        && SoundSolver(prob, gap, solve) && (exact ==> ExactSolver(prob, solve))
        && RunOf(prob, solve, run) && Admissible(prob, v)
        ensures Satisfies(prob, Last(run).aUb, v)
      {
        RunMatches(prob, gap, solve, run);
        LimitSatisfiesCuts(prob, Last(run).aUb, Last(run).added, v);
      }
    } else {
      var solve := FirstAnswerOnly;
      FirstAnswerIsSound(limit);
      var run := [NOTHING_FORBIDDEN, LostRelaxation(limit)];
      LostRun(limit);
      OtherIsAdmissible(limit);
      CutForbidsAll(limit, [0.0, 1.0]);
      assert !Satisfies(Lost(limit), Last(run).aUb, [0.0, 1.0]);
    }
  }

  /** Keys and rows stay in step over every run. */
  lemma {:induction false} RunMatches(prob: Problem, gap: real, solve: Solver, run: seq<Relaxation>)
    requires WellFormed(prob) && SoundSolver(prob, gap, solve) && RunOf(prob, solve, run)
    ensures CutsMatch(prob, Last(run).aUb, Last(run).added)
  {
    if |run| == 1 {
      NothingAdded(prob);
    } else {
      RunMatches(prob, gap, solve, Init(run));
      StepMatches(prob, Equity(prob, solve(Last(Init(run)).aUb).weights), Last(Init(run)), Last(run));
    }
  }

  lemma StepMatches(prob: Problem, e: seq<real>, before: Relaxation, after: Relaxation)
    requires WellFormed(prob) && |e| == |prob.matrix| && CutsMatch(prob, before.aUb, before.added)
    requires Advances(prob, e, before, after)
    ensures CutsMatch(prob, after.aUb, after.added)
  {
    var t: nat :| AdvancesAt(prob, e, before, after, t);
    if (PeakIndex(e, t), t) !in before.added {
      AddCut(prob, before.aUb, before.added, PeakIndex(e, t), t);
    }
  }

  // ---------------------------------------------------------------- a case that is lost above 100 percent

  /** Two candidates; all of it in the first ends highest but falls too far, all of it in the second is admissible. */
  function Lost(limit: real): Problem {
    var a := Alpha(limit);
    Problem([[1.0, 1.0], [10.0, 0.1], [10.0 * a - 1.0, 0.5 * a], [100.0, 1.0]], ["BTCUSDT", "ETHUSDT"], limit, 1, 0.01)
  }

  /** The relaxation after one iteration: the fall from time 1 to time 2 is forbidden. */
  function LostRelaxation(limit: real): Relaxation {
    Forbid(Lost(limit), NOTHING_FORBIDDEN, 1, 2)
  }

  function FirstAnswerOnly(aUb: seq<seq<real>>): Solution {
    if aUb == [] then Solved([1.0, 0.0]) else Unsolved("infeasible")
  }

  ghost function Mix(x: real, y: real, w: seq<real>): real
    requires |w| == 2
  {
    x * w[0] + y * w[1]
  }

  lemma DotOfTwo(x: real, y: real, w: seq<real>)
    requires |w| == 2
    ensures Dot([x, y], w) == Mix(x, y, w)
  {
    assert [x, y][1..] == [y];
    assert Dot([y], w[1..]) == y * w[1] + Dot([y][1..], w[1..][1..]);
  }

  lemma TotalOfTwo(w: seq<real>)
    requires |w| == 2
    ensures Total(w) == w[0] + w[1]
  {
    assert Total(w[1..]) == w[1] + Total(w[1..][1..]);
  }

  lemma LostCurve(limit: real, w: seq<real>)
    requires |w| == 2
    ensures WellFormed(Lost(limit))
    ensures Equity(Lost(limit), w) ==
            [Mix(1.0, 1.0, w), Mix(10.0, 0.1, w), Mix(10.0 * Alpha(limit) - 1.0, 0.5 * Alpha(limit), w),
             Mix(100.0, 1.0, w)]
  {
    DotOfTwo(1.0, 1.0, w);
    DotOfTwo(10.0, 0.1, w);
    DotOfTwo(10.0 * Alpha(limit) - 1.0, 0.5 * Alpha(limit), w);
    DotOfTwo(100.0, 1.0, w);
  }

  lemma PeaksOfFour(e: seq<real>)
    requires |e| == 4
    ensures Peak(e, 0) == e[0]
    ensures Peak(e, 1) == Max(e[0], e[1])
    ensures Peak(e, 2) == Max(Max(e[0], e[1]), e[2])
    ensures Peak(e, 3) == Max(Max(Max(e[0], e[1]), e[2]), e[3])
  {
  }

  /** All of it in the second candidate meets the limit. */
  lemma OtherIsAdmissible(limit: real)
    requires limit > 100.0
    ensures WellFormed(Lost(limit)) && Admissible(Lost(limit), [0.0, 1.0])
  {
    var w := [0.0, 1.0];
    var a := Alpha(limit);
    LostCurve(limit, w);
    TotalOfTwo(w);
    var e := [1.0, 0.1, 0.5 * a, 1.0];
    assert Equity(Lost(limit), w) == e;
    PeaksOfFour(e);
    CutIsLimit(1.0, 0.1, limit);
    CutIsLimit(1.0, 0.5 * a, limit);
    CutIsLimit(1.0, 1.0, limit);
  }

  /** The curve of the first candidate falls too far from time 1 to time 2, and nowhere further. */
  lemma FirstFallsTooFar(limit: real)
    requires limit > 100.0
    ensures WellFormed(Lost(limit))
    ensures Violates(Lost(limit), Equity(Lost(limit), [1.0, 0.0]), 2)
    ensures PeakIndex(Equity(Lost(limit), [1.0, 0.0]), 2) == 1
    ensures !DrawdownWithin(Equity(Lost(limit), [1.0, 0.0]), limit + TOLERANCE)
  {
    var w := [1.0, 0.0];
    var a := Alpha(limit);
    LostCurve(limit, w);
    var e := [1.0, 10.0, 10.0 * a - 1.0, 100.0];
    assert Equity(Lost(limit), w) == e;
    PeaksOfFour(e);
    var d := Drawdowns(e);
    assert d[0] == 0.0 && d[1] == 0.0 && d[3] == 0.0;
    assert d[2] == (11.0 - 10.0 * a) / 10.0;
    assert d[2] * 100.0 == limit + 10.0;
    assert FirstMax(d, 2);
    assert PeakIndex(e, 1) == 1;
  }

  /** No weights at all satisfy the cut of that fall. */
  lemma CutForbidsAll(limit: real, w: seq<real>)
    requires limit > 100.0
    ensures WellFormed(Lost(limit))
    ensures BaseFeasible(Lost(limit), w) ==> Dot(CutRow(Lost(limit), Alpha(limit), 1, 2), w) > 0.0
    ensures BaseFeasible(Lost(limit), w) ==> !Satisfies(Lost(limit), LostRelaxation(limit).aUb, w)
  {
    if BaseFeasible(Lost(limit), w) {
      var a := Alpha(limit);
      var row := CutRow(Lost(limit), a, 1, 2);
      assert row[0] == 1.0 && row[1] == -0.4 * a;
      DotPositive(row, w);
      assert LostRelaxation(limit).aUb[0] == row;
    }
  }

  lemma FirstIsOptimal(limit: real, w: seq<real>)
    requires BaseFeasible(Lost(limit), w)
    ensures WellFormed(Lost(limit))
    ensures FinalEquity(Lost(limit), w) <= 100.0 == FinalEquity(Lost(limit), [1.0, 0.0])
    ensures FinalEquity(Lost(limit), w) == 100.0 ==> w == [1.0, 0.0]
  {
    LostCurve(limit, w);
    LostCurve(limit, [1.0, 0.0]);
    TotalOfTwo(w);
  }

  lemma FirstIsFeasible(limit: real)
    ensures BaseFeasible(Lost(limit), [1.0, 0.0])
  {
    TotalOfTwo([1.0, 0.0]);
  }

  lemma FirstAnswerIsSound(limit: real)
    ensures WellFormed(Lost(limit)) && SoundSolver(Lost(limit), 0.0, FirstAnswerOnly)
    ensures ExactSolver(Lost(limit), FirstAnswerOnly)
  {
    FirstIsFeasible(limit);
    forall v | BaseFeasible(Lost(limit), v)
      ensures FinalEquity(Lost(limit), v) <= FinalEquity(Lost(limit), [1.0, 0.0])
    {
      FirstIsOptimal(limit, v);
    }
  }

  lemma LostRun(limit: real)
    requires limit > 100.0
    ensures WellFormed(Lost(limit))
    ensures RunOf(Lost(limit), FirstAnswerOnly, [NOTHING_FORBIDDEN, LostRelaxation(limit)])
  {
    FirstFallsTooFar(limit);
    assert AdvancesAt(Lost(limit), Equity(Lost(limit), [1.0, 0.0]), NOTHING_FORBIDDEN, LostRelaxation(limit), 2);
    assert Continues(Lost(limit), FirstAnswerOnly, NOTHING_FORBIDDEN, LostRelaxation(limit));
    RunGoesOn(Lost(limit), FirstAnswerOnly, [NOTHING_FORBIDDEN], LostRelaxation(limit));
    assert [NOTHING_FORBIDDEN] + [LostRelaxation(limit)] == [NOTHING_FORBIDDEN, LostRelaxation(limit)];
  }

  /** With any exact solver without a gap the case is lost: the loop gives it up as unsolvable, while an admissible
      portfolio exists. */
  method SolveLostCase(limit: real, solve: Solver, maxIterations: nat) returns (r: Outcome)
    requires limit > 100.0 && maxIterations >= 2
    requires WellFormed(Lost(limit)) && SoundSolver(Lost(limit), 0.0, solve) && ExactSolver(Lost(limit), solve)
    ensures r.SolverFailure? && Admissible(Lost(limit), [0.0, 1.0])
  {
    ghost var run;
    r, run := SolveCase(Lost(limit), solve, 0.0, maxIterations);
    CaseIsLost(limit, solve, run, maxIterations, r);
    OtherIsAdmissible(limit);
  }

  lemma CaseIsLost(limit: real, solve: Solver, run: seq<Relaxation>, maxIterations: nat, r: Outcome)
    requires limit > 100.0 && maxIterations >= 2
    requires WellFormed(Lost(limit)) && SoundSolver(Lost(limit), 0.0, solve) && ExactSolver(Lost(limit), solve)
    requires RunOf(Lost(limit), solve, run) && EndsWith(Lost(limit), solve, run, maxIterations, r)
    requires r.Found? ==> |r.weights| == 2 && DrawdownWithin(Equity(Lost(limit), r.weights), limit + TOLERANCE)
    ensures r.SolverFailure?
  {
    ShortRun(limit, solve, run);
    if solve([]).Solved? {
      OnlyFirstAnswer(limit, solve);
    }
    if |run| == 1 {
      FirstIsNoEnd(limit);
      assert Last(run) == NOTHING_FORBIDDEN;
    }
  }

  lemma FirstIsNoEnd(limit: real)
    requires limit > 100.0
    ensures WellFormed(Lost(limit))
    ensures !DrawdownWithin(Equity(Lost(limit), [1.0, 0.0]), limit + TOLERANCE)
    ensures !Repeats(Lost(limit), Equity(Lost(limit), [1.0, 0.0]), NOTHING_FORBIDDEN)
  {
    FirstFallsTooFar(limit);
  }

  lemma ShortRun(limit: real, solve: Solver, run: seq<Relaxation>)
    requires limit > 100.0
    requires WellFormed(Lost(limit)) && SoundSolver(Lost(limit), 0.0, solve) && ExactSolver(Lost(limit), solve)
    requires RunOf(Lost(limit), solve, run)
    ensures |run| <= 2 && (|run| == 2 ==> solve(Last(run).aUb).Unsolved?)
  {
    if |run| > 1 {
      ForbiddenFromThenOn(limit, solve, run);
      NothingSatisfies(limit, solve, Last(run).aUb);
    }
  }

  lemma OnlyFirstAnswer(limit: real, solve: Solver)
    requires WellFormed(Lost(limit)) && SoundSolver(Lost(limit), 0.0, solve) && solve([]).Solved?
    ensures solve([]).weights == [1.0, 0.0]
  {
    var w := solve([]).weights;
    assert GapOptimal(Lost(limit), 0.0, [], w);
    FirstIsFeasible(limit);
    assert Satisfies(Lost(limit), [], [1.0, 0.0]);
    FirstIsOptimal(limit, w);
  }

  lemma NothingSatisfies(limit: real, solve: Solver, aUb: seq<seq<real>>)
    requires limit > 100.0
    requires WellFormed(Lost(limit)) && SoundSolver(Lost(limit), 0.0, solve) && ExactSolver(Lost(limit), solve)
    requires LostRelaxation(limit).aUb <= aUb
    ensures solve(aUb).Unsolved?
  {
    assert aUb[0] == CutRow(Lost(limit), Alpha(limit), 1, 2);
    if solve(aUb).Solved? {
      var w := solve(aUb).weights;
      assert GapOptimal(Lost(limit), 0.0, aUb, w);
      CutForbidsAll(limit, w);
      assert false;
    }
  }

  /** From the second relaxation on the fall is forbidden. */
  lemma {:induction false} ForbiddenFromThenOn(limit: real, solve: Solver, run: seq<Relaxation>)
    requires limit > 100.0 && |run| > 1
    requires WellFormed(Lost(limit)) && SoundSolver(Lost(limit), 0.0, solve) && ExactSolver(Lost(limit), solve)
    requires RunOf(Lost(limit), solve, run)
    ensures |run| == 2 && LostRelaxation(limit).aUb <= Last(run).aUb
  {
    var before := Last(Init(run));
    if |run| > 2 {
      ForbiddenFromThenOn(limit, solve, Init(run));
      NothingSatisfies(limit, solve, before.aUb);
      assert false;
    } else {
      OnlyFirstAnswer(limit, solve);
      FirstStep(limit, before, Last(run));
    }
  }

  lemma FirstStep(limit: real, before: Relaxation, after: Relaxation)
    requires limit > 100.0 && before == NOTHING_FORBIDDEN
    requires WellFormed(Lost(limit)) && Advances(Lost(limit), Equity(Lost(limit), [1.0, 0.0]), before, after)
    ensures after == LostRelaxation(limit)
  {
    FirstFallsTooFar(limit);
    var e := Equity(Lost(limit), [1.0, 0.0]);
    var t: nat :| AdvancesAt(Lost(limit), e, before, after, t);
    assert t == 2;
  }

  // ---------------------------------------------------------------- the weight cap of a symbol

  /** Every portfolio the program admits keeps each symbol within the cap, exactly when several symbols are demanded. */
  lemma CapHoldsIffSeveralSymbols(minSymbols: int)
    ensures (forall prob: Problem, w |
               WellFormed(prob) && prob.minSymbols == minSymbols && BaseFeasible(prob, w) :: Capped(prob, w))
            <==> minSymbols > 1
  {
    if minSymbols > 1 {
      forall prob: Problem, w | WellFormed(prob) && prob.minSymbols == minSymbols && BaseFeasible(prob, w)
        ensures Capped(prob, w)
      {
        FeasibleIsCapped(prob, w);
      }
    } else {
      UncappedAnswer(minSymbols);
    }
  }

  /** One candidate, all of it in one symbol. */
  function Lone(minSymbols: int): Problem {
    Problem([[1.0]], ["BTCUSDT"], 10.0, minSymbols, 0.01)
  }

  /** The whole capital in one symbol is what an exact solver answers at once, and it meets the drawdown limit. */
  lemma UncappedAnswer(minSymbols: int)
    requires minSymbols <= 1
    ensures WellFormed(Lone(minSymbols)) && Admissible(Lone(minSymbols), [1.0])
    ensures GapOptimal(Lone(minSymbols), 0.0, [], [1.0])
    ensures SymbolWeight(Lone(minSymbols).symbols, [1.0], "BTCUSDT") == 1.0
    ensures !Capped(Lone(minSymbols), [1.0])
  {
    var prob := Lone(minSymbols);
    assert Total([1.0]) == 1.0 + Total([1.0][1..]);
    assert Dot([1.0], [1.0]) == 1.0;
    var e := Equity(prob, [1.0]);
    assert e == [1.0];
    CutIsLimit(1.0, 1.0, 10.0);
    assert "BTCUSDT" in prob.symbols;
    assert SymbolWeight(["BTCUSDT"], [1.0], "BTCUSDT") == 1.0;
    forall v | BaseFeasible(prob, v)
      ensures FinalEquity(prob, v) <= FinalEquity(prob, [1.0])
    {
      assert Total(v) == v[0] + Total(v[1..]);
      assert v == [1.0];
    }
  }

  // ---------------------------------------------------------------- the cap demands three symbols

  /** Weight of the candidates whose symbol is in the set. */
  ghost function SetWeight(symbols: seq<string>, w: seq<real>, chosen: set<string>): real
    requires |symbols| == |w|
  {
    if w == [] then 0.0
    else (if symbols[0] in chosen then w[0] else 0.0) + SetWeight(symbols[1..], w[1..], chosen)
  }

  lemma {:induction false} SetWeightSplits(symbols: seq<string>, w: seq<real>, chosen: set<string>, s: string)
    requires |symbols| == |w| && s in chosen
    ensures SetWeight(symbols, w, chosen) == SetWeight(symbols, w, chosen - {s}) + SymbolWeight(symbols, w, s)
  {
    if w != [] {
      SetWeightSplits(symbols[1..], w[1..], chosen, s);
    }
  }

  lemma {:induction false} NothingChosen(symbols: seq<string>, w: seq<real>)
    requires |symbols| == |w|
    ensures SetWeight(symbols, w, {}) == 0.0
  {
    if w != [] {
      NothingChosen(symbols[1..], w[1..]);
    }
  }

  lemma {:induction false} SetWeightWithin(symbols: seq<string>, w: seq<real>, chosen: set<string>)
    requires |symbols| == |w|
    requires forall s :: s in chosen ==> SymbolWeight(symbols, w, s) <= SYMBOL_CAP
    ensures SetWeight(symbols, w, chosen) <= SYMBOL_CAP * |chosen| as real
  {
    if chosen == {} {
      NothingChosen(symbols, w);
    } else {
      var s :| s in chosen;
      SetWeightWithin(symbols, w, chosen - {s});
      SetWeightSplits(symbols, w, chosen, s);
      assert |chosen - {s}| == |chosen| - 1;
    }
  }

  /** The symbols that hold any weight. */
  ghost function Held(prob: Problem, w: seq<real>): set<string>
    requires |w| == |prob.symbols|
  {
    set s | s in prob.symbols && SymbolWeight(prob.symbols, w, s) > 0.0
  }

  lemma {:induction false} NonNegativeWeight(symbols: seq<string>, w: seq<real>, i: nat)
    requires |symbols| == |w| && i < |w| && forall k :: 0 <= k < |w| ==> w[k] >= 0.0
    ensures SymbolWeight(symbols, w, symbols[i]) >= w[i]
  {
    if i == 0 {
      WeightNotNegative(symbols[1..], w[1..], symbols[0]);
    } else {
      NonNegativeWeight(symbols[1..], w[1..], i - 1);
    }
  }

  lemma {:induction false} WeightNotNegative(symbols: seq<string>, w: seq<real>, s: string)
    requires |symbols| == |w| && forall k :: 0 <= k < |w| ==> w[k] >= 0.0
    ensures SymbolWeight(symbols, w, s) >= 0.0
  {
    if w != [] {
      WeightNotNegative(symbols[1..], w[1..], s);
    }
  }

  lemma {:induction false} HeldIsAll(symbols: seq<string>, w: seq<real>, chosen: set<string>)
    requires |symbols| == |w|
    requires forall i :: 0 <= i < |w| ==> symbols[i] in chosen || w[i] == 0.0
    ensures SetWeight(symbols, w, chosen) == Total(w)
  {
    if w != [] {
      HeldIsAll(symbols[1..], w[1..], chosen);
    }
  }

  /** Capped weights lie on at least three symbols: a case that demands two symbols demands three. */
  lemma CapDemandsThreeSymbols(prob: Problem, w: seq<real>)
    requires BaseFeasible(prob, w) && Capped(prob, w)
    ensures |Held(prob, w)| >= 3
  {
    forall i | 0 <= i < |w| ensures prob.symbols[i] in Held(prob, w) || w[i] == 0.0 {
      NonNegativeWeight(prob.symbols, w, i);
    }
    HeldIsAll(prob.symbols, w, Held(prob, w));
    SetWeightWithin(prob.symbols, w, Held(prob, w));
  }

  /** Three candidates of three symbols. */
  const TRIO := Problem([[1.0, 1.0, 1.0]], ["A", "B", "C"], 10.0, 2, 0.01)

  lemma WeightsOfThree(x: real, y: real, z: real)
    ensures Total([x, y, z]) == x + y + z
    ensures SymbolWeight(["A", "B", "C"], [x, y, z], "A") == x
    ensures SymbolWeight(["A", "B", "C"], [x, y, z], "B") == y
    ensures SymbolWeight(["A", "B", "C"], [x, y, z], "C") == z
  {
    assert [x, y, z][1..] == [y, z] && [y, z][1..] == [z] && [z][1..] == [];
    assert ["A", "B", "C"][1..] == ["B", "C"] && ["B", "C"][1..] == ["C"] && ["C"][1..] == [];
    assert Total([z]) == z + Total([]);
    assert "A"[0] != "B"[0] && "B"[0] != "C"[0] && "A"[0] != "C"[0];
    forall s: string
      ensures SymbolWeight(["A", "B", "C"], [x, y, z], s) ==
        (if s == "A" then x else 0.0) + (if s == "B" then y else 0.0) + (if s == "C" then z else 0.0)
    {
      assert SymbolWeight([], [], s) == 0.0;
      assert SymbolWeight(["C"], [z], s) == if s == "C" then z else 0.0;
      assert SymbolWeight(["B", "C"], [y, z], s) == (if s == "B" then y else 0.0) + SymbolWeight(["C"], [z], s);
    }
  }

  /** The cap can be reached: two symbols with 40 percent each and one with the rest are admitted. */
  lemma CapIsReached()
    ensures WellFormed(TRIO) && BaseFeasible(TRIO, [0.4, 0.4, 0.2])
  {
    var w := [0.4, 0.4, 0.2];
    WeightsOfThree(0.4, 0.4, 0.2);
    assert SymbolsActive(TRIO, w, {"A", "B", "C"});
  }
}
