/** The drawdown-constrained weight program of scripts/optimize_martingale_lp_portfolios.py.

    `SolveCase` is the cutting-plane loop: solve a relaxed program, look for the worst
    peak-to-trough loss of the answer, forbid that one pair, repeat.  The numerical solver is a
    parameter with a stated contract; everything the loop adds around it is proved. */
module CuttingPlane {
  import opened Common
  import opened Drawdown

  // ---------------------------------------------------------------- the program

  /** One row of `matrix` per time point, one column per candidate; `symbols[i]` is the symbol of candidate i. */
  datatype Problem = Problem(
    matrix: seq<seq<real>>,
    symbols: seq<string>,
    ddLimit: real,
    minSymbols: int,
    minSymbolWeight: real)

  /** The per-symbol cap of the mixed-integer form. */
  const SYMBOL_CAP: real := 0.4

  /** Slack, in percent, that the loop grants on the drawdown limit. */
  const TOLERANCE: real := 0.00000001

  function Dot(a: seq<real>, b: seq<real>): real
    requires |a| == |b|
  {
    if a == [] then 0.0 else a[0] * b[0] + Dot(a[1..], b[1..])
  }

  function Total(w: seq<real>): real {
    if w == [] then 0.0 else w[0] + Total(w[1..])
  }

  /** Rectangular, non-empty, and every candidate starts at a positive equity (the source divides each
      curve by its own positive first value). */
  ghost predicate WellFormed(prob: Problem) {
    && |prob.matrix| > 0
    && |prob.symbols| > 0
    && (forall t :: 0 <= t < |prob.matrix| ==> |prob.matrix[t]| == |prob.symbols|)
    && (forall i :: 0 <= i < |prob.symbols| ==> prob.matrix[0][i] > 0.0)
  }

  /** `matrix @ w`. */
  ghost function Equity(prob: Problem, w: seq<real>): (e: seq<real>)
    requires WellFormed(prob) && |w| == |prob.symbols|
    ensures |e| == |prob.matrix|
  {
    seq(|prob.matrix|, t requires 0 <= t < |prob.matrix| => Dot(prob.matrix[t], w))
  }

  ghost function FinalEquity(prob: Problem, w: seq<real>): real
    requires WellFormed(prob) && |w| == |prob.symbols|
  {
    Equity(prob, w)[|prob.matrix| - 1]
  }

  /** Weight that `w` puts on one symbol. */
  function SymbolWeight(symbols: seq<string>, w: seq<real>, symbol: string): real
    requires |symbols| == |w|
  {
    if w == [] then 0.0
    else (if symbols[0] == symbol then w[0] else 0.0) + SymbolWeight(symbols[1..], w[1..], symbol)
  }

  /** The binary variables of the mixed-integer form: `active` is the set of symbols switched on. */
  ghost predicate SymbolsActive(prob: Problem, w: seq<real>, active: set<string>)
    requires |w| == |prob.symbols|
  {
    && (forall s :: s in active ==> s in prob.symbols)
    && |active| >= prob.minSymbols
    && (forall s :: s in prob.symbols ==>
          SymbolWeight(prob.symbols, w, s) <= (if s in active then SYMBOL_CAP else 0.0))
    && (forall s :: s in prob.symbols ==>
          SymbolWeight(prob.symbols, w, s) >= (if s in active then prob.minSymbolWeight else 0.0))
  }

  /** The constraints that do not come from cuts: a convex combination, and, when more than one symbol
      is demanded, the switch-on/cap/floor constraints. */
  ghost predicate BaseFeasible(prob: Problem, w: seq<real>) {
    && |w| == |prob.symbols|
    && (forall i :: 0 <= i < |w| ==> 0.0 <= w[i] <= 1.0)
    && Total(w) == 1.0
    && (prob.minSymbols > 1 ==> exists active :: SymbolsActive(prob, w, active))
  }

  /** No symbol holds more than 40 percent, the cap that is saved with every case. */
  ghost predicate Capped(prob: Problem, w: seq<real>) {
    && |w| == |prob.symbols|
    && forall s :: s in prob.symbols ==> SymbolWeight(prob.symbols, w, s) <= 0.4
  }

  lemma FeasibleIsCapped(prob: Problem, w: seq<real>)
    requires BaseFeasible(prob, w) && prob.minSymbols > 1
    ensures Capped(prob, w)
  {
    var active :| SymbolsActive(prob, w, active);
    forall s | s in prob.symbols ensures SymbolWeight(prob.symbols, w, s) <= SYMBOL_CAP {
    }
  }

  /** `a_ub @ w <= 0`. */
  ghost predicate Satisfies(prob: Problem, aUb: seq<seq<real>>, w: seq<real>) {
    && |w| == |prob.symbols|
    && forall k :: 0 <= k < |aUb| ==> |aUb[k]| == |w| && Dot(aUb[k], w) <= 0.0
  }

  /** What the solver promises about a solved relaxation: a base-feasible point whose final equity is within
      the relative gap of every point that satisfies the cuts.  It need not satisfy the cuts itself
      exactly; `ExactSolver` adds that. */
  ghost predicate GapOptimal(prob: Problem, gap: real, aUb: seq<seq<real>>, w: seq<real>)
    requires WellFormed(prob)
  {
    && BaseFeasible(prob, w)
    && forall v :: BaseFeasible(prob, v) && Satisfies(prob, aUb, v) ==>
         FinalEquity(prob, v) <= FinalEquity(prob, w) + gap * Abs(FinalEquity(prob, w))
  }

  datatype Solution = Solved(weights: seq<real>) | Unsolved(message: string)

  type Solver = seq<seq<real>> -> Solution

  ghost predicate SoundSolver(prob: Problem, gap: real, solve: Solver)
    requires WellFormed(prob)
  {
    forall aUb :: solve(aUb).Solved? ==> GapOptimal(prob, gap, aUb, solve(aUb).weights)
  }

  ghost predicate ExactSolver(prob: Problem, solve: Solver) {
    forall aUb :: solve(aUb).Solved? ==> Satisfies(prob, aUb, solve(aUb).weights)
  }

  // ---------------------------------------------------------------- drawdown

  /** The running-peak loss stays within `limit` percent at every time. */
  ghost predicate DrawdownWithin(e: seq<real>, limit: real) {
    forall t :: 0 <= t < |e| ==> Peak(e, t) > 0.0 && LossPct(Peak(e, t), e[t]) <= limit
  }

  /** The running-peak loss at each time, as a fraction; peaks of feasible weights are positive (`PeakPositive`). */
  ghost function Drawdowns(e: seq<real>): seq<real> {
    seq(|e|, t requires 0 <= t < |e| => if Peak(e, t) > 0.0 then Loss(Peak(e, t), e[t]) else 0.0)
  }

  /** The running peak is the equity at the first maximum, which is where the loop looks for it. */
  lemma {:induction false} PeakIsMaximum(e: seq<real>, p: nat, t: nat)
    requires p <= t < |e|
    requires forall i :: 0 <= i <= t ==> e[i] <= e[p]
    ensures Peak(e, t) == e[p]
  {
    PeakBound(e, p, t);
    PeakAtMost(e, t, e[p]);
  }

  lemma {:induction false} PeakAtMost(e: seq<real>, t: nat, bound: real)
    requires t < |e|
    requires forall i :: 0 <= i <= t ==> e[i] <= bound
    ensures Peak(e, t) <= bound
  {
    assert e[t] <= bound;
    if t > 0 {
      PeakAtMost(e, t - 1, bound);
    }
  }

  lemma {:induction false} DotPositive(a: seq<real>, w: seq<real>)
    requires |a| == |w|
    requires forall i :: 0 <= i < |a| ==> a[i] > 0.0 && w[i] >= 0.0
    ensures Dot(a, w) >= 0.0
    ensures Total(w) > 0.0 ==> Dot(a, w) > 0.0
  {
    if a != [] {
      DotPositive(a[1..], w[1..]);
      assert a[0] * w[0] >= 0.0;
      if w[0] > 0.0 {
        assert a[0] * w[0] > 0.0;
      }
    }
  }

  /** Feasible weights always have a positive running peak, so the drawdown quotient is defined. */
  lemma PeakPositive(prob: Problem, w: seq<real>, t: nat)
    requires WellFormed(prob) && BaseFeasible(prob, w) && t < |prob.matrix|
    ensures Peak(Equity(prob, w), t) > 0.0
  {
    DotPositive(prob.matrix[0], w);
    PeakBound(Equity(prob, w), 0, t);
  }

  // ---------------------------------------------------------------- cuts

  /** The row `alpha * matrix[p] - matrix[t]`. */
  function CutRow(prob: Problem, alpha: real, p: nat, t: nat): seq<real>
    requires WellFormed(prob) && p < |prob.matrix| && t < |prob.matrix|
  {
    seq(|prob.symbols|, i requires 0 <= i < |prob.symbols| => alpha * prob.matrix[p][i] - prob.matrix[t][i])
  }

  lemma {:induction false} DotOfCombination(alpha: real, a: seq<real>, b: seq<real>, row: seq<real>, w: seq<real>)
    requires |a| == |b| == |row| == |w|
    requires forall i :: 0 <= i < |a| ==> row[i] == alpha * a[i] - b[i]
    ensures Dot(row, w) == CutValue(alpha, Dot(a, w), Dot(b, w))
  {
    if a != [] {
      DotOfCombination(alpha, a[1..], b[1..], row[1..], w[1..]);
      DotStep(alpha, a[0], b[0], w[0], Dot(a[1..], w[1..]), Dot(b[1..], w[1..]));
    }
  }

  lemma DotStep(alpha: real, x: real, y: real, z: real, p: real, q: real)
    ensures (alpha * x - y) * z + CutValue(alpha, p, q) == CutValue(alpha, x * z + p, y * z + q)
  {
    assert (alpha * x - y) * z == alpha * (x * z) - y * z;
    assert alpha * (x * z + p) == alpha * (x * z) + alpha * p;
  }

  lemma CutMeaning(prob: Problem, alpha: real, p: nat, t: nat, w: seq<real>)
    requires WellFormed(prob) && |w| == |prob.symbols| && p < |prob.matrix| && t < |prob.matrix|
    ensures Dot(CutRow(prob, alpha, p, t), w) == CutValue(alpha, Equity(prob, w)[p], Equity(prob, w)[t])
  {
    CutRowIsCombination(prob, alpha, p, t);
    DotOfCombination(alpha, prob.matrix[p], prob.matrix[t], CutRow(prob, alpha, p, t), w);
    EquityAt(prob, w, p);
    EquityAt(prob, w, t);
  }

  lemma CutRowIsCombination(prob: Problem, alpha: real, p: nat, t: nat)
    requires WellFormed(prob) && p < |prob.matrix| && t < |prob.matrix|
    ensures |CutRow(prob, alpha, p, t)| == |prob.symbols| == |prob.matrix[p]| == |prob.matrix[t]|
    ensures forall i :: 0 <= i < |prob.symbols| ==>
              CutRow(prob, alpha, p, t)[i] == alpha * prob.matrix[p][i] - prob.matrix[t][i]
  {
  }

  lemma EquityAt(prob: Problem, w: seq<real>, t: nat)
    requires WellFormed(prob) && |w| == |prob.symbols| && t < |prob.matrix|
    ensures Equity(prob, w)[t] == Dot(prob.matrix[t], w)
  {
  }

  ghost function CutValue(alpha: real, peak: real, e: real): real { alpha * peak - e }

  function Alpha(ddLimit: real): real { 1.0 - ddLimit / 100.0 }

  /** The cut of a running peak says exactly that the loss is within the limit. */
  lemma CutIsLimit(peak: real, e: real, limit: real)
    requires peak > 0.0
    ensures CutValue(Alpha(limit), peak, e) <= 0.0 <==> LossPct(peak, e) <= limit
  {
    var q := (peak - e) / peak;
    assert q * peak == peak - e;
    if q * 100.0 <= limit {
      assert q <= limit / 100.0;
      assert q * peak <= (limit / 100.0) * peak;
    } else {
      assert q > limit / 100.0;
      assert q * peak > (limit / 100.0) * peak;
    }
    assert (1.0 - limit / 100.0) * peak == peak - (limit / 100.0) * peak;
  }

  lemma CutMonotone(alpha: real, x: real, y: real, e: real)
    requires alpha >= 0.0 && x <= y
    ensures CutValue(alpha, x, e) <= CutValue(alpha, y, e)
  {
    assert alpha * x <= alpha * y;
  }

  lemma CurveCut(e: seq<real>, p: nat, t: nat, limit: real)
    requires p <= t < |e| && limit <= 100.0 && DrawdownWithin(e, limit)
    ensures CutValue(Alpha(limit), e[p], e[t]) <= 0.0
  {
    PeakBound(e, p, t);
    CutIsLimit(Peak(e, t), e[t], limit);
    CutMonotone(Alpha(limit), e[p], Peak(e, t), e[t]);
  }

  /** Every cut is implied by the drawdown limit, provided the limit is at most 100 percent. */
  lemma CutImplied(prob: Problem, w: seq<real>, p: nat, t: nat)
    requires WellFormed(prob) && |w| == |prob.symbols| && p <= t < |prob.matrix|
    requires prob.ddLimit <= 100.0
    requires DrawdownWithin(Equity(prob, w), prob.ddLimit)
    ensures Dot(CutRow(prob, Alpha(prob.ddLimit), p, t), w) <= 0.0
  {
    CutMeaning(prob, Alpha(prob.ddLimit), p, t, w);
    CurveCut(Equity(prob, w), p, t, prob.ddLimit);
  }

  // ---------------------------------------------------------------- counting pairs

  ghost function Pairs(n: nat): set<(nat, nat)> {
    set p: nat, t: nat | 0 <= t < n && 0 <= p <= t :: (p, t)
  }

  ghost function PairsEndingAt(t: nat, m: nat): set<(nat, nat)> {
    set p: nat | 0 <= p < m :: (p, t)
  }

  lemma {:induction false} PairsEndingAtSize(t: nat, m: nat)
    ensures |PairsEndingAt(t, m)| == m
  {
    if m > 0 {
      PairsEndingAtSize(t, m - 1);
      assert PairsEndingAt(t, m) == PairsEndingAt(t, m - 1) + {(m - 1, t)};
    } else {
      assert PairsEndingAt(t, m) == {};
    }
  }

  lemma PairsStep(n: nat)
    requires n > 0
    ensures |Pairs(n)| == |Pairs(n - 1)| + n
  {
    PairsEndingAtSize(n - 1, n);
    assert Pairs(n) == Pairs(n - 1) + PairsEndingAt(n - 1, n);
    assert Pairs(n - 1) !! PairsEndingAt(n - 1, n);
  }

  /** There are n(n+1)/2 pairs of a peak no later than its trough. */
  lemma {:induction false} PairsSize(n: nat)
    ensures 2 * |Pairs(n)| == n * (n + 1)
  {
    if n == 0 {
      assert Pairs(0) == {};
    } else {
      PairsSize(n - 1);
      PairsStep(n);
      assert (n - 1) * n + 2 * n == n * (n + 1);
    }
  }

  // ---------------------------------------------------------------- the loop

  datatype Outcome =
    | Found(weights: seq<real>, iterations: nat, constraints: nat)
    | SolverFailure(message: string)
    | RepeatedConstraint
    | IterationLimit

  /** `matrix @ weights`, `np.maximum.accumulate` and the drawdown fractions. */
  method Curves(prob: Problem, w: seq<real>) returns (equity: seq<real>, peaks: seq<real>, drawdowns: seq<real>)
    requires WellFormed(prob) && BaseFeasible(prob, w)
    ensures equity == Equity(prob, w) && drawdowns == Drawdowns(equity)
    ensures |peaks| == |drawdowns| == |equity|
    ensures forall t :: 0 <= t < |equity| ==>
              peaks[t] == Peak(equity, t) && peaks[t] > 0.0 && drawdowns[t] == Loss(peaks[t], equity[t])
  {
    equity := MatrixProduct(prob, w);
    forall t | 0 <= t < |equity| ensures Peak(equity, t) > 0.0 {
      PeakPositive(prob, w, t);
    }
    peaks := RunningMaximum(equity);
    drawdowns := DrawdownFractions(equity, peaks);
    assert drawdowns == Drawdowns(equity);
  }

  method MatrixProduct(prob: Problem, w: seq<real>) returns (equity: seq<real>)
    requires WellFormed(prob) && |w| == |prob.symbols|
    ensures equity == Equity(prob, w)
  {
    equity := [];
    for t := 0 to |prob.matrix|
      invariant equity == Equity(prob, w)[..t]
    {
      EquityAt(prob, w, t);
      equity := equity + [Dot(prob.matrix[t], w)];
    }
  }

  method RunningMaximum(values: seq<real>) returns (peaks: seq<real>)
    ensures |peaks| == |values| && forall t :: 0 <= t < |values| ==> peaks[t] == Peak(values, t)
  {
    peaks := [];
    for t := 0 to |values|
      invariant |peaks| == t && forall i :: 0 <= i < t ==> peaks[i] == Peak(values, i)
    {
      peaks := peaks + [if t == 0 || peaks[t - 1] < values[t] then values[t] else peaks[t - 1]];
    }
  }

  method DrawdownFractions(equity: seq<real>, peaks: seq<real>) returns (drawdowns: seq<real>)
    requires |peaks| == |equity| && forall t :: 0 <= t < |peaks| ==> peaks[t] > 0.0
    ensures |drawdowns| == |equity| && forall t :: 0 <= t < |equity| ==> drawdowns[t] == Loss(peaks[t], equity[t])
  {
    drawdowns := [];
    for t := 0 to |equity|
      invariant |drawdowns| == t && forall i :: 0 <= i < t ==> drawdowns[i] == Loss(peaks[i], equity[i])
    {
      drawdowns := drawdowns + [Loss(peaks[t], equity[t])];
    }
  }

  ghost predicate FirstMax(values: seq<real>, k: nat) {
    && k < |values|
    && (forall i :: 0 <= i < |values| ==> values[i] <= values[k])
    && (forall i :: 0 <= i < k ==> values[i] < values[k])
  }

  /** `np.argmax`: the first index holding the maximum. */
  method ArgMax(values: seq<real>) returns (k: nat)
    requires values != []
    ensures FirstMax(values, k)
  {
    k := 0;
    for i := 1 to |values|
      invariant k < i
      invariant forall j :: 0 <= j < i ==> values[j] <= values[k]
      invariant forall j :: 0 <= j < k ==> values[j] < values[k]
    {
      if values[i] > values[k] {
        k := i;
      }
    }
  }

  ghost predicate Ascending(drawdowns: seq<real>, order: seq<nat>) {
    && (forall k :: 0 <= k < |order| ==> order[k] < |drawdowns|)
    && (forall i, j :: 0 <= i < j < |order| ==> drawdowns[order[i]] <= drawdowns[order[j]])
  }

  ghost predicate Distinct(order: seq<nat>) {
    forall i, j :: 0 <= i < j < |order| ==> order[i] != order[j]
  }

  /** Insertion of one index into an order by drawdown. */
  method InsertByDrawdown(drawdowns: seq<real>, order: seq<nat>, t: nat) returns (wider: seq<nat>)
    requires Ascending(drawdowns, order) && Distinct(order) && t < |drawdowns| && t !in order
    ensures Ascending(drawdowns, wider) && Distinct(wider)
    ensures forall x :: x in wider <==> x in order || x == t
  {
    var pos := PlaceOf(drawdowns, order, t);
    wider := order[..pos] + [t] + order[pos..];
    InsertKeepsAscending(drawdowns, order, pos, t);
    InsertedElements(order, pos, t);
    InsertedDistinct(order, pos, t);
  }

  lemma InsertedDistinct(order: seq<nat>, pos: nat, t: nat)
    requires pos <= |order| && Distinct(order) && t !in order
    ensures Distinct(order[..pos] + [t] + order[pos..])
  {
    var wider := order[..pos] + [t] + order[pos..];
    assert forall k :: 0 <= k < |wider| ==>
      wider[k] == if k < pos then order[k] else if k == pos then t else order[k - 1];
  }

  method PlaceOf(drawdowns: seq<real>, order: seq<nat>, t: nat) returns (pos: nat)
    requires Ascending(drawdowns, order) && t < |drawdowns|
    ensures pos <= |order| && (pos > 0 ==> drawdowns[order[pos - 1]] <= drawdowns[t])
    ensures forall k :: pos <= k < |order| ==> drawdowns[order[k]] > drawdowns[t]
  {
    pos := |order|;
    while pos > 0 && drawdowns[order[pos - 1]] > drawdowns[t]
      invariant 0 <= pos <= |order|
      invariant forall k :: pos <= k < |order| ==> drawdowns[order[k]] > drawdowns[t]
    {
      pos := pos - 1;
    }
  }

  lemma InsertedElements(order: seq<nat>, pos: nat, t: nat)
    requires pos <= |order|
    ensures forall x :: x in order[..pos] + [t] + order[pos..] <==> x in order || x == t
  {
    assert order == order[..pos] + order[pos..];
  }

  lemma InsertKeepsAscending(drawdowns: seq<real>, order: seq<nat>, pos: nat, t: nat)
    requires Ascending(drawdowns, order) && t < |drawdowns| && pos <= |order|
    requires pos > 0 ==> drawdowns[order[pos - 1]] <= drawdowns[t]
    requires forall k :: pos <= k < |order| ==> drawdowns[order[k]] > drawdowns[t]
    ensures Ascending(drawdowns, order[..pos] + [t] + order[pos..])
  {
    var wider := order[..pos] + [t] + order[pos..];
    forall k | 0 <= k < |wider|
      ensures wider[k] == if k < pos then order[k] else if k == pos then t else order[k - 1]
    {
    }
    forall i, j | 0 <= i < j < |wider|
      ensures drawdowns[wider[i]] <= drawdowns[wider[j]]
    {
      if i < pos {
        assert drawdowns[order[i]] <= drawdowns[t];
      }
    }
  }

  /** Indices whose drawdown exceeds the limit, ordered by drawdown, of which the 30 worst are kept:
      `bad[np.argsort(drawdowns[bad])[-30:]]`. */
  method WorstThirty(drawdowns: seq<real>, limit: real) returns (worst: seq<nat>)
    ensures AreWorst(drawdowns, limit, worst)
  {
    var order := OverLimit(drawdowns, limit);
    var drop := if |order| <= 30 then 0 else |order| - 30;
    worst := order[drop..];
    LastAreWorst(drawdowns, limit, order, drop);
  }

  /** All times over the limit, in ascending order of drawdown. */
  method OverLimit(drawdowns: seq<real>, limit: real) returns (order: seq<nat>)
    ensures Ascending(drawdowns, order) && Distinct(order)
    ensures forall x :: x in order <==> 0 <= x < |drawdowns| && drawdowns[x] > limit
  {
    order := [];
    for t := 0 to |drawdowns|
      invariant Ascending(drawdowns, order) && Distinct(order)
      invariant forall x :: x in order <==> 0 <= x < t && drawdowns[x] > limit
    {
      if drawdowns[t] > limit {
        order := InsertByDrawdown(drawdowns, order, t);
      }
    }
  }

  lemma LastAreWorst(drawdowns: seq<real>, limit: real, order: seq<nat>, drop: nat)
    requires Ascending(drawdowns, order) && Distinct(order)
    requires forall x :: x in order <==> 0 <= x < |drawdowns| && drawdowns[x] > limit
    requires drop == if |order| <= 30 then 0 else |order| - 30
    ensures AreWorst(drawdowns, limit, order[drop..])
  {
    var worst := order[drop..];
    SuffixKeeps(drawdowns, order, drop);
    forall x | x in worst ensures x < |drawdowns| && drawdowns[x] > limit {
      assert x in order;
    }
    forall t | 0 <= t < |drawdowns| && drawdowns[t] > limit && t !in worst
      ensures |worst| == 30 && forall x :: x in worst ==> drawdowns[t] <= drawdowns[x]
    {
      assert t in order;
      DroppedIsNoWorse(drawdowns, order, drop, t);
    }
  }

  lemma SuffixKeeps(drawdowns: seq<real>, order: seq<nat>, drop: nat)
    requires Ascending(drawdowns, order) && Distinct(order) && drop <= |order|
    ensures Ascending(drawdowns, order[drop..]) && Distinct(order[drop..])
  {
    var worst := order[drop..];
    assert forall k :: 0 <= k < |worst| ==> worst[k] == order[drop + k];
  }

  lemma DroppedIsNoWorse(drawdowns: seq<real>, order: seq<nat>, drop: nat, t: nat)
    requires Ascending(drawdowns, order) && drop <= |order| && t in order && t !in order[drop..]
    ensures drop > 0 && t < |drawdowns|
    ensures forall x :: x in order[drop..] ==> x < |drawdowns| && drawdowns[t] <= drawdowns[x]
  {
    var k :| 0 <= k < |order| && order[k] == t;
    forall m | drop <= m < |order| ensures order[m] in order[drop..] {
      assert order[drop..][m - drop] == order[m];
    }
    forall x | x in order[drop..] ensures x < |drawdowns| && drawdowns[t] <= drawdowns[x] {
      var j :| 0 <= j < |order[drop..]| && order[drop..][j] == x;
      assert order[drop + j] == x && k < drop + j;
    }
  }

  /** At most 30 different times over the limit, in ascending order of drawdown, and none left out is worse. */
  ghost predicate AreWorst(drawdowns: seq<real>, limit: real, worst: seq<nat>) {
    && Ascending(drawdowns, worst) && Distinct(worst) && |worst| <= 30
    && (forall x :: x in worst ==> x < |drawdowns| && drawdowns[x] > limit)
    && (forall t :: 0 <= t < |drawdowns| && drawdowns[t] > limit ==>
          t in worst || (|worst| == 30 && forall x :: x in worst ==> drawdowns[t] <= drawdowns[x]))
  }

  ghost predicate CutsMatch(prob: Problem, aUb: seq<seq<real>>, added: set<(nat, nat)>)
    requires WellFormed(prob)
  {
    && added <= Pairs(|prob.matrix|)
    && (forall k :: 0 <= k < |aUb| ==>
        exists p: nat, t: nat :: (p, t) in added && p <= t < |prob.matrix| &&
          aUb[k] == CutRow(prob, Alpha(prob.ddLimit), p, t))
    && (forall p, t :: (p, t) in added ==> CutRow(prob, Alpha(prob.ddLimit), p, t) in aUb)
  }

  /** One fresh pair, forbidden. */
  lemma AddCut(prob: Problem, aUb: seq<seq<real>>, added: set<(nat, nat)>, p: nat, t: nat)
    requires WellFormed(prob) && CutsMatch(prob, aUb, added) && p <= t < |prob.matrix| && (p, t) !in added
    ensures Grown(prob, aUb, added, aUb + [CutRow(prob, Alpha(prob.ddLimit), p, t)], added + {(p, t)}, 1)
  {
    WiderMatch(prob, aUb, added, p, t);
    assert aUb <= aUb + [CutRow(prob, Alpha(prob.ddLimit), p, t)];
  }

  lemma WiderMatch(prob: Problem, aUb: seq<seq<real>>, added: set<(nat, nat)>, p: nat, t: nat)
    requires WellFormed(prob) && CutsMatch(prob, aUb, added) && p <= t < |prob.matrix|
    ensures CutsMatch(prob, aUb + [CutRow(prob, Alpha(prob.ddLimit), p, t)], added + {(p, t)})
  {
    var row := CutRow(prob, Alpha(prob.ddLimit), p, t);
    assert (aUb + [row])[|aUb|] == row;
    forall q, u | (q, u) in added + {(p, t)}
      ensures CutRow(prob, Alpha(prob.ddLimit), q, u) in aUb + [row]
    {
    }
  }

  /** Weights that meet the limit satisfy every cut the loop has added. */
  lemma LimitSatisfiesCuts(prob: Problem, aUb: seq<seq<real>>, added: set<(nat, nat)>, v: seq<real>)
    requires WellFormed(prob) && CutsMatch(prob, aUb, added) && |v| == |prob.symbols|
    requires prob.ddLimit <= 100.0 && DrawdownWithin(Equity(prob, v), prob.ddLimit)
    ensures Satisfies(prob, aUb, v)
  {
    forall k | 0 <= k < |aUb|
      ensures |aUb[k]| == |v| && Dot(aUb[k], v) <= 0.0
    {
      var p: nat, t: nat :| p <= t < |prob.matrix| && aUb[k] == CutRow(prob, Alpha(prob.ddLimit), p, t);
      CutImplied(prob, v, p, t);
    }
  }

  /** A pair that still violates the limit cannot already carry a satisfied cut. */
  lemma ViolatedPairIsFresh(prob: Problem, aUb: seq<seq<real>>, added: set<(nat, nat)>, w: seq<real>, p: nat, t: nat)
    requires WellFormed(prob) && CutsMatch(prob, aUb, added)
    requires Satisfies(prob, aUb, w)
    requires p <= t < |prob.matrix| && Equity(prob, w)[p] > 0.0
    requires LossPct(Equity(prob, w)[p], Equity(prob, w)[t]) > prob.ddLimit
    ensures (p, t) !in added
  {
    CutMeaning(prob, Alpha(prob.ddLimit), p, t, w);
    CutIsLimit(Equity(prob, w)[p], Equity(prob, w)[t], prob.ddLimit);
  }

  /** Rows and keys grow together: `count` fresh ones were put behind those there were. */
  ghost predicate Grown(prob: Problem, aUb0: seq<seq<real>>, added0: set<(nat, nat)>,
                        aUb: seq<seq<real>>, added: set<(nat, nat)>, count: nat)
    requires WellFormed(prob)
  {
    && CutsMatch(prob, aUb, added)
    && aUb0 <= aUb && |aUb| == |aUb0| + count
    && added0 <= added && |added| == |added0| + count
  }

  lemma GrownTwice(prob: Problem, aUb0: seq<seq<real>>, added0: set<(nat, nat)>, aUb1: seq<seq<real>>,
                   added1: set<(nat, nat)>, m: nat, aUb: seq<seq<real>>, added: set<(nat, nat)>, n: nat)
    requires WellFormed(prob)
    requires Grown(prob, aUb0, added0, aUb1, added1, m) && Grown(prob, aUb1, added1, aUb, added, n)
    ensures Grown(prob, aUb0, added0, aUb, added, m + n)
  {
  }

  /** The branch taken when the worst pair was already forbidden: add the pairs of the 30 worst times. */
  method AddWorst(prob: Problem, equity: seq<real>, drawdowns: seq<real>, aUb0: seq<seq<real>>, added0: set<(nat, nat)>)
      returns (aUb: seq<seq<real>>, added: set<(nat, nat)>, newCount: nat, ghost worst: seq<nat>)
    requires WellFormed(prob) && CutsMatch(prob, aUb0, added0)
    requires |equity| == |drawdowns| == |prob.matrix|
    ensures Grown(prob, aUb0, added0, aUb, added, newCount)
    ensures AreWorst(drawdowns, prob.ddLimit / 100.0 + TOLERANCE, worst) && added == added0 + PairsOf(equity, worst)
    ensures newCount == 0 ==> added == added0 && aUb == aUb0
  {
    var times := WorstThirty(drawdowns, prob.ddLimit / 100.0 + TOLERANCE);
    worst := times;
    forall k | 0 <= k < |times| ensures times[k] < |equity| {
      assert times[k] in times;
    }
    aUb, added, newCount := AddTimes(prob, equity, times, aUb0, added0);
    SubsetSize(added0, added);
  }

  /** The loop over the worst times. */
  method AddTimes(prob: Problem, equity: seq<real>, times: seq<nat>, aUb0: seq<seq<real>>, added0: set<(nat, nat)>)
      returns (aUb: seq<seq<real>>, added: set<(nat, nat)>, newCount: nat)
    requires WellFormed(prob) && CutsMatch(prob, aUb0, added0) && |equity| == |prob.matrix|
    requires forall k :: 0 <= k < |times| ==> times[k] < |equity|
    ensures Grown(prob, aUb0, added0, aUb, added, newCount) && added == added0 + PairsOf(equity, times)
  {
    aUb, added, newCount := aUb0, added0, 0;
    for k := 0 to |times|
      invariant Grown(prob, aUb0, added0, aUb, added, newCount)
      invariant added == added0 + PairsOf(equity, times[..k])
    {
      var p := PeakOf(equity, times[k]);
      NextPair(equity, times, k);
      JoinPair(added0, PairsOf(equity, times[..k]), (p, times[k]));
      var aUb1, added1, isNew := AddPair(prob, aUb, added, p, times[k]);
      GrownTwice(prob, aUb0, added0, aUb, added, newCount, aUb1, added1, if isNew then 1 else 0);
      aUb, added := aUb1, added1;
      if isNew {
        newCount := newCount + 1;
      }
    }
    assert times[..|times|] == times;
  }

  lemma JoinPair<T>(a: set<T>, b: set<T>, x: T)
    ensures (a + b) + {x} == a + (b + {x})
  {
  }

  /** `a_ub.append(alpha * matrix[p] - matrix[t])` and `added.add((p, t))`. */
  method ForbidPair(prob: Problem, aUb0: seq<seq<real>>, added0: set<(nat, nat)>, p: nat, t: nat)
      returns (aUb: seq<seq<real>>, added: set<(nat, nat)>)
    requires WellFormed(prob) && CutsMatch(prob, aUb0, added0) && p <= t < |prob.matrix| && (p, t) !in added0
    ensures Relaxation(aUb, added) == Forbid(prob, Relaxation(aUb0, added0), p, t)
    ensures Grown(prob, aUb0, added0, aUb, added, 1)
  {
    AddCut(prob, aUb0, added0, p, t);
    aUb, added := aUb0 + [CutRow(prob, Alpha(prob.ddLimit), p, t)], added0 + {(p, t)};
  }

  /** Forbid one pair unless it is forbidden already. */
  method AddPair(prob: Problem, aUb0: seq<seq<real>>, added0: set<(nat, nat)>, p: nat, t: nat)
      returns (aUb: seq<seq<real>>, added: set<(nat, nat)>, isNew: bool)
    requires WellFormed(prob) && CutsMatch(prob, aUb0, added0) && p <= t < |prob.matrix|
    ensures added == added0 + {(p, t)} && (isNew <==> (p, t) !in added0)
    ensures Grown(prob, aUb0, added0, aUb, added, if isNew then 1 else 0)
  {
    aUb, added, isNew := aUb0, added0, (p, t) !in added0;
    if isNew {
      aUb, added := ForbidPair(prob, aUb0, added0, p, t);
    } else {
      assert added0 + {(p, t)} == added0;
    }
  }

  /** The first time of the highest equity up to t. */
  ghost function PeakIndex(equity: seq<real>, t: nat): (p: nat)
    requires t < |equity|
    ensures p <= t
  {
    if t == 0 then 0
    else
      var p := PeakIndex(equity, t - 1);
      if equity[t] > equity[p] then t else p
  }

  lemma {:induction false} PeakIndexIsFirst(equity: seq<real>, t: nat)
    requires t < |equity|
    ensures forall i :: 0 <= i <= t ==> equity[i] <= equity[PeakIndex(equity, t)]
    ensures forall i :: 0 <= i < PeakIndex(equity, t) ==> equity[i] < equity[PeakIndex(equity, t)]
  {
    if t > 0 {
      PeakIndexIsFirst(equity, t - 1);
    }
  }

  /** The pairs of the given times with their peaks. */
  ghost function PairsOf(equity: seq<real>, times: seq<nat>): set<(nat, nat)> {
    if times == [] then {}
    else
      var t := Last(times);
      PairsOf(equity, Init(times)) + if t < |equity| then {(PeakIndex(equity, t), t)} else {}
  }

  lemma NextPair(equity: seq<real>, times: seq<nat>, k: nat)
    requires k < |times| && times[k] < |equity|
    ensures PairsOf(equity, times[..k + 1]) == PairsOf(equity, times[..k]) + {(PeakIndex(equity, times[k]), times[k])}
  {
    assert Init(times[..k + 1]) == times[..k];
  }

  method PeakOf(equity: seq<real>, t: nat) returns (p: nat)
    requires t < |equity|
    ensures p == PeakIndex(equity, t)
  {
    var head := equity[..t + 1];
    p := ArgMax(head);
    ghost var q := PeakIndex(equity, t);
    PeakIndexIsFirst(equity, t);
    assert head[q] == equity[q] && head[p] == equity[p];
    assert !(p < q) && !(q < p);
  }

  /** When the check passes, the relaxed optimum is admissible and no admissible portfolio beats it. */
  lemma RelaxedOptimumIsOptimal(prob: Problem, gap: real, aUb: seq<seq<real>>, added: set<(nat, nat)>, w: seq<real>)
    requires WellFormed(prob) && CutsMatch(prob, aUb, added) && GapOptimal(prob, gap, aUb, w)
    ensures prob.ddLimit <= 100.0 ==> GapOptimalWithinLimit(prob, gap, w)
  {
    if prob.ddLimit <= 100.0 {
      forall v | BaseFeasible(prob, v) && DrawdownWithin(Equity(prob, v), prob.ddLimit)
        ensures FinalEquity(prob, v) <= FinalEquity(prob, w) + gap * Abs(FinalEquity(prob, w))
      {
        LimitSatisfiesCuts(prob, aUb, added, v);
      }
    }
  }

  /** No weights that meet the base constraints and the drawdown limit end more than the gap above `w`. */
  ghost predicate GapOptimalWithinLimit(prob: Problem, gap: real, w: seq<real>)
    requires WellFormed(prob) && |w| == |prob.symbols|
  {
    forall v :: BaseFeasible(prob, v) && DrawdownWithin(Equity(prob, v), prob.ddLimit) ==>
      FinalEquity(prob, v) <= FinalEquity(prob, w) + gap * Abs(FinalEquity(prob, w))
  }

  /** The number of peak/trough pairs over the time points of the problem. */
  ghost function PairBound(prob: Problem): (bound: nat)
    ensures 2 * bound == |prob.matrix| * (|prob.matrix| + 1)
  {
    PairsSize(|prob.matrix|);
    |Pairs(|prob.matrix|)|
  }

  lemma NothingAdded(prob: Problem)
    requires WellFormed(prob)
    ensures CutsMatch(prob, [], {})
  {
  }

  lemma AddedWithinBound(prob: Problem, aUb: seq<seq<real>>, added: set<(nat, nat)>)
    requires WellFormed(prob) && CutsMatch(prob, aUb, added)
    ensures |added| <= PairBound(prob)
  {
    SubsetSize(added, Pairs(|prob.matrix|));
  }

  /** The worst drawdown speaks for all of them. */
  lemma WorstDecides(equity: seq<real>, peaks: seq<real>, drawdowns: seq<real>, worst: nat, limit: real)
    requires |peaks| == |drawdowns| == |equity| && worst < |drawdowns|
    requires forall t :: 0 <= t < |equity| ==>
               peaks[t] == Peak(equity, t) && peaks[t] > 0.0 && drawdowns[t] == Loss(peaks[t], equity[t])
    requires forall t :: 0 <= t < |drawdowns| ==> drawdowns[t] <= drawdowns[worst]
    requires drawdowns[worst] * 100.0 <= limit
    ensures DrawdownWithin(equity, limit)
  {
    forall t | 0 <= t < |equity|
      ensures Peak(equity, t) > 0.0 && LossPct(Peak(equity, t), equity[t]) <= limit
    {
      assert drawdowns[t] <= drawdowns[worst];
    }
  }

  // ---------------------------------------------------------------- runs of the loop

  /** Rows and keys at the head of one iteration. */
  datatype Relaxation = Relaxation(aUb: seq<seq<real>>, added: set<(nat, nat)>)

  const NOTHING_FORBIDDEN := Relaxation([], {})

  /** The first time of the largest loss, which lies over the limit. */
  ghost predicate Violates(prob: Problem, e: seq<real>, t: nat) {
    FirstMax(Drawdowns(e), t) && Drawdowns(e)[t] * 100.0 > prob.ddLimit + TOLERANCE
  }

  function Forbid(prob: Problem, before: Relaxation, p: nat, t: nat): Relaxation
    requires WellFormed(prob) && p < |prob.matrix| && t < |prob.matrix|
  {
    Relaxation(before.aUb + [CutRow(prob, Alpha(prob.ddLimit), p, t)], before.added + {(p, t)})
  }

  /** Some of the pairs of the worst times are fresh, and those are forbidden. */
  ghost predicate FallsBack(prob: Problem, e: seq<real>, before: Relaxation, after: Relaxation)
    requires WellFormed(prob)
  {
    && |after.aUb| > |before.aUb|
    && Grown(prob, before.aUb, before.added, after.aUb, after.added, |after.aUb| - |before.aUb|)
    && exists worst ::
         AreWorst(Drawdowns(e), prob.ddLimit / 100.0 + TOLERANCE, worst) &&
         after.added == before.added + PairsOf(e, worst)
  }

  /** The worst pair and all pairs of the worst times are forbidden already. */
  ghost predicate Repeats(prob: Problem, e: seq<real>, before: Relaxation) {
    exists t: nat, worst ::
      Violates(prob, e, t) && (PeakIndex(e, t), t) in before.added &&
      AreWorst(Drawdowns(e), prob.ddLimit / 100.0 + TOLERANCE, worst) && PairsOf(e, worst) <= before.added
  }

  /** One iteration that does not stop, at the curve `e` of the solver's answer. */
  ghost predicate Advances(prob: Problem, e: seq<real>, before: Relaxation, after: Relaxation)
    requires WellFormed(prob) && |e| == |prob.matrix|
  {
    exists t: nat :: AdvancesAt(prob, e, before, after, t)
  }

  ghost predicate AdvancesAt(prob: Problem, e: seq<real>, before: Relaxation, after: Relaxation, t: nat)
    requires WellFormed(prob) && |e| == |prob.matrix|
  {
    && Violates(prob, e, t)
    && if (PeakIndex(e, t), t) in before.added then FallsBack(prob, e, before, after)
       else after == Forbid(prob, before, PeakIndex(e, t), t)
  }

  ghost predicate Continues(prob: Problem, solve: Solver, before: Relaxation, after: Relaxation)
    requires WellFormed(prob)
  {
    var solution := solve(before.aUb);
    && solution.Solved? && |solution.weights| == |prob.symbols|
    && Advances(prob, Equity(prob, solution.weights), before, after)
  }

  /** The relaxations the loop goes through with this solver. */
  ghost predicate RunOf(prob: Problem, solve: Solver, run: seq<Relaxation>)
    requires WellFormed(prob)
  {
    && run != []
    && if |run| == 1 then run[0] == NOTHING_FORBIDDEN
       else RunOf(prob, solve, Init(run)) && Continues(prob, solve, Last(Init(run)), Last(run))
  }

  lemma RunGoesOn(prob: Problem, solve: Solver, run: seq<Relaxation>, next: Relaxation)
    requires WellFormed(prob) && RunOf(prob, solve, run) && Continues(prob, solve, Last(run), next)
    ensures RunOf(prob, solve, run + [next])
  {
    assert Init(run + [next]) == run;
  }

  /** What the solver said last, and why the loop ended there. */
  ghost predicate EndsWith(prob: Problem, solve: Solver, run: seq<Relaxation>, maxIterations: nat, r: Outcome)
    requires WellFormed(prob) && run != []
  {
    match r
    case Found(weights, iterations, constraints) =>
      solve(Last(run).aUb) == Solved(weights) && |run| == iterations + 1 && |Last(run).aUb| == constraints
    case SolverFailure(message) =>
      solve(Last(run).aUb) == Unsolved(message) && |run| <= maxIterations
    case RepeatedConstraint =>
      var solution := solve(Last(run).aUb);
      && solution.Solved? && |solution.weights| == |prob.symbols| && |run| <= maxIterations
      && Repeats(prob, Equity(prob, solution.weights), Last(run))
    case IterationLimit =>
      |run| == maxIterations + 1
  }

  /** The last part of an iteration: forbid the worst pair, or, when it is forbidden already, those of the worst
      times. */
  method Tighten(prob: Problem, equity: seq<real>, drawdowns: seq<real>, worstIndex: nat,
                 aUb0: seq<seq<real>>, added0: set<(nat, nat)>)
      returns (aUb: seq<seq<real>>, added: set<(nat, nat)>, repeated: bool)
    requires WellFormed(prob) && CutsMatch(prob, aUb0, added0) && |equity| == |prob.matrix|
    requires drawdowns == Drawdowns(equity) && Violates(prob, equity, worstIndex)
    ensures repeated ==> Repeats(prob, equity, Relaxation(aUb0, added0))
    ensures !repeated ==> Advances(prob, equity, Relaxation(aUb0, added0), Relaxation(aUb, added))
    ensures !repeated ==> CutsMatch(prob, aUb, added) && |added| > |added0|
    ensures (PeakIndex(equity, worstIndex), worstIndex) !in added0 ==> !repeated && |aUb| == |aUb0| + 1
  {
    var peakIndex := PeakOf(equity, worstIndex);
    if (peakIndex, worstIndex) in added0 {
      var newCount;
      ghost var worst;
      aUb, added, newCount, worst := AddWorst(prob, equity, drawdowns, aUb0, added0);
      repeated := newCount == 0;
      assert !repeated ==> FallsBack(prob, equity, Relaxation(aUb0, added0), Relaxation(aUb, added));
    } else {
      aUb, added := ForbidPair(prob, aUb0, added0, peakIndex, worstIndex);
      repeated := false;
    }
    assert !repeated ==> AdvancesAt(prob, equity, Relaxation(aUb0, added0), Relaxation(aUb, added), worstIndex);
  }

  /** At weights that satisfy their cuts the worst pair is never forbidden already. */
  lemma WorstPairIsFresh(prob: Problem, aUb: seq<seq<real>>, added: set<(nat, nat)>, w: seq<real>, t: nat)
    requires WellFormed(prob) && CutsMatch(prob, aUb, added) && BaseFeasible(prob, w) && Satisfies(prob, aUb, w)
    requires Violates(prob, Equity(prob, w), t)
    ensures (PeakIndex(Equity(prob, w), t), t) !in added
  {
    var e := Equity(prob, w);
    var p := PeakIndex(e, t);
    PeakIndexIsFirst(e, t);
    PeakIsMaximum(e, p, t);
    PeakPositive(prob, w, t);
    ViolatedPairIsFresh(prob, aUb, added, w, p, t);
  }

  /** The cutting-plane loop with its iteration cap as a parameter (3000 in the source).

      - a found answer meets the limit at every time, up to the tolerance;
      - it is as good, up to the solver's gap, as every admissible portfolio;
      - each iteration that does not stop adds a fresh pair, so the loop never runs past the T(T+1)/2 pairs there are,
        and the cap is only ever hit when it is not larger than that;
      - with a solver that satisfies its own constraints the repeated-constraint failure is impossible and each
        iteration adds exactly one cut. */
  method SolveCase(prob: Problem, solve: Solver, ghost gap: real, maxIterations: nat)
      returns (r: Outcome, ghost run: seq<Relaxation>)
    requires WellFormed(prob)
    requires SoundSolver(prob, gap, solve)
    ensures RunOf(prob, solve, run) && EndsWith(prob, solve, run, maxIterations, r)
    ensures r.Found? ==> BaseFeasible(prob, r.weights)
    ensures r.Found? && prob.minSymbols > 1 ==> Capped(prob, r.weights)
    ensures r.Found? ==> DrawdownWithin(Equity(prob, r.weights), prob.ddLimit + 0.00000001)
    ensures r.Found? && prob.ddLimit <= 100.0 ==> GapOptimalWithinLimit(prob, gap, r.weights)
    ensures r.Found? ==> r.iterations < maxIterations && r.iterations <= PairBound(prob)
    ensures r.IterationLimit? ==> maxIterations <= PairBound(prob)
    ensures ExactSolver(prob, solve) ==> !r.RepeatedConstraint?
    ensures r.Found? && ExactSolver(prob, solve) ==> r.constraints == r.iterations
  {
    var aUb: seq<seq<real>> := [];
    var added: set<(nat, nat)> := {};
    run := [NOTHING_FORBIDDEN];
    NothingAdded(prob);
    for iteration := 0 to maxIterations
      invariant CutsMatch(prob, aUb, added)
      invariant RunOf(prob, solve, run) && |run| == iteration + 1 && Last(run) == Relaxation(aUb, added)
      invariant iteration <= |added|
      invariant ExactSolver(prob, solve) ==> |aUb| == iteration
    {
      AddedWithinBound(prob, aUb, added);
      var solution := solve(aUb);
      if solution.Unsolved? {
        return SolverFailure(solution.message), run;
      }
      var weights := solution.weights;
      assert GapOptimal(prob, gap, aUb, weights);
      var equity, peaks, drawdowns := Curves(prob, weights);
      var worstIndex := ArgMax(drawdowns);
      if drawdowns[worstIndex] * 100.0 <= prob.ddLimit + TOLERANCE {
        RelaxedOptimumIsOptimal(prob, gap, aUb, added, weights);
        WorstDecides(equity, peaks, drawdowns, worstIndex, prob.ddLimit + TOLERANCE);
        if prob.minSymbols > 1 {
          FeasibleIsCapped(prob, weights);
        }
        return Found(weights, iteration, |aUb|), run;
      }
      if ExactSolver(prob, solve) {
        WorstPairIsFresh(prob, aUb, added, weights, worstIndex);
      }
      var wider, widerAdded, repeated := Tighten(prob, equity, drawdowns, worstIndex, aUb, added);
      if repeated {
        return RepeatedConstraint, run;
      }
      aUb, added := wider, widerAdded;
      RunGoesOn(prob, solve, run, Relaxation(aUb, added));
      run := run + [Relaxation(aUb, added)];
    }
    AddedWithinBound(prob, aUb, added);
    return IterationLimit, run;
  }
}
