/** What the indicators of apps/backtest-engine/src/indicators.rs compute, by laws that do not mention how: sliding
    means, the weight of a new value, ranges as spans, and strength as the balance of gains and losses. */
module IndicatorLaws {
  import opened Common
  import opened Indicators

  // ---------------------------------------------------------------- averages

  lemma OverTimes(x: real, count: nat)
    requires count > 0
    ensures Over(x, count) * count as real == x
  {
  }

  lemma OverAdds(x: real, y: real, count: nat)
    requires count > 0
    ensures Over(x, count) + Over(y, count) == Over(x + y, count)
    ensures Over(x, count) - Over(y, count) == Over(x - y, count)
  {
  }

  lemma {:induction false} SumSplits(a: seq<real>, b: seq<real>)
    ensures Sum(a + b) == Sum(a) + Sum(b)
  {
    if b == [] {
      assert a + b == a;
    } else {
      SumSplits(a, Init(b));
      assert (a + b)[..|a + b| - 1] == a + Init(b);
    }
  }

  lemma SumSlides(all: seq<real>)
    requires |all| >= 2
    ensures Sum(all[1..]) - Sum(Init(all)) == Last(all) - all[0]
  {
    var middle := all[1..|all| - 1];
    SumSplits([all[0]], middle);
    SumSplits(middle, [Last(all)]);
    assert [all[0]] + middle == Init(all) && middle + [Last(all)] == all[1..];
    assert Sum([all[0]]) == all[0] && Sum([Last(all)]) == Last(all);
  }

  /** The simple average slides: the new value comes in, the one `period` before it goes out. */
  lemma SmaSlides(history: seq<Num>, period: nat)
    requires 0 < period < |history| && SmaOf(history, period).Some? && SmaOf(Init(history), period).Some?
    ensures var out := history[|history| - 1 - period];
      && out.Fin? && Last(history).Fin?
      && (SmaOf(history, period).value - SmaOf(Init(history), period).value) * period as real == Last(history).v - out.v
  {
    var all := history[|history| - 1 - period..];
    var now, before := Window(history, period), Window(Init(history), period);
    assert now == all[1..] && before == Init(all);
    assert forall i :: 0 <= i < |all| ==> all[i] == if i < period then before[i] else now[i - 1];
    assert AllFinite(all);
    var reals := RealsOf(all);
    assert RealsOf(now) == reals[1..] && RealsOf(before) == Init(reals);
    SumSlides(reals);
    OverAdds(Sum(reals[1..]), Sum(Init(reals)), period);
    OverTimes(Sum(reals[1..]) - Sum(Init(reals)), period);
  }

  /** The simple average of equal values is that value. */
  lemma SmaOfSame(history: seq<Num>, period: nat, x: real)
    requires 0 < period <= |history| && forall i :: |history| - period <= i < |history| ==> history[i] == Fin(x)
    ensures SmaOf(history, period) == Some(x)
  {
    var w := Window(history, period);
    assert forall i :: 0 <= i < |w| ==> w[i] == history[|history| - period + i];
    AverageBetween(RealsOf(w), x, x);
  }

  /** The exponential average starts as the simple one. */
  lemma EmaStarts(history: seq<Num>, period: nat)
    requires period > 0 && history != [] && EmaOf(history, period).Some? && EmaOf(Init(history), period).None?
    ensures EmaOf(history, period) == SmaOf(history, period)
  {
  }

  /** From e to `next` it goes 2 / (period + 1) of the way to x. */
  predicate GoesTo(e: real, next: real, x: real, period: nat) {
    (next - e) * (period + 1) as real == 2.0 * (x - e)
  }

  lemma EmaUpdateMoves(previous: real, value: real, period: nat)
    ensures GoesTo(previous, EmaUpdate(previous, value, period), value, period)
  {
    var n, d := period as real + 1.0, value - previous;
    var weight := 2.0 / n;
    assert weight * n == 2.0;
    assert (d * weight) * n == d * (weight * n);
    assert (period + 1) as real == n;
  }

  lemma EmaNext(history: seq<Num>, period: nat, e: real)
    requires period > 0 && history != [] && EmaOf(Init(history), period) == Some(e) && Last(history).Fin?
    ensures EmaOf(history, period) == Some(EmaUpdate(e, Last(history).v, period))
  {
  }

  /** And then each value moves it by 2 / (period + 1) of the way. */
  lemma EmaMoves(history: seq<Num>, period: nat, e: real) returns (next: real)
    requires period > 0 && history != [] && EmaOf(Init(history), period) == Some(e) && Last(history).Fin?
    ensures EmaOf(history, period) == Some(next) && GoesTo(e, next, Last(history).v, period)
  {
    next := EmaUpdate(e, Last(history).v, period);
    EmaNext(history, period, e);
    EmaUpdateMoves(e, Last(history).v, period);
  }

  // ---------------------------------------------------------------- Wilder's average

  /** Wilder's average: the mean of the first `period` values, then each new one with weight 1 / period. */
  function WilderMean(values: seq<real>, period: nat): real
    requires 0 < period <= |values|
  {
    if |values| == period then Average(values) else Smoothed(WilderMean(Init(values), period), Last(values), period)
  }

  /** A new value moves it by 1 / period of the way. */
  lemma SmoothedMoves(previous: real, value: real, period: nat)
    requires period > 0
    ensures (Smoothed(previous, value, period) - previous) * period as real == value - previous
  {
    var n := period as real;
    OverTimes(previous * (period - 1) as real + value, period);
    assert previous * (period - 1) as real == previous * n - previous;
  }

  lemma SmoothedSame(x: real, period: nat)
    requires period > 0
    ensures Smoothed(x, x, period) == x
  {
    SmoothedMoves(x, x, period);
  }

  lemma {:induction false} MeanOfSame(values: seq<real>, period: nat, x: real)
    requires 0 < period <= |values| && forall i :: 0 <= i < |values| ==> values[i] == x
    ensures WilderMean(values, period) == x
  {
    if |values| == period {
      AverageBetween(values, x, x);
    } else {
      MeanOfSame(Init(values), period, x);
      SmoothedSame(x, period);
    }
  }

  // ---------------------------------------------------------------- ranges

  /** The true range is how far the candle and the close before it reach together. */
  lemma TrueRangeIsSpan(c: Candle, close: real)
    requires ValidCandle(c)
    ensures TrueRange(c, Some(close)) == Max(c.high.v, close) - Min(c.low.v, close)
    ensures TrueRange(c, None) == c.high.v - c.low.v
  {
  }

  /** The spans of the valid candles in a row that end a history. */
  function Spans(history: seq<Candle>): seq<real> {
    if history == [] || !ValidCandle(Last(history)) then []
    else
      var c, before := Last(history), Init(history);
      Spans(before) + [if before != [] && ValidCandle(Last(before))
                       then Max(c.high.v, Last(before).close.v) - Min(c.low.v, Last(before).close.v)
                       else c.high.v - c.low.v]
  }

  ghost predicate AtrHolds(s: AtrState, history: seq<Candle>, period: nat)
    requires period > 0
  {
    var spans := Spans(history);
    && s.previous == (if history != [] && ValidCandle(Last(history)) then Some(Last(history).close.v) else None)
    && (|spans| < period ==> s.current == None && s.warmup == spans)
    && (|spans| >= period ==> s.current == Some(WilderMean(spans, period)))
  }

  lemma AtrStepHolds(s: AtrState, history: seq<Candle>, period: nat)
    requires period > 0 && history != [] && AtrHolds(s, Init(history), period)
    ensures AtrHolds(AtrStep(s, Last(history), period), history, period)
  {
    var c := Last(history);
    if ValidCandle(c) {
      if s.previous.Some? {
        TrueRangeIsSpan(c, s.previous.value);
      }
      var spans := Spans(history);
      assert Init(spans) == Spans(Init(history)) && Last(spans) == TrueRange(c, s.previous);
      assert spans == Init(spans) + [Last(spans)];
    }
  }

  lemma {:induction false} AtrStateHolds(history: seq<Candle>, period: nat)
    requires period > 0
    ensures AtrHolds(AtrAfter(history, period), history, period)
  {
    if history != [] {
      AtrStateHolds(Init(history), period);
      AtrStepHolds(AtrAfter(Init(history), period), history, period);
    }
  }

  /** The average true range is Wilder's average of the spans since the last invalid candle. */
  lemma AtrIsAverage(history: seq<Candle>, period: nat)
    requires period > 0
    ensures AtrOf(history, period) ==
      if |Spans(history)| >= period then Some(WilderMean(Spans(history), period)) else None
  {
    AtrStateHolds(history, period);
  }

  // ---------------------------------------------------------------- strength

  /** How far a list of closes travels in all, up and down. */
  function Travel(closes: seq<real>): real {
    if |closes| < 2 then 0.0 else Travel(Init(closes)) + Abs(Last(closes) - Last(Init(closes)))
  }

  /** Gains less losses are the way from the first to the last close; together they are the whole travel. */
  lemma {:induction false} GainsAndLosses(closes: seq<real>)
    requires closes != []
    ensures GainSum(closes) - LossSum(closes) == Last(closes) - closes[0]
    ensures GainSum(closes) + LossSum(closes) == Travel(closes)
  {
    if |closes| >= 2 {
      GainsAndLosses(Init(closes));
    }
  }

  /** The first averages: what the closes of the window gained and lost, per step. */
  lemma FirstStrength(window: seq<Num>, period: nat, s: Strength)
    requires 0 < period && |window| == period + 1 && RsiStep(window, period, None) == Some(s)
    ensures AllFinite(window)
    ensures var closes := RealsOf(window);
      && (s.gain - s.loss) * period as real == Last(closes) - closes[0]
      && (s.gain + s.loss) * period as real == Travel(closes)
  {
    SeedIs(window, period, s);
    var closes := RealsOf(window);
    GainsAndLosses(closes);
    MeansTimes(GainSum(closes), LossSum(closes), s, period, Last(closes) - closes[0], Travel(closes));
  }

  lemma SeedIs(window: seq<Num>, period: nat, s: Strength)
    requires 0 < period && |window| == period + 1 && RsiStep(window, period, None) == Some(s)
    ensures AllFinite(window)
    ensures s.gain == Over(GainSum(RealsOf(window)), period) && s.loss == Over(LossSum(RealsOf(window)), period)
  {
  }

  lemma MeansTimes(gains: real, losses: real, s: Strength, period: nat, difference: real, total: real)
    requires 0 < period && s.gain == Over(gains, period) && s.loss == Over(losses, period)
    requires gains - losses == difference && gains + losses == total
    ensures (s.gain - s.loss) * period as real == difference && (s.gain + s.loss) * period as real == total
  {
    OverAdds(gains, losses, period);
    OverTimes(gains - losses, period);
    OverTimes(gains + losses, period);
  }

  /** Later ones: each step moves both by 1 / period of the way to what it gained and lost. */
  lemma StrengthMoves(window: seq<Num>, period: nat, before: Strength, s: Strength)
    requires 0 < period && |window| == period + 1 && RsiStep(window, period, Some(before)) == Some(s)
    ensures window[period].Fin? && window[period - 1].Fin?
    ensures var d := window[period].v - window[period - 1].v;
      && (s.gain - before.gain) * period as real == (if d > 0.0 then d else 0.0) - before.gain
      && (s.loss - before.loss) * period as real == (if d < 0.0 then -d else 0.0) - before.loss
  {
    var d := window[period].v - window[period - 1].v;
    SmoothedMoves(before.gain, Max(d, 0.0), period);
    SmoothedMoves(before.loss, Max(-d, 0.0), period);
  }

  /** The index is the share of the gains in all that moved, in percent, and 50 when nothing did. */
  lemma RsiIsShare(s: Strength)
    ensures RsiOf(Some(s)).Some?
    ensures s.gain + s.loss == 0.0 ==> RsiOf(Some(s)).value == 50.0
    ensures RsiOf(Some(s)).value * (s.gain + s.loss) == 100.0 * s.gain
  {
    ShareOf(s.gain, s.loss);
  }

  lemma ShareOf(gain: NonNeg, loss: NonNeg)
    ensures RsiValue(gain, loss) * (gain + loss) == 100.0 * gain
  {
    if loss > 0.0 {
      if gain > 0.0 {
        Complement(gain, loss);
        var p := 100.0 / (1.0 + gain / loss);
        assert (100.0 - p) * (gain + loss) == 100.0 * (gain + loss) - p * (gain + loss);
      } else {
        assert 100.0 / (1.0 + 0.0 / loss) == 100.0;
      }
    }
  }

  // ---------------------------------------------------------------- variance

  function Squares(values: seq<real>): real {
    if values == [] then 0.0 else Squares(Init(values)) + Last(values) * Last(values)
  }

  function Expanded(squares: real, sum: real, n: real, m: real): real {
    squares - 2.0 * m * sum + n * (m * m)
  }

  lemma {:induction false} DeviationsExpand(values: seq<real>, m: real)
    ensures SquaredDeviations(values, m) == Expanded(Squares(values), Sum(values), |values| as real, m)
  {
    if values != [] {
      var front, x, n := Init(values), Last(values), (|values| - 1) as real;
      DeviationsExpand(front, m);
      DeviationsGrow(values, m);
      ExpandStep(Squares(front), Sum(front), n, m, x);
      assert |values| as real == n + 1.0;
    }
  }

  lemma DeviationsGrow(values: seq<real>, m: real)
    requires values != []
    ensures SquaredDeviations(values, m) == SquaredDeviations(Init(values), m) + Square(Last(values) - m)
    ensures Squares(values) == Squares(Init(values)) + Square(Last(values))
    ensures Sum(values) == Sum(Init(values)) + Last(values)
  {
  }

  function Square(x: real): real { x * x }

  lemma ExpandStep(squares: real, sum: real, n: real, m: real, x: real)
    ensures Expanded(squares, sum, n, m) + Square(x - m) == Expanded(squares + Square(x), sum + x, n + 1.0, m)
  {
    assert (x - m) * (x - m) == x * x - 2.0 * m * x + m * m;
    assert 2.0 * m * (sum + x) == 2.0 * m * sum + 2.0 * m * x;
    assert (n + 1.0) * (m * m) == n * (m * m) + m * m;
  }

  /** The variance behind a band is the mean of the squares less the square of the mean. */
  lemma VarianceIs(window: seq<Num>)
    requires window != [] && AllFinite(window)
    ensures var values := RealsOf(window);
      var m := Average(values);
      Variance(window, m) * |values| as real == Squares(values) - |values| as real * (m * m)
  {
    var values := RealsOf(window);
    var m, n := Average(values), |values| as real;
    DeviationsExpand(values, m);
    OverTimes(SquaredDeviations(values, m), |values|);
    OverTimes(Sum(values), |values|);
    MeanSquares(Squares(values), Sum(values), n, m);
  }

  lemma MeanSquares(squares: real, sum: real, n: real, m: real)
    requires m * n == sum
    ensures Expanded(squares, sum, n, m) == squares - n * (m * m)
  {
    assert m * sum == n * (m * m);
  }
}
