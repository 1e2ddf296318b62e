/** Technical indicators of apps/backtest-engine/src/indicators.rs over exact reals; an input may also be one of the
    values that `is_finite` rejects.

    Every indicator is given by what its loop holds after n inputs, the loops are proved to produce it, and each is
    proved causal: what it says about a prefix does not change when more data arrive. */
module Indicators {
  import opened Common

  datatype Candle = Candle(high: Num, low: Num, close: Num)

  predicate AllFinite(values: seq<Num>) {
    forall i :: 0 <= i < |values| ==> values[i].Fin?
  }

  /** The history that ends with item number i. */
  function Through<T>(items: seq<T>, i: nat): (h: seq<T>)
    requires i < |items|
    ensures |h| == i + 1 && Init(h) == items[..i] && Last(h) == items[i]
  {
    items[..i + 1]
  }

  function Sum(values: seq<real>): real {
    if values == [] then 0.0 else Sum(values[..|values| - 1]) + values[|values| - 1]
  }

  function Average(values: seq<real>): real
    requires values != []
  {
    Over(Sum(values), |values|)
  }

  /** Division by a count. */
  function Over(x: real, count: nat): real
    requires count > 0
  {
    x / count as real
  }

  lemma OverBetween(x: real, count: nat, low: real, high: real)
    requires count > 0 && low * count as real <= x <= high * count as real
    ensures low <= Over(x, count) <= high
  {
    var n := count as real;
    var q := x / n;
    assert q * n == x;
    if q < low {
      assert (low - q) * n > 0.0;
    }
    if q > high {
      assert (q - high) * n > 0.0;
    }
  }

  lemma OverNonNegative(x: real, count: nat)
    requires count > 0 && x >= 0.0
    ensures Over(x, count) >= 0.0
  {
    OverBetween(x, count, 0.0, Top(x, count));
  }

  function Top(x: real, count: nat): (t: real)
    requires count > 0 && x >= 0.0
    ensures t * count as real >= x
  {
    assert x * count as real >= x * 1.0;
    x
  }

  /** Wilder's running average: the newest value has weight 1 / period. */
  function Smoothed(previous: real, value: real, period: nat): real
    requires period > 0
  {
    Over(previous * (period - 1) as real + value, period)
  }

  /** A running average stays between bounds that hold of the values. */
  lemma SmoothedBetween(previous: real, value: real, period: nat, high: real)
    requires period > 0 && 0.0 <= previous <= high && 0.0 <= value <= high
    ensures 0.0 <= Smoothed(previous, value, period) <= high
  {
    var w := (period - 1) as real;
    assert w >= 0.0 && period as real == w + 1.0;
    assert 0.0 <= previous * w <= high * w;
    assert high * period as real == high * w + high;
    OverBetween(previous * w + value, period, 0.0, high);
  }

  lemma SmoothedNonNegative(previous: real, value: real, period: nat)
    requires period > 0 && previous >= 0.0 && value >= 0.0
    ensures Smoothed(previous, value, period) >= 0.0
  {
    SmoothedBetween(previous, value, period, Max(previous, value));
  }

  lemma {:induction false} SumBetween(values: seq<real>, low: real, high: real)
    requires forall j :: 0 <= j < |values| ==> low <= values[j] <= high
    ensures low * |values| as real <= Sum(values) <= high * |values| as real
  {
    if values != [] {
      var n := |values| - 1;
      SumBetween(values[..n], low, high);
      assert low <= values[n] <= high;
      assert low * |values| as real == low * n as real + low && high * |values| as real == high * n as real + high;
    }
  }

  lemma AverageBetween(values: seq<real>, low: real, high: real)
    requires values != [] && forall j :: 0 <= j < |values| ==> low <= values[j] <= high
    ensures low <= Average(values) <= high
  {
    SumBetween(values, low, high);
    OverBetween(Sum(values), |values|, low, high);
  }

  type NonNeg = x: real | 0.0 <= x witness 0.0

  function SmoothedPart(previous: NonNeg, value: NonNeg, period: nat): NonNeg
    requires period > 0
  {
    SmoothedNonNegative(previous, value, period);
    Smoothed(previous, value, period)
  }

  function MeanPart(total: NonNeg, count: nat): NonNeg
    requires count > 0
  {
    OverNonNegative(total, count);
    Over(total, count)
  }

  function RealsOf(values: seq<Num>): (r: seq<real>)
    requires AllFinite(values)
    ensures |r| == |values|
  {
    seq(|values|, i requires 0 <= i < |values| => values[i].v)
  }

  /** `finite_average`. */
  function FiniteAverage(values: seq<Num>): Option<real> {
    if values == [] || !AllFinite(values) then None else Some(Average(RealsOf(values)))
  }

  /** The last `period` of a history. */
  function Window(history: seq<Num>, period: nat): (w: seq<Num>)
    requires 0 < period <= |history|
    ensures |w| == period
  {
    history[|history| - period..]
  }

  /** A slice ending at `index` is the window of the history up to there. */
  lemma SliceIsWindow(values: seq<Num>, period: nat, index: nat)
    requires index < |values| && 0 < period <= index + 1
    ensures values[index + 1 - period..index + 1] == Window(Through(values, index), period)
  {
  }

  /** The indicator of every history that ends within the input; nothing at all if the input is too short. */
  function Outputs<T>(values: seq<T>, enough: bool, of: seq<T> -> Option<real>): (r: seq<Option<real>>)
    ensures |r| == |values|
    ensures forall i :: 0 <= i < |values| ==> r[i] == if enough then of(Through(values, i)) else None
  {
    seq(|values|, i requires 0 <= i < |values| => if enough then of(Through(values, i)) else None)
  }

  /** Returning early on short inputs changes nothing if short histories have no value anyway. */
  lemma OutputsCausal<T>(values: seq<T>, m: nat, enough: bool, enoughBefore: bool, of: seq<T> -> Option<real>)
    requires m <= |values| && (enoughBefore ==> enough)
    requires !enoughBefore ==> forall i :: 0 <= i < m ==> of(Through(values, i)) == None
    ensures Outputs(values[..m], enoughBefore, of) == Outputs(values, enough, of)[..m]
  {
    forall i | 0 <= i < m
      ensures Outputs(values[..m], enoughBefore, of)[i] == Outputs(values, enough, of)[i]
    {
      assert Through(values[..m], i) == Through(values, i);
    }
  }

  // ---------------------------------------------------------------- simple moving average

  function SmaOf(history: seq<Num>, period: nat): Option<real> {
    if 0 < period <= |history| then FiniteAverage(Window(history, period)) else None
  }

  function Sma(values: seq<Num>, period: nat): (r: seq<Option<real>>) {
    Outputs(values, |values| >= period, history => SmaOf(history, period))
  }

  lemma SmaCausal(values: seq<Num>, period: nat, m: nat)
    requires m <= |values|
    ensures Sma(values[..m], period) == Sma(values, period)[..m]
  {
    OutputsCausal(values, m, |values| >= period, m >= period, history => SmaOf(history, period));
  }

  method ComputeSma(values: seq<Num>, period: nat) returns (result: seq<Option<real>>)
    ensures result == Sma(values, period)
  {
    result := seq(|values|, _ => None);
    if period == 0 || |values| < period {
      return;
    }
    for index := period - 1 to |values|
      invariant |result| == |values|
      invariant forall i :: 0 <= i < index ==> result[i] == SmaOf(Through(values, i), period)
      invariant forall i :: index <= i < |values| ==> result[i] == None
    {
      SliceIsWindow(values, period, index);
      result := result[index := FiniteAverage(values[index + 1 - period..index + 1])];
    }
  }

  // ---------------------------------------------------------------- exponential moving average

  function EmaUpdate(previous: real, value: real, period: nat): real {
    (value - previous) * (2.0 / (period as real + 1.0)) + previous
  }

  /** The running average after a history. */
  function EmaOf(history: seq<Num>, period: nat): Option<real>
    requires period > 0
  {
    if history == [] || !Last(history).Fin? then None
    else
      match EmaOf(Init(history), period)
      case Some(previous) => Some(EmaUpdate(previous, Last(history).v, period))
      case None => if |history| >= period then FiniteAverage(Window(history, period)) else None
  }

  function Ema(values: seq<Num>, period: nat): (r: seq<Option<real>>) {
    Outputs(values, period > 0 && |values| >= period, history => if period > 0 then EmaOf(history, period) else None)
  }

  lemma {:induction false} EmaNeedsPeriod(history: seq<Num>, period: nat)
    requires |history| < period
    ensures EmaOf(history, period) == None
  {
    if history != [] {
      EmaNeedsPeriod(Init(history), period);
    }
  }

  lemma EmaCausal(values: seq<Num>, period: nat, m: nat)
    requires m <= |values|
    ensures Ema(values[..m], period) == Ema(values, period)[..m]
  {
    if m < period {
      forall i | 0 <= i < m
        ensures EmaOf(Through(values, i), period) == None
      {
        EmaNeedsPeriod(Through(values, i), period);
      }
    }
    OutputsCausal(values, m, period > 0 && |values| >= period, period > 0 && m >= period,
                  history => if period > 0 then EmaOf(history, period) else None);
  }

  /** A value is produced exactly when the last `period` inputs are finite. */
  lemma {:induction false} EmaReady(history: seq<Num>, period: nat)
    requires 0 < period <= |history|
    ensures EmaOf(history, period).Some? <==> AllFinite(Window(history, period))
  {
    assert Last(history) == Window(history, period)[period - 1];
    if |history| > period {
      EmaReady(Init(history), period);
      WindowSlides(history, period);
    } else {
      EmaNeedsPeriod(Init(history), period);
    }
  }

  lemma WindowSlides(history: seq<Num>, period: nat)
    requires 0 < period < |history|
    ensures AllFinite(Window(Init(history), period)) && Last(history).Fin? ==> AllFinite(Window(history, period))
  {
    var earlier, window := Window(Init(history), period), Window(history, period);
    assert forall j :: 0 <= j < period - 1 ==> window[j] == earlier[j + 1];
  }

  /** The average stays between any bounds of the inputs. */
  lemma {:induction false} EmaBetween(history: seq<Num>, period: nat, low: real, high: real)
    requires period > 0
    requires forall j :: 0 <= j < |history| && history[j].Fin? ==> low <= history[j].v <= high
    ensures var e := EmaOf(history, period); e.Some? ==> low <= e.value <= high
  {
    if history != [] && Last(history).Fin? {
      EmaBetween(Init(history), period, low, high);
      var before := EmaOf(Init(history), period);
      if before.Some? {
        EmaUpdateBetween(before.value, Last(history).v, period, low, high);
      } else if |history| >= period && AllFinite(Window(history, period)) {
        AverageBetween(RealsOf(Window(history, period)), low, high);
      }
    }
  }

  lemma EmaUpdateBetween(previous: real, value: real, period: nat, low: real, high: real)
    requires period > 0 && low <= previous <= high && low <= value <= high
    ensures low <= EmaUpdate(previous, value, period) <= high
  {
    var n := period as real + 1.0;
    var weight := 2.0 / n;
    assert weight * n == 2.0;
    assert 0.0 <= weight <= 1.0;
    PartOf(value - previous, weight);
  }

  lemma PartOf(x: real, weight: real)
    requires 0.0 <= weight <= 1.0
    ensures Min(x, 0.0) <= x * weight <= Max(x, 0.0)
  {
    var rest := 1.0 - weight;
    assert x * rest == x - x * weight;
    if x >= 0.0 {
      assert x * weight >= 0.0;
      assert x * rest >= 0.0;
    } else {
      assert x * weight <= 0.0;
      assert x * rest <= 0.0;
    }
  }

  method ComputeEma(values: seq<Num>, period: nat) returns (result: seq<Option<real>>)
    ensures result == Ema(values, period)
  {
    result := seq(|values|, _ => None);
    if period == 0 || |values| < period {
      return;
    }
    var current: Option<real> := None;
    for index := 0 to |values|
      invariant |result| == |values| && current == EmaOf(values[..index], period)
      invariant forall i :: 0 <= i < index ==> result[i] == EmaOf(Through(values, i), period)
      invariant forall i :: index <= i < |values| ==> result[i] == None
    {
      assert Through(values, index) == values[..index + 1];
      var value := values[index];
      if !value.Fin? {
        current := None;
        continue;
      }
      if current.Some? {
        current := Some(EmaUpdate(current.value, value.v, period));
      } else if index + 1 >= period {
        SliceIsWindow(values, period, index);
        current := FiniteAverage(values[index + 1 - period..index + 1]);
      }
      result := result[index := current];
    }
  }

  // ---------------------------------------------------------------- candles

  predicate ValidCandle(c: Candle) {
    c.high.Fin? && c.low.Fin? && c.close.Fin? && c.high.v >= c.low.v
  }

  /** `true_range` of a valid candle. */
  function TrueRange(c: Candle, previousClose: Option<real>): (r: real)
    requires ValidCandle(c)
    ensures r >= 0.0
  {
    var highLow := c.high.v - c.low.v;
    match previousClose
    case None => Max(highLow, 0.0)
    case Some(close) => Max(Max(Max(highLow, Abs(c.high.v - close)), Abs(c.low.v - close)), 0.0)
  }

  /** How many valid candles in a row end a history: the candles since the last reset. */
  function Streak(history: seq<Candle>): (c: nat)
    ensures c <= |history|
  {
    if history == [] || !ValidCandle(Last(history)) then 0 else Streak(Init(history)) + 1
  }

  // ---------------------------------------------------------------- average true range

  datatype AtrState = AtrState(current: Option<real>, warmup: seq<real>, previous: Option<real>)

  const ATR_START := AtrState(None, [], None)

  function AtrStep(s: AtrState, c: Candle, period: nat): AtrState
    requires period > 0
  {
    if !ValidCandle(c) then ATR_START
    else
      var range := TrueRange(c, s.previous);
      match s.current
      case Some(previous) => AtrState(Some(Smoothed(previous, range, period)), s.warmup, Some(c.close.v))
      case None =>
        var warmup := s.warmup + [range];
        AtrState(if |warmup| == period then Some(Average(warmup)) else None, warmup, Some(c.close.v))
  }

  function AtrAfter(history: seq<Candle>, period: nat): AtrState
    requires period > 0
  {
    if history == [] then ATR_START else AtrStep(AtrAfter(Init(history), period), Last(history), period)
  }

  function AtrOf(history: seq<Candle>, period: nat): Option<real> {
    if period > 0 then AtrAfter(history, period).current else None
  }

  function Atr(candles: seq<Candle>, period: nat): (r: seq<Option<real>>) {
    Outputs(candles, period > 0 && |candles| >= period, history => AtrOf(history, period))
  }

  /** A value is produced exactly when the last `period` candles are valid. */
  lemma {:induction false} AtrReady(history: seq<Candle>, period: nat)
    requires period > 0
    ensures AtrOf(history, period).Some? <==> Streak(history) >= period
    ensures AtrOf(history, period).None? ==> |AtrAfter(history, period).warmup| == Streak(history)
  {
    if history != [] {
      AtrReady(Init(history), period);
    }
  }

  lemma AtrCausal(candles: seq<Candle>, period: nat, m: nat)
    requires m <= |candles|
    ensures Atr(candles[..m], period) == Atr(candles, period)[..m]
  {
    if m < period {
      forall i | 0 <= i < m
        ensures AtrOf(Through(candles, i), period) == None
      {
        AtrReady(Through(candles, i), period);
      }
    }
    OutputsCausal(candles, m, period > 0 && |candles| >= period, period > 0 && m >= period,
                  history => AtrOf(history, period));
  }

  method ComputeAtr(candles: seq<Candle>, period: nat) returns (result: seq<Option<real>>)
    ensures result == Atr(candles, period)
  {
    result := seq(|candles|, _ => None);
    if period == 0 || |candles| < period {
      return;
    }
    var current: Option<real>, warmupRanges: seq<real>, previousClose: Option<real> := None, [], None;
    for index := 0 to |candles|
      invariant |result| == |candles|
            && AtrState(current, warmupRanges, previousClose) == AtrAfter(candles[..index], period)
      invariant forall i :: 0 <= i < index ==> result[i] == AtrOf(Through(candles, i), period)
      invariant forall i :: index <= i < |candles| ==> result[i] == None
    {
      assert Through(candles, index) == candles[..index + 1];
      var candle := candles[index];
      if !ValidCandle(candle) {
        current, warmupRanges, previousClose := None, [], None;
        continue;
      }
      var range := TrueRange(candle, previousClose);
      previousClose := Some(candle.close.v);
      if current.Some? {
        current := Some(Smoothed(current.value, range, period));
      } else {
        warmupRanges := warmupRanges + [range];
        current := if |warmupRanges| == period then Some(Average(warmupRanges)) else None;
      }
      result := result[index := current];
    }
  }

  // ---------------------------------------------------------------- relative strength

  datatype Strength = Strength(gain: NonNeg, loss: NonNeg)

  function Delta(previous: Num, current: Num): Option<real> {
    if previous.Fin? && current.Fin? then Some(current.v - previous.v) else None
  }

  /** `wilder_gain_loss_seed`: sums of gains and of losses over consecutive closes. */
  function GainSum(closes: seq<real>): (g: real)
    ensures g >= 0.0
  {
    if |closes| < 2 then 0.0
        else GainSum(closes[..|closes| - 1]) + Max(closes[|closes| - 1] - closes[|closes| - 2], 0.0)
  }

  function LossSum(closes: seq<real>): (l: real)
    ensures l >= 0.0
  {
    if |closes| < 2 then 0.0
        else LossSum(closes[..|closes| - 1]) + Max(closes[|closes| - 2] - closes[|closes| - 1], 0.0)
  }

  function Seed(values: seq<Num>): Option<Strength> {
    if |values| < 2 || !AllFinite(values) then None
    else Some(Strength(MeanPart(GainSum(RealsOf(values)), |values| - 1),
        MeanPart(LossSum(RealsOf(values)), |values| - 1)))
  }

  /** One iteration: `window` is the newest close and the `period` closes before it. */
  function RsiStep(window: seq<Num>, period: nat, s: Option<Strength>): Option<Strength>
    requires 0 < period && |window| == period + 1
  {
    match Delta(window[period - 1], window[period])
    case None => None
    case Some(delta) =>
      match s
      case Some(before) =>
        Some(Strength(SmoothedPart(before.gain, Max(delta, 0.0), period),
            SmoothedPart(before.loss, Max(-delta, 0.0), period)))
      case None => Seed(window)
  }

  /** Averages after a history; nothing before there is a first difference for each of `period` steps. */
  function RsiAfter(history: seq<Num>, period: nat): Option<Strength>
    requires period > 0
  {
    if |history| <= period then None
    else RsiStep(Window(history, period + 1), period, RsiAfter(Init(history), period))
  }

  function RsiValue(gain: NonNeg, loss: NonNeg): real {
    if loss == 0.0 then (if gain == 0.0 then 50.0 else 100.0)
    else RatioNonNegative(gain, loss); 100.0 - 100.0 / (1.0 + gain / loss)
  }

  function RsiOf(s: Option<Strength>): Option<real> {
    match s
    case None => None
    case Some(averages) => Some(RsiValue(averages.gain, averages.loss))
  }

  function RsiAt(history: seq<Num>, period: nat): Option<real> {
    if period > 0 then RsiOf(RsiAfter(history, period)) else None
  }

  function Rsi(closes: seq<Num>, period: nat): (r: seq<Option<real>>) {
    Outputs(closes, period > 0 && |closes| > period, history => RsiAt(history, period))
  }

  lemma RsiCausal(closes: seq<Num>, period: nat, m: nat)
    requires m <= |closes|
    ensures Rsi(closes[..m], period) == Rsi(closes, period)[..m]
  {
    OutputsCausal(closes, m, period > 0 && |closes| > period, period > 0 && m > period,
                  history => RsiAt(history, period));
  }

  lemma RatioNonNegative(x: NonNeg, y: real)
    requires y > 0.0
    ensures x / y >= 0.0
  {
  }

  lemma ShareOfHundred(d: real)
    requires d >= 1.0
    ensures 0.0 <= 100.0 / d <= 100.0
  {
    var q := 100.0 / d;
    assert q * d == 100.0;
    assert q * (d - 1.0) == 100.0 - q;
    assert q >= 0.0;
    assert q * (d - 1.0) >= 0.0;
  }

  /** Every RSI that is produced lies in [0, 100]. */
  lemma RsiBounded(closes: seq<Num>, period: nat, i: nat)
    requires i < |closes| && Rsi(closes, period)[i].Some?
    ensures 0.0 <= Rsi(closes, period)[i].value <= 100.0
  {
    var s := RsiAfter(Through(closes, i), period).value;
    if s.loss > 0.0 {
      RatioNonNegative(s.gain, s.loss);
      ShareOfHundred(1.0 + s.gain / s.loss);
    }
  }

  /** A value is produced exactly when the last period + 1 closes are finite. */
  lemma {:induction false} RsiReady(history: seq<Num>, period: nat)
    requires 0 < period < |history|
    ensures RsiAfter(history, period).Some? <==> AllFinite(Window(history, period + 1))
  {
    var window, before := Window(history, period + 1), RsiAfter(Init(history), period);
    if before.Some? {
      RsiReady(Init(history), period);
      WindowSlides(history, period + 1);
    }
    assert Last(history) == window[period];
  }

  /** The same closes upside down. */
  function Mirror(values: seq<Num>): (r: seq<Num>)
    ensures |r| == |values| && forall i :: 0 <= i < |r| ==> r[i] == Negated(values[i])
  {
    seq(|values|, i requires 0 <= i < |values| => Negated(values[i]))
  }

  function Swapped(s: Option<Strength>): Option<Strength> {
    match s
    case None => None
    case Some(t) => Some(Strength(t.loss, t.gain))
  }

  lemma {:induction false} MirrorSums(values: seq<real>, mirrored: seq<real>)
    requires |values| == |mirrored| && forall i :: 0 <= i < |values| ==> mirrored[i] == -values[i]
    ensures GainSum(mirrored) == LossSum(values) && LossSum(mirrored) == GainSum(values)
  {
    if |values| >= 2 {
      MirrorSums(values[..|values| - 1], mirrored[..|values| - 1]);
    }
  }

  lemma MirrorSeed(values: seq<Num>)
    ensures Seed(Mirror(values)) == Swapped(Seed(values))
  {
    var mirrored := Mirror(values);
    if AllFinite(values) {
      assert AllFinite(mirrored);
      MirrorSums(RealsOf(values), RealsOf(mirrored));
    } else {
      var k :| 0 <= k < |values| && !values[k].Fin?;
      assert !mirrored[k].Fin?;
    }
  }

  lemma {:induction false} MirrorAfter(history: seq<Num>, period: nat)
    requires period > 0
    ensures RsiAfter(Mirror(history), period) == Swapped(RsiAfter(history, period))
  {
    if |history| > period {
      MirrorAfter(Init(history), period);
      assert Init(Mirror(history)) == Mirror(Init(history));
      assert Window(Mirror(history), period + 1) == Mirror(Window(history, period + 1));
      MirrorStep(Window(history, period + 1), period, RsiAfter(Init(history), period));
    }
  }

  lemma MirrorStep(window: seq<Num>, period: nat, s: Option<Strength>)
    requires 0 < period && |window| == period + 1
    ensures RsiStep(Mirror(window), period, Swapped(s)) == Swapped(RsiStep(window, period, s))
  {
    MirrorSeed(window);
  }

  lemma OppositeValues(gain: NonNeg, loss: NonNeg)
    ensures RsiValue(loss, gain) == 100.0 - RsiValue(gain, loss)
  {
    if gain > 0.0 && loss > 0.0 {
      Complement(gain, loss);
      Complement(loss, gain);
      SumToHundred(100.0 / (1.0 + gain / loss), 100.0 / (1.0 + loss / gain), gain, loss);
    }
  }

  lemma SumToHundred(p: real, q: real, gain: real, loss: real)
    requires gain > 0.0 && loss > 0.0
    requires p * (gain + loss) == 100.0 * loss && q * (loss + gain) == 100.0 * gain
    ensures p + q == 100.0
  {
    var d := gain + loss;
    assert (p + q) * d == p * d + q * d;
    assert (p + q - 100.0) * d == 0.0;
  }

  lemma Complement(gain: real, loss: real)
    requires gain > 0.0 && loss > 0.0
    ensures gain / loss > 0.0 && 100.0 / (1.0 + gain / loss) * (gain + loss) == 100.0 * loss
  {
    var ratio := gain / loss;
    assert ratio * loss == gain;
    var p := 100.0 / (1.0 + ratio);
    assert p * (1.0 + ratio) == 100.0;
    assert (1.0 + ratio) * loss == gain + loss;
    assert p * ((1.0 + ratio) * loss) == (p * (1.0 + ratio)) * loss;
  }

  /** Falling and rising are exchangeable: turning the closes upside down turns every RSI r into 100 - r. */
  lemma RsiOfMirror(closes: seq<Num>, period: nat, i: nat)
    requires i < |closes|
    ensures Rsi(Mirror(closes), period)[i].Some? <==> Rsi(closes, period)[i].Some?
    ensures Rsi(closes, period)[i].Some? ==>
          Rsi(Mirror(closes), period)[i].value == 100.0 - Rsi(closes, period)[i].value
  {
    if period > 0 {
      var history := Through(closes, i);
      assert Through(Mirror(closes), i) == Mirror(history);
      MirrorAfter(history, period);
      var s := RsiAfter(history, period);
      if s.Some? {
        OppositeValues(s.value.gain, s.value.loss);
      }
    }
  }

  predicate Rising(closes: seq<Num>) {
    AllFinite(closes) && forall i, j :: 0 <= i < j < |closes| ==> closes[i].v < closes[j].v
  }

  lemma {:induction false} RisingSums(values: seq<real>)
    requires forall i, j :: 0 <= i < j < |values| ==> values[i] < values[j]
    ensures LossSum(values) == 0.0 && (|values| >= 2 ==> GainSum(values) > 0.0)
  {
    if |values| >= 2 {
      RisingSums(values[..|values| - 1]);
    }
  }

  lemma OverPositive(x: real, count: nat)
    requires count > 0 && x > 0.0
    ensures Over(x, count) > 0.0
  {
    assert Over(x, count) * count as real == x;
  }

  lemma SmoothedSign(gain: NonNeg, delta: real, period: nat)
    requires period > 0 && delta > 0.0
    ensures SmoothedPart(gain, delta, period) > 0.0 && SmoothedPart(0.0, 0.0, period) == 0.0
  {
    assert gain * (period - 1) as real >= 0.0;
    OverPositive(gain * (period - 1) as real + delta, period);
    assert Over(0.0, period) == 0.0;
  }

  lemma {:induction false} RisingAfter(history: seq<Num>, period: nat)
    requires 0 < period < |history| && Rising(history)
    ensures var s := RsiAfter(history, period); s.Some? && s.value.gain > 0.0 && s.value.loss == 0.0
  {
    var window := Window(history, period + 1);
    if |history| - 1 > period {
      RisingAfter(Init(history), period);
      var before, delta := RsiAfter(Init(history), period).value, window[period].v - window[period - 1].v;
      assert Delta(window[period - 1], window[period]) == Some(delta) && delta > 0.0;
      SmoothedSign(before.gain, delta, period);
    } else {
      RisingSums(RealsOf(window));
      OverPositive(GainSum(RealsOf(window)), period);
    }
  }

  /** Closes that only rise have RSI 100 everywhere it is defined. */
  lemma RsiOfRise(closes: seq<Num>, period: nat, i: nat)
    requires 0 < period <= i < |closes| && Rising(closes)
    ensures Rsi(closes, period)[i] == Some(100.0)
  {
    RisingAfter(Through(closes, i), period);
  }

  /** What the loop holds before each index, and what it has written after it. */
  ghost function RsiStates(closes: seq<Num>, period: nat): (states: seq<Option<Strength>>)
    requires period > 0
    ensures |states| == |closes| + 1
  {
    seq(|closes| + 1, i requires 0 <= i <= |closes| => RsiAfter(closes[..i], period))
  }

  lemma RsiAdvances(closes: seq<Num>, period: nat, index: nat)
    requires 0 < period <= index < |closes|
    ensures var states := RsiStates(closes, period);
      && states[index + 1] == RsiStep(closes[index - period..index + 1], period, states[index])
      && Rsi(closes, period)[index] == RsiOf(states[index + 1])
  {
    SliceIsWindow(closes, period + 1, index);
    assert Through(closes, index) == closes[..index + 1];
  }

  lemma RsiStartsEmpty(closes: seq<Num>, period: nat)
    requires 0 < period < |closes|
    ensures RsiStates(closes, period)[period] == None
    ensures forall i :: 0 <= i < period ==> Rsi(closes, period)[i] == None
  {
  }

  /** One iteration of the loop in `rsi`. */
  method RsiIteration(window: seq<Num>, period: nat, before: Option<Strength>) returns (averages: Option<Strength>)
    requires 0 < period && |window| == period + 1
    ensures averages == RsiStep(window, period, before)
  {
    var delta := Delta(window[period - 1], window[period]);
    if delta.None? {
      return None;
    }
    if before.None? {
      return Seed(window);
    }
    var gain, loss := Max(delta.value, 0.0), Max(-delta.value, 0.0);
    averages := Some(Strength(SmoothedPart(before.value.gain, gain, period),
        SmoothedPart(before.value.loss, loss, period)));
  }

  method ComputeRsi(closes: seq<Num>, period: nat) returns (result: seq<Option<real>>)
    ensures result == Rsi(closes, period)
  {
    result := seq(|closes|, _ => None);
    if period == 0 || |closes| <= period {
      return;
    }
    ghost var target, states := Rsi(closes, period), RsiStates(closes, period);
    RsiStartsEmpty(closes, period);
    result := FillRsi(closes, period, result, target, states);
  }

  /** The loop of `rsi`. */
  method FillRsi(closes: seq<Num>, period: nat, blank: seq<Option<real>>, ghost target: seq<Option<real>>,
      ghost states: seq<Option<Strength>>) returns (result: seq<Option<real>>)
    requires 0 < period < |closes| == |blank| == |target| && |states| == |closes| + 1
    requires states == RsiStates(closes, period) && target == Rsi(closes, period)
    requires states[period] == None && forall i :: 0 <= i < period ==> blank[i] == target[i]
    ensures result == target
  {
    result := blank;
    var averages: Option<Strength> := None;
    for index := period to |closes|
      invariant |result| == |target| && averages == states[index]
      invariant forall i :: 0 <= i < index ==> result[i] == target[i]
    {
      RsiAdvances(closes, period, index);
      averages := RsiIteration(closes[index - period..index + 1], period, averages);
      result := result[index := RsiOf(averages)];
    }
  }

  // ---------------------------------------------------------------- Bollinger bands

  datatype Band = Band(middle: real, upper: real, lower: real, bandwidth: real)

  function SquaredDeviations(values: seq<real>, middle: real): real {
    if values == [] then 0.0
    else
      var last := values[|values| - 1] - middle;
      SquaredDeviations(values[..|values| - 1], middle) + last * last
  }

  function Variance(window: seq<Num>, middle: real): (v: real)
    requires window != [] && AllFinite(window)
    ensures v >= 0.0
  {
    DeviationsNonNegative(RealsOf(window), middle);
    OverNonNegative(SquaredDeviations(RealsOf(window), middle), |window|);
    Over(SquaredDeviations(RealsOf(window), middle), |window|)
  }

  lemma {:induction false} DeviationsNonNegative(values: seq<real>, middle: real)
    ensures SquaredDeviations(values, middle) >= 0.0
  {
    if values != [] {
      DeviationsNonNegative(values[..|values| - 1], middle);
      var last := values[|values| - 1] - middle;
      assert last * last >= 0.0;
    }
  }

  /** What the square root of the platform promises. */
  ghost predicate IsRoot(root: real -> real) {
    forall x :: x >= 0.0 ==> root(x) >= 0.0 && root(x) * root(x) == x
  }

  /** A band exists exactly for a finite window with a non-zero average.  It is centred on the average, reaches
      `stddev` standard deviations to each side, and its bandwidth is the width relative to the middle. */
  lemma BandMeaning(window: seq<Num>, stddev: real, root: real -> real)
    requires window != [] && IsRoot(root)
    ensures BandOf(window, stddev, root).Some? <==> AllFinite(window) && Average(RealsOf(window)) != 0.0
    ensures BandOf(window, stddev, root).Some? ==>
      var b := BandOf(window, stddev, root).value;
      var half := b.upper - b.middle;
      && b.middle == Average(RealsOf(window)) && b.lower == b.middle - half
      && half * half == stddev * stddev * Variance(window, b.middle)
      && (stddev >= 0.0 ==> b.lower <= b.middle <= b.upper)
      && b.bandwidth * b.middle == b.upper - b.lower
  {
    if AllFinite(window) && Average(RealsOf(window)) != 0.0 {
      var middle := Average(RealsOf(window));
      var v := Variance(window, middle);
      SquareOfProduct(root(v), stddev);
      RootTimes(root(v), stddev);
      QuotientTimes(2.0 * (root(v) * stddev), middle);
    }
  }

  lemma SquareOfProduct(x: real, y: real)
    ensures (x * y) * (x * y) == y * y * (x * x)
  {
  }

  lemma RootTimes(x: real, y: real)
    requires x >= 0.0
    ensures y >= 0.0 ==> x * y >= 0.0
  {
  }

  lemma QuotientTimes(x: real, y: real)
    requires y != 0.0
    ensures x / y * y == x
  {
  }

  /** `root` stands for the square root of the platform. */
  function BandOf(window: seq<Num>, stddev: real, root: real -> real): Option<Band>
    requires window != []
  {
    match FiniteAverage(window)
    case None => None
    case Some(middle) =>
      if middle == 0.0 then None
      else
        var deviation := root(Variance(window, middle)) * stddev;
        var upper, lower := middle + deviation, middle - deviation;
        Some(Band(middle, upper, lower, (upper - lower) / middle))
  }

  function BandAfter(history: seq<Num>, period: nat, stddev: Num, root: real -> real): Option<Band> {
    if 0 < period <= |history| && stddev.Fin? then BandOf(Window(history, period), stddev.v, root) else None
  }

  /** Each band depends on the history up to its own candle only. */
  method ComputeBollinger(closes: seq<Num>, period: nat, stddev: Num, root: real -> real)
      returns (result: seq<Option<Band>>)
    ensures |result| == |closes|
    ensures forall i :: 0 <= i < |closes| ==> result[i] == BandAfter(Through(closes, i), period, stddev, root)
  {
    result := seq(|closes|, _ => None);
    if period == 0 || |closes| < period || !stddev.Fin? {
      return;
    }
    for index := period - 1 to |closes|
      invariant |result| == |closes|
      invariant forall i :: 0 <= i < index ==> result[i] == BandAfter(Through(closes, i), period, stddev, root)
      invariant forall i :: index <= i < |closes| ==> result[i] == None
    {
      SliceIsWindow(closes, period, index);
      result := result[index := BandOf(closes[index + 1 - period..index + 1], stddev.v, root)];
    }
  }
}
