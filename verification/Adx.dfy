/** The average directional index of apps/backtest-engine/src/indicators.rs: an incremental state, the batch loop over
    it, and what can be said about every output. */
module Adx {
  import opened Common
  import opened Indicators

  /** One quantity under Wilder's summing: collected until there are `period` of them, then decayed. */
  datatype Running = Running(smoothed: Option<NonNeg>, warmup: seq<NonNeg>)

  datatype Index = Index(previous: Option<Candle>, range: Running, plus: Running, minus: Running,
                         current: Option<real>, seed: seq<real>)

  const NOTHING := Running(None, [])
  const START := Index(None, NOTHING, NOTHING, NOTHING, None, [])

  // ---------------------------------------------------------------- one candle

  function PlusMove(c: Candle, previous: Candle): NonNeg
    requires ValidCandle(c) && ValidCandle(previous)
  {
    var up, down := c.high.v - previous.high.v, previous.low.v - c.low.v;
    if up > down && up > 0.0 then up else 0.0
  }

  function MinusMove(c: Candle, previous: Candle): NonNeg
    requires ValidCandle(c) && ValidCandle(previous)
  {
    var up, down := c.high.v - previous.high.v, previous.low.v - c.low.v;
    if down > up && down > 0.0 then down else 0.0
  }

  /** A total loses its average part and gains the new value. */
  function Decayed(previous: NonNeg, value: NonNeg, period: nat): (r: NonNeg)
    requires period > 0
    ensures value > 0.0 ==> r > 0.0
  {
    DecayKeepsSign(previous, period);
    previous - Over(previous, period) + value
  }

  lemma DecayKeepsSign(previous: NonNeg, period: nat)
    requires period > 0
    ensures Over(previous, period) <= previous
  {
    assert previous * period as real >= previous * 1.0;
    OverBetween(previous, period, 0.0, previous);
  }

  function NonNegSum(values: seq<NonNeg>): NonNeg {
    if values == [] then 0.0 else NonNegSum(Init(values)) + Last(values)
  }

  /** The source writes a sum as an average times the number of values. */
  function Restored(total: NonNeg, count: nat): (r: NonNeg)
    requires count > 0
    ensures r == total
  {
    Over(total, count) * count as real
  }

  /** `smooth_wilder_value`. */
  function Smooth(r: Running, value: NonNeg, period: nat): Running
    requires period > 0
  {
    match r.smoothed
    case Some(previous) => Running(Some(Decayed(previous, value, period)), r.warmup)
    case None =>
      var warmup := r.warmup + [value];
      Running(if |warmup| == period then Some(NonNegSum(warmup)) else None, warmup)
  }

  function Share(part: NonNeg, total: real): NonNeg
    requires total > 0.0
  {
    RatioNonNegative(100.0 * part, total);
    100.0 * part / total
  }

  /** The directional index proper: how one-sided the two directional indicators are. */
  function Directional(plus: NonNeg, minus: NonNeg): (dx: real) {
    if plus + minus > 0.0 then 100.0 * Abs(plus - minus) / (plus + minus) else 0.0
  }

  function Dx(range: Option<NonNeg>, plus: Option<NonNeg>, minus: Option<NonNeg>): Option<real> {
    if range.Some? && plus.Some? && minus.Some? && range.value > 0.0
    then Some(Directional(Share(plus.value, range.value), Share(minus.value, range.value)))
    else None
  }

  /** The last part of `adx_advance`: the average of the first `period` values of dx, then their running average. */
  function Settle(s: Index, dx: Option<real>, period: nat): Index
    requires period > 0
  {
    match dx
    case None => s.(current := None, seed := [])
    case Some(value) =>
      var seed := if s.current.None? && |s.seed| < period then s.seed + [value] else s.seed;
      var current :=
        match s.current
        case Some(previous) => Some(Smoothed(previous, value, period))
        case None => if |seed| == period then Some(Over(Sum(seed), period)) else None;
      s.(current := current, seed := seed)
  }

  function Moved(s: Index, c: Candle, previous: Candle, period: nat): Index
    requires period > 0 && ValidCandle(c) && ValidCandle(previous)
  {
    Index(Some(c),
          Smooth(s.range, TrueRange(c, Some(previous.close.v)), period),
          Smooth(s.plus, PlusMove(c, previous), period),
          Smooth(s.minus, MinusMove(c, previous), period),
          s.current, s.seed)
  }

  function Advanced(s: Index, c: Candle, period: nat): Index {
    if period == 0 then s
    else if !ValidCandle(c) then START
    else
      match s.previous
      case None => s.(previous := Some(c))
      case Some(previous) =>
        if !ValidCandle(previous) then START
        else
          var t := Moved(s, c, previous, period);
          Settle(t, Dx(t.range.smoothed, t.plus.smoothed, t.minus.smoothed), period)
  }

  /** What a call returns: nothing for the first candle after a reset, else the index. */
  function Emitted(s: Index, c: Candle, period: nat): Option<real> {
    if period == 0 || !ValidCandle(c) || s.previous.None? then None else Advanced(s, c, period).current
  }

  // ---------------------------------------------------------------- whole runs

  /** The state after a history of candles. */
  function After(history: seq<Candle>, period: nat): Index {
    if history == [] then START else Advanced(After(Init(history), period), Last(history), period)
  }

  /** What the incremental interface returns for the last candle of a history fed to it one by one. */
  function Answer(history: seq<Candle>, period: nat): Option<real> {
    if history == [] then None else Emitted(After(Init(history), period), Last(history), period)
  }

  /** The batch function `adx`, with its early return. */
  function Batch(candles: seq<Candle>, period: nat): (r: seq<Option<real>>)
    ensures |r| == |candles|
  {
    Outputs(candles, period > 0 && |candles| > period, history => Answer(history, period))
  }

  // ---------------------------------------------------------------- warming up

  predicate RunningAge(r: Running, moves: nat, period: nat) {
    (r.smoothed.Some? <==> moves >= period) && (r.smoothed.None? ==> |r.warmup| == moves)
  }

  /** What c valid candles since a reset leave behind. */
  predicate Age(s: Index, c: nat, period: nat) {
    && (s.previous.Some? <==> c > 0)
    && (s.previous.Some? ==> ValidCandle(s.previous.value))
    && (var moves := if c == 0 then 0 else c - 1;
        RunningAge(s.range, moves, period) && RunningAge(s.plus, moves, period) && RunningAge(s.minus, moves, period))
    && |s.seed| <= (if c <= period then 0 else c - period)
    && (s.current.Some? ==> c >= 2 * period)
  }

  lemma SmoothAges(r: Running, value: NonNeg, moves: nat, period: nat)
    requires period > 0 && RunningAge(r, moves, period)
    ensures RunningAge(Smooth(r, value, period), moves + 1, period)
  {
  }

  /** One more move: what was there, one older. */
  lemma MovedAges(s: Index, c: Candle, age: nat, period: nat)
    requires period > 0 && Age(s, age, period) && ValidCandle(c) && s.previous.Some?
    ensures var t := Moved(s, c, s.previous.value, period);
      && RunningAge(t.range, age, period) && RunningAge(t.plus, age, period) && RunningAge(t.minus, age, period)
      && t.previous == Some(c) && t.current == s.current && t.seed == s.seed
  {
    var previous := s.previous.value;
    SmoothAges(s.range, TrueRange(c, Some(previous.close.v)), age - 1, period);
    SmoothAges(s.plus, PlusMove(c, previous), age - 1, period);
    SmoothAges(s.minus, MinusMove(c, previous), age - 1, period);
  }

  /** Settling adds at most one value to the seed and never touches the totals. */
  lemma SettleAges(t: Index, dx: Option<real>, period: nat)
    requires period > 0
    ensures var u := Settle(t, dx, period);
      && u == t.(current := u.current, seed := u.seed)
      && |u.seed| <= (if dx.Some? then |t.seed| + 1 else 0)
      && (u.current.Some? ==> dx.Some? && (t.current.Some? || |u.seed| == period))
  {
  }

  lemma StepAges(s: Index, c: Candle, age: nat, period: nat)
    requires period > 0 && Age(s, age, period)
    ensures Age(Advanced(s, c, period), if ValidCandle(c) then age + 1 else 0, period)
  {
    if ValidCandle(c) && s.previous.Some? {
      var t := Moved(s, c, s.previous.value, period);
      MovedAges(s, c, age, period);
      SettleAges(t, Dx(t.range.smoothed, t.plus.smoothed, t.minus.smoothed), period);
    }
  }

  lemma {:induction false} StateAge(history: seq<Candle>, period: nat)
    requires period > 0
    ensures Age(After(history, period), Streak(history), period)
  {
    if history != [] {
      StateAge(Init(history), period);
      StepAges(After(Init(history), period), Last(history), Streak(Init(history)), period);
    }
  }

  /** After any reset nothing is emitted before 2 * period valid candles in a row. */
  lemma QuietWhileWarmingUp(history: seq<Candle>, period: nat)
    requires Answer(history, period).Some?
    ensures Streak(history) >= 2 * period > 0
  {
    StateAge(history, period);
  }

  /** The promise made for the incremental interface: it agrees with the batch function candle by candle, also where
      the batch function returns early. */
  lemma BatchIsIncremental(candles: seq<Candle>, period: nat, i: nat)
    requires i < |candles|
    ensures Batch(candles, period)[i] == Answer(Through(candles, i), period)
  {
    if period > 0 && Answer(Through(candles, i), period).Some? {
      QuietWhileWarmingUp(Through(candles, i), period);
    }
  }

  lemma BatchCausal(candles: seq<Candle>, period: nat, m: nat)
    requires m <= |candles|
    ensures Batch(candles[..m], period) == Batch(candles, period)[..m]
  {
    forall i | 0 <= i < m
      ensures Batch(candles[..m], period)[i] == Batch(candles, period)[i]
    {
      BatchIsIncremental(candles[..m], period, i);
      BatchIsIncremental(candles, period, i);
      assert Through(candles[..m], i) == Through(candles, i);
    }
  }

  // ---------------------------------------------------------------- when it does emit

  /** The smoothed range exists and is positive, so that a directional index can be formed. */
  predicate Live(s: Index) {
    s.range.smoothed.Some? && s.range.smoothed.value > 0.0
  }

  /** How many candles in a row, ending a history, left a positive smoothed range. */
  function LiveRun(history: seq<Candle>, period: nat): nat {
    if history == [] || !Live(After(history, period)) then 0 else LiveRun(Init(history), period) + 1
  }

  /** What c such candles leave behind: a seed of c values, replaced by an index once there are `period`. */
  predicate Seeded(s: Index, c: nat, period: nat) {
    (s.current.Some? <==> c >= period) && (s.current.None? ==> |s.seed| == c)
  }

  lemma SettleSeeds(s: Index, dx: Option<real>, c: nat, period: nat)
    requires period > 0 && Seeded(s, c, period)
    ensures Seeded(Settle(s, dx, period), if dx.Some? then c + 1 else 0, period)
  {
  }

  /** The three smoothed values appear together, so a positive range is all that is needed. */
  lemma MovedDx(s: Index, c: Candle, age: nat, period: nat)
    requires period > 0 && Age(s, age, period) && ValidCandle(c) && s.previous.Some?
    ensures var t := Moved(s, c, s.previous.value, period);
      Dx(t.range.smoothed, t.plus.smoothed, t.minus.smoothed).Some? <==> Live(t)
  {
    MovedAges(s, c, age, period);
  }

  lemma StepSeeds(s: Index, c: Candle, age: nat, run: nat, period: nat)
    requires period > 0 && Age(s, age, period) && Seeded(s, run, period)
    ensures Seeded(Advanced(s, c, period), if Live(Advanced(s, c, period)) then run + 1 else 0, period)
  {
    if ValidCandle(c) && s.previous.Some? {
      var t := Moved(s, c, s.previous.value, period);
      MovedDx(s, c, age, period);
      SettleSeeds(t, Dx(t.range.smoothed, t.plus.smoothed, t.minus.smoothed), run, period);
    }
  }

  lemma {:induction false} StateSeeded(history: seq<Candle>, period: nat)
    requires period > 0
    ensures Seeded(After(history, period), LiveRun(history, period), period)
  {
    if history != [] {
      StateSeeded(Init(history), period);
      StateAge(Init(history), period);
      StepSeeds(After(Init(history), period), Last(history), Streak(Init(history)), LiveRun(Init(history), period),
          period);
    }
  }

  /** A value is emitted exactly when each of the last `period` candles left a positive smoothed range. */
  lemma EmitsIffLive(history: seq<Candle>, period: nat)
    requires period > 0
    ensures Answer(history, period).Some? <==> LiveRun(history, period) >= period
  {
    StateSeeded(history, period);
    if history != [] {
      StateAge(Init(history), period);
      EmptyAfterReset(Init(history), period);
    }
  }

  /** Before the second candle after a reset there is no index. */
  lemma EmptyAfterReset(history: seq<Candle>, period: nat)
    requires period > 0
    ensures After(history, period).previous.None? ==> After(history, period).range.smoothed.None?
  {
    StateAge(history, period);
  }

  predicate Moving(c: Candle) {
    ValidCandle(c) ==> c.high.v > c.low.v
  }

  predicate RangesPositive(r: Running) {
    && (forall i :: 0 <= i < |r.warmup| ==> r.warmup[i] > 0.0)
    && (r.smoothed.Some? ==> r.smoothed.value > 0.0)
  }

  lemma SmoothKeepsPositive(r: Running, value: NonNeg, period: nat)
    requires period > 0 && RangesPositive(r) && value > 0.0
    ensures RangesPositive(Smooth(r, value, period))
  {
    PositiveSum(r.warmup + [value]);
  }

  lemma {:induction false} PositiveSum(values: seq<NonNeg>)
    requires values != [] && forall i :: 0 <= i < |values| ==> values[i] > 0.0
    ensures NonNegSum(values) > 0.0
  {
    if |values| > 1 {
      PositiveSum(Init(values));
    }
  }

  lemma {:induction false} RangesStayPositive(history: seq<Candle>, period: nat)
    requires period > 0 && forall j :: 0 <= j < |history| ==> Moving(history[j])
    ensures RangesPositive(After(history, period).range)
    ensures LiveRun(history, period) == if Streak(history) <= period then 0 else Streak(history) - period
  {
    if history != [] {
      var s, c := After(Init(history), period), Last(history);
      RangesStayPositive(Init(history), period);
      StateAge(Init(history), period);
      StateAge(history, period);
      if ValidCandle(c) && s.previous.Some? {
        SmoothKeepsPositive(s.range, TrueRange(c, Some(s.previous.value.close.v)), period);
      }
    }
  }

  /** In particular, when no valid candle is flat: from the 2 * period-th valid candle after a reset on. */
  lemma EmitsExactlyWhenWarm(history: seq<Candle>, period: nat)
    requires period > 0 && forall j :: 0 <= j < |history| ==> Moving(history[j])
    ensures Answer(history, period).Some? <==> Streak(history) >= 2 * period
  {
    RangesStayPositive(history, period);
    EmitsIffLive(history, period);
  }

  // ---------------------------------------------------------------- totals are averages

  /** A quantity fed to Wilder's summing value by value. */
  function Fed(values: seq<NonNeg>, period: nat): Running
    requires period > 0
  {
    if values == [] then NOTHING else Smooth(Fed(Init(values), period), Last(values), period)
  }

  /** Wilder's average of a list: the mean of the first `period` values, then smoothed. */
  function WilderAverage(values: seq<NonNeg>, period: nat): real
    requires 0 < period <= |values|
  {
    if |values| == period then Over(NonNegSum(values), period)
    else Smoothed(WilderAverage(Init(values), period), Last(values), period)
  }

  lemma DecayIsSmoothing(total: NonNeg, value: NonNeg, period: nat)
    requires period > 0
    ensures Over(Decayed(total, value, period), period) == Smoothed(Over(total, period), value, period)
  {
    var n, q := period as real, Over(total, period);
    assert q * n == total;
    assert q * (period - 1) as real == q * n - q;
    assert total - q + value == q * (period - 1) as real + value;
  }

  lemma {:induction false} FedAge(values: seq<NonNeg>, period: nat)
    requires period > 0
    ensures RunningAge(Fed(values, period), |values|, period)
  {
    if values != [] {
      FedAge(Init(values), period);
      SmoothAges(Fed(Init(values), period), Last(values), |values| - 1, period);
    }
  }

  lemma SmoothCollects(r: Running, value: NonNeg, period: nat)
    requires period > 0 && r.smoothed.None?
    ensures Smooth(r, value, period).warmup == r.warmup + [value]
  {
  }

  lemma FedCollects(values: seq<NonNeg>, period: nat)
    requires 0 < |values| <= period
    ensures Fed(values, period).warmup == Fed(Init(values), period).warmup + [Last(values)]
  {
    FedAge(Init(values), period);
    SmoothCollects(Fed(Init(values), period), Last(values), period);
  }

  lemma Rejoin(values: seq<NonNeg>, front: seq<NonNeg>)
    requires values != [] && front == Init(values)
    ensures front + [Last(values)] == values
  {
  }

  lemma {:induction false} FedWarmup(values: seq<NonNeg>, period: nat)
    requires period > 0 && |values| <= period
    ensures Fed(values, period).warmup == values
  {
    if values != [] {
      FedWarmup(Init(values), period);
      FedCollects(values, period);
      Rejoin(values, Fed(Init(values), period).warmup);
    }
  }

  lemma FirstTotal(values: seq<NonNeg>, period: nat)
    requires 0 < period == |values|
    ensures Fed(values, period).smoothed == Some(NonNegSum(values))
  {
    FedAge(Init(values), period);
    FedWarmup(Init(values), period);
    FirstSum(Fed(Init(values), period), Last(values), period);
    assert values == Init(values) + [Last(values)];
  }

  lemma FirstSum(r: Running, value: NonNeg, period: nat)
    requires period > 0 && r.smoothed.None? && |r.warmup| + 1 == period
    ensures Smooth(r, value, period).smoothed == Some(NonNegSum(r.warmup + [value]))
  {
  }

  lemma NextTotal(values: seq<NonNeg>, period: nat)
    requires 0 < period < |values| && Fed(Init(values), period).smoothed.Some?
    ensures Fed(values, period).smoothed
          == Some(Decayed(Fed(Init(values), period).smoothed.value, Last(values), period))
  {
  }

  /** What `smooth_wilder_value` keeps is `period` times Wilder's average of the values fed to it, and nothing before
      there are `period` of them. */
  lemma {:induction false} TotalIsAverage(values: seq<NonNeg>, period: nat)
    requires period > 0
    ensures Fed(values, period).smoothed.Some? <==> |values| >= period
    ensures |values| >= period ==> Over(Fed(values, period).smoothed.value, period) == WilderAverage(values, period)
  {
    FedAge(values, period);
    if |values| == period {
      FirstTotal(values, period);
    } else if |values| > period {
      TotalIsAverage(Init(values), period);
      NextTotal(values, period);
      DecayIsSmoothing(Fed(Init(values), period).smoothed.value, Last(values), period);
    }
  }

  // ---------------------------------------------------------------- bounds

  predicate Percent(x: real) {
    0.0 <= x <= 100.0
  }

  predicate Bounded(s: Index) {
    (s.current.Some? ==> Percent(s.current.value)) && forall i :: 0 <= i < |s.seed| ==> Percent(s.seed[i])
  }

  lemma DirectionalBounded(plus: NonNeg, minus: NonNeg)
    ensures Percent(Directional(plus, minus))
  {
    var total, gap := plus + minus, Abs(plus - minus);
    if total > 0.0 {
      assert 0.0 <= gap <= total;
      FractionOfHundred(gap, total);
    }
  }

  lemma FractionOfHundred(part: real, total: real)
    requires 0.0 <= part <= total && total > 0.0
    ensures Percent(100.0 * part / total)
  {
    var q := 100.0 * part / total;
    assert q * total == 100.0 * part;
    assert (100.0 - q) * total == 100.0 * (total - part);
  }

  lemma {:induction false} PercentSum(values: seq<real>)
    requires forall i :: 0 <= i < |values| ==> Percent(values[i])
    ensures 0.0 <= Sum(values) <= 100.0 * |values| as real
  {
    if values != [] {
      PercentSum(values[..|values| - 1]);
      assert Percent(values[|values| - 1]);
    }
  }

  lemma SettleBounded(s: Index, dx: Option<real>, period: nat)
    requires period > 0 && Bounded(s) && (dx.Some? ==> Percent(dx.value))
    ensures Bounded(Settle(s, dx, period))
  {
    if dx.Some? {
      if s.current.Some? {
        SmoothedBetween(s.current.value, dx.value, period, 100.0);
      } else {
        var seed := if |s.seed| < period then s.seed + [dx.value] else s.seed;
        if |seed| == period {
          PercentSum(seed);
          OverBetween(Sum(seed), period, 0.0, 100.0);
        }
      }
    }
  }

  lemma StepBounded(s: Index, c: Candle, period: nat)
    requires Bounded(s)
    ensures Bounded(Advanced(s, c, period))
  {
    if period > 0 && ValidCandle(c) && s.previous.Some? && ValidCandle(s.previous.value) {
      var t := Moved(s, c, s.previous.value, period);
      var dx := Dx(t.range.smoothed, t.plus.smoothed, t.minus.smoothed);
      if dx.Some? {
        DirectionalBounded(Share(t.plus.smoothed.value, t.range.smoothed.value),
                           Share(t.minus.smoothed.value, t.range.smoothed.value));
      }
      SettleBounded(t, dx, period);
    }
  }

  lemma {:induction false} StateBounded(history: seq<Candle>, period: nat)
    ensures Bounded(After(history, period))
  {
    if history != [] {
      StateBounded(Init(history), period);
      StepBounded(After(Init(history), period), Last(history), period);
    }
  }

  /** Every emitted value lies in [0, 100]. */
  lemma AnswerBounded(history: seq<Candle>, period: nat)
    requires Answer(history, period).Some?
    ensures 0.0 <= Answer(history, period).value <= 100.0
  {
    StateBounded(history, period);
  }

  // ---------------------------------------------------------------- the mutable state

  class AdxState {
    var previousCandle: Option<Candle>
    var smoothedTr: Option<NonNeg>
    var smoothedPlusDm: Option<NonNeg>
    var smoothedMinusDm: Option<NonNeg>
    var currentAdx: Option<real>
    var trWarmup: seq<NonNeg>
    var plusDmWarmup: seq<NonNeg>
    var minusDmWarmup: seq<NonNeg>
    var dxSeed: seq<real>

    ghost function View(): Index
      reads this
    {
      Index(previousCandle, Running(smoothedTr, trWarmup), Running(smoothedPlusDm, plusDmWarmup),
            Running(smoothedMinusDm, minusDmWarmup), currentAdx, dxSeed)
    }

    constructor ()
      ensures View() == START
    {
      previousCandle, smoothedTr, smoothedPlusDm, smoothedMinusDm, currentAdx := None, None, None, None, None;
      trWarmup, plusDmWarmup, minusDmWarmup, dxSeed := [], [], [], [];
    }

    method Reset()
      modifies this
      ensures View() == START
    {
      previousCandle, smoothedTr, smoothedPlusDm, smoothedMinusDm, currentAdx := None, None, None, None, None;
      trWarmup, plusDmWarmup, minusDmWarmup, dxSeed := [], [], [], [];
    }

    /** The closing part of `adx_advance`. */
    method SettleValue(dx: Option<real>, period: nat)
      requires period > 0
      modifies this
      ensures View() == Settle(old(View()), dx, period)
    {
      if dx.Some? {
        if currentAdx.None? && |dxSeed| < period {
          dxSeed := dxSeed + [dx.value];
        }
        if currentAdx.Some? {
          currentAdx := Some(Smoothed(currentAdx.value, dx.value, period));
        } else if |dxSeed| == period {
          currentAdx := Some(Over(Sum(dxSeed), period));
        }
      } else {
        currentAdx, dxSeed := None, [];
      }
    }

    /** The three totals of one move. */
    method SmoothAll(candle: Candle, previous: Candle, period: nat)
      requires period > 0 && ValidCandle(candle) && ValidCandle(previous) && previousCandle == Some(candle)
      modifies this
      ensures View() == Moved(old(View()), candle, previous, period)
    {
      var range := TrueRange(candle, Some(previous.close.v));
      smoothedTr, trWarmup := SmoothValue(smoothedTr, trWarmup, range, period);
      smoothedPlusDm, plusDmWarmup := SmoothValue(smoothedPlusDm, plusDmWarmup, PlusMove(candle, previous), period);
      smoothedMinusDm, minusDmWarmup := SmoothValue(smoothedMinusDm, minusDmWarmup, MinusMove(candle, previous),
          period);
    }

    method Advance(candle: Candle, period: nat) returns (r: Option<real>)
      modifies this
      ensures View() == Advanced(old(View()), candle, period)
      ensures r == Emitted(old(View()), candle, period)
    {
      if period == 0 {
        return None;
      }
      if !ValidCandle(candle) {
        Reset();
        return None;
      }
      if previousCandle.None? {
        previousCandle := Some(candle);
        return None;
      }
      var previous := previousCandle.value;
      previousCandle := Some(candle);
      if !ValidCandle(previous) {
        Reset();
        return None;
      }
      SmoothAll(candle, previous, period);
      var dx := Dx(smoothedTr, smoothedPlusDm, smoothedMinusDm);
      assert View() == Moved(old(View()), candle, previous, period);
      SettleValue(dx, period);
      r := currentAdx;
    }
  }

  method SmoothValue(previous: Option<NonNeg>, warmup: seq<NonNeg>, value: NonNeg, period: nat)
    returns (smoothed: Option<NonNeg>, collected: seq<NonNeg>)
    requires period > 0
    ensures Running(smoothed, collected) == Smooth(Running(previous, warmup), value, period)
  {
    smoothed, collected := None, warmup;
    if previous.Some? {
      smoothed := Some(Decayed(previous.value, value, period));
    } else {
      collected := collected + [value];
      if |collected| == period {
        smoothed := Some(Restored(NonNegSum(collected), period));
      }
    }
  }

  method ComputeAdx(candles: seq<Candle>, period: nat) returns (result: seq<Option<real>>)
    ensures result == Batch(candles, period)
  {
    result := seq(|candles|, _ => None);
    if period == 0 || |candles| <= period {
      return;
    }
    var state := new AdxState();
    for index := 0 to |candles|
      invariant |result| == |candles| && fresh(state) && state.View() == After(candles[..index], period)
      invariant forall i :: 0 <= i < index ==> result[i] == Answer(Through(candles, i), period)
    {
      assert Through(candles, index) == candles[..index + 1];
      var value := state.Advance(candles[index], period);
      result := result[index := value];
    }
  }
}
