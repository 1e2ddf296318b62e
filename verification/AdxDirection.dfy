/** What the average directional index of apps/backtest-engine/src/indicators.rs measures: it is Wilder's average of the
    one-sidedness of the directional moves, told by the candles since the last reset. */
module AdxDirection {
  import opened Common
  import opened Indicators
  import opened IndicatorLaws
  import opened Adx

  // ---------------------------------------------------------------- the moves since the last reset

  /** The last candle is valid and follows a valid one. */
  predicate Follows(history: seq<Candle>) {
    |history| >= 2 && ValidCandle(Last(history)) && ValidCandle(Last(Init(history)))
  }

  function PlusMoves(history: seq<Candle>): seq<NonNeg> {
    if !Follows(history) then []
    else PlusMoves(Init(history)) + [PlusMove(Last(history), Last(Init(history)))]
  }

  function MinusMoves(history: seq<Candle>): seq<NonNeg> {
    if !Follows(history) then []
    else MinusMoves(Init(history)) + [MinusMove(Last(history), Last(Init(history)))]
  }

  function Ranges(history: seq<Candle>): seq<NonNeg> {
    if !Follows(history) then []
    else Ranges(Init(history)) + [TrueRange(Last(history), Some(Last(Init(history)).close.v))]
  }

  lemma FedMore(values: seq<NonNeg>, x: NonNeg, period: nat)
    requires period > 0
    ensures Fed(values + [x], period) == Smooth(Fed(values, period), x, period)
  {
    assert Init(values + [x]) == values;
  }

  /** The three totals are Wilder's totals of the ranges and moves since the last reset. */
  ghost predicate Fed3(s: Index, history: seq<Candle>, period: nat)
    requires period > 0
  {
    && s.range == Fed(Ranges(history), period)
    && s.plus == Fed(PlusMoves(history), period)
    && s.minus == Fed(MinusMoves(history), period)
    && s.previous == if Streak(history) == 0 then None else Some(Last(history))
  }

  lemma StepFeeds(s: Index, history: seq<Candle>, period: nat)
    requires period > 0 && Follows(history) && Fed3(s, Init(history), period)
    ensures Fed3(Advanced(s, Last(history), period), history, period)
  {
    MoveFeeds(s, history, period);
    var t := Moved(s, Last(history), Last(Init(history)), period);
    SettleAges(t, Dx(t.range.smoothed, t.plus.smoothed, t.minus.smoothed), period);
  }

  lemma MoveFeeds(s: Index, history: seq<Candle>, period: nat)
    requires period > 0 && Follows(history) && Fed3(s, Init(history), period)
    ensures Fed3(Moved(s, Last(history), Last(Init(history)), period), history, period)
  {
    var c, previous := Last(history), Last(Init(history));
    FedMore(Ranges(Init(history)), TrueRange(c, Some(previous.close.v)), period);
    FedMore(PlusMoves(Init(history)), PlusMove(c, previous), period);
    FedMore(MinusMoves(Init(history)), MinusMove(c, previous), period);
  }

  lemma {:induction false} StateIsFed(history: seq<Candle>, period: nat)
    requires period > 0
    ensures Fed3(After(history, period), history, period)
  {
    if history != [] {
      StateIsFed(Init(history), period);
      if Follows(history) {
        StepFeeds(After(Init(history), period), history, period);
      }
    }
  }

  // ---------------------------------------------------------------- the index

  /** How one-sided two totals are, from 0 for balance to 100 for one direction only. */
  function OneSided(plus: NonNeg, minus: NonNeg): real {
    if plus + minus > 0.0 then 100.0 * Abs(plus - minus) / (plus + minus) else 0.0
  }

  /** The directional indicators are shares of the same range, so the range cancels. */
  lemma RangeCancels(plus: NonNeg, minus: NonNeg, range: real)
    requires range > 0.0
    ensures Directional(Share(plus, range), Share(minus, range)) == OneSided(plus, minus)
  {
    var k := 100.0 / range;
    assert k * range == 100.0;
    assert k > 0.0;
    ShareIs(plus, range, k);
    ShareIs(minus, range, k);
    if plus + minus > 0.0 {
      FactorCancels(k, Abs(plus - minus), plus + minus);
      AbsScales(k, plus, minus);
      assert k * plus + k * minus == k * (plus + minus);
    }
  }

  lemma ShareIs(part: NonNeg, range: real, k: real)
    requires range > 0.0 && k * range == 100.0
    ensures Share(part, range) == k * part
  {
    var q := 100.0 * part / range;
    assert q * range == 100.0 * part;
    assert (k * part) * range == (k * range) * part;
    assert (q - k * part) * range == 0.0;
  }

  lemma AbsScales(k: real, x: real, y: real)
    requires k > 0.0
    ensures Abs(k * x - k * y) == k * Abs(x - y)
  {
    assert k * x - k * y == k * (x - y);
    if x >= y {
      assert k * (x - y) >= 0.0;
    } else {
      assert k * (x - y) < 0.0;
    }
  }

  lemma FactorCancels(k: real, a: real, b: real)
    requires k > 0.0 && b > 0.0
    ensures k * b > 0.0 && 100.0 * (k * a) / (k * b) == 100.0 * a / b
  {
    assert k * b > 0.0;
    var q := 100.0 * a / b;
    assert q * b == 100.0 * a;
    assert q * (k * b) == k * (q * b);
    assert k * (100.0 * a) == 100.0 * (k * a);
  }

  /** The one-sidedness of the moves up to each of the candles, ending a history, that left a positive range. */
  function Sides(history: seq<Candle>, period: nat): seq<real>
    requires period > 0
  {
    if history == [] || !Live(After(history, period)) then []
    else
      Sides(Init(history), period) + [SideOf(After(history, period))]
  }

  function SideOf(s: Index): real {
    if s.plus.smoothed.Some? && s.minus.smoothed.Some?
    then OneSided(s.plus.smoothed.value, s.minus.smoothed.value) else 0.0
  }

  /** What the last part of the state holds for a list of values since it was empty. */
  ghost predicate Averaged(s: Index, values: seq<real>, period: nat)
    requires period > 0
  {
    && (|values| < period ==> s.current == None && s.seed == values)
    && (|values| >= period ==> s.current == Some(WilderMean(values, period)))
  }

  lemma SettleAverages(s: Index, values: seq<real>, dx: Option<real>, period: nat)
    requires period > 0 && Averaged(s, values, period)
    ensures Averaged(Settle(s, dx, period), if dx.Some? then values + [dx.value] else [], period)
  {
    if dx.Some? {
      assert Init(values + [dx.value]) == values;
    }
  }

  lemma MovedSide(s: Index, c: Candle, age: nat, period: nat)
    requires period > 0 && Age(s, age, period) && ValidCandle(c) && s.previous.Some?
    ensures var t := Moved(s, c, s.previous.value, period);
      Dx(t.range.smoothed, t.plus.smoothed, t.minus.smoothed) == if Live(t) then Some(SideOf(t)) else None
  {
    var t := Moved(s, c, s.previous.value, period);
    MovedAges(s, c, age, period);
    if Live(t) {
      RangeCancels(t.plus.smoothed.value, t.minus.smoothed.value, t.range.smoothed.value);
    }
  }

  lemma SettleKeepsTotals(t: Index, dx: Option<real>, period: nat)
    requires period > 0
    ensures var u := Settle(t, dx, period);
      (Live(u) <==> Live(t)) && SideOf(u) == SideOf(t)
  {
  }

  lemma StepAverages(s: Index, c: Candle, age: nat, values: seq<real>, period: nat)
    requires period > 0 && Age(s, age, period) && Averaged(s, values, period)
    requires s.previous.None? ==> values == []
    ensures var t := Advanced(s, c, period); Averaged(t, if Live(t) then values + [SideOf(t)] else [], period)
  {
    if ValidCandle(c) && s.previous.Some? {
      var t := Moved(s, c, s.previous.value, period);
      var dx := Dx(t.range.smoothed, t.plus.smoothed, t.minus.smoothed);
      MovedSide(s, c, age, period);
      SettleAverages(t, values, dx, period);
      SettleKeepsTotals(t, dx, period);
    }
  }

  lemma {:induction false} StateAverages(history: seq<Candle>, period: nat)
    requires period > 0
    ensures Averaged(After(history, period), Sides(history, period), period)
  {
    if history != [] {
      var s := After(Init(history), period);
      StateAverages(Init(history), period);
      StateAge(Init(history), period);
      EmptyAfterReset(Init(history), period);
      StepAverages(s, Last(history), Streak(Init(history)), Sides(Init(history), period), period);
    }
  }

  /** Every emitted value is Wilder's average of the one-sidedness of the moves, over the candles in a row that left a
      positive range. */
  lemma AnswerIsAverage(history: seq<Candle>, period: nat)
    requires Answer(history, period).Some?
    ensures period > 0 && |Sides(history, period)| >= period
    ensures Answer(history, period).value == WilderMean(Sides(history, period), period)
  {
    StateAverages(history, period);
  }

  // ---------------------------------------------------------------- what follows for whole histories

  /** Every side of a history, given one for each state it goes through. */
  lemma {:induction false} AllSides(history: seq<Candle>, period: nat, x: real)
    requires period > 0
    requires forall n :: 0 < n <= |history| && Live(After(history[..n], period)) ==>
      SideOf(After(history[..n], period)) == x
    ensures forall i :: 0 <= i < |Sides(history, period)| ==> Sides(history, period)[i] == x
  {
    if history != [] && Live(After(history, period)) {
      var front := Init(history);
      assert history[..|history|] == history;
      forall n | 0 < n <= |front| && Live(After(front[..n], period)) ensures SideOf(After(front[..n], period)) == x {
        assert front[..n] == history[..n];
      }
      AllSides(front, period, x);
    }
  }

  ghost predicate AllZero(values: seq<NonNeg>) { forall i :: 0 <= i < |values| ==> values[i] == 0.0 }

  ghost predicate AllPositive(values: seq<NonNeg>) { forall i :: 0 <= i < |values| ==> values[i] > 0.0 }

  lemma {:induction false} TotalOfZeros(values: seq<NonNeg>, period: nat)
    requires period > 0 && AllZero(values)
    ensures var r := Fed(values, period); AllZero(r.warmup) && (r.smoothed.Some? ==> r.smoothed.value == 0.0)
  {
    if values != [] {
      TotalOfZeros(Init(values), period);
      SmoothZero(Fed(Init(values), period), period);
    }
  }

  lemma SmoothZero(r: Running, period: nat)
    requires period > 0 && AllZero(r.warmup) && (r.smoothed.Some? ==> r.smoothed.value == 0.0)
    ensures var t := Smooth(r, 0.0, period); AllZero(t.warmup) && (t.smoothed.Some? ==> t.smoothed.value == 0.0)
  {
    ZeroSum(r.warmup + [0.0]);
    assert Over(0.0, period) == 0.0;
  }

  lemma {:induction false} ZeroSum(values: seq<NonNeg>)
    requires AllZero(values)
    ensures NonNegSum(values) == 0.0
  {
    if values != [] {
      ZeroSum(Init(values));
    }
  }

  lemma {:induction false} TotalOfPositives(values: seq<NonNeg>, period: nat)
    requires period > 0 && AllPositive(values)
    ensures RangesPositive(Fed(values, period))
  {
    if values != [] {
      TotalOfPositives(Init(values), period);
      SmoothKeepsPositive(Fed(Init(values), period), Last(values), period);
    }
  }

  /** Candle c falls: its low is lower, by more than its high is higher. */
  predicate Falls(c: Candle, previous: Candle) {
    ValidCandle(c) && ValidCandle(previous) ==>
      previous.low.v - c.low.v > 0.0 && previous.low.v - c.low.v > c.high.v - previous.high.v
  }

  predicate Rises(c: Candle, previous: Candle) {
    ValidCandle(c) && ValidCandle(previous) ==>
      c.high.v - previous.high.v > 0.0 && c.high.v - previous.high.v > previous.low.v - c.low.v
  }

  /** Candle c stays within the one before it. */
  predicate Inside(c: Candle, previous: Candle) {
    ValidCandle(c) && ValidCandle(previous) ==> c.high.v <= previous.high.v && c.low.v >= previous.low.v
  }

  ghost predicate Throughout(history: seq<Candle>, p: (Candle, Candle) -> bool) {
    forall i :: 0 < i < |history| ==> p(history[i], history[i - 1])
  }

  lemma ThroughoutFront(history: seq<Candle>, p: (Candle, Candle) -> bool, n: nat)
    requires Throughout(history, p) && n <= |history|
    ensures Throughout(history[..n], p)
  {
  }

  lemma {:induction false} FallingMoves(history: seq<Candle>)
    requires Throughout(history, Falls)
    ensures AllZero(PlusMoves(history)) && AllPositive(MinusMoves(history))
    ensures |PlusMoves(history)| == |MinusMoves(history)|
  {
    if Follows(history) {
      ThroughoutFront(history, Falls, |history| - 1);
      FallingMoves(Init(history));
      assert Falls(history[|history| - 1], history[|history| - 2]);
    }
  }

  lemma {:induction false} InsideMoves(history: seq<Candle>)
    requires Throughout(history, Inside)
    ensures AllZero(PlusMoves(history)) && AllZero(MinusMoves(history))
  {
    if Follows(history) {
      ThroughoutFront(history, Inside, |history| - 1);
      InsideMoves(Init(history));
      assert Inside(history[|history| - 1], history[|history| - 2]);
    }
  }

  lemma FallingSide(history: seq<Candle>, period: nat)
    requires period > 0 && Throughout(history, Falls) && Live(After(history, period))
    ensures SideOf(After(history, period)) == 100.0
  {
    StateIsFed(history, period);
    StateAge(history, period);
    FallingMoves(history);
    TotalOfZeros(PlusMoves(history), period);
    TotalOfPositives(MinusMoves(history), period);
    OnlyMinus(After(history, period));
  }

  lemma OnlyMinus(s: Index)
    requires s.plus.smoothed == Some(0.0) && s.minus.smoothed.Some? && s.minus.smoothed.value > 0.0
    ensures SideOf(s) == 100.0
  {
    var m := s.minus.smoothed.value;
    assert 100.0 * m / m == 100.0;
  }

  lemma InsideSide(history: seq<Candle>, period: nat)
    requires period > 0 && Throughout(history, Inside) && Live(After(history, period))
    ensures SideOf(After(history, period)) == 0.0
  {
    StateIsFed(history, period);
    InsideMoves(history);
    TotalOfZeros(PlusMoves(history), period);
    TotalOfZeros(MinusMoves(history), period);
  }

  /** When every candle falls, by more than it rises, the index is 100 wherever it is emitted. */
  lemma FallIsHundred(history: seq<Candle>, period: nat)
    requires Throughout(history, Falls) && Answer(history, period).Some?
    ensures Answer(history, period).value == 100.0
  {
    AnswerIsAverage(history, period);
    forall n | 0 < n <= |history| && Live(After(history[..n], period))
      ensures SideOf(After(history[..n], period)) == 100.0
    {
      ThroughoutFront(history, Falls, n);
      FallingSide(history[..n], period);
    }
    AllSides(history, period, 100.0);
    MeanOfSame(Sides(history, period), period, 100.0);
  }

  /** When every candle stays within the one before it, the index is 0 wherever it is emitted. */
  lemma InsideIsZero(history: seq<Candle>, period: nat)
    requires Throughout(history, Inside) && Answer(history, period).Some?
    ensures Answer(history, period).value == 0.0
  {
    AnswerIsAverage(history, period);
    forall n | 0 < n <= |history| && Live(After(history[..n], period))
      ensures SideOf(After(history[..n], period)) == 0.0
    {
      ThroughoutFront(history, Inside, n);
      InsideSide(history[..n], period);
    }
    AllSides(history, period, 0.0);
    MeanOfSame(Sides(history, period), period, 0.0);
  }

  // ---------------------------------------------------------------- upside down

  function Turned(c: Candle): Candle {
    Candle(Negated(c.low), Negated(c.high), Negated(c.close))
  }

  function TurnedAll(history: seq<Candle>): (r: seq<Candle>)
    ensures |r| == |history| && forall i :: 0 <= i < |r| ==> r[i] == Turned(history[i])
  {
    seq(|history|, i requires 0 <= i < |history| => Turned(history[i]))
  }

  lemma TurnedMoves(c: Candle, previous: Candle)
    requires ValidCandle(c) && ValidCandle(previous)
    ensures ValidCandle(Turned(c)) && ValidCandle(Turned(previous))
    ensures PlusMove(Turned(c), Turned(previous)) == MinusMove(c, previous)
    ensures MinusMove(Turned(c), Turned(previous)) == PlusMove(c, previous)
    ensures TrueRange(Turned(c), Some(Turned(previous).close.v)) == TrueRange(c, Some(previous.close.v))
  {
  }

  /** The same state with the directions exchanged. */
  function Exchanged(s: Index): Index {
    s.(previous := if s.previous.None? then None else Some(Turned(s.previous.value)), plus := s.minus, minus := s.plus)
  }

  lemma DxExchanged(range: Option<NonNeg>, plus: Option<NonNeg>, minus: Option<NonNeg>)
    ensures Dx(range, plus, minus) == Dx(range, minus, plus)
  {
  }

  lemma StepExchanges(s: Index, c: Candle, period: nat)
    ensures Advanced(Exchanged(s), Turned(c), period) == Exchanged(Advanced(s, c, period))
    ensures Emitted(Exchanged(s), Turned(c), period) == Emitted(s, c, period)
  {
    if period > 0 && ValidCandle(c) && s.previous.Some? && ValidCandle(s.previous.value) {
      var t := Moved(s, c, s.previous.value, period);
      TurnedMoves(c, s.previous.value);
      DxExchanged(t.range.smoothed, t.plus.smoothed, t.minus.smoothed);
      assert Moved(Exchanged(s), Turned(c), Turned(s.previous.value), period) == Exchanged(t);
    }
  }

  lemma {:induction false} StateExchanges(history: seq<Candle>, period: nat)
    ensures After(TurnedAll(history), period) == Exchanged(After(history, period))
  {
    if history != [] {
      StateExchanges(Init(history), period);
      assert Init(TurnedAll(history)) == TurnedAll(Init(history));
      StepExchanges(After(Init(history), period), Last(history), period);
    }
  }

  /** Direction does not matter: turning every candle upside down leaves every answer as it is. */
  lemma AnswerOfTurned(history: seq<Candle>, period: nat)
    ensures Answer(TurnedAll(history), period) == Answer(history, period)
  {
    if history != [] {
      StateExchanges(Init(history), period);
      assert Init(TurnedAll(history)) == TurnedAll(Init(history));
      StepExchanges(After(Init(history), period), Last(history), period);
    }
  }

  /** So when every candle rises, by more than it falls, the index is 100 as well. */
  lemma RiseIsHundred(history: seq<Candle>, period: nat)
    requires Throughout(history, Rises) && Answer(history, period).Some?
    ensures Answer(history, period).value == 100.0
  {
    AnswerOfTurned(history, period);
    TurnedFalls(history);
    FallIsHundred(TurnedAll(history), period);
  }

  lemma TurnedFalls(history: seq<Candle>)
    requires Throughout(history, Rises)
    ensures Throughout(TurnedAll(history), Falls)
  {
    var turned := TurnedAll(history);
    forall i | 0 < i < |turned| ensures Falls(turned[i], turned[i - 1]) {
      assert Rises(history[i], history[i - 1]);
      RiseTurned(history[i], history[i - 1]);
    }
  }

  lemma RiseTurned(c: Candle, previous: Candle)
    requires Rises(c, previous)
    ensures Falls(Turned(c), Turned(previous))
  {
  }

  /** A wider candle counts for its longer side alone: up by 1 and down by 3 is a fall. */
  lemma WiderFallIsFall()
    ensures var first, second := Candle(Fin(10.0), Fin(8.0), Fin(9.0)), Candle(Fin(11.0), Fin(5.0), Fin(6.0));
      Answer([first, second], 1) == Some(100.0)
  {
    var first, second := Candle(Fin(10.0), Fin(8.0), Fin(9.0)), Candle(Fin(11.0), Fin(5.0), Fin(6.0));
    var history := [first, second];
    assert Streak(history) == 2 by {
      assert Init(history) == [first] && Init([first]) == [];
      assert Streak([first]) == 1;
    }
    forall j | 0 <= j < |history| ensures Moving(history[j]) {
    }
    EmitsExactlyWhenWarm(history, 1);
    forall i | 0 < i < |history| ensures Falls(history[i], history[i - 1]) {
    }
    FallIsHundred(history, 1);
  }
}
