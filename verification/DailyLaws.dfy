/** The trading rules of the daily streams (scripts/hybrid_martingale_frontier_probe.py), told by closes alone, for any
    market: which position is held on a day, and what the day does to the equity. */
module DailyLaws {
  import opened Common
  import opened DailyStreams

  // ---------------------------------------------------------------- one day's result

  /** A position earns its share of the change of price: all of it long, its opposite short, nothing flat. */
  ghost predicate Earns(equity: real, position: int, previous: real, close: real, after: real) {
    (after - equity) * previous == position as real * equity * (close - previous)
  }

  lemma HeldEarns(equity: real, position: int, previous: real, close: real)
    requires previous > 0.0 && -1 <= position <= 1
    ensures Earns(equity, position, previous, close, Held(equity, position, previous, close))
  {
    var q := close / previous;
    assert q * previous == close;
    if position == 1 {
      LongEarns(equity, previous, close, q);
    } else if position == -1 {
      ShortEarns(equity, previous, close, q);
    }
  }

  lemma LongEarns(equity: real, previous: real, close: real, q: real)
    requires q * previous == close
    ensures Earns(equity, 1, previous, close, equity * q)
  {
    assert (equity * q) * previous == equity * (q * previous);
  }

  lemma ShortEarns(equity: real, previous: real, close: real, q: real)
    requires q * previous == close
    ensures Earns(equity, -1, previous, close, equity * (2.0 - q))
  {
    assert (equity * (2.0 - q)) * previous == equity * (2.0 * previous - q * previous);
  }

  /** A change of position costs `feeBps` hundredths of a percent of the equity. */
  ghost predicate Charges(equity: real, feeBps: real, after: real) {
    (equity - after) * 10_000.0 == equity * feeBps
  }

  lemma FeeCharges(equity: real, feeBps: real)
    ensures Charges(equity, feeBps, AfterFee(equity, feeBps))
  {
    var f := feeBps / 10_000.0;
    assert f * 10_000.0 == feeBps;
    assert equity - equity * (1.0 - f) == equity * f;
    assert (equity * f) * 10_000.0 == equity * (f * 10_000.0);
  }

  // ---------------------------------------------------------------- which position

  /** The last close lies above, or below, every close of the `lookback` days before it. */
  ghost predicate BreaksUp(earlier: seq<Day>, lookback: int) {
    forall i :: 0 <= |earlier| - 1 - lookback <= i < |earlier| - 1 ==> earlier[i].close < Last(earlier).close
  }

  ghost predicate BreaksDown(earlier: seq<Day>, lookback: int) {
    forall i :: 0 <= |earlier| - 1 - lookback <= i < |earlier| - 1 ==> earlier[i].close > Last(earlier).close
  }

  /** The rule of each strategy: which position follows `held` after the days `earlier`. */
  ghost predicate Rule(s: Strategy, earlier: seq<Day>, held: int, position: int)
    requires WellFormed(s) && |earlier| >= First(s)
  {
    match s
    case Trend(fast, slow) =>
      position == if EmaOf(earlier, fast) > EmaOf(earlier, slow) then 1 else 0
    case Momentum(lookback, mode) =>
      var last, before := Last(earlier).close, earlier[|earlier| - 1 - lookback].close;
      position == if before > 0.0 && last > before then 1
                  else if before > 0.0 && last < before && mode == LongShort then -1 else 0
    case Donchian(lookback, mode) =>
      position == if BreaksUp(earlier, lookback) then 1
                  else if BreaksDown(earlier, lookback) && mode == LongFlat then 0
                  else if BreaksDown(earlier, lookback) && mode == LongShort then -1 else held
  }

  lemma {:induction false} HighestOver(days: seq<Day>, x: real)
    requires days != []
    ensures x > Highest(days) <==> forall i :: 0 <= i < |days| ==> days[i].close < x
    ensures x < Lowest(days) <==> forall i :: 0 <= i < |days| ==> days[i].close > x
  {
    if |days| > 1 {
      HighestOver(Init(days), x);
      assert forall i :: 0 <= i < |days| - 1 ==> days[i] == Init(days)[i];
    }
  }

  lemma ChannelBreaks(earlier: seq<Day>, lookback: nat)
    requires 0 < lookback < |earlier|
    ensures Last(earlier).close > Highest(Channel(earlier, lookback)) <==> BreaksUp(earlier, lookback)
    ensures Last(earlier).close < Lowest(Channel(earlier, lookback)) <==> BreaksDown(earlier, lookback)
  {
    var window, from := Channel(earlier, lookback), |earlier| - 1 - lookback;
    HighestOver(window, Last(earlier).close);
    assert forall i :: 0 <= i < lookback ==> window[i] == earlier[from + i];
    assert forall i :: from <= i < |earlier| - 1 ==> earlier[i] == window[i - from];
  }

  lemma NotBothWays(earlier: seq<Day>, lookback: nat)
    requires 0 < lookback < |earlier|
    ensures !(BreaksUp(earlier, lookback) && BreaksDown(earlier, lookback))
  {
    var i := |earlier| - 1 - lookback;
    assert 0 <= i < |earlier| - 1;
    assert !(earlier[i].close < Last(earlier).close && earlier[i].close > Last(earlier).close);
  }

  lemma RatioSame(x: real)
    requires x > 0.0
    ensures x / x - 1.0 == 0.0
  {
  }

  /** The position wanted is the one of the rule. */
  lemma DesiredFollowsRule(s: Strategy, earlier: seq<Day>, position: int)
    requires WellFormed(s) && |earlier| >= First(s)
    ensures Rule(s, earlier, position, Desired(s, earlier, position))
  {
    match s
    case Trend(_, _) =>
    case Momentum(lookback, _) =>
      var before := earlier[|earlier| - 1 - lookback].close;
      if before > 0.0 {
        RatioSide(Last(earlier).close, before);
        RatioSame(before);
      }
    case Donchian(lookback, _) =>
      ChannelBreaks(earlier, lookback);
      NotBothWays(earlier, lookback);
  }

  // ---------------------------------------------------------------- every day of every stream

  lemma {:induction false} PositionsAreUnits(s: Strategy, history: seq<Day>, account: Account)
    requires WellFormed(s)
    ensures -1 <= BookAfter(s, history, account).position <= 1
  {
    if |history| > First(s) {
      PositionsAreUnits(s, Init(history), account);
    }
  }

  /** Every day of every stream, in any market: the position is the one the rule gives for the days before, a change
      of it costs one fee, and then it earns its share of the change of the close. */
  lemma DayFollowsRule(s: Strategy, history: seq<Day>, account: Account) returns (charged: real)
    requires WellFormed(s) && |history| > First(s)
    ensures var before, after := BookAfter(s, Init(history), account), BookAfter(s, history, account);
      && Rule(s, Init(history), before.position, after.position)
      && (if after.position == before.position then charged == before.equity
          else Charges(before.equity, account.feeBps, charged))
      && (if Last(Init(history)).close > 0.0
          then Earns(charged, after.position, Last(Init(history)).close, Last(history).close, after.equity)
          else after.equity == charged)
  {
    var earlier := Init(history);
    var book := BookAfter(s, earlier, account);
    var wanted := Desired(s, earlier, book.position);
    DesiredFollowsRule(s, earlier, book.position);
    PositionsAreUnits(s, history, account);
    charged := if wanted != book.position then AfterFee(book.equity, account.feeBps) else book.equity;
    FeeCharges(book.equity, account.feeBps);
    DayIs(book, wanted, Last(earlier).close, Last(history).close, account.feeBps, charged);
  }

  lemma DayIs(book: Book, wanted: int, previous: real, close: real, feeBps: real, charged: real)
    requires -1 <= wanted <= 1
    requires charged == if wanted != book.position then AfterFee(book.equity, feeBps) else book.equity
    ensures var after := TradeDay(book, wanted, previous, close, feeBps);
      && after.position == wanted
      && (if previous > 0.0 then Earns(charged, wanted, previous, close, after.equity) else after.equity == charged)
  {
    if previous > 0.0 {
      HeldEarns(charged, wanted, previous, close);
    }
  }

  /** The average behind the trend: it starts at the first close, and each close moves it by 2 / (period + 1) of the
      way. */
  lemma TrendAverageMoves(history: seq<Day>, period: nat)
    requires history != [] && period > 0
    ensures |history| == 1 ==> EmaOf(history, period) == history[0].close
    ensures |history| > 1 ==>
      var e := EmaOf(Init(history), period);
      (EmaOf(history, period) - e) * (period + 1) as real == 2.0 * (Last(history).close - e)
  {
    if |history| > 1 {
      MixMoves(Weight(period), Last(history).close, EmaOf(Init(history), period), period as real + 1.0);
      assert (period + 1) as real == period as real + 1.0;
    }
  }

  lemma MixMoves(weight: real, value: real, previous: real, n: real)
    requires weight * n == 2.0
    ensures (Mix(weight, value, previous) - previous) * n == 2.0 * (value - previous)
  {
    assert Mix(weight, value, previous) - previous == weight * (value - previous);
    assert (weight * (value - previous)) * n == (weight * n) * (value - previous);
  }

  // ---------------------------------------------------------------- a falling market, short

  lemma ShortInFall(s: Strategy, earlier: seq<Day>, position: int)
    requires WellFormed(s) && Sensible(s) && |earlier| >= First(s) && Falling(earlier)
    requires !s.Trend? && s.mode == LongShort
    ensures Desired(s, earlier, position) == -1
  {
    match s
    case Momentum(lookback, _) => RatioSide(Last(earlier).close, earlier[|earlier| - 1 - lookback].close);
    case Donchian(lookback, _) => ChannelAbove(earlier, lookback);
  }

  /** What a short position makes of an equity over the closes from day `from` on: each day gains what the close loses
      (`ShortEarns`). */
  function SoldShort(equity: real, history: seq<Day>, from: nat): real
    requires from < |history| && forall i :: 0 <= i < |history| ==> history[i].close > 0.0
  {
    if |history| == from + 1 then equity
    else Shorted(SoldShort(equity, Init(history), from), Last(Init(history)).close, Last(history).close)
  }

  /** In a market that only falls a strategy that may short sells on its first day and holds: one fee, then the gains of
      the short position. */
  lemma {:induction false} FallIsSellAndHold(s: Strategy, history: seq<Day>, account: Account)
    requires WellFormed(s) && Sensible(s) && |history| > First(s) && Falling(history)
    requires !s.Trend? && s.mode == LongShort
    ensures BookAfter(s, history, account) ==
      Book(SoldShort(AfterFee(account.start, account.feeBps), history, First(s) - 1), -1)
  {
    var earlier := Init(history);
    ShortInFall(s, earlier, BookAfter(s, earlier, account).position);
    if |earlier| > First(s) {
      FallIsSellAndHold(s, earlier, account);
    }
  }
}
