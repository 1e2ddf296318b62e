/** Daily trend, momentum and Donchian equity streams (scripts/hybrid_martingale_frontier_probe.py): no lookahead, and
    what they do in a market that only rises or only falls. */
module DailyStreams {
  import opened Common
  import opened Timeline

  datatype Day = Day(time: int, close: real)

  datatype Mode = LongFlat | LongShort | OtherMode

  datatype Strategy =
    | Trend(fast: int, slow: int)
    | Momentum(lookback: int, mode: Mode)
    | Donchian(lookback: int, mode: Mode)

  // ---------------------------------------------------------------- signals

  function Weight(period: nat): (w: real)
    requires period > 0
    ensures 0.0 < w <= 1.0
  {
    WeightBounds(period);
    2.0 / (period as real + 1.0)
  }

  lemma WeightBounds(period: nat)
    requires period > 0
    ensures 0.0 < 2.0 / (period as real + 1.0) <= 1.0
  {
    var d := period as real + 1.0;
    var w := 2.0 / d;
    assert d >= 2.0 && w * d == 2.0;
    assert w > 0.0;
    assert (1.0 - w) * d == d - 2.0;
  }

  function EmaStep(previous: real, value: real, period: nat): real
    requires period > 0
  {
    Mix(Weight(period), value, previous)
  }

  function Mix(weight: real, value: real, previous: real): real {
    weight * value + (1.0 - weight) * previous
  }

  /** The running average of `ema_values` after a history, seeded with the first close. */
  function EmaOf(history: seq<Day>, period: nat): real
    requires history != [] && period > 0
  {
    if |history| == 1 then history[0].close else EmaStep(EmaOf(Init(history), period), Last(history).close, period)
  }

  /** `max` of the closes. */
  function Highest(days: seq<Day>): real
    requires days != []
  {
    if |days| == 1 then days[0].close else Max(Highest(Init(days)), Last(days).close)
  }

  /** `min` of the closes. */
  function Lowest(days: seq<Day>): real
    requires days != []
  {
    if |days| == 1 then days[0].close else Min(Lowest(Init(days)), Last(days).close)
  }

  lemma {:induction false} ExtremesBetween(days: seq<Day>, low: real, high: real)
    requires days != [] && forall i :: 0 <= i < |days| ==> low < days[i].close < high
    ensures low < Lowest(days) <= Highest(days) < high
  {
    if |days| > 1 {
      ExtremesBetween(Init(days), low, high);
    }
  }

  predicate WellFormed(s: Strategy) {
    match s
    case Trend(fast, slow) => fast > 0 && slow > 0
    case Momentum(lookback, _) => lookback >= 0
    case Donchian(lookback, _) => lookback > 0
  }

  /** Index of the first day with a point. */
  function First(s: Strategy): (n: nat)
    requires WellFormed(s)
    ensures n > 0
  {
    match s
    case Trend(fast, slow) => if fast >= slow then fast else slow
    case Momentum(lookback, _) => lookback + 1
    case Donchian(lookback, _) => lookback + 1
  }

  /** How far a close lies above a reference, as a fraction of it. */
  function Rise(close: real, reference: real): real {
    if reference > 0.0 then close / reference - 1.0 else 0.0
  }

  function Follow(momentum: real, mode: Mode): int {
    if momentum > 0.0 then 1 else if mode == LongShort && momentum < 0.0 then -1 else 0
  }

  function Channel(earlier: seq<Day>, lookback: nat): (w: seq<Day>)
    requires 0 < lookback < |earlier|
    ensures |w| == lookback
  {
    earlier[|earlier| - 1 - lookback..|earlier| - 1]
  }

  /** The position to hold on the day after a history. */
  function Desired(s: Strategy, earlier: seq<Day>, position: int): int
    requires WellFormed(s) && |earlier| >= First(s)
  {
    match s
    case Trend(fast, slow) => if EmaOf(earlier, fast) > EmaOf(earlier, slow) then 1 else 0
    case Momentum(lookback, mode) =>
      Follow(Rise(Last(earlier).close, earlier[|earlier| - 1 - lookback].close), mode)
    case Donchian(lookback, mode) =>
      Breakout(Channel(earlier, lookback), Last(earlier).close, mode, position)
  }

  function Breakout(window: seq<Day>, signal: real, mode: Mode, position: int): int
    requires window != []
  {
    if mode == LongFlat && signal < Lowest(window) then 0
    else if signal > Highest(window) then 1
    else if mode == LongShort && signal < Lowest(window) then -1
    else position
  }

  // ---------------------------------------------------------------- trading

  /** The starting equity and the fee of a change of position. */
  datatype Account = Account(start: real, feeBps: real)

  datatype Book = Book(equity: real, position: int)

  function AfterFee(equity: real, feeBps: real): real {
    equity * (1.0 - feeBps / 10_000.0)
  }

  function Held(equity: real, position: int, previous: real, close: real): real {
    if previous > 0.0 && position == 1 then Grown(equity, previous, close)
    else if previous > 0.0 && position == -1 then Shorted(equity, previous, close)
    else equity
  }

  function Grown(equity: real, from: real, to: real): real
    requires from > 0.0
  {
    equity * (to / from)
  }

  function Shorted(equity: real, from: real, to: real): real
    requires from > 0.0
  {
    equity * (2.0 - to / from)
  }

  function TradeDay(book: Book, desired: int, previous: real, close: real, feeBps: real): Book {
    var charged := if desired != book.position then AfterFee(book.equity, feeBps) else book.equity;
    Book(Held(charged, desired, previous, close), desired)
  }

  /** Equity and position after a history: each day's position is chosen from the days before it. */
  function BookAfter(s: Strategy, history: seq<Day>, account: Account): Book
    requires WellFormed(s)
  {
    if |history| <= First(s) then Book(account.start, 0)
    else
      var earlier := Init(history);
      var book := BookAfter(s, earlier, account);
      TradeDay(book, Desired(s, earlier, book.position), Last(earlier).close, Last(history).close, account.feeBps)
  }

  function PointAfter(s: Strategy, history: seq<Day>, account: Account): Point
    requires WellFormed(s) && history != []
  {
    Point(Last(history).time, BookAfter(s, history, account).equity)
  }

  /** One point for every day from the first on. */
  function PointsOf(s: Strategy, days: seq<Day>, account: Account): seq<Point>
    requires WellFormed(s)
  {
    if |days| <= First(s) then []
    else PointsOf(s, Init(days), account) + [PointAfter(s, days, account)]
  }

  // ---------------------------------------------------------------- no lookahead

  /** How many points the first n days give. */
  function DaysShown(s: Strategy, n: nat): nat
    requires WellFormed(s)
  {
    if n <= First(s) then 0 else n - First(s)
  }

  lemma {:induction false} PointCount(s: Strategy, days: seq<Day>, account: Account)
    requires WellFormed(s)
    ensures |PointsOf(s, days, account)| == DaysShown(s, |days|)
  {
    if |days| > First(s) {
      PointCount(s, Init(days), account);
    }
  }

  lemma {:induction false} PointsOfPrefix(s: Strategy, days: seq<Day>, account: Account, n: nat)
    requires WellFormed(s) && n <= |days|
    ensures PointsOf(s, days[..n], account) <= PointsOf(s, days, account)
  {
    if n == |days| {
      assert days[..n] == days;
    } else {
      PointsOfPrefix(s, Init(days), account, n);
      assert Init(days)[..n] == days[..n];
    }
  }

  lemma PrefixPoints(s: Strategy, days: seq<Day>, account: Account, n: nat)
    requires WellFormed(s) && n <= |days|
    ensures DaysShown(s, n) <= |PointsOf(s, days, account)|
    ensures PointsOf(s, days, account)[..DaysShown(s, n)] == PointsOf(s, days[..n], account)
  {
    PointsOfPrefix(s, days, account, n);
    PointCount(s, days[..n], account);
  }

  /** Histories that agree on the first n days give the same points on those days. */
  lemma NoLookahead(s: Strategy, a: seq<Day>, b: seq<Day>, account: Account, n: nat)
    requires WellFormed(s) && n <= |a| && n <= |b| && a[..n] == b[..n]
    ensures DaysShown(s, n) <= |PointsOf(s, a, account)| && DaysShown(s, n) <= |PointsOf(s, b, account)|
    ensures PointsOf(s, a, account)[..DaysShown(s, n)] == PointsOf(s, b, account)[..DaysShown(s, n)]
  {
    PrefixPoints(s, a, account, n);
    PrefixPoints(s, b, account, n);
  }

  lemma PointOnDay(s: Strategy, days: seq<Day>, account: Account, n: nat)
    requires WellFormed(s) && First(s) <= n < |days|
    ensures n - First(s) < |PointsOf(s, days, account)|
    ensures PointsOf(s, days, account)[n - First(s)] == PointAfter(s, days[..n + 1], account)
  {
    var history, k := days[..n + 1], n - First(s);
    PrefixPoints(s, days, account, n + 1);
    PointCount(s, Init(history), account);
    assert PointsOf(s, history, account)[k] == PointAfter(s, history, account);
    assert PointsOf(s, days, account)[k] == PointsOf(s, days, account)[..k + 1][k];
  }

  /** The output on day n is the position chosen from the days before n, with what was left after its fee, put to the
      closes of days n - 1 and n: whatever else day n brings, a history that agrees before it has the same position. */
  lemma PositionChosenBefore(s: Strategy, a: seq<Day>, b: seq<Day>, account: Account, n: nat)
      returns (equity: real, position: int)
    requires WellFormed(s) && First(s) <= n < |a| && n < |b| && a[..n] == b[..n]
    ensures n - First(s) < |PointsOf(s, a, account)| && n - First(s) < |PointsOf(s, b, account)|
    ensures PointsOf(s, a, account)[n - First(s)].equity == Held(equity, position, a[n - 1].close, a[n].close)
    ensures PointsOf(s, b, account)[n - First(s)].equity == Held(equity, position, a[n - 1].close, b[n].close)
  {
    PointOnDay(s, a, account, n);
    PointOnDay(s, b, account, n);
    var earlier := a[..n];
    assert Init(a[..n + 1]) == earlier && Init(b[..n + 1]) == earlier && Last(earlier) == a[n - 1];
    var book := BookAfter(s, earlier, account);
    position := Desired(s, earlier, book.position);
    equity := if position != book.position then AfterFee(book.equity, account.feeBps) else book.equity;
  }

  // ---------------------------------------------------------------- markets that move one way

  predicate Rising(days: seq<Day>) {
    && (forall i :: 0 <= i < |days| ==> days[i].close > 0.0)
    && forall i, j :: 0 <= i < j < |days| ==> days[i].close < days[j].close
  }

  predicate Falling(days: seq<Day>) {
    && (forall i :: 0 <= i < |days| ==> days[i].close > 0.0)
    && forall i, j :: 0 <= i < j < |days| ==> days[i].close > days[j].close
  }

  /** Settings under which the signal can tell a rise from a fall. */
  predicate Sensible(s: Strategy) {
    match s
    case Trend(fast, slow) => 0 < fast < slow
    case Momentum(lookback, _) => lookback > 0
    case Donchian(lookback, _) => lookback > 0
  }

  lemma WeightsOrdered(fast: nat, slow: nat)
    requires 0 < fast < slow
    ensures Weight(fast) > Weight(slow)
  {
    var f, s := fast as real + 1.0, slow as real + 1.0;
    var u, v := 2.0 / f, 2.0 / s;
    assert u * f == 2.0 && v * s == 2.0 && s > f;
    assert v * (s - f) > 0.0;
    assert (u - v) * f == v * (s - f);
  }

  /** Mixing in a larger value: more weight or a larger start gives more. */
  lemma MixMonotone(low: real, high: real, x: real, u: real, v: real)
    requires low <= high < x && 0.0 < v < u <= 1.0
    ensures Mix(v, x, low) < Mix(u, x, high) <= x
  {
    NonNegativeProduct(1.0 - u, high - low);
    PositiveProduct(u - v, x - low);
    NonNegativeProduct(1.0 - u, x - high);
    assert Mix(u, x, high) - Mix(u, x, low) == (1.0 - u) * (high - low);
    assert Mix(u, x, low) - Mix(v, x, low) == (u - v) * (x - low);
    assert x - Mix(u, x, high) == (1.0 - u) * (x - high);
  }

  lemma NonNegativeProduct(a: real, b: real)
    requires a >= 0.0 && b >= 0.0
    ensures a * b >= 0.0
  {
  }

  lemma PositiveProduct(a: real, b: real)
    requires a > 0.0 && b > 0.0
    ensures a * b > 0.0
  {
  }

  lemma {:induction false} RisingAverages(history: seq<Day>, fast: nat, slow: nat)
    requires 0 < fast < slow && history != [] && Rising(history)
    ensures EmaOf(history, slow) <= EmaOf(history, fast) <= Last(history).close
    ensures |history| > 1 ==> EmaOf(history, slow) < EmaOf(history, fast)
  {
    if |history| > 1 {
      RisingAverages(Init(history), fast, slow);
      WeightsOrdered(fast, slow);
      MixMonotone(EmaOf(Init(history), slow), EmaOf(Init(history), fast), Last(history).close, Weight(fast),
          Weight(slow));
    }
  }

  lemma MixNegated(weight: real, value: real, previous: real)
    ensures Mix(weight, -value, -previous) == -Mix(weight, value, previous)
  {
  }

  lemma {:induction false} FallingAverages(history: seq<Day>, fast: nat, slow: nat)
    requires 0 < fast < slow && history != [] && Falling(history)
    ensures EmaOf(history, slow) >= EmaOf(history, fast) >= Last(history).close
  {
    if |history| > 1 {
      FallingAverages(Init(history), fast, slow);
      WeightsOrdered(fast, slow);
      var low, high, x, u, v := EmaOf(Init(history), slow), EmaOf(Init(history), fast), Last(history).close,
          Weight(fast), Weight(slow);
      MixMonotone(-low, -high, -x, u, v);
      MixNegated(u, x, high);
      MixNegated(v, x, low);
    }
  }

  lemma RatioSide(x: real, y: real)
    requires y > 0.0
    ensures x > y ==> x / y - 1.0 > 0.0
    ensures x < y ==> x / y - 1.0 < 0.0
  {
    var q := x / y;
    assert q * y == x;
    assert (q - 1.0) * y == x - y;
  }

  lemma ChannelBelow(earlier: seq<Day>, lookback: nat)
    requires 0 < lookback < |earlier| && Rising(earlier)
    ensures Last(earlier).close > Highest(Channel(earlier, lookback)) >= Lowest(Channel(earlier, lookback))
  {
    ExtremesBetween(Channel(earlier, lookback), 0.0, Last(earlier).close);
  }

  lemma ChannelAbove(earlier: seq<Day>, lookback: nat)
    requires 0 < lookback < |earlier| && Falling(earlier)
    ensures Last(earlier).close < Lowest(Channel(earlier, lookback)) <= Highest(Channel(earlier, lookback))
  {
    ExtremesBetween(Channel(earlier, lookback), Last(earlier).close, earlier[0].close + 1.0);
  }

  lemma LongInRise(s: Strategy, earlier: seq<Day>, position: int)
    requires WellFormed(s) && Sensible(s) && |earlier| >= First(s) && Rising(earlier)
    ensures Desired(s, earlier, position) == 1
  {
    match s
    case Trend(fast, slow) => RisingAverages(earlier, fast, slow);
    case Momentum(lookback, _) => RatioSide(Last(earlier).close, earlier[|earlier| - 1 - lookback].close);
    case Donchian(lookback, _) => ChannelBelow(earlier, lookback);
  }

  lemma FlatInFall(s: Strategy, earlier: seq<Day>)
    requires WellFormed(s) && Sensible(s) && |earlier| >= First(s) && Falling(earlier)
    requires s.Trend? || s.mode != LongShort
    ensures Desired(s, earlier, 0) == 0
  {
    match s
    case Trend(fast, slow) => FallingAverages(earlier, fast, slow);
    case Momentum(lookback, _) => RatioSide(Last(earlier).close, earlier[|earlier| - 1 - lookback].close);
    case Donchian(lookback, _) => ChannelAbove(earlier, lookback);
  }

  /** Growth from a to b, then from b to c. */
  lemma Telescope(equity: real, a: real, b: real, c: real)
    requires a > 0.0 && b > 0.0
    ensures Grown(Grown(equity, a, b), b, c) == Grown(equity, a, c)
  {
    var p, q, w := b / a, c / b, c / a;
    assert p * a == b && q * b == c && w * a == c;
    assert (p * q) * a == q * (p * a);
    assert (p * q - w) * a == 0.0;
    assert p * q == w;
    assert (equity * p) * q == equity * (p * q);
  }

  /** In a market that only rises every strategy buys on its first day and holds: one fee, then the market's growth. */
  lemma {:induction false} RiseIsBuyAndHold(s: Strategy, history: seq<Day>, account: Account)
    requires WellFormed(s) && Sensible(s) && |history| > First(s) && Rising(history)
    ensures BookAfter(s, history, account) ==
      Book(Grown(AfterFee(account.start, account.feeBps), history[First(s) - 1].close, Last(history).close), 1)
  {
    var earlier, entry := Init(history), history[First(s) - 1].close;
    var book := BookAfter(s, earlier, account);
    LongInRise(s, earlier, book.position);
    if |earlier| > First(s) {
      RiseIsBuyAndHold(s, earlier, account);
      Telescope(AfterFee(account.start, account.feeBps), entry, Last(earlier).close, Last(history).close);
    } else {
      assert book == Book(account.start, 0) && Last(earlier).close == entry;
    }
  }

  /** In a market that only falls a strategy that does not short never trades. */
  lemma {:induction false} FallIsNoTrade(s: Strategy, history: seq<Day>, account: Account)
    requires WellFormed(s) && Sensible(s) && Falling(history)
    requires s.Trend? || s.mode != LongShort
    ensures BookAfter(s, history, account) == Book(account.start, 0)
  {
    if |history| > First(s) {
      FallIsNoTrade(s, Init(history), account);
      FlatInFall(s, Init(history));
    }
  }
}
