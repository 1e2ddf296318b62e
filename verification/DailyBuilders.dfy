/** The loops that build the daily streams (scripts/hybrid_martingale_frontier_probe.py), for every lookback the
    functions can be called with: list positions count from the end when negative, as in Python. */
module DailyBuilders {
  import opened Common
  import opened Timeline
  import opened DailyStreams

  // ---------------------------------------------------------------- Python lists

  /** `items[i]`; `None` is its IndexError. */
  function At<T>(items: seq<T>, i: int): Option<T> {
    if 0 <= i < |items| then Some(items[i])
    else if -|items| <= i < 0 then Some(items[i + |items|])
    else None
  }

  /** Where a slice bound falls. */
  function Bound(n: nat, i: int): (b: nat)
    ensures b <= n
  {
    var j := if i < 0 then i + n else i;
    if j < 0 then 0 else if j > n then n else j
  }

  /** `items[low:high]`. */
  function Slice<T>(items: seq<T>, low: int, high: int): seq<T> {
    var a, b := Bound(|items|, low), Bound(|items|, high);
    if a <= b then items[a..b] else []
  }

  // ---------------------------------------------------------------- averages

  /** `ema_values`; `None` is the error for a period that is not positive. */
  method EmaValues(days: seq<Day>, period: int) returns (r: Option<seq<Option<real>>>)
    ensures r.Some? <==> period > 0
    ensures r.Some? ==> |r.value| == |days|
    ensures r.Some? ==> forall i :: 0 <= i < |days| ==>
      r.value[i] == if i + 1 >= period then Some(EmaOf(days[..i + 1], period)) else None
  {
    if period <= 0 {
      return None;
    }
    var out, ema: Option<real> := [], None;
    for index := 0 to |days|
      invariant |out| == index && ema == if index == 0 then None else Some(EmaOf(days[..index], period))
      invariant forall i :: 0 <= i < index ==>
        out[i] == if i + 1 >= period then Some(EmaOf(days[..i + 1], period)) else None
    {
      var value := days[index].close;
      if ema.None? {
        ema := Some(value);
      } else {
        assert Init(days[..index + 1]) == days[..index];
        ema := Some(EmaStep(ema.value, value, period));
      }
      assert ema == Some(EmaOf(days[..index + 1], period));
      out := out + [if index + 1 >= period then ema else None];
    }
    return Some(out);
  }

  // ---------------------------------------------------------------- one day

  /** The end of each loop body: pay for a change of position, then take the day's return. */
  method Trade(book: Book, desired: int, previous: real, close: real, feeBps: real) returns (after: Book)
    ensures after == TradeDay(book, desired, previous, close, feeBps)
  {
    var equity, position := book.equity, book.position;
    if desired != position {
      equity := AfterFee(equity, feeBps);
      position := desired;
    }
    if previous > 0.0 {
      if position == 1 {
        equity := Grown(equity, previous, close);
      } else if position == -1 {
        equity := Shorted(equity, previous, close);
      }
    }
    after := Book(equity, position);
  }

  /** What a loop holds. */
  datatype Progress = Progress(book: Book, points: seq<Point>)

  /** The progress of a well-formed strategy after a history. */
  function ProgressAfter(s: Strategy, history: seq<Day>, account: Account): Progress
    requires WellFormed(s)
  {
    Progress(BookAfter(s, history, account), PointsOf(s, history, account))
  }

  function Advanced(p: Progress, desired: int, previous: Day, day: Day, account: Account): Progress {
    var book := TradeDay(p.book, desired, previous.close, day.close, account.feeBps);
    Progress(book, p.points + [Point(day.time, book.equity)])
  }

  /** One more day of a well-formed strategy. */
  lemma ProgressNext(s: Strategy, days: seq<Day>, index: nat, account: Account)
    requires WellFormed(s) && First(s) <= index < |days|
    ensures var p := ProgressAfter(s, days[..index], account);
      ProgressAfter(s, days[..index + 1], account)
      == Advanced(p, Desired(s, days[..index], p.book.position), days[index - 1], days[index], account)
  {
    var history := days[..index + 1];
    assert Init(history) == days[..index] && Last(history) == days[index] && Last(days[..index]) == days[index - 1];
  }

  // ---------------------------------------------------------------- the trend stream

  /** The points of `build_trend_stream`; `None` is the error for a period that is not positive. */
  method BuildTrendStream(days: seq<Day>, allocation: real, fast: int, slow: int, feeBps: real)
      returns (r: Option<seq<Point>>)
    ensures var s := Trend(fast, slow);
      r == if WellFormed(s) then Some(PointsOf(s, days, Account(allocation, feeBps))) else None
  {
    var fastEma := EmaValues(days, fast);
    var slowEma := EmaValues(days, slow);
    if fastEma.None? || slowEma.None? {
      return None;
    }
    ghost var s, account := Trend(fast, slow), Account(allocation, feeBps);
    var maxPeriod := if fast >= slow then fast else slow;
    var book, points: seq<Point> := Book(allocation, 0), [];
    var index := 1;
    while index < |days|
      invariant index >= 1 && (index <= |days| || days == [])
      invariant index <= |days| ==> Progress(book, points) == ProgressAfter(s, days[..index], account)
      invariant days == [] ==> points == []
    {
      var prevFast, prevSlow := fastEma.value[index - 1], slowEma.value[index - 1];
      if prevFast.Some? && prevSlow.Some? && index >= maxPeriod {
        var desired := if prevFast.value > prevSlow.value then 1 else 0;
        assert days[..index - 1 + 1] == days[..index];
        ProgressNext(s, days, index, account);
        book := Trade(book, desired, days[index - 1].close, days[index].close, feeBps);
        points := points + [Point(days[index].time, book.equity)];
      }
      index := index + 1;
    }
    assert days[..|days|] == days;
    PointCount(s, days, account);
    if points == [] {
      points := Flat(days, maxPeriod, allocation);
    }
    return Some(points);
  }

  /** The stand-in of `build_trend_stream` for a stream without points. */
  function Flat(days: seq<Day>, from: nat, equity: real): (r: seq<Point>)
    ensures |days| <= from ==> r == []
  {
    if |days| <= from then [] else Flat(Init(days), from, equity) + [Point(Last(days).time, equity)]
  }

  // ---------------------------------------------------------------- streams with a lookback

  /** The position the loop wants at `index`; `None` is the error of a missing day or of an empty channel. */
  function Wanted(s: Strategy, days: seq<Day>, index: int, position: int): Option<int>
    requires !s.Trend?
  {
    match s
    case Momentum(lookback, mode) =>
      var previous, reference := At(days, index - 1), At(days, index - 1 - lookback);
      if previous.None? || reference.None? then None
      else Some(Follow(Rise(previous.value.close, reference.value.close), mode))
    case Donchian(lookback, mode) =>
      var window, signal := Slice(days, index - 1 - lookback, index - 1), At(days, index - 1);
      if window == [] || signal.None? then None else Some(Breakout(window, signal.value.close, mode, position))
  }

  /** The state of the loop before `index`; `None` once it has failed. */
  function Loop(s: Strategy, days: seq<Day>, index: int, account: Account): Option<Progress>
    requires !s.Trend? && index >= s.lookback + 1
    decreases index - s.lookback
  {
    if index == s.lookback + 1 then Some(Progress(Book(account.start, 0), []))
    else
      match Loop(s, days, index - 1, account)
      case None => None
      case Some(p) => LoopStep(s, days, index - 1, account, p)
  }

  function LoopStep(s: Strategy, days: seq<Day>, index: int, account: Account, p: Progress): Option<Progress>
    requires !s.Trend?
  {
    var desired, previous, day := Wanted(s, days, index, p.book.position), At(days, index - 1), At(days, index);
    if desired.None? || previous.None? || day.None? then None
    else Some(Advanced(p, desired.value, previous.value, day.value, account))
  }

  /** What the builder returns; `None` is an error. */
  function Stream(s: Strategy, days: seq<Day>, account: Account): Option<seq<Point>>
    requires !s.Trend?
  {
    if |days| <= s.lookback + 1 then Some([])
    else
      match Loop(s, days, |days|, account)
      case None => None
      case Some(p) => Some(p.points)
  }

  /** The loop body behind the signal. */
  method AdvanceLoop(p: Progress, days: seq<Day>, index: int, desired: int, account: Account)
      returns (r: Option<Progress>)
    ensures r == if At(days, index - 1).None? || At(days, index).None? then None
                 else Some(Advanced(p, desired, At(days, index - 1).value, At(days, index).value, account))
  {
    var previous, day := At(days, index - 1), At(days, index);
    if previous.None? || day.None? {
      return None;
    }
    var book := Trade(p.book, desired, previous.value.close, day.value.close, account.feeBps);
    return Some(Progress(book, p.points + [Point(day.value.time, book.equity)]));
  }

  lemma {:induction false} LoopFailed(s: Strategy, days: seq<Day>, index: int, later: int, account: Account)
    requires !s.Trend? && s.lookback + 1 <= index <= later && Loop(s, days, index, account).None?
    ensures Loop(s, days, later, account).None?
    decreases later - index
  {
    if index < later {
      LoopFailed(s, days, index, later - 1, account);
    }
  }

  /** One day of the momentum loop. */
  method MomentumDay(days: seq<Day>, account: Account, lookback: int, mode: Mode, index: int, p: Progress)
      returns (next: Option<Progress>)
    ensures next == LoopStep(Momentum(lookback, mode), days, index, account, p)
  {
    var previous, reference := At(days, index - 1), At(days, index - 1 - lookback);
    if previous.None? || reference.None? {
      return None;
    }
    var momentum := Rise(previous.value.close, reference.value.close);
    var desired := if momentum > 0.0 then 1 else if mode == LongShort && momentum < 0.0 then -1 else 0;
    next := AdvanceLoop(p, days, index, desired, account);
  }

  /** `build_momentum_stream`. */
  method BuildMomentumStream(days: seq<Day>, account: Account, lookback: int, mode: Mode)
      returns (r: Option<seq<Point>>)
    ensures r == Stream(Momentum(lookback, mode), days, account)
  {
    ghost var s := Momentum(lookback, mode);
    var p := Progress(Book(account.start, 0), []);
    if |days| <= lookback + 1 {
      return Some([]);
    }
    for index := lookback + 1 to |days|
      invariant Loop(s, days, index, account) == Some(p)
    {
      var next := MomentumDay(days, account, lookback, mode, index, p);
      LoopNext(s, days, index, account, p);
      if next.None? {
        LoopFailed(s, days, index + 1, |days|, account);
        return None;
      }
      p := next.value;
    }
    return Some(p.points);
  }

  method FollowChannel(window: seq<Day>, signalClose: real, mode: Mode, position: int) returns (desired: int)
    requires window != []
    ensures desired == Breakout(window, signalClose, mode, position)
  {
    var upper, lower := Highest(window), Lowest(window);
    desired := if signalClose > upper then 1 else if mode == LongShort && signalClose < lower then -1 else position;
    if mode == LongFlat && signalClose < lower {
      desired := 0;
    }
  }

  /** One day of the Donchian loop. */
  method DonchianDay(days: seq<Day>, account: Account, lookback: int, mode: Mode, index: int, p: Progress)
      returns (next: Option<Progress>)
    ensures next == LoopStep(Donchian(lookback, mode), days, index, account, p)
  {
    var window, signal := Slice(days, index - 1 - lookback, index - 1), At(days, index - 1);
    if window == [] || signal.None? {
      return None;
    }
    var desired := FollowChannel(window, signal.value.close, mode, p.book.position);
    next := AdvanceLoop(p, days, index, desired, account);
  }

  /** `build_donchian_stream`. */
  method BuildDonchianStream(days: seq<Day>, account: Account, lookback: int, mode: Mode)
      returns (r: Option<seq<Point>>)
    ensures r == Stream(Donchian(lookback, mode), days, account)
  {
    ghost var s := Donchian(lookback, mode);
    var p := Progress(Book(account.start, 0), []);
    if |days| <= lookback + 1 {
      return Some([]);
    }
    for index := lookback + 1 to |days|
      invariant Loop(s, days, index, account) == Some(p)
    {
      var next := DonchianDay(days, account, lookback, mode, index, p);
      LoopNext(s, days, index, account, p);
      if next.None? {
        LoopFailed(s, days, index + 1, |days|, account);
        return None;
      }
      p := next.value;
    }
    return Some(p.points);
  }

  // ---------------------------------------------------------------- what the builders return

  lemma SliceInside<T>(items: seq<T>, low: nat, high: nat)
    requires low <= high <= |items|
    ensures Slice(items, low, high) == items[low..high]
  {
  }

  lemma ChannelIsSlice(days: seq<Day>, index: nat, lookback: nat)
    requires 0 < lookback < index <= |days|
    ensures Slice(days, index - 1 - lookback, index - 1) == Channel(days[..index], lookback)
  {
    SliceInside(days, index - 1 - lookback, index - 1);
    assert days[..index][index - 1 - lookback..index - 1] == days[index - 1 - lookback..index - 1];
  }

  lemma WantedIsDesired(s: Strategy, days: seq<Day>, index: nat, position: int)
    requires !s.Trend? && WellFormed(s) && First(s) <= index < |days|
    ensures Wanted(s, days, index, position) == Some(Desired(s, days[..index], position))
  {
    var earlier := days[..index];
    assert Last(earlier) == days[index - 1];
    if s.Donchian? {
      ChannelIsSlice(days, index, s.lookback);
    } else {
      assert earlier[|earlier| - 1 - s.lookback] == days[index - 1 - s.lookback];
    }
  }

  lemma StepIsNext(s: Strategy, days: seq<Day>, index: nat, account: Account)
    requires !s.Trend? && WellFormed(s) && First(s) <= index < |days|
    ensures LoopStep(s, days, index, account, ProgressAfter(s, days[..index], account))
         == Some(ProgressAfter(s, days[..index + 1], account))
  {
    WantedIsDesired(s, days, index, ProgressAfter(s, days[..index], account).book.position);
    ProgressNext(s, days, index, account);
  }

  lemma {:induction false} LoopIsProgress(s: Strategy, days: seq<Day>, index: nat, account: Account)
    requires !s.Trend? && WellFormed(s) && First(s) <= index <= |days|
    ensures Loop(s, days, index, account) == Some(ProgressAfter(s, days[..index], account))
  {
    if index > First(s) {
      LoopIsProgress(s, days, index - 1, account);
      LoopGoesOn(s, days, index - 1, account);
    } else {
      LoopBegins(s, days, account);
    }
  }

  lemma LoopGoesOn(s: Strategy, days: seq<Day>, index: nat, account: Account)
    requires !s.Trend? && WellFormed(s) && First(s) <= index < |days|
    requires Loop(s, days, index, account) == Some(ProgressAfter(s, days[..index], account))
    ensures Loop(s, days, index + 1, account) == Some(ProgressAfter(s, days[..index + 1], account))
  {
    StepIsNext(s, days, index, account);
    LoopNext(s, days, index, account, ProgressAfter(s, days[..index], account));
  }

  lemma LoopNext(s: Strategy, days: seq<Day>, index: int, account: Account, p: Progress)
    requires !s.Trend? && index >= s.lookback + 1 && Loop(s, days, index, account) == Some(p)
    ensures Loop(s, days, index + 1, account) == LoopStep(s, days, index, account, p)
  {
  }

  lemma LoopBegins(s: Strategy, days: seq<Day>, account: Account)
    requires !s.Trend? && WellFormed(s) && First(s) <= |days|
    ensures Loop(s, days, First(s), account) == Some(ProgressAfter(s, days[..First(s)], account))
  {
  }

  /** With a sensible lookback the builder never fails and gives the points of the strategy. */
  lemma StreamIsPoints(s: Strategy, days: seq<Day>, account: Account)
    requires !s.Trend? && WellFormed(s)
    ensures Stream(s, days, account) == Some(PointsOf(s, days, account))
  {
    if |days| > First(s) {
      LoopIsProgress(s, days, |days|, account);
      assert days[..|days|] == days;
    }
  }

  lemma LastStepFails(s: Strategy, days: seq<Day>, account: Account, last: int)
    requires !s.Trend? && s.lookback + 1 <= last == |days| - 1
          && forall position :: Wanted(s, days, last, position).None?
    ensures Stream(s, days, account).None?
  {
  }

  /** Exactly when the momentum builder fails: a lookback below -1. */
  lemma MomentumFailsIff(days: seq<Day>, account: Account, lookback: int, mode: Mode)
    ensures Stream(Momentum(lookback, mode), days, account).None? <==> lookback < -1
  {
    var s := Momentum(lookback, mode);
    if lookback >= 0 {
      StreamIsPoints(s, days, account);
    } else if lookback < -1 {
      LastStepFails(s, days, account, |days| - 1);
    } else if days != [] {
      MinusOneRuns(days, |days|, account, mode);
    }
  }

  lemma {:induction false} MinusOneRuns(days: seq<Day>, index: nat, account: Account, mode: Mode)
    requires index <= |days|
    ensures Loop(Momentum(-1, mode), days, index, account).Some?
  {
    if index > 0 {
      MinusOneRuns(days, index - 1, account, mode);
    }
  }

  /** Exactly when the Donchian builder fails: an empty channel that is reached. */
  lemma DonchianFailsIff(days: seq<Day>, account: Account, lookback: int, mode: Mode)
    ensures Stream(Donchian(lookback, mode), days, account).None? <==> lookback <= 0 && |days| > lookback + 1
  {
    var s := Donchian(lookback, mode);
    if lookback > 0 {
      StreamIsPoints(s, days, account);
    } else if |days| > lookback + 1 {
      assert Slice(days, |days| - 2 - lookback, |days| - 2) == [];
      LastStepFails(s, days, account, |days| - 1);
    }
  }

  // ---------------------------------------------------------------- no lookahead, for every lookback

  /** How many of the first n days the loop visits. */
  function Visited(lookback: int, n: nat): nat {
    if lookback + 1 <= 0 then n else if n <= lookback + 1 then 0 else n - lookback - 1
  }

  function Take(points: seq<Point>, k: nat): seq<Point> {
    if k <= |points| then points[..k] else points
  }

  /** The points a stream has on the first n days. */
  function Early(stream: Option<seq<Point>>, lookback: int, n: nat): seq<Point> {
    match stream
    case None => []
    case Some(points) => Take(points, Visited(lookback, n))
  }

  /** What a builder says about the first n days depends on nothing later. */
  ghost predicate Causal(s: Strategy)
    requires !s.Trend?
  {
    forall a: seq<Day>, b: seq<Day>, account, n: nat | n <= |a| && n <= |b| && a[..n] == b[..n] ::
      Early(Stream(s, a, account), s.lookback, n) == Early(Stream(s, b, account), s.lookback, n)
  }

  lemma SensibleIsCausal(s: Strategy)
    requires !s.Trend? && WellFormed(s)
    ensures Causal(s)
  {
    forall a: seq<Day>, b: seq<Day>, account, n: nat | n <= |a| && n <= |b| && a[..n] == b[..n]
      ensures Early(Stream(s, a, account), s.lookback, n) == Early(Stream(s, b, account), s.lookback, n)
    {
      EarlyAgrees(s, a, b, account, n);
    }
  }

  lemma EarlyAgrees(s: Strategy, a: seq<Day>, b: seq<Day>, account: Account, n: nat)
    requires !s.Trend? && WellFormed(s) && n <= |a| && n <= |b| && a[..n] == b[..n]
    ensures Early(Stream(s, a, account), s.lookback, n) == Early(Stream(s, b, account), s.lookback, n)
  {
    StreamIsPoints(s, a, account);
    StreamIsPoints(s, b, account);
    assert Visited(s.lookback, n) == DaysShown(s, n);
    NoLookahead(s, a, b, account, n);
  }

  /** The momentum builder looks ahead for exactly one lookback: at -1 it compares with the day being traded, and its
      first day with the last of the list. */
  lemma MomentumCausalIff(lookback: int, mode: Mode)
    ensures Causal(Momentum(lookback, mode)) <==> lookback != -1
  {
    var s := Momentum(lookback, mode);
    if lookback >= 0 {
      SensibleIsCausal(s);
    } else if lookback < -1 {
      forall days, account ensures Stream(s, days, account).None? {
        MomentumFailsIff(days, account, lookback, mode);
      }
    } else {
      MinusOneLooksAhead(mode);
    }
  }

  /** Two histories with the same first day and different first points. */
  lemma MinusOneLooksAhead(mode: Mode)
    ensures !Causal(Momentum(-1, mode))
  {
    var s, account := Momentum(-1, mode), Account(1.0, 0.0);
    var a, b := [Day(0, 1.0), Day(1, 2.0)], [Day(0, 1.0), Day(1, 1.0)];
    assert a[..1] == b[..1] == [Day(0, 1.0)];
    FirstPoint(a, account, mode);
    FirstPoint(b, account, mode);
    assert Early(Stream(s, a, account), -1, 1) != Early(Stream(s, b, account), -1, 1);
  }

  lemma FirstPoint(days: seq<Day>, account: Account, mode: Mode)
    requires |days| == 2 && days[0] == Day(0, 1.0) && days[1].close > 0.0 && account == Account(1.0, 0.0)
    ensures Stream(Momentum(-1, mode), days, account).Some? && |Stream(Momentum(-1, mode), days, account).value| == 2
    ensures Stream(Momentum(-1, mode), days, account).value[0].equity
         == TradeDay(Book(1.0, 0), Follow(Rise(days[1].close, 1.0), mode), days[1].close, 1.0, 0.0).equity
  {
    var s := Momentum(-1, mode);
    var p1 := Loop(s, days, 1, account);
    assert p1 == LoopStep(s, days, 0, account, Progress(Book(1.0, 0), []));
    assert Loop(s, days, 2, account) == LoopStep(s, days, 1, account, p1.value);
  }

  /** The Donchian builder never looks ahead. */
  lemma DonchianCausal(lookback: int, mode: Mode)
    ensures Causal(Donchian(lookback, mode))
  {
    var s := Donchian(lookback, mode);
    if lookback > 0 {
      SensibleIsCausal(s);
    } else {
      forall days, account ensures Stream(s, days, account).None? || Stream(s, days, account) == Some([]) {
        DonchianFailsIff(days, account, lookback, mode);
      }
    }
  }
}
