/** Live candle aggregation of apps/trading-engine/src/martingale_candle.rs.

    `CompleteBars` folds ticks into one open bucket per symbol and emits a bar whenever a tick opens a later one.
    It is proved against a specification that never mentions buckets: group the accepted, not-late ticks of
    a symbol by time slot. */
module Candles {
  import Arithmetic
  import opened Common

  /** `price` is `None` where the decimal price has no finite positive `f64`. */
  datatype Tick = Tick(symbol: string, market: string, price: Option<real>, eventTime: int)

  datatype Bucket = Bucket(openTime: int, open: real, high: real, low: real, close: real)

  datatype Bar = Bar(symbol: string, bucket: Bucket)

  predicate Accepted(tick: Tick) {
    && (tick.market == "usdm" || tick.market == "futures" || tick.market == "usd_m_futures")
    && tick.price.Some? && tick.price.value > 0.0
  }

  /** Start of the time slot of an event; `/` is Euclidean, as `div_euclid` is. */
  function SlotOf(eventTime: int, bucketMs: int): int
    requires bucketMs != 0
  {
    eventTime / bucketMs * bucketMs
  }

  function NewBucket(openTime: int, price: real): Bucket { Bucket(openTime, price, price, price, price) }

  function Update(b: Bucket, price: real): Bucket {
    b.(high := Max(b.high, price), low := Min(b.low, price), close := price)
  }

  // ---------------------------------------------------------------- the fold

  datatype Folded = Folded(buckets: map<string, Bucket>, completed: seq<Bar>)

  function FoldTick(f: Folded, tick: Tick, bucketMs: int): Folded
    requires bucketMs != 0
  {
    if !Accepted(tick) then f
    else
      var slot, price := SlotOf(tick.eventTime, bucketMs), tick.price.value;
      if tick.symbol !in f.buckets then f.(buckets := f.buckets[tick.symbol := NewBucket(slot, price)])
      else
        var bucket := f.buckets[tick.symbol];
        if bucket.openTime == slot then f.(buckets := f.buckets[tick.symbol := Update(bucket, price)])
        else if bucket.openTime < slot then
          Folded(f.buckets[tick.symbol := NewBucket(slot, price)], f.completed + [Bar(tick.symbol, bucket)])
        else f
  }

  function FoldTicks(f: Folded, ticks: seq<Tick>, bucketMs: int): Folded
    requires bucketMs != 0
  {
    if ticks == [] then f else FoldTick(FoldTicks(f, ticks[..|ticks| - 1], bucketMs), ticks[|ticks| - 1], bucketMs)
  }

  /** The aggregator: the map that the source threads through its calls. */
  class Aggregator {
    var buckets: map<string, Bucket>

    constructor ()
      ensures buckets == map[]
    {
      buckets := map[];
    }

    /** `complete_bars`. */
    method CompleteBars(ticks: seq<Tick>, bucketMs: int) returns (completed: seq<Bar>)
      requires bucketMs != 0
      modifies this
      ensures Folded(buckets, completed) == FoldTicks(Folded(old(buckets), []), ticks, bucketMs)
    {
      completed := [];
      for i := 0 to |ticks|
        invariant Folded(buckets, completed) == FoldTicks(Folded(old(buckets), []), ticks[..i], bucketMs)
      {
        assert ticks[..i + 1][..i] == ticks[..i];
        var tick := ticks[i];
        if tick.market != "usdm" && tick.market != "futures" && tick.market != "usd_m_futures" {
          continue;
        }
        if tick.price.None? || tick.price.value <= 0.0 {
          continue;
        }
        var price := tick.price.value;
        var slot := SlotOf(tick.eventTime, bucketMs);
        if tick.symbol in buckets {
          var bucket := buckets[tick.symbol];
          if bucket.openTime == slot {
            buckets := buckets[tick.symbol := Update(bucket, price)];
          } else if bucket.openTime < slot {
            buckets := buckets[tick.symbol := NewBucket(slot, price)];
            completed := completed + [Bar(tick.symbol, bucket)];
          }
        } else {
          buckets := buckets[tick.symbol := NewBucket(slot, price)];
        }
      }
      assert ticks[..|ticks|] == ticks;
    }
  }

  /** Splitting a tick list over several calls changes nothing. */
  lemma {:induction false} FoldSplits(f: Folded, a: seq<Tick>, b: seq<Tick>, bucketMs: int)
    requires bucketMs != 0
    ensures FoldTicks(f, a + b, bucketMs) == FoldTicks(FoldTicks(f, a, bucketMs), b, bucketMs)
  {
    if b == [] {
      assert a + b == a;
    } else {
      FoldSplits(f, a, b[..|b| - 1], bucketMs);
      assert (a + b)[..|a + b| - 1] == a + b[..|b| - 1];
    }
  }

  /** The completed bars of a call do not depend on what was completed before. */
  lemma {:induction false} CompletedAppends(f: Folded, before: seq<Bar>, ticks: seq<Tick>, bucketMs: int)
    requires bucketMs != 0
    ensures FoldTicks(Folded(f.buckets, before + f.completed), ticks, bucketMs)
            == Folded(FoldTicks(f, ticks, bucketMs).buckets, before + FoldTicks(f, ticks, bucketMs).completed)
  {
    if ticks != [] {
      CompletedAppends(f, before, ticks[..|ticks| - 1], bucketMs);
    }
  }

  function Calls(buckets: map<string, Bucket>, calls: seq<seq<Tick>>, bucketMs: int): Folded
    requires bucketMs != 0
  {
    if calls == [] then Folded(buckets, [])
    else
      var before := Calls(buckets, calls[..|calls| - 1], bucketMs);
      var last := FoldTicks(Folded(before.buckets, []), calls[|calls| - 1], bucketMs);
      Folded(last.buckets, before.completed + last.completed)
  }

  function Concat(calls: seq<seq<Tick>>): seq<Tick> {
    if calls == [] then [] else Concat(calls[..|calls| - 1]) + calls[|calls| - 1]
  }

  /** Any way of cutting the ticks into calls emits the same bars and leaves the same buckets. */
  lemma {:induction false} CallsAreOneFold(buckets: map<string, Bucket>, calls: seq<seq<Tick>>, bucketMs: int)
    requires bucketMs != 0
    ensures Calls(buckets, calls, bucketMs) == FoldTicks(Folded(buckets, []), Concat(calls), bucketMs)
  {
    if calls != [] {
      var front, last := calls[..|calls| - 1], calls[|calls| - 1];
      CallsAreOneFold(buckets, front, bucketMs);
      var before := Calls(buckets, front, bucketMs);
      FoldSplits(Folded(buckets, []), Concat(front), last, bucketMs);
      CompletedAppends(Folded(before.buckets, []), before.completed, last, bucketMs);
      assert before.completed + [] == before.completed;
    }
  }

  // ---------------------------------------------------------------- specification by grouping

  /** A tick that counts for one symbol: its slot and its price. */
  datatype Quote = Quote(slot: int, price: real)

  /** The accepted ticks of a symbol, without those that arrive after a later slot was seen. */
  function Quotes(ticks: seq<Tick>, symbol: string, bucketMs: int): seq<Quote>
    requires bucketMs != 0
  {
    if ticks == [] then []
    else
      var before := Quotes(ticks[..|ticks| - 1], symbol, bucketMs);
      var tick := ticks[|ticks| - 1];
      if tick.symbol != symbol || !Accepted(tick) then before
      else
        var slot := SlotOf(tick.eventTime, bucketMs);
        if exists i :: 0 <= i < |before| && before[i].slot > slot then before
        else before + [Quote(slot, tick.price.value)]
  }

  /** Prices quoted in one slot, in order. */
  function PricesIn(quotes: seq<Quote>, slot: int): seq<real> {
    if quotes == [] then []
    else
      var last := quotes[|quotes| - 1];
      PricesIn(quotes[..|quotes| - 1], slot) + if last.slot == slot then [last.price] else []
  }

  /** The slots quoted, in order of first appearance. */
  function Slots(quotes: seq<Quote>): seq<int> {
    if quotes == [] then []
    else
      var before := Slots(quotes[..|quotes| - 1]);
      if quotes[|quotes| - 1].slot in before then before else before + [quotes[|quotes| - 1].slot]
  }

  /** Open first, close last, high and low the extremes of the slot's prices. */
  ghost predicate Summarises(b: Bucket, slot: int, prices: seq<real>) {
    && prices != [] && b.openTime == slot
    && b.open == prices[0] && b.close == prices[|prices| - 1]
    && b.high in prices && (forall p :: p in prices ==> p <= b.high)
    && b.low in prices && (forall p :: p in prices ==> b.low <= p)
  }

  function BarsOf(bars: seq<Bar>, symbol: string): seq<Bucket> {
    if bars == [] then []
    else
      var last := bars[|bars| - 1];
      BarsOf(bars[..|bars| - 1], symbol) + if last.symbol == symbol then [last.bucket] else []
  }

  /** Emitted bars of a symbol followed by its open bucket, if any. */
  function History(f: Folded, symbol: string): seq<Bucket> {
    BarsOf(f.completed, symbol) + (if symbol in f.buckets then [f.buckets[symbol]] else [])
  }

  /** One bucket per slot, in strictly increasing slot order, each summarising its slot. */
  ghost predicate Describes(h: seq<Bucket>, quotes: seq<Quote>) {
    && |h| == |Slots(quotes)|
    && Ascending(Slots(quotes))
    && (forall i :: 0 <= i < |quotes| ==> quotes[i].slot in Slots(quotes))
    && (forall i :: 0 <= i < |h| ==> SummarisesAt(h, quotes, i))
  }

  ghost predicate SummarisesAt(h: seq<Bucket>, quotes: seq<Quote>, i: nat)
    requires i < |h| == |Slots(quotes)|
  {
    Summarises(h[i], Slots(quotes)[i], PricesIn(quotes, Slots(quotes)[i]))
  }

  /** The emitted bars and the open bucket of a symbol describe its quotes; there is an open bucket, the last one, as
      soon as there is a quote. */
  ghost predicate Grouped(f: Folded, quotes: seq<Quote>, symbol: string) {
    Describes(History(f, symbol), quotes) && (symbol in f.buckets <==> quotes != [])
  }

  lemma QuoteAppended(quotes: seq<Quote>, q: Quote, slot: int)
    ensures PricesIn(quotes + [q], slot) == PricesIn(quotes, slot) + (if q.slot == slot then [q.price] else [])
    ensures Slots(quotes + [q]) == if q.slot in Slots(quotes) then Slots(quotes) else Slots(quotes) + [q.slot]
  {
    assert (quotes + [q])[..|quotes|] == quotes;
  }

  lemma EarlierPrices(quotes: seq<Quote>, q: Quote, slot: int)
    requires slot != q.slot
    ensures PricesIn(quotes + [q], slot) == PricesIn(quotes, slot)
  {
    QuoteAppended(quotes, q, slot);
  }

  lemma BarAppended(bars: seq<Bar>, bar: Bar, symbol: string)
    ensures BarsOf(bars + [bar], symbol) == BarsOf(bars, symbol) + (if bar.symbol == symbol then [bar.bucket] else [])
  {
    assert (bars + [bar])[..|bars|] == bars;
  }

  /** Ticks of other symbols, other markets or without a usable price leave a symbol's history alone. */
  lemma NoInterference(f: Folded, tick: Tick, symbol: string, bucketMs: int)
    requires bucketMs != 0 && (tick.symbol != symbol || !Accepted(tick))
    ensures History(FoldTick(f, tick, bucketMs), symbol) == History(f, symbol)
    ensures symbol in FoldTick(f, tick, bucketMs).buckets <==> symbol in f.buckets
  {
    if Accepted(tick) && tick.symbol in f.buckets {
      BarAppended(f.completed, Bar(tick.symbol, f.buckets[tick.symbol]), symbol);
    }
  }

  lemma {:induction false} SlotIsQuoted(quotes: seq<Quote>, slot: int) returns (i: nat)
    requires slot in Slots(quotes)
    ensures i < |quotes| && quotes[i].slot == slot
  {
    if quotes[|quotes| - 1].slot == slot {
      i := |quotes| - 1;
    } else {
      i := SlotIsQuoted(quotes[..|quotes| - 1], slot);
    }
  }

  lemma {:induction false} UnquotedSlotHasNoPrices(quotes: seq<Quote>, slot: int)
    requires forall i :: 0 <= i < |quotes| ==> quotes[i].slot != slot
    ensures PricesIn(quotes, slot) == []
  {
    if quotes != [] {
      UnquotedSlotHasNoPrices(quotes[..|quotes| - 1], slot);
    }
  }

  lemma SummaryUpdated(b: Bucket, slot: int, prices: seq<real>, price: real)
    requires Summarises(b, slot, prices)
    ensures Summarises(Update(b, price), slot, prices + [price])
  {
    assert (prices + [price])[|prices|] == price;
    assert forall p :: p in prices + [price] <==> p in prices || p == price;
  }

  ghost predicate Ascending(slots: seq<int>) {
    forall i, j :: 0 <= i < j < |slots| ==> slots[i] < slots[j]
  }

  lemma LastIsGreatest(slots: seq<int>, x: int)
    requires Ascending(slots) && x in slots
    ensures x <= slots[|slots| - 1]
  {
  }

  lemma LastSlotIsGreatest(h: seq<Bucket>, quotes: seq<Quote>)
    requires Describes(h, quotes) && h != []
    ensures h[|h| - 1].openTime == Slots(quotes)[|h| - 1]
    ensures forall k :: 0 <= k < |quotes| ==> quotes[k].slot <= h[|h| - 1].openTime
  {
    var slots := Slots(quotes);
    assert SummarisesAt(h, quotes, |h| - 1);
    forall k | 0 <= k < |quotes|
      ensures quotes[k].slot <= slots[|h| - 1]
    {
      LastIsGreatest(slots, quotes[k].slot);
    }
  }

  lemma LastSlotIsQuoted(h: seq<Bucket>, quotes: seq<Quote>)
    requires Describes(h, quotes) && h != []
    ensures exists k :: 0 <= k < |quotes| && quotes[k].slot == h[|h| - 1].openTime
  {
    LastSlotIsGreatest(h, quotes);
    var k := SlotIsQuoted(quotes, Slots(quotes)[|h| - 1]);
    assert quotes[k].slot == h[|h| - 1].openTime;
  }

  /** The quote falls into the last slot. */
  lemma SameSlot(h: seq<Bucket>, quotes: seq<Quote>, price: real)
    requires Describes(h, quotes) && h != []
    ensures Describes(h[..|h| - 1] + [Update(h[|h| - 1], price)], quotes + [Quote(h[|h| - 1].openTime, price)])
  {
    LastSlotIsGreatest(h, quotes);
    var last := |h| - 1;
    var q := Quote(h[last].openTime, price);
    var h', quotes' := h[..last] + [Update(h[last], price)], quotes + [q];
    QuoteAppended(quotes, q, q.slot);
    assert Slots(quotes') == Slots(quotes);
    forall i | 0 <= i < |h'|
      ensures SummarisesAt(h', quotes', i)
    {
      QuoteAppended(quotes, q, Slots(quotes)[i]);
      assert SummarisesAt(h, quotes, i);
      if i == last {
        SummaryUpdated(h[last], q.slot, PricesIn(quotes, q.slot), price);
      }
    }
  }

  lemma SingleSummary(slot: int, price: real)
    ensures Summarises(NewBucket(slot, price), slot, [price])
  {
  }

  /** The quote opens a slot after all the others, or the first one. */
  lemma LaterSlot(h: seq<Bucket>, quotes: seq<Quote>, slot: int, price: real)
    requires Describes(h, quotes) && (h != [] ==> h[|h| - 1].openTime < slot)
    ensures Describes(h + [NewBucket(slot, price)], quotes + [Quote(slot, price)])
    ensures forall i :: 0 <= i < |quotes| ==> quotes[i].slot < slot
  {
    if h != [] {
      LastSlotIsGreatest(h, quotes);
    }
    var slots := Slots(quotes);
    forall i | 0 <= i < |quotes| ensures quotes[i].slot < slot {
      assert quotes[i].slot in slots;
    }
    LaterSlots(quotes, slot, price);
    forall i | 0 <= i <= |h|
      ensures SummarisesAt(h + [NewBucket(slot, price)], quotes + [Quote(slot, price)], i)
    {
      LaterSummary(h, quotes, slot, price, i);
    }
  }

  lemma LaterSummary(h: seq<Bucket>, quotes: seq<Quote>, slot: int, price: real, i: nat)
    requires Describes(h, quotes) && i <= |h|
    requires forall i :: 0 <= i < |quotes| ==> quotes[i].slot < slot
    requires Slots(quotes + [Quote(slot, price)]) == Slots(quotes) + [slot]
    ensures SummarisesAt(h + [NewBucket(slot, price)], quotes + [Quote(slot, price)], i)
  {
    if i < |h| {
      var earlier := Slots(quotes)[i];
      var k := SlotIsQuoted(quotes, earlier);
      EarlierPrices(quotes, Quote(slot, price), earlier);
      assert SummarisesAt(h, quotes, i);
    } else {
      QuoteAppended(quotes, Quote(slot, price), slot);
      UnquotedSlotHasNoPrices(quotes, slot);
      assert [] + [price] == [price];
      SingleSummary(slot, price);
    }
  }

  lemma LaterSlots(quotes: seq<Quote>, slot: int, price: real)
    requires forall i :: 0 <= i < |quotes| ==> quotes[i].slot < slot
    requires Ascending(Slots(quotes))
    requires forall i :: 0 <= i < |quotes| ==> quotes[i].slot in Slots(quotes)
    ensures var quotes' := quotes + [Quote(slot, price)];
            && Slots(quotes') == Slots(quotes) + [slot]
            && Ascending(Slots(quotes'))
            && (forall i :: 0 <= i < |quotes'| ==> quotes'[i].slot in Slots(quotes'))
  {
    QuoteAppended(quotes, Quote(slot, price), slot);
    forall i | 0 <= i < |Slots(quotes)|
      ensures Slots(quotes)[i] < slot
    {
      var k := SlotIsQuoted(quotes, Slots(quotes)[i]);
    }
  }

  /** One accepted tick of the symbol keeps the description. */
  lemma AcceptedTick(f: Folded, quotes: seq<Quote>, tick: Tick, bucketMs: int)
    requires bucketMs != 0 && Accepted(tick) && Grouped(f, quotes, tick.symbol)
    ensures var slot := SlotOf(tick.eventTime, bucketMs);
            Grouped(FoldTick(f, tick, bucketMs),
                    if exists i :: 0 <= i < |quotes| && quotes[i].slot > slot then quotes
                    else quotes + [Quote(slot, tick.price.value)], tick.symbol)
  {
    var symbol, slot, price := tick.symbol, SlotOf(tick.eventTime, bucketMs), tick.price.value;
    var h, f' := History(f, symbol), FoldTick(f, tick, bucketMs);
    if symbol !in f.buckets {
      assert quotes == [] && Slots(quotes) == [] && h == [];
      LaterSlot(h, quotes, slot, price);
      assert History(f', symbol) == h + [NewBucket(slot, price)];
    } else {
      var bucket := f.buckets[symbol];
      assert h[|h| - 1] == bucket;
      LastSlotIsGreatest(h, quotes);
      if bucket.openTime == slot {
        SameSlot(h, quotes, price);
        assert History(f', symbol) == h[..|h| - 1] + [Update(bucket, price)];
      } else if bucket.openTime < slot {
        LaterSlot(h, quotes, slot, price);
        BarAppended(f.completed, Bar(symbol, bucket), symbol);
        assert History(f', symbol) == h + [NewBucket(slot, price)];
      } else {
        LastSlotIsQuoted(h, quotes);
      }
    }
  }

  /** Over every tick list and for every symbol: the emitted bars and the open bucket are one bucket per quoted slot, in
      strictly increasing order, each with the first, highest, lowest and last price of its slot. */
  lemma {:induction false} FoldGroups(ticks: seq<Tick>, symbol: string, bucketMs: int)
    requires bucketMs != 0
    ensures Grouped(FoldTicks(Folded(map[], []), ticks, bucketMs), Quotes(ticks, symbol, bucketMs), symbol)
  {
    if ticks != [] {
      var front, tick := ticks[..|ticks| - 1], ticks[|ticks| - 1];
      FoldGroups(front, symbol, bucketMs);
      var f, quotes := FoldTicks(Folded(map[], []), front, bucketMs), Quotes(front, symbol, bucketMs);
      if tick.symbol != symbol || !Accepted(tick) {
        NoInterference(f, tick, symbol, bucketMs);
      } else {
        AcceptedTick(f, quotes, tick, bucketMs);
      }
    }
  }

  /** The same for any split into calls, spelt out for the emitted bars: they are the history without its last bucket,
      and every open time is a multiple of the bucket length. */
  lemma EmittedBarsAreGrouped(calls: seq<seq<Tick>>, symbol: string, bucketMs: int)
    requires bucketMs != 0
    ensures Grouped(Calls(map[], calls, bucketMs), Quotes(Concat(calls), symbol, bucketMs), symbol)
    ensures var bars, slots := BarsOf(Calls(map[], calls, bucketMs).completed, symbol),
          Slots(Quotes(Concat(calls), symbol, bucketMs));
            && |bars| == (if slots == [] then 0 else |slots| - 1)
            && forall i :: 0 <= i < |bars| ==>
                 bars[i].openTime == slots[i] && slots[i] % bucketMs == 0 &&
                 Summarises(bars[i], slots[i], PricesIn(Quotes(Concat(calls), symbol, bucketMs), slots[i]))
  {
    CallsAreOneFold(map[], calls, bucketMs);
    FoldGroups(Concat(calls), symbol, bucketMs);
    var f, quotes := Calls(map[], calls, bucketMs), Quotes(Concat(calls), symbol, bucketMs);
    var bars, h := BarsOf(f.completed, symbol), History(f, symbol);
    forall i | 0 <= i < |bars|
      ensures bars[i].openTime == Slots(quotes)[i] && Slots(quotes)[i] % bucketMs == 0
      ensures Summarises(bars[i], Slots(quotes)[i], PricesIn(quotes, Slots(quotes)[i]))
    {
      assert h[i] == bars[i] && SummarisesAt(h, quotes, i);
      var k := SlotIsQuoted(quotes, Slots(quotes)[i]);
      QuotesAligned(Concat(calls), symbol, bucketMs, k);
    }
  }

  lemma {:induction false} QuotesAligned(ticks: seq<Tick>, symbol: string, bucketMs: int, k: nat)
    requires bucketMs != 0 && k < |Quotes(ticks, symbol, bucketMs)|
    ensures Quotes(ticks, symbol, bucketMs)[k].slot % bucketMs == 0
  {
    var front, tick := ticks[..|ticks| - 1], ticks[|ticks| - 1];
    if k < |Quotes(front, symbol, bucketMs)| {
      QuotesAligned(front, symbol, bucketMs, k);
    } else {
      Arithmetic.MultipleAligned(tick.eventTime / bucketMs, bucketMs);
    }
  }

  // ---------------------------------------------------------------- which ticks count

  /** A tick of the symbol from a futures market with a positive price. */
  predicate Usable(tick: Tick, symbol: string) {
    && tick.symbol == symbol && tick.market in {"usdm", "futures", "usd_m_futures"}
    && tick.price.Some? && tick.price.value > 0.0
  }

  /** `open` is a multiple of the slot length and the slot that starts there contains the time. */
  predicate SlotHolds(open: int, time: int, bucketMs: int)
    requires bucketMs > 0
  {
    open % bucketMs == 0 && open <= time < open + bucketMs
  }

  lemma SlotOfHolds(time: int, bucketMs: int)
    requires bucketMs > 0
    ensures SlotHolds(SlotOf(time, bucketMs), time, bucketMs)
  {
    Arithmetic.MultipleAligned(time / bucketMs, bucketMs);
  }

  /** A multiple beyond another one is at least one slot beyond it. */
  lemma SlotsApart(a: int, b: int, bucketMs: int)
    requires bucketMs > 0 && a % bucketMs == 0 && b % bucketMs == 0 && a < b
    ensures a + bucketMs <= b
  {
    var x, y := a / bucketMs, b / bucketMs;
    assert a == x * bucketMs && b == y * bucketMs;
    assert (y - x) * bucketMs == b - a;
    assert x >= y ==> (x - y) * bucketMs >= 0;
    Arithmetic.ProductAtLeast(y - x, bucketMs);
  }

  ghost predicate FromTick(ticks: seq<Tick>, symbol: string, bucketMs: int, slot: int)
    requires bucketMs > 0
  {
    exists j :: 0 <= j < |ticks| && Usable(ticks[j], symbol) && SlotOf(ticks[j].eventTime, bucketMs) == slot
  }

  ghost predicate Reached(quotes: seq<Quote>, slot: int) {
    exists k :: 0 <= k < |quotes| && quotes[k].slot >= slot
  }

  lemma QuotesNext(ticks: seq<Tick>, symbol: string, bucketMs: int, slot: int)
    requires bucketMs > 0 && ticks != [] && slot == SlotOf(Last(ticks).eventTime, bucketMs)
    ensures Quotes(ticks, symbol, bucketMs) == Quotes(Init(ticks), symbol, bucketMs) +
      if Usable(Last(ticks), symbol) && !Reached(Quotes(Init(ticks), symbol, bucketMs), slot + 1)
      then [Quote(slot, Last(ticks).price.value)] else []
  {
    var before := Quotes(Init(ticks), symbol, bucketMs);
    assert Usable(Last(ticks), symbol) <==> Last(ticks).symbol == symbol && Accepted(Last(ticks));
    assert Reached(before, slot + 1) <==> exists i :: 0 <= i < |before| && before[i].slot > slot;
    assert before + [] == before;
  }

  lemma FromMore(ticks: seq<Tick>, symbol: string, bucketMs: int, slot: int)
    requires bucketMs > 0 && ticks != [] && FromTick(Init(ticks), symbol, bucketMs, slot)
    ensures FromTick(ticks, symbol, bucketMs, slot)
  {
    var front := Init(ticks);
    var j :| 0 <= j < |front| && Usable(front[j], symbol) && SlotOf(front[j].eventTime, bucketMs) == slot;
    assert front[j] == ticks[j];
  }

  /** Every quote is a usable tick of its slot. */
  lemma {:induction false} QuotesAreTicks(ticks: seq<Tick>, symbol: string, bucketMs: int, k: nat)
    requires bucketMs > 0 && k < |Quotes(ticks, symbol, bucketMs)|
    ensures FromTick(ticks, symbol, bucketMs, Quotes(ticks, symbol, bucketMs)[k].slot)
  {
    var slot := SlotOf(Last(ticks).eventTime, bucketMs);
    QuotesNext(ticks, symbol, bucketMs, slot);
    if k < |Quotes(Init(ticks), symbol, bucketMs)| {
      QuotesAreTicks(Init(ticks), symbol, bucketMs, k);
      FromMore(ticks, symbol, bucketMs, Quotes(ticks, symbol, bucketMs)[k].slot);
    } else {
      assert Usable(ticks[|ticks| - 1], symbol);
    }
  }

  lemma ReachedMore(before: seq<Quote>, more: seq<Quote>, slot: int)
    requires Reached(before, slot)
    ensures Reached(before + more, slot)
  {
    var k :| 0 <= k < |before| && before[k].slot >= slot;
    assert (before + more)[k] == before[k];
  }

  /** No usable tick lies beyond all quotes. */
  lemma {:induction false} TicksAreReached(ticks: seq<Tick>, symbol: string, bucketMs: int, j: nat)
    requires bucketMs > 0 && j < |ticks| && Usable(ticks[j], symbol)
    ensures Reached(Quotes(ticks, symbol, bucketMs), SlotOf(ticks[j].eventTime, bucketMs))
  {
    var slot, before := SlotOf(Last(ticks).eventTime, bucketMs), Quotes(Init(ticks), symbol, bucketMs);
    var more := if Usable(Last(ticks), symbol) && !Reached(before, slot + 1)
                then [Quote(slot, Last(ticks).price.value)] else [];
    QuotesNext(ticks, symbol, bucketMs, slot);
    if j < |ticks| - 1 {
      TicksAreReached(Init(ticks), symbol, bucketMs, j);
      ReachedMore(before, more, SlotOf(ticks[j].eventTime, bucketMs));
    } else {
      LastReached(before, more, slot, Last(ticks).price.value);
    }
  }

  lemma LastReached(before: seq<Quote>, more: seq<Quote>, slot: int, price: real)
    requires more == if Reached(before, slot + 1) then [] else [Quote(slot, price)]
    ensures Reached(before + more, slot)
  {
    if Reached(before, slot + 1) {
      var k :| 0 <= k < |before| && before[k].slot >= slot + 1;
      assert (before + more)[k] == before[k];
    } else {
      assert (before + more)[|before|] == Quote(slot, price);
    }
  }

  /** The slots of two times, compared by time. */
  lemma LaterSlotIff(time: int, slot: int, bucketMs: int)
    requires bucketMs > 0 && slot % bucketMs == 0
    ensures SlotOf(time, bucketMs) > slot <==> time >= slot + bucketMs
  {
    SlotOfHolds(time, bucketMs);
    var other := SlotOf(time, bucketMs);
    if other > slot {
      SlotsApart(slot, other, bucketMs);
    }
  }

  /** A usable tick came at or after the time. */
  ghost predicate CameBy(ticks: seq<Tick>, symbol: string, time: int) {
    exists j :: 0 <= j < |ticks| && Usable(ticks[j], symbol) && ticks[j].eventTime >= time
  }

  lemma LateIff(ticks: seq<Tick>, symbol: string, slot: int, bucketMs: int)
    requires bucketMs > 0 && slot % bucketMs == 0
    ensures Reached(Quotes(ticks, symbol, bucketMs), slot + 1) <==> CameBy(ticks, symbol, slot + bucketMs)
  {
    var quotes := Quotes(ticks, symbol, bucketMs);
    if Reached(quotes, slot + 1) {
      var k :| 0 <= k < |quotes| && quotes[k].slot >= slot + 1;
      QuotesAreTicks(ticks, symbol, bucketMs, k);
      var j :| 0 <= j < |ticks| && Usable(ticks[j], symbol) && SlotOf(ticks[j].eventTime, bucketMs) == quotes[k].slot;
      LaterSlotIff(ticks[j].eventTime, slot, bucketMs);
    }
    if CameBy(ticks, symbol, slot + bucketMs) {
      var j :| 0 <= j < |ticks| && Usable(ticks[j], symbol) && ticks[j].eventTime >= slot + bucketMs;
      LaterSlotIff(ticks[j].eventTime, slot, bucketMs);
      TicksAreReached(ticks, symbol, bucketMs, j);
      ReachedLower(quotes, SlotOf(ticks[j].eventTime, bucketMs), slot + 1);
    }
  }

  lemma ReachedLower(quotes: seq<Quote>, high: int, low: int)
    requires Reached(quotes, high) && low <= high
    ensures Reached(quotes, low)
  {
    var k :| 0 <= k < |quotes| && quotes[k].slot >= high;
  }

  /** Which ticks count, and as what: a usable tick counts with its price for the slot that holds it, unless a usable
      tick before it came at or after the end of that slot. */
  lemma LastTickCounts(ticks: seq<Tick>, symbol: string, bucketMs: int) returns (slot: int)
    requires bucketMs > 0 && ticks != []
    ensures SlotHolds(slot, Last(ticks).eventTime, bucketMs)
    ensures Quotes(ticks, symbol, bucketMs) == Quotes(Init(ticks), symbol, bucketMs) +
      if Usable(Last(ticks), symbol) && !CameBy(Init(ticks), symbol, slot + bucketMs)
      then [Quote(slot, Last(ticks).price.value)] else []
  {
    slot := SlotOf(Last(ticks).eventTime, bucketMs);
    SlotOfHolds(Last(ticks).eventTime, bucketMs);
    QuotesNext(ticks, symbol, bucketMs, slot);
    LateIff(Init(ticks), symbol, slot, bucketMs);
  }
}
