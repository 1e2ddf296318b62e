/** Forward filling and summing of equity streams (scripts/hybrid_martingale_frontier_probe.py): what a combined
    portfolio shows at a time depends on nothing later. */
module Streams {
  import opened Common
  import opened Timeline
  import opened Filtering

  // ---------------------------------------------------------------- the latest point

  /** The point to show at time t, whatever the order of the list: the greatest time not after t, and among equal times
      the one listed last. */
  function Latest(points: seq<Point>, t: int): Option<Point> {
    if points == [] then None
    else
      var before, p := Latest(points[..|points| - 1], t), points[|points| - 1];
      if p.time <= t && (before.None? || before.value.time <= p.time) then Some(p) else before
  }

  lemma LatestPush(points: seq<Point>, p: Point, t: int)
    ensures Latest(points + [p], t) ==
      var before := Latest(points, t);
      if p.time <= t && (before.None? || before.value.time <= p.time) then Some(p) else before
  {
    assert (points + [p])[..|points|] == points;
  }

  lemma {:induction false} LatestMeaning(points: seq<Point>, t: int)
    ensures Latest(points, t).None? <==> forall i :: 0 <= i < |points| ==> points[i].time > t
    ensures Latest(points, t).Some? ==>
      var p := Latest(points, t).value;
      p in points && p.time <= t && forall i :: 0 <= i < |points| && points[i].time <= t ==> points[i].time <= p.time
  {
    if points != [] {
      LatestMeaning(points[..|points| - 1], t);
      assert points == points[..|points| - 1] + [points[|points| - 1]];
    }
  }

  /** The points at or before t. */
  function Past(points: seq<Point>, t: int): seq<Point> {
    Select(points, (p: Point) => p.time <= t)
  }

  lemma {:induction false} LatestOfPast(points: seq<Point>, t: int)
    ensures Latest(Past(points, t), t) == Latest(points, t)
  {
    if points != [] {
      var front, last := points[..|points| - 1], points[|points| - 1];
      LatestOfPast(front, t);
      LatestPush(Past(front, t), last, t);
      assert last.time <= t ==> Past(points, t) == Past(front, t) + [last];
      assert last.time > t ==> Past(points, t) == Past(front, t);
    }
  }

  /** No lookahead: lists that agree up to t show the same at every time up to t. */
  lemma LatestCausal(a: seq<Point>, b: seq<Point>, t: int, s: int)
    requires Past(a, t) == Past(b, t) && s <= t
    ensures Latest(a, s) == Latest(b, s)
  {
    SelectTwice(a, (p: Point) => p.time <= t, (p: Point) => p.time <= s);
    SelectTwice(b, (p: Point) => p.time <= t, (p: Point) => p.time <= s);
    LatestOfPast(a, s);
    LatestOfPast(b, s);
  }

  // ---------------------------------------------------------------- forward filling

  lemma {:induction false} LatestOfPlaced(points: seq<Point>, p: Point, t: int)
    requires InOrder(points, TimeOf)
    ensures Latest(Place(points, p, TimeOf), t) == Latest(points + [p], t)
  {
    if points != [] && points[|points| - 1].time > p.time {
      var front, last := points[..|points| - 1], points[|points| - 1];
      assert points == front + [last];
      LatestOfPlaced(front, p, t);
      LatestPush(front, p, t);
      LatestPush(front, last, t);
      LatestPush(points, p, t);
      LatestPush(Place(front, p, TimeOf), last, t);
      LatestMeaning(front, t);
      assert forall q <- front :: q.time <= last.time by {
        forall i | 0 <= i < |front| ensures front[i].time <= last.time {
          assert TimeOf(points[i]) <= TimeOf(points[|points| - 1]);
        }
      }
    }
  }

  /** Sorting does not change what is shown. */
  lemma {:induction false} LatestOfSorted(points: seq<Point>, t: int)
    ensures Latest(Sorted(points, TimeOf), t) == Latest(points, t)
  {
    if points != [] {
      var front, last := points[..|points| - 1], points[|points| - 1];
      assert points == front + [last];
      LatestOfSorted(front, t);
      SortedInOrder(front, TimeOf);
      LatestOfPlaced(Sorted(front, TimeOf), last, t);
      LatestPush(Sorted(front, TimeOf), last, t);
      LatestPush(front, last, t);
    }
  }

  lemma LaterStay(points: seq<Point>, n: nat, t: int)
    requires InOrder(points, TimeOf) && n <= |points| && (n < |points| ==> points[n].time > t)
    ensures forall i :: n <= i < |points| ==> points[i].time > t
  {
    forall i | n < i < |points| ensures points[i].time > t {
      assert TimeOf(points[n]) <= TimeOf(points[i]);
    }
  }

  /** The last point of a sorted list that lies in the past is the one shown. */
  lemma LastIsLatest(points: seq<Point>, t: int)
    requires points != [] && InOrder(points, TimeOf) && Last(points).time <= t
    ensures Latest(points, t) == Some(Last(points))
  {
    var lead := Init(points);
    LatestMeaning(lead, t);
    forall i | 0 <= i < |lead| ensures lead[i].time <= Last(points).time {
      assert TimeOf(points[i]) <= TimeOf(points[|points| - 1]);
    }
  }

  /** In a sorted list the point shown is the last one of the leading part that is not after t. */
  lemma LatestInOrder(points: seq<Point>, n: nat, t: int)
    requires InOrder(points, TimeOf) && n <= |points|
    requires forall i :: 0 <= i < n ==> points[i].time <= t
    requires n < |points| ==> points[n].time > t
    ensures Latest(points, t) == if n == 0 then None else Some(points[n - 1])
  {
    LaterStay(points, n, t);
    LatestOfLeading(points, n, t);
    if n > 0 {
      forall i, j | 0 <= i < j < n ensures TimeOf(points[..n][i]) <= TimeOf(points[..n][j]) {
        assert TimeOf(points[i]) <= TimeOf(points[j]);
      }
      LastIsLatest(points[..n], t);
    }
  }

  lemma {:induction false} LatestOfLeading(points: seq<Point>, n: nat, t: int)
    requires n <= |points| && forall i :: n <= i < |points| ==> points[i].time > t
    ensures Latest(points, t) == Latest(points[..n], t)
  {
    if n < |points| {
      var front := points[..|points| - 1];
      LatestOfLeading(front, n, t);
      assert front[..n] == points[..n];
    } else {
      assert points[..n] == points;
    }
  }

  function Fill(points: seq<Point>, t: int): seq<Point> {
    match Latest(points, t)
    case None => []
    case Some(p) => [Point(t, p.equity)]
  }

  /** One point for each time that has something to show. */
  function Filled(points: seq<Point>, times: seq<int>): seq<Point> {
    if times == [] then [] else Filled(points, times[..|times| - 1]) + Fill(points, times[|times| - 1])
  }

  lemma FilledNext(points: seq<Point>, times: seq<int>, k: nat)
    requires k < |times|
    ensures Filled(points, times[..k + 1]) == Filled(points, times[..k]) + Fill(points, times[k])
  {
    assert times[..k + 1][..k] == times[..k];
  }

  lemma {:induction false} FilledOfSorted(points: seq<Point>, times: seq<int>)
    ensures Filled(Sorted(points, TimeOf), times) == Filled(points, times)
  {
    if times != [] {
      FilledOfSorted(points, times[..|times| - 1]);
      LatestOfSorted(points, times[|times| - 1]);
    }
  }

  predicate NonDecreasing(times: seq<int>) {
    forall i, j :: 0 <= i < j < |times| ==> times[i] <= times[j]
  }

  function SortedTimes(times: seq<int>): (r: seq<int>)
    ensures NonDecreasing(r)
  {
    SortedInOrder(times, (t: int) => t);
    Sorted(times, (t: int) => t)
  }

  /** `resample_equity_curve`: one pass over the sorted points, whatever order they come in. */
  method ResampleEquityCurve(points: seq<Point>, timestamps: seq<int>) returns (result: seq<Point>)
    ensures result == Filled(points, SortedTimes(timestamps))
  {
    SortedInOrder(points, TimeOf);
    result := FillInOrder(Sorted(points, TimeOf), SortedTimes(timestamps));
    FilledOfSorted(points, SortedTimes(timestamps));
  }

  /** The loop over the timestamps. */
  method FillInOrder(ordered: seq<Point>, times: seq<int>) returns (result: seq<Point>)
    requires InOrder(ordered, TimeOf) && NonDecreasing(times)
    ensures result == Filled(ordered, times)
  {
    result := [];
    var index, last: Option<Point> := 0, None;
    for k := 0 to |times|
      invariant result == Filled(ordered, times[..k])
      invariant 0 <= index <= |ordered| && last == if index == 0 then None else Some(ordered[index - 1])
      invariant forall i :: 0 <= i < index ==> k > 0 && ordered[i].time <= times[k - 1]
    {
      var ts := times[k];
      assert k > 0 ==> times[k - 1] <= ts;
      index, last := AdvanceTo(ordered, index, last, ts);
      LatestInOrder(ordered, index, ts);
      FilledNext(ordered, times, k);
      if last.Some? {
        result := result + [Point(ts, last.value.equity)];
      }
    }
    assert times[..|times|] == times;
  }

  /** The inner loop: consume the points that are not after ts. */
  method AdvanceTo(ordered: seq<Point>, start: nat, before: Option<Point>, ts: int)
      returns (index: nat, last: Option<Point>)
    requires start <= |ordered| && before == if start == 0 then None else Some(ordered[start - 1])
    requires forall i :: 0 <= i < start ==> ordered[i].time <= ts
    ensures index <= |ordered| && last == if index == 0 then None else Some(ordered[index - 1])
    ensures (forall i :: 0 <= i < index ==> ordered[i].time <= ts) && (index < |ordered| ==> ordered[index].time > ts)
  {
    index, last := start, before;
    while index < |ordered| && ordered[index].time <= ts
      invariant index <= |ordered| && last == if index == 0 then None else Some(ordered[index - 1])
      invariant forall i :: 0 <= i < index ==> ordered[i].time <= ts
    {
      last := Some(ordered[index]);
      index := index + 1;
    }
  }

  // ---------------------------------------------------------------- combining streams

  function TimesOf(points: seq<Point>): (ts: seq<int>)
    ensures |ts| == |points|
  {
    seq(|points|, i requires 0 <= i < |points| => points[i].time)
  }

  function AllTimes(streams: seq<seq<Point>>): seq<int> {
    if streams == [] then [] else AllTimes(streams[..|streams| - 1]) + TimesOf(streams[|streams| - 1])
  }

  /** The sum of what the streams show, if every stream has started. */
  function SumAt(streams: seq<seq<Point>>, t: int): Option<real> {
    if streams == [] then Some(0.0)
    else
      var rest, mine := SumAt(streams[..|streams| - 1], t), Latest(streams[|streams| - 1], t);
      if rest.Some? && mine.Some? then Some(rest.value + mine.value.equity) else None
  }

  function Shown(t: int, value: Option<real>): seq<Point> {
    match value
    case None => []
    case Some(v) => [Point(t, v)]
  }

  function SumsOn(times: seq<int>, sum: int -> Option<real>): seq<Point> {
    if times == [] then []
    else SumsOn(times[..|times| - 1], sum) + Shown(times[|times| - 1], sum(times[|times| - 1]))
  }

  /** The points of `combine_streams`: at every time of any stream from the moment all have started. */
  function Combined(streams: seq<seq<Point>>): seq<Point> {
    SumsOn(SortedUnion(AllTimes(streams)), t => SumAt(streams, t))
  }

  // ---------------------------------------------------------------- no lookahead

  ghost predicate AgreeUpTo(a: seq<seq<Point>>, b: seq<seq<Point>>, t: int) {
    |a| == |b| && forall i :: 0 <= i < |a| ==> Past(a[i], t) == Past(b[i], t)
  }

  lemma {:induction false} SumCausal(a: seq<seq<Point>>, b: seq<seq<Point>>, t: int, s: int)
    requires AgreeUpTo(a, b, t) && s <= t
    ensures SumAt(a, s) == SumAt(b, s)
  {
    if a != [] {
      var n := |a| - 1;
      assert AgreeUpTo(a[..n], b[..n], t) && Past(a[n], t) == Past(b[n], t);
      SumCausal(a[..n], b[..n], t, s);
      LatestCausal(a[n], b[n], t, s);
    }
  }

  lemma {:induction false} PastTimes(points: seq<Point>, t: int, x: int)
    requires x <= t
    ensures x in TimesOf(points) <==> x in TimesOf(Past(points, t))
  {
    if points != [] {
      var front, last := points[..|points| - 1], points[|points| - 1];
      PastTimes(front, t, x);
      assert TimesOf(points) == TimesOf(front) + [last.time];
      if last.time <= t {
        assert Past(points, t) == Past(front, t) + [last];
        assert TimesOf(Past(points, t)) == TimesOf(Past(front, t)) + [last.time];
      } else {
        assert Past(points, t) == Past(front, t);
      }
    }
  }

  lemma {:induction false} AllTimesCausal(a: seq<seq<Point>>, b: seq<seq<Point>>, t: int, x: int)
    requires AgreeUpTo(a, b, t) && x <= t
    ensures x in AllTimes(a) <==> x in AllTimes(b)
  {
    if a != [] {
      var n := |a| - 1;
      AllTimesCausal(a[..n], b[..n], t, x);
      PastTimes(a[n], t, x);
      PastTimes(b[n], t, x);
    }
  }

  /** The part of a strictly increasing list that is not after t. */
  function Early(times: seq<int>, t: int): seq<int> {
    Select(times, (x: int) => x <= t)
  }

  lemma {:induction false} EarlyElements(times: seq<int>, t: int)
    requires Increasing(times)
    ensures Increasing(Early(times, t))
    ensures forall x :: x in Early(times, t) <==> x in times && x <= t
  {
    if times != [] {
      var n := |times| - 1;
      var front, last := times[..n], times[n];
      assert times == front + [last];
      EarlyElements(front, t);
      var early := Early(front, t);
      forall i | 0 <= i < |early|
        ensures early[i] < last
      {
        assert early[i] in early;
        var k :| 0 <= k < n && front[k] == early[i];
        assert times[k] < times[n];
      }
      assert Early(times, t) == early + if last <= t then [last] else [];
    }
  }

  /** Only what is shown up to t, of sums that agree up to t. */
  lemma {:induction false} PastOfSums(times: seq<int>, sum: int -> Option<real>, t: int)
    ensures Past(SumsOn(times, sum), t) == SumsOn(Early(times, t), sum)
  {
    if times != [] {
      var front, last := Init(times), Last(times);
      PastOfSums(front, sum, t);
      assert times == front + [last];
      SumsPush(front, last, sum);
      PastOfShown(SumsOn(front, sum), last, sum(last), t);
      EarlyPush(front, last, t);
      SumsPush(Early(front, t), last, sum);
    }
  }

  /** What one more time shows is kept or dropped as a whole. */
  lemma PastOfShown(points: seq<Point>, x: int, value: Option<real>, t: int)
    ensures Past(points + Shown(x, value), t) == Past(points, t) + if x <= t then Shown(x, value) else []
  {
    match value
    case None => assert points + [] == points;
    case Some(v) => SelectPush(points, Point(x, v), (p: Point) => p.time <= t);
  }

  lemma EarlyPush(times: seq<int>, x: int, t: int)
    ensures Early(times + [x], t) == if x <= t then Early(times, t) + [x] else Early(times, t)
  {
    SelectPush(times, x, (y: int) => y <= t);
  }

  lemma SumsPush(times: seq<int>, x: int, sum: int -> Option<real>)
    ensures SumsOn(times + [x], sum) == SumsOn(times, sum) + Shown(x, sum(x))
  {
    assert (times + [x])[..|times|] == times;
  }

  lemma {:induction false} SameSums(times: seq<int>, f: int -> Option<real>, g: int -> Option<real>)
    requires forall x <- times :: f(x) == g(x)
    ensures SumsOn(times, f) == SumsOn(times, g)
  {
    if times != [] {
      SameSums(times[..|times| - 1], f, g);
      assert times[|times| - 1] in times;
    }
  }

  /** The combined curve up to t depends only on the points of the streams up to t. */
  lemma CombinedCausal(a: seq<seq<Point>>, b: seq<seq<Point>>, t: int)
    requires AgreeUpTo(a, b, t)
    ensures Past(Combined(a), t) == Past(Combined(b), t)
  {
    var ta, tb := SortedUnion(AllTimes(a)), SortedUnion(AllTimes(b));
    EarlyElements(ta, t);
    EarlyElements(tb, t);
    forall x
      ensures x in Early(ta, t) <==> x in Early(tb, t)
    {
      if x <= t {
        AllTimesCausal(a, b, t, x);
      }
    }
    SameElements(Early(ta, t), Early(tb, t));
    forall x | x in Early(ta, t)
      ensures SumAt(a, x) == SumAt(b, x)
    {
      SumCausal(a, b, t, x);
    }
    PastOfSums(ta, x => SumAt(a, x), t);
    PastOfSums(tb, x => SumAt(b, x), t);
    SameSums(Early(ta, t), x => SumAt(a, x), x => SumAt(b, x));
  }

  // ---------------------------------------------------------------- the loops of combine_streams

  /** A stream aligned to the common times, as a dictionary. */
  ghost predicate Aligned(series: map<int, real>, points: seq<Point>, times: seq<int>) {
    forall ts <- times :: (ts in series <==> Latest(points, ts).Some?)
        && (ts in series ==> series[ts] == Latest(points, ts).value.equity)
  }

  method ToSeries(points: seq<Point>) returns (series: map<int, real>)
    requires Increasing(TimesOf(points))
    ensures forall ts :: ts in series <==> ts in TimesOf(points)
    ensures forall i :: 0 <= i < |points| ==> points[i].time in series && series[points[i].time] == points[i].equity
  {
    series := map[];
    for k := 0 to |points|
      invariant forall ts :: ts in series <==> ts in TimesOf(points[..k])
      invariant forall i :: 0 <= i < k ==> points[i].time in series && series[points[i].time] == points[i].equity
    {
      assert TimesOf(points[..k + 1]) == TimesOf(points[..k]) + [points[k].time];
      forall i | 0 <= i < k ensures points[i].time != points[k].time {
        assert TimesOf(points)[i] < TimesOf(points)[k];
      }
      series := series[points[k].time := points[k].equity];
    }
    assert points[..|points|] == points;
  }

  lemma FilledPush(points: seq<Point>, front: seq<int>, last: int)
    ensures var before := Filled(points, front);
      match Latest(points, last)
      case None => Filled(points, front + [last]) == before
      case Some(p) =>
        && Filled(points, front + [last]) == before + [Point(last, p.equity)]
        && TimesOf(before + [Point(last, p.equity)]) == TimesOf(before) + [last]
  {
    FilledNext(points, front + [last], |front|);
    assert (front + [last])[..|front|] == front;
    assert (front + [last])[..|front| + 1] == front + [last];
  }

  lemma {:induction false} FilledTimes(points: seq<Point>, times: seq<int>)
    ensures forall ts :: ts in TimesOf(Filled(points, times)) <==> ts in times && Latest(points, ts).Some?
    ensures forall p <- Filled(points, times) ::
      Latest(points, p.time).Some? && p.equity == Latest(points, p.time).value.equity
  {
    if times != [] {
      var front, last := times[..|times| - 1], times[|times| - 1];
      assert times == front + [last];
      FilledTimes(points, front);
      FilledPush(points, front, last);
    }
  }

  lemma {:induction false} FilledIncreasing(points: seq<Point>, times: seq<int>)
    requires Increasing(times)
    ensures Increasing(TimesOf(Filled(points, times)))
  {
    if times != [] {
      var front, last := times[..|times| - 1], times[|times| - 1];
      assert times == front + [last];
      FilledIncreasing(points, front);
      FilledPush(points, front, last);
      FilledTimes(points, front);
      var before := TimesOf(Filled(points, front));
      forall i | 0 <= i < |before|
        ensures before[i] < last
      {
        assert before[i] in before;
        var k :| 0 <= k < |front| && front[k] == before[i];
        assert times[k] < times[|times| - 1];
      }
    }
  }

  lemma {:induction false} SortedOfIncreasing(times: seq<int>)
    requires Increasing(times)
    ensures SortedTimes(times) == times
  {
    if times != [] {
      var front, last := times[..|times| - 1], times[|times| - 1];
      SortedOfIncreasing(front);
      assert front != [] ==> times[|front| - 1] < last;
      assert times == front + [last];
    }
  }

  method Align(points: seq<Point>, times: seq<int>) returns (series: map<int, real>)
    requires Increasing(times)
    ensures Aligned(series, points, times)
  {
    var aligned := ResampleEquityCurve(points, times);
    SortedOfIncreasing(times);
    FilledTimes(points, times);
    FilledIncreasing(points, times);
    series := ToSeries(aligned);
    forall ts | ts in series
      ensures Latest(points, ts).Some? && series[ts] == Latest(points, ts).value.equity
    {
      var i :| 0 <= i < |aligned| && TimesOf(aligned)[i] == ts;
      assert aligned[i] in aligned;
    }
  }

  /** One time: every stream's value, or nothing if one has not started. */
  method SumSeries(series: seq<map<int, real>>, ghost streams: seq<seq<Point>>, ghost times: seq<int>, ts: int)
      returns (sum: Option<real>)
    requires |series| == |streams| && ts in times && forall i :: 0 <= i < |series| ==>
          Aligned(series[i], streams[i], times)
    ensures sum == SumAt(streams, ts)
  {
    sum := Some(0.0);
    for i := 0 to |series|
      invariant sum == SumAt(streams[..i], ts)
    {
      assert streams[..i + 1][..i] == streams[..i];
      assert Aligned(series[i], streams[i], times);
      sum := if sum.Some? && ts in series[i] then Some(sum.value + series[i][ts]) else None;
    }
    assert streams[..|streams|] == streams;
  }

  /** `combine_streams`; `None` is the error for an empty list of streams. */
  method CombineStreams(streams: seq<seq<Point>>) returns (r: Option<seq<Point>>)
    ensures r == if streams == [] then None else Some(Combined(streams))
  {
    if streams == [] {
      return None;
    }
    var times := SortedUnion(AllTimes(streams));
    var series: seq<map<int, real>> := [];
    for i := 0 to |streams|
      invariant |series| == i && forall j :: 0 <= j < i ==> Aligned(series[j], streams[j], times)
    {
      var aligned := Align(streams[i], times);
      series := series + [aligned];
    }
    var combined := CombineSeries(series, streams, times);
    r := Some(combined);
  }

  method CombineSeries(series: seq<map<int, real>>, ghost streams: seq<seq<Point>>, times: seq<int>)
      returns (combined: seq<Point>)
    requires |series| == |streams| && forall i :: 0 <= i < |series| ==> Aligned(series[i], streams[i], times)
    ensures combined == SumsOn(times, t => SumAt(streams, t))
  {
    combined := [];
    for k := 0 to |times|
      invariant combined == SumsOn(times[..k], t => SumAt(streams, t))
    {
      var sum := SumSeries(series, streams, times, times[k]);
      assert times[..k + 1] == times[..k] + [times[k]];
      SumsPush(times[..k], times[k], t => SumAt(streams, t));
      if sum.Some? {
        combined := combined + [Point(times[k], sum.value)];
      }
    }
    assert times[..|times|] == times;
  }

  /** What is combined is added: two lists of streams together show the sum of what each shows, where both show
      something, and one stream shows its latest point. */
  lemma {:induction false} SumSplits(a: seq<seq<Point>>, b: seq<seq<Point>>, t: int)
    ensures SumAt(a + b, t) ==
      if SumAt(a, t).Some? && SumAt(b, t).Some? then Some(SumAt(a, t).value + SumAt(b, t).value) else None
  {
    if b == [] {
      assert a + b == a;
    } else {
      SumSplits(a, Init(b), t);
      assert (a + b)[..|a + b| - 1] == a + Init(b);
    }
  }

  lemma SumOfOne(stream: seq<Point>, t: int)
    ensures SumAt([stream], t) == if Latest(stream, t).Some? then Some(Latest(stream, t).value.equity) else None
  {
    assert [stream][..0] == [];
  }
}
