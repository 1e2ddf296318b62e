/** What `compact_equity_points` of scripts/dgt_dynamic_grid_probe.py keeps: of each day the first and the last point
    and the first with the highest and with the lowest equity, and nothing else. */
module GridCompact {
  import opened Timeline
  import opened DynamicGrid
  import opened GridWorth

  ghost predicate StrictTimes(points: seq<Point>) {
    forall i, j :: 0 <= i < j < |points| ==> points[i].time < points[j].time
  }

  /** Days are counted in spans of 24 hours. */
  lemma DayHolds(point: Point)
    ensures Day(point) * 86_400_000 <= point.time < (Day(point) + 1) * 86_400_000
  {
  }

  // ---------------------------------------------------------------- sorting and dropping repeats

  lemma {:induction false} PlaceMembers(items: seq<Point>, x: Point, y: Point)
    ensures y in Place(items, x, TimeOf) <==> y in items || y == x
  {
    if items != [] && TimeOf(items[|items| - 1]) > TimeOf(x) {
      PlaceMembers(items[..|items| - 1], x, y);
      assert items == items[..|items| - 1] + [items[|items| - 1]];
    }
  }

  lemma {:induction false} SortedMembers(items: seq<Point>, y: Point)
    ensures y in SortByTime(items) <==> y in items
  {
    if items != [] {
      var front, last := items[..|items| - 1], items[|items| - 1];
      SortedMembers(front, y);
      PlaceMembers(SortByTime(front), last, y);
      assert items == front + [last];
    }
  }

  /** Points are told apart by their times. */
  ghost predicate TimesTell(points: seq<Point>) {
    forall a, b :: a in points && b in points && a.time == b.time ==> a == b
  }

  lemma {:induction false} DropRepeatsKeeps(points: seq<Point>)
    requires TimesTell(points) && InOrder(points, TimeOf)
    ensures forall q :: q in DropRepeats(points) <==> q in points
    ensures StrictTimes(DropRepeats(points))
  {
    if points != [] {
      var front, last := points[..|points| - 1], points[|points| - 1];
      assert points == front + [last];
      assert forall i, j :: 0 <= i < j < |front| ==> TimeOf(points[i]) <= TimeOf(points[j]);
      DropRepeatsKeeps(front);
      DropLast(front, last, DropRepeats(front));
    }
  }

  /** One more point, at or after the others: it is dropped only when it is there already. */
  lemma DropLast(front: seq<Point>, last: Point, before: seq<Point>)
    requires TimesTell(front + [last]) && InOrder(front + [last], TimeOf) && StrictTimes(before)
    requires forall q :: q in before <==> q in front
    ensures (exists i :: 0 <= i < |before| && before[i].time == last.time) <==> last in front
    ensures last !in front ==> StrictTimes(before + [last])
  {
    var all := front + [last];
    forall i | 0 <= i < |before|
      ensures before[i].time <= last.time && (before[i].time == last.time ==> before[i] == last)
    {
      assert before[i] in before;
      var k :| 0 <= k < |front| && front[k] == before[i];
      assert all[k] == front[k] && all[|front|] == last;
      assert TimeOf(all[k]) <= TimeOf(all[|front|]);
      assert before[i] in all && last in all;
    }
  }

  // ---------------------------------------------------------------- one day

  /** Index i holds the first of the highest, or of the lowest, of the points in lo..hi. */
  ghost predicate FirstHighest(points: seq<Point>, lo: int, hi: int, i: int) {
    && 0 <= lo <= i < hi <= |points|
    && (forall j :: lo <= j < hi ==> points[j].equity <= points[i].equity)
    && (forall j :: lo <= j < i ==> points[j].equity < points[i].equity)
  }

  ghost predicate FirstLowest(points: seq<Point>, lo: int, hi: int, i: int) {
    && 0 <= lo <= i < hi <= |points|
    && (forall j :: lo <= j < hi ==> points[j].equity >= points[i].equity)
    && (forall j :: lo <= j < i ==> points[j].equity > points[i].equity)
  }

  lemma {:induction false} HighestIsFirst(points: seq<Point>) returns (i: nat)
    requires points != []
    ensures i < |points| && points[i] == Highest(points) && FirstHighest(points, 0, |points|, i)
  {
    if |points| == 1 {
      i := 0;
    } else {
      var front := points[..|points| - 1];
      i := HighestIsFirst(front);
      if points[|points| - 1].equity > Highest(front).equity {
        i := |points| - 1;
      }
    }
  }

  lemma {:induction false} LowestIsFirst(points: seq<Point>) returns (i: nat)
    requires points != []
    ensures i < |points| && points[i] == Lowest(points) && FirstLowest(points, 0, |points|, i)
  {
    if |points| == 1 {
      i := 0;
    } else {
      var front := points[..|points| - 1];
      i := LowestIsFirst(front);
      if points[|points| - 1].equity < Lowest(front).equity {
        i := |points| - 1;
      }
    }
  }

  /** What is kept of the points in lo..hi: the first, the last, the highest and the lowest. */
  ghost predicate KeptOf(points: seq<Point>, lo: int, hi: int, i: int) {
    lo <= i < hi && (i == lo || i == hi - 1 || FirstHighest(points, lo, hi, i) || FirstLowest(points, lo, hi, i))
  }

  lemma OnlyHighest(points: seq<Point>, lo: int, hi: int, i: int, j: int)
    requires FirstHighest(points, lo, hi, i) && FirstHighest(points, lo, hi, j)
    ensures i == j
  {
    assert points[i].equity == points[j].equity;
  }

  lemma OnlyLowest(points: seq<Point>, lo: int, hi: int, i: int, j: int)
    requires FirstLowest(points, lo, hi, i) && FirstLowest(points, lo, hi, j)
    ensures i == j
  {
    assert points[i].equity == points[j].equity;
  }

  lemma FlushKeeps(day: seq<Point>)
    requires StrictTimes(day)
    ensures StrictTimes(FlushDay(day))
    ensures forall q :: q in FlushDay(day) <==> exists i :: KeptOf(day, 0, |day|, i) && day[i] == q
  {
    if day != [] {
      var h := HighestIsFirst(day);
      var l := LowestIsFirst(day);
      var four := [day[0], Highest(day), Lowest(day), day[|day| - 1]];
      FourOfDay(day, h, l, four);
      SortedTells(day, four);
      DropRepeatsKeeps(SortByTime(four));
      forall q ensures q in FlushDay(day) <==> q in four {
        SortedMembers(four, q);
      }
    }
  }

  lemma FourOfDay(day: seq<Point>, h: nat, l: nat, four: seq<Point>)
    requires day != [] && FirstHighest(day, 0, |day|, h) && FirstLowest(day, 0, |day|, l)
    requires four == [day[0], day[h], day[l], day[|day| - 1]]
    ensures forall q :: q in four <==> exists i :: KeptOf(day, 0, |day|, i) && day[i] == q
  {
    assert KeptOf(day, 0, |day|, 0) && KeptOf(day, 0, |day|, h) && KeptOf(day, 0, |day|, l);
    assert KeptOf(day, 0, |day|, |day| - 1);
    forall i | KeptOf(day, 0, |day|, i) ensures day[i] in four {
      if FirstHighest(day, 0, |day|, i) {
        OnlyHighest(day, 0, |day|, i, h);
      }
      if FirstLowest(day, 0, |day|, i) {
        OnlyLowest(day, 0, |day|, i, l);
      }
      assert four[0] in four && four[1] in four && four[2] in four && four[3] in four;
    }
  }

  lemma SortedTells(day: seq<Point>, four: seq<Point>)
    requires StrictTimes(day) && forall q :: q in four ==> q in day
    ensures TimesTell(SortByTime(four)) && InOrder(SortByTime(four), TimeOf)
  {
    SortedInOrder(four, TimeOf);
    forall a, b | a in SortByTime(four) && b in SortByTime(four) && a.time == b.time ensures a == b {
      SortedMembers(four, a);
      SortedMembers(four, b);
      var i :| 0 <= i < |day| && day[i] == a;
      var j :| 0 <= j < |day| && day[j] == b;
    }
  }

  // ---------------------------------------------------------------- all days

  ghost predicate OneDay(points: seq<Point>, lo: int, hi: int) {
    && 0 <= lo < hi <= |points|
    && (forall i, j :: lo <= i < hi && lo <= j < hi ==> Day(points[i]) == Day(points[j]))
    && (0 < lo ==> Day(points[lo - 1]) != Day(points[lo]))
  }

  /** lo..hi are all the neighbouring points of one day. */
  ghost predicate WholeDay(points: seq<Point>, lo: int, hi: int) {
    OneDay(points, lo, hi) && (hi < |points| ==> Day(points[hi]) != Day(points[lo]))
  }

  /** Point i is kept for its day. */
  ghost predicate Kept(points: seq<Point>, i: int) {
    exists lo, hi :: WholeDay(points, lo, hi) && KeptOf(points, lo, hi, i)
  }

  lemma DaysDoNotOverlap(points: seq<Point>, a: int, b: int, lo: int, hi: int, i: int)
    requires WholeDay(points, a, b) && WholeDay(points, lo, hi) && a <= i < b && lo <= i < hi
    ensures a == lo && b == hi
  {
    assert Day(points[i]) == Day(points[a]) == Day(points[lo]);
  }

  lemma KeptInDay(points: seq<Point>, lo: int, hi: int, i: int)
    requires WholeDay(points, lo, hi) && lo <= i < hi
    ensures Kept(points, i) <==> KeptOf(points, lo, hi, i)
  {
    if Kept(points, i) {
      var a, b :| WholeDay(points, a, b) && KeptOf(points, a, b, i);
      DaysDoNotOverlap(points, a, b, lo, hi, i);
    }
  }

  lemma ShiftKept(points: seq<Point>, lo: nat, hi: nat, day: seq<Point>, k: nat)
    requires lo < hi <= |points| && day == points[lo..hi] && k < |day|
    ensures KeptOf(day, 0, |day|, k) <==> KeptOf(points, lo, hi, lo + k)
  {
    assert forall j :: 0 <= j < |day| ==> day[j] == points[lo + j];
    assert forall j :: lo <= j < hi ==> points[j] == day[j - lo];
  }

  /** Point q is kept among the first n. */
  ghost predicate KeptAmong(points: seq<Point>, n: int, q: Point) {
    exists i :: 0 <= i < n <= |points| && Kept(points, i) && points[i] == q
  }

  /** A list of all points kept among the first n, in order. */
  ghost predicate KeptUpTo(points: seq<Point>, n: int, list: seq<Point>) {
    StrictTimes(list) && forall q :: q in list <==> KeptAmong(points, n, q)
  }

  /** A whole day, flushed. */
  lemma FlushWholeDay(points: seq<Point>, lo: nat, hi: nat, list: seq<Point>)
    requires StrictTimes(points) && WholeDay(points, lo, hi) && KeptUpTo(points, lo, list)
    ensures KeptUpTo(points, hi, list + FlushDay(points[lo..hi]))
  {
    var day := points[lo..hi];
    assert StrictTimes(day);
    FlushKeeps(day);
    FlushedOfDay(points, lo, hi, day, FlushDay(day));
    JoinTimes(points, lo, hi, list, FlushDay(day));
  }

  lemma KeptWithin(points: seq<Point>, lo: nat, hi: nat, day: seq<Point>, k: nat)
    requires WholeDay(points, lo, hi) && day == points[lo..hi] && k < |day|
    ensures day[k] == points[lo + k] && (KeptOf(day, 0, |day|, k) <==> Kept(points, lo + k))
  {
    ShiftKept(points, lo, hi, day, k);
    KeptInDay(points, lo, hi, lo + k);
  }

  lemma FlushedOfDay(points: seq<Point>, lo: nat, hi: nat, day: seq<Point>, flushed: seq<Point>)
    requires WholeDay(points, lo, hi) && day == points[lo..hi]
    requires forall q :: q in flushed <==> exists k :: KeptOf(day, 0, |day|, k) && day[k] == q
    ensures forall q :: q in flushed <==> exists i :: lo <= i < hi && Kept(points, i) && points[i] == q
  {
    forall q | q in flushed ensures exists i :: lo <= i < hi && Kept(points, i) && points[i] == q {
      var k :| KeptOf(day, 0, |day|, k) && day[k] == q;
      KeptWithin(points, lo, hi, day, k);
      assert Kept(points, lo + k);
    }
    forall i | lo <= i < hi && Kept(points, i) ensures points[i] in flushed {
      KeptWithin(points, lo, hi, day, i - lo);
      assert KeptOf(day, 0, |day|, i - lo);
    }
  }

  lemma JoinTimes(points: seq<Point>, lo: nat, hi: nat, list: seq<Point>, flushed: seq<Point>)
    requires StrictTimes(points) && lo <= hi <= |points| && StrictTimes(list) && StrictTimes(flushed)
    requires forall q :: q in list ==> exists i :: 0 <= i < lo && points[i] == q
    requires forall q :: q in flushed ==> exists i :: lo <= i < hi && points[i] == q
    ensures StrictTimes(list + flushed)
  {
    forall a, b | 0 <= a < |list| && 0 <= b < |flushed| ensures list[a].time < flushed[b].time {
      assert list[a] in list && flushed[b] in flushed;
      var i :| 0 <= i < lo && points[i] == list[a];
      var j :| lo <= j < hi && points[j] == flushed[b];
    }
  }

  /** The buffer of the loop after n points: the day under way, and what was kept of the days before. */
  ghost predicate Buffered(points: seq<Point>, n: nat, lo: nat, b: Buffer) {
    && n <= |points| && OneDay(points, lo, n)
    && b.dayPoints == points[lo..n] && b.currentDay == Day(points[n - 1])
    && KeptUpTo(points, lo, b.compacted)
  }

  lemma SliceGrows<T>(items: seq<T>, lo: nat, n: nat)
    requires lo <= n < |items|
    ensures items[lo..n + 1] == items[lo..n] + [items[n]] && items[n..n + 1] == [items[n]]
    ensures items[..n + 1][..n] == items[..n]
  {
  }

  lemma AbsorbOne(points: seq<Point>, n: nat, lo: nat, b: Buffer) returns (next: nat)
    requires StrictTimes(points) && n < |points| && Buffered(points, n, lo, b)
    ensures Buffered(points, n + 1, next, Absorb(b, points[n]))
  {
    SliceGrows(points, lo, n);
    if Day(points[n]) != b.currentDay {
      next := n;
      DayEnds(points, lo, n);
      FlushWholeDay(points, lo, n, b.compacted);
    } else {
      next := lo;
      DayGrows(points, lo, n);
    }
  }

  lemma DayEnds(points: seq<Point>, lo: nat, n: nat)
    requires n < |points| && OneDay(points, lo, n) && Day(points[n]) != Day(points[n - 1])
    ensures WholeDay(points, lo, n) && OneDay(points, n, n + 1)
  {
    assert Day(points[lo]) == Day(points[n - 1]);
  }

  lemma DayGrows(points: seq<Point>, lo: nat, n: nat)
    requires n < |points| && OneDay(points, lo, n) && Day(points[n]) == Day(points[n - 1])
    ensures OneDay(points, lo, n + 1)
  {
    forall i, j | lo <= i < n + 1 && lo <= j < n + 1 ensures Day(points[i]) == Day(points[j]) {
      assert (i < n ==> Day(points[i]) == Day(points[n - 1])) && (j < n ==> Day(points[j]) == Day(points[n - 1]));
    }
  }

  lemma FirstBuffered(points: seq<Point>)
    requires points != []
    ensures Buffered(points, 1, 0, AbsorbAll(points[..1]))
  {
    assert points[..1] == [points[0]] && points[0..1] == [points[0]];
    assert AbsorbAll(points[..1]) == Buffer([], [] + [points[0]], Day(points[0]));
  }

  lemma AbsorbLast(points: seq<Point>, n: nat)
    requires 0 < n < |points|
    ensures AbsorbAll(points[..n + 1]) == Absorb(AbsorbAll(points[..n]), points[n])
  {
    SliceGrows(points, 0, n);
  }

  lemma {:induction false} LoopBuffers(points: seq<Point>, n: nat)
    requires StrictTimes(points) && 0 < n <= |points|
    ensures exists lo: nat :: Buffered(points, n, lo, AbsorbAll(points[..n]))
  {
    if n == 1 {
      FirstBuffered(points);
    } else {
      LoopBuffers(points, n - 1);
      var lo: nat :| Buffered(points, n - 1, lo, AbsorbAll(points[..n - 1]));
      var next := AbsorbOne(points, n - 1, lo, AbsorbAll(points[..n - 1]));
      AbsorbLast(points, n - 1);
    }
  }

  /** With times that strictly increase a list of more than three points becomes exactly the kept points of all its
      days, in order; a shorter list stays as it is. */
  lemma CompactKeeps(points: seq<Point>)
    requires StrictTimes(points)
    ensures |points| <= 3 ==> Compact(points) == points
    ensures |points| > 3 ==>
      && StrictTimes(Compact(points))
      && forall q :: q in Compact(points) <==> exists i :: 0 <= i < |points| && Kept(points, i) && points[i] == q
  {
    if |points| > 3 {
      var n := |points|;
      assert points[..n] == points;
      LoopBuffers(points, n);
      var lo: nat :| Buffered(points, n, lo, AbsorbAll(points));
      FlushWholeDay(points, lo, n, AbsorbAll(points).compacted);
    }
  }

  // ---------------------------------------------------------------- what a simulated stream shows

  /** Point q is bar k's time and what the run is worth at its close. */
  ghost predicate ShowsBar(p: Params, bars: seq<Bar>, k: int, q: Point) {
    && 0 <= k < |bars| && Play(p, bars, k + 1).Some?
    && q == Point(bars[k].timestamp, Worth(p, Play(p, bars, k + 1).value.grid, bars[k].close))
  }

  lemma PointsShowBars(p: Params, bars: seq<Bar>)
    requires p.principal > 0.0 && bars != [] && Play(p, bars, |bars|).Some?
    ensures var points := Play(p, bars, |bars|).value.points;
      forall k :: 0 <= k < |bars| ==> ShowsBar(p, bars, k, points[k])
  {
    forall k | 0 <= k < |bars| ensures ShowsBar(p, bars, k, Play(p, bars, |bars|).value.points[k]) {
      PointIsWorth(p, bars, |bars|, k);
    }
  }

  /** For bars in time order, every point of a simulated stream is what the run was worth at the close of a bar, and for
      more than three bars these are the bars whose points are kept for their day. */
  lemma StreamShowsBars(bars: seq<Bar>, principal: real, spacing: real, half: int, feeBps: real)
    requires Simulate(bars, principal, spacing, half, feeBps).Ok?
    requires forall i, j :: 0 <= i < j < |bars| ==> bars[i].timestamp < bars[j].timestamp
    ensures var p := Params(principal, spacing, half, feeBps / 10000.0);
      var stream := Simulate(bars, principal, spacing, half, feeBps).value.points;
      && bars != [] && Play(p, bars, |bars|).Some?
      && var points := Play(p, bars, |bars|).value.points;
        && (forall k :: 0 <= k < |bars| ==> ShowsBar(p, bars, k, points[k]))
        && (forall q :: q in stream <==>
              exists k :: 0 <= k < |points| && (|bars| <= 3 || Kept(points, k)) && points[k] == q)
  {
    var p := Params(principal, spacing, half, feeBps / 10000.0);
    var points := Play(p, bars, |bars|).value.points;
    PointsShowBars(p, bars);
    assert forall k :: 0 <= k < |bars| ==> ShowsBar(p, bars, k, points[k]) && points[k].time == bars[k].timestamp;
    CompactKeeps(points);
  }
}
