/** Combining the equity streams of several grids (scripts/dgt_dynamic_grid_probe.py): a fast path for streams with
    common timestamps and a general path with one cursor per stream. */
module GridCombine {
  import opened Common
  import opened Timeline
  import opened Streams

  datatype Outcome = NoStreams | EmptyStream | Points(points: seq<Point>)

  predicate ShareTimestamps(streams: seq<seq<Point>>) {
    streams != [] && forall i :: 0 <= i < |streams| ==> TimesOf(streams[i]) == TimesOf(streams[0])
  }

  // ---------------------------------------------------------------- specification

  /** Where a cursor standing at j stops for time t. */
  function Ahead(points: seq<Point>, t: int, j: nat): (k: nat)
    requires j < |points|
    ensures j <= k < |points|
    ensures forall i :: j < i <= k ==> points[i].time <= t
    ensures k + 1 < |points| ==> points[k + 1].time > t
    decreases |points| - j
  {
    if j + 1 < |points| && points[j + 1].time <= t then Ahead(points, t, j + 1) else j
  }

  /** What a stream contributes at time t: its last point so far, or its first point before it starts. */
  function ShownAt(points: seq<Point>, t: int): real
    requires points != []
  {
    points[Ahead(points, t, 0)].equity
  }

  predicate NoneEmpty(streams: seq<seq<Point>>) {
    forall i :: 0 <= i < |streams| ==> streams[i] != []
  }

  function TotalAt(streams: seq<seq<Point>>, t: int): real
    requires NoneEmpty(streams)
  {
    if streams == [] then 0.0 else TotalAt(streams[..|streams| - 1], t) + ShownAt(streams[|streams| - 1], t)
  }

  function General(streams: seq<seq<Point>>): (r: seq<Point>)
    requires NoneEmpty(streams)
  {
    var times := SortedUnion(AllTimes(streams));
    seq(|times|, k requires 0 <= k < |times| => Point(times[k], TotalAt(streams, times[k])))
  }

  function RowSum(streams: seq<seq<Point>>, k: nat): real
    requires forall i :: 0 <= i < |streams| ==> k < |streams[i]|
  {
    if streams == [] then 0.0 else RowSum(streams[..|streams| - 1], k) + streams[|streams| - 1][k].equity
  }

  function Fast(streams: seq<seq<Point>>): (r: seq<Point>)
    requires ShareTimestamps(streams)
    ensures |r| == |streams[0]|
  {
    SharedLength(streams);
    seq(|streams[0]|, k requires 0 <= k < |streams[0]| => Point(streams[0][k].time, RowSum(streams, k)))
  }

  lemma SharedLength(streams: seq<seq<Point>>)
    requires ShareTimestamps(streams)
    ensures forall i :: 0 <= i < |streams| ==> |streams[i]| == |streams[0]|
  {
    forall i | 0 <= i < |streams| ensures |streams[i]| == |streams[0]| {
      assert |TimesOf(streams[i])| == |TimesOf(streams[0])|;
    }
  }

  // ---------------------------------------------------------------- the two paths agree

  lemma AheadUnique(points: seq<Point>, t: int, j: nat, k: nat)
    requires j <= k < |points| && (forall i :: j < i <= k ==> points[i].time <= t)
    requires k + 1 < |points| ==> points[k + 1].time > t
    ensures Ahead(points, t, j) == k
    decreases k - j
  {
    if j < k {
      AheadUnique(points, t, j + 1, k);
    }
  }

  /** On its own k-th timestamp a strictly increasing stream shows its k-th point. */
  lemma CursorAtRow(points: seq<Point>, k: nat)
    requires k < |points| && Increasing(TimesOf(points))
    ensures Ahead(points, points[k].time, 0) == k
  {
    var times, t := TimesOf(points), points[k].time;
    forall i | 0 < i <= k ensures points[i].time <= t {
      assert i < k ==> times[i] < times[k];
    }
    if k + 1 < |points| {
      assert times[k] < times[k + 1];
    }
    AheadUnique(points, t, 0, k);
  }

  lemma {:induction false} RowIsTotal(streams: seq<seq<Point>>, times: seq<int>, k: nat)
    requires k < |times| && Increasing(times) && NoneEmpty(streams)
    requires forall i :: 0 <= i < |streams| ==> |streams[i]| == |times| && TimesOf(streams[i]) == times
    ensures TotalAt(streams, times[k]) == RowSum(streams, k)
  {
    if streams != [] {
      var n := |streams| - 1;
      RowIsTotal(streams[..n], times, k);
      assert TimesOf(streams[n])[k] == times[k];
      CursorAtRow(streams[n], k);
    }
  }

  lemma {:induction false} SharedUnion(streams: seq<seq<Point>>, times: seq<int>, x: int)
    requires forall i :: 0 <= i < |streams| ==> TimesOf(streams[i]) == times
    ensures x in AllTimes(streams) <==> streams != [] && x in times
  {
    if streams != [] {
      var n := |streams| - 1;
      SharedUnion(streams[..n], times, x);
    }
  }

  lemma SharedTimesSorted(streams: seq<seq<Point>>)
    requires ShareTimestamps(streams) && Increasing(TimesOf(streams[0]))
    ensures SortedUnion(AllTimes(streams)) == TimesOf(streams[0])
  {
    var times := TimesOf(streams[0]);
    forall x
      ensures x in SortedUnion(AllTimes(streams)) <==> x in times
    {
      SharedUnion(streams, times, x);
    }
    SameElements(SortedUnion(AllTimes(streams)), times);
  }

  lemma GeneralTimes(streams: seq<seq<Point>>)
    requires NoneEmpty(streams)
    ensures TimesOf(General(streams)) == SortedUnion(AllTimes(streams))
  {
  }

  lemma FastTimes(streams: seq<seq<Point>>)
    requires ShareTimestamps(streams)
    ensures TimesOf(Fast(streams)) == TimesOf(streams[0])
  {
  }

  /** The fast path computes what the general path would, exactly when the common timestamps strictly increase. */
  lemma FastAgreesIffIncreasing(streams: seq<seq<Point>>)
    requires ShareTimestamps(streams) && NoneEmpty(streams)
    ensures Fast(streams) == General(streams) <==> Increasing(TimesOf(streams[0]))
  {
    GeneralTimes(streams);
    FastTimes(streams);
    var times := TimesOf(streams[0]);
    if Increasing(times) {
      SharedTimesSorted(streams);
      SharedLength(streams);
      forall k | 0 <= k < |times|
        ensures Fast(streams)[k] == General(streams)[k]
      {
        RowIsTotal(streams, times, k);
      }
    }
  }

  // ---------------------------------------------------------------- the loops

  method SharedTimestamps(streams: seq<seq<Point>>) returns (shared: bool)
    ensures shared <==> ShareTimestamps(streams)
  {
    if streams == [] {
      return false;
    }
    for i := 1 to |streams|
      invariant forall j :: 0 <= j < i ==> TimesOf(streams[j]) == TimesOf(streams[0])
    {
      if TimesOf(streams[i]) != TimesOf(streams[0]) {
        return false;
      }
    }
    return true;
  }

  method SumRows(streams: seq<seq<Point>>) returns (points: seq<Point>)
    requires ShareTimestamps(streams)
    ensures points == Fast(streams)
  {
    SharedLength(streams);
    points := [];
    for k := 0 to |streams[0]|
      invariant points == Fast(streams)[..k]
    {
      points := points + [Point(streams[0][k].time, RowSum(streams, k))];
    }
  }

  /** A cursor that stopped for an earlier time goes on to where one starting anew would stop. */
  lemma AheadResumes(points: seq<Point>, before: int, t: int)
    requires points != [] && before <= t
    ensures Ahead(points, t, Ahead(points, before, 0)) == Ahead(points, t, 0)
  {
    AheadUnique(points, t, 0, Ahead(points, t, Ahead(points, before, 0)));
  }

  /** Cursors after time `t`; `None` is before the first timestamp. */
  ghost predicate CursorsAt(streams: seq<seq<Point>>, indexes: seq<nat>, t: Option<int>)
    requires NoneEmpty(streams)
  {
    |indexes| == |streams| && forall i :: 0 <= i < |streams| ==> CursorAt(streams[i], indexes[i], t)
  }

  ghost predicate CursorAt(points: seq<Point>, index: nat, t: Option<int>)
    requires points != []
  {
    index == match t case None => 0 case Some(time) => Ahead(points, time, 0)
  }

  method AdvanceCursor(points: seq<Point>, start: nat, ghost before: Option<int>, t: int) returns (index: nat)
    requires points != [] && CursorAt(points, start, before) && (before.Some? ==> before.value <= t)
    ensures CursorAt(points, index, Some(t))
  {
    index := start;
    while index + 1 < |points| && points[index + 1].time <= t
      invariant index < |points| && Ahead(points, t, index) == Ahead(points, t, start)
      decreases |points| - index
    {
      index := index + 1;
    }
    if before.Some? {
      AheadResumes(points, before.value, t);
    }
  }

  /** One timestamp: move every cursor and add up. */
  method AddUp(streams: seq<seq<Point>>, indexes: array<nat>, ghost before: Option<int>, t: int) returns (total: real)
    requires NoneEmpty(streams) && CursorsAt(streams, indexes[..], before) && (before.Some? ==> before.value <= t)
    modifies indexes
    ensures CursorsAt(streams, indexes[..], Some(t)) && total == TotalAt(streams, t)
  {
    total := 0.0;
    for i := 0 to |streams|
      invariant total == TotalAt(streams[..i], t)
      invariant forall j :: 0 <= j < i ==> CursorAt(streams[j], indexes[j], Some(t))
      invariant forall j :: i <= j < |streams| ==> CursorAt(streams[j], indexes[j], before)
    {
      var index := AdvanceCursor(streams[i], indexes[i], before, t);
      indexes[i] := index;
      assert streams[..i + 1][..i] == streams[..i];
      total := total + streams[i][index].equity;
    }
    assert streams[..|streams|] == streams;
  }

  method MergeStreams(streams: seq<seq<Point>>) returns (points: seq<Point>)
    requires NoneEmpty(streams)
    ensures points == General(streams)
  {
    var times := SortedUnion(AllTimes(streams));
    var indexes := new nat[|streams|](_ => 0);
    ghost var before: Option<int> := None;
    points := [];
    for k := 0 to |times|
      invariant points == General(streams)[..k]
      invariant before.Some? ==> k > 0 && before.value == times[k - 1]
      invariant CursorsAt(streams, indexes[..], before)
    {
      var total := AddUp(streams, indexes, before, times[k]);
      before := Some(times[k]);
      points := points + [Point(times[k], total)];
    }
  }

  /** `combine_streams`. The error it has for an empty set of timestamps cannot occur: streams without any points share
      their timestamps. An empty stream among others is the index error of the general path. */
  method CombineStreams(streams: seq<seq<Point>>) returns (r: Outcome)
    ensures r == if streams == [] then NoStreams
                 else if ShareTimestamps(streams) then Points(Fast(streams))
                 else if NoneEmpty(streams) then Points(General(streams))
                 else EmptyStream
  {
    if streams == [] {
      return NoStreams;
    }
    var shared := SharedTimestamps(streams);
    if shared {
      var points := SumRows(streams);
      return Points(points);
    }
    if exists i :: 0 <= i < |streams| && streams[i] == [] {
      return EmptyStream;
    }
    var points := MergeStreams(streams);
    return Points(points);
  }

  /** Without any timestamp there is nothing to disagree about. */
  lemma NoTimestampsMeansShared(streams: seq<seq<Point>>)
    requires streams != [] && AllTimes(streams) == []
    ensures ShareTimestamps(streams)
  {
    AllEmpty(streams);
  }

  lemma {:induction false} AllEmpty(streams: seq<seq<Point>>)
    requires AllTimes(streams) == []
    ensures forall i :: 0 <= i < |streams| ==> TimesOf(streams[i]) == []
  {
    if streams != [] {
      var n := |streams| - 1;
      assert |AllTimes(streams[..n])| + |TimesOf(streams[n])| == 0;
      AllEmpty(streams[..n]);
    }
  }

  // ---------------------------------------------------------------- what is combined

  /** Two lists of streams together show the sum of what each shows. */
  lemma {:induction false} TotalSplits(a: seq<seq<Point>>, b: seq<seq<Point>>, t: int)
    requires NoneEmpty(a) && NoneEmpty(b)
    ensures NoneEmpty(a + b) && TotalAt(a + b, t) == TotalAt(a, t) + TotalAt(b, t)
  {
    if b == [] {
      assert a + b == a;
    } else {
      TotalSplits(a, Init(b), t);
      assert (a + b)[..|a + b| - 1] == a + Init(b);
    }
  }

  /** One stream in time order shows its latest point, and before it starts its first. */
  lemma TotalOfOne(points: seq<Point>, t: int)
    requires points != [] && InOrder(points, TimeOf)
    ensures TotalAt([points], t) == if Latest(points, t).Some? then Latest(points, t).value.equity else points[0].equity
  {
    var k := Ahead(points, t, 0);
    assert [points][..0] == [];
    assert TotalAt([points], t) == TotalAt([], t) + ShownAt(points, t);
    assert forall i, j :: 0 <= i < j < |points| ==> TimeOf(points[i]) <= TimeOf(points[j]);
    if points[0].time <= t {
      LatestInOrder(points, k + 1, t);
    } else {
      AheadUnique(points, t, 0, 0);
      LatestInOrder(points, 0, t);
    }
  }
}
