/** Points in time and their order: sorting with and without duplicates. */
module Timeline {

  /** A point of an equity curve. */
  datatype Point = Point(time: int, equity: real)

  function TimeOf(p: Point): int { p.time }

  predicate Increasing(ts: seq<int>) {
    forall i, j :: 0 <= i < j < |ts| ==> ts[i] < ts[j]
  }

  lemma BelowLast(ts: seq<int>, t: int, r: seq<int>)
    requires ts != [] && Increasing(ts) && t < ts[|ts| - 1]
    requires forall x :: x in r ==> x in ts[..|ts| - 1] || x == t
    ensures forall i :: 0 <= i < |r| ==> r[i] < ts[|ts| - 1]
  {
    forall i | 0 <= i < |r|
      ensures r[i] < ts[|ts| - 1]
    {
      assert r[i] in r;
      if r[i] != t {
        var k :| 0 <= k < |ts| - 1 && ts[..|ts| - 1][k] == r[i];
        assert ts[k] < ts[|ts| - 1];
      }
    }
  }

  /** Sorted insertion that ignores a timestamp already present: `sort_unstable` followed by `dedup`. */
  function Insert(ts: seq<int>, t: int): (r: seq<int>)
    requires Increasing(ts)
    ensures Increasing(r)
    ensures forall x :: x in r <==> x in ts || x == t
  {
    if ts == [] then [t]
    else
      var last := ts[|ts| - 1];
      if t > last then ts + [t]
      else if t == last then ts
      else
        var front := ts[..|ts| - 1];
        assert ts == front + [last];
        var r := Insert(front, t);
        BelowLast(ts, t, r);
        r + [last]
  }

  function SortedUnion(ts: seq<int>): (r: seq<int>)
    ensures Increasing(r)
    ensures forall x :: x in r <==> x in ts
  {
    if ts == [] then []
    else
      assert ts == ts[..|ts| - 1] + [ts[|ts| - 1]];
      Insert(SortedUnion(ts[..|ts| - 1]), ts[|ts| - 1])
  }

  /** Two strictly increasing lists with the same elements are the same list. */
  lemma {:induction false} SameElements(a: seq<int>, b: seq<int>)
    requires Increasing(a) && Increasing(b)
    requires forall x :: x in a <==> x in b
    ensures a == b
  {
    assert (a != [] ==> a[0] in a) && (b != [] ==> b[0] in b);
    if a != [] && b != [] {
      var m, n := |a| - 1, |b| - 1;
      SameLast(a, b);
      assert a == a[..m] + [a[m]] && b == b[..n] + [b[n]];
      forall x
        ensures x in a[..m] <==> x in b[..n]
      {
        FrontMembership(a, x);
        FrontMembership(b, x);
      }
      SameElements(a[..m], b[..n]);
    }
  }

  lemma FrontMembership(a: seq<int>, x: int)
    requires a != [] && Increasing(a)
    ensures x in a[..|a| - 1] <==> x in a && x != a[|a| - 1]
  {
    assert a == a[..|a| - 1] + [a[|a| - 1]];
  }

  lemma SameLast(a: seq<int>, b: seq<int>)
    requires a != [] && b != [] && Increasing(a) && Increasing(b)
    requires forall x :: x in a <==> x in b
    ensures a[|a| - 1] == b[|b| - 1]
  {
    assert a[|a| - 1] in a && b[|b| - 1] in b;
  }

  // ---------------------------------------------------------------- stable sort by a key

  predicate InOrder<T(!new)>(items: seq<T>, key: T -> int) {
    forall i, j :: 0 <= i < j < |items| ==> key(items[i]) <= key(items[j])
  }

  /** Insertion behind every item whose key is not greater. */
  function Place<T>(items: seq<T>, x: T, key: T -> int): (r: seq<T>)
    ensures |r| == |items| + 1
    ensures forall y <- r :: y in items || y == x
  {
    if items == [] || key(items[|items| - 1]) <= key(x) then items + [x]
    else Place(items[..|items| - 1], x, key) + [items[|items| - 1]]
  }

  /** `sorted(items, key=key)`. */
  function Sorted<T>(items: seq<T>, key: T -> int): seq<T> {
    if items == [] then [] else Place(Sorted(items[..|items| - 1], key), items[|items| - 1], key)
  }

  lemma {:induction false} PlaceKeepsOrder<T(!new)>(items: seq<T>, x: T, key: T -> int)
    requires InOrder(items, key)
    ensures InOrder(Place(items, x, key), key)
  {
    if items != [] && key(items[|items| - 1]) > key(x) {
      var front, last := items[..|items| - 1], items[|items| - 1];
      PlaceKeepsOrder(front, x, key);
      var placed := Place(front, x, key);
      forall i | 0 <= i < |placed|
        ensures key(placed[i]) <= key(last)
      {
        assert placed[i] in placed;
      }
    }
  }

  lemma {:induction false} SortedInOrder<T(!new)>(items: seq<T>, key: T -> int)
    ensures InOrder(Sorted(items, key), key)
  {
    if items != [] {
      SortedInOrder(items[..|items| - 1], key);
      PlaceKeepsOrder(Sorted(items[..|items| - 1], key), items[|items| - 1], key);
    }
  }
}
