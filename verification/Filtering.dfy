/** Keeping the items of a list that satisfy a condition. */
module Filtering {

  /** The items that satisfy p, in their order. */
  function Select<T>(items: seq<T>, p: T -> bool): (r: seq<T>)
    ensures forall x <- r :: x in items && p(x)
  {
    if items == [] then []
    else
      var n := |items| - 1;
      Select(items[..n], p) + if p(items[n]) then [items[n]] else []
  }

  lemma SelectPush<T>(items: seq<T>, x: T, p: T -> bool)
    ensures Select(items + [x], p) == Select(items, p) + if p(x) then [x] else []
  {
    assert (items + [x])[..|items|] == items;
  }

  lemma {:induction false} SelectConcat<T>(a: seq<T>, b: seq<T>, p: T -> bool)
    ensures Select(a + b, p) == Select(a, p) + Select(b, p)
  {
    if b == [] {
      assert a + b == a;
    } else {
      var front, x := b[..|b| - 1], b[|b| - 1];
      SelectConcat(a, front, p);
      SelectPush(a + front, x, p);
      SelectPush(front, x, p);
      LastBehind(a, b);
      Regroup(Select(a, p), Select(front, p), if p(x) then [x] else []);
    }
  }

  lemma LastBehind<T>(a: seq<T>, b: seq<T>)
    requires b != []
    ensures a + b == (a + b[..|b| - 1]) + [b[|b| - 1]] && b == b[..|b| - 1] + [b[|b| - 1]]
  {
  }

  lemma Regroup<T>(a: seq<T>, b: seq<T>, c: seq<T>)
    ensures (a + b) + c == a + (b + c)
  {
  }

  /** Item k, and no other item, satisfies p. */
  ghost predicate OnlyAt<T(!new)>(items: seq<T>, p: T -> bool, k: int) {
    0 <= k < |items| && p(items[k]) && forall i :: 0 <= i < |items| && p(items[i]) ==> i == k
  }

  lemma {:induction false} SelectNone<T>(items: seq<T>, p: T -> bool)
    ensures Select(items, p) == [] <==> forall i :: 0 <= i < |items| ==> !p(items[i])
  {
    if items != [] {
      var n := |items| - 1;
      SelectNone(items[..n], p);
      assert forall i :: 0 <= i < n ==> items[..n][i] == items[i];
    }
  }

  /** A single item is selected exactly when it is the only one that qualifies. */
  lemma {:induction false} SelectOnly<T(!new)>(items: seq<T>, p: T -> bool, k: nat)
    requires OnlyAt(items, p, k)
    ensures Select(items, p) == [items[k]]
  {
    var n := |items| - 1;
    var rest := items[..n];
    SelectNone(rest, p);
    if k < n {
      assert OnlyAt(rest, p, k);
      SelectOnly(rest, p, k);
    }
  }

  lemma {:induction false} SelectOne<T(!new)>(items: seq<T>, p: T -> bool) returns (k: nat)
    requires |Select(items, p)| == 1
    ensures OnlyAt(items, p, k) && Select(items, p) == [items[k]]
  {
    var n := |items| - 1;
    var rest := items[..n];
    assert forall i :: 0 <= i < n ==> rest[i] == items[i];
    if p(items[n]) {
      SelectNone(rest, p);
      k := n;
    } else {
      assert Select(items, p) == Select(rest, p);
      k := SelectOne(rest, p);
    }
  }

  lemma {:induction false} SelectMembers<T>(items: seq<T>, p: T -> bool, x: T)
    ensures x in Select(items, p) <==> x in items && p(x)
  {
    if items != [] {
      var n := |items| - 1;
      SelectMembers(items[..n], p, x);
      assert items == items[..n] + [items[n]];
    }
  }

  /** Two different items qualify. */
  ghost predicate TwoAt<T(!new)>(items: seq<T>, p: T -> bool) {
    exists i, j :: 0 <= i < j < |items| && p(items[i]) && p(items[j])
  }

  lemma {:induction false} SelectMany<T(!new)>(items: seq<T>, p: T -> bool)
    ensures |Select(items, p)| > 1 <==> TwoAt(items, p)
  {
    if items != [] {
      var n := |items| - 1;
      var rest := items[..n];
      SelectMany(rest, p);
      SelectNone(rest, p);
      assert forall i :: 0 <= i < n ==> rest[i] == items[i];
      if TwoAt(rest, p) {
        var i, j :| 0 <= i < j < n && p(rest[i]) && p(rest[j]);
        assert p(items[i]) && p(items[j]);
      } else if p(items[n]) && Select(rest, p) != [] {
        var i :| 0 <= i < n && p(rest[i]);
        assert p(items[i]);
      }
    }
  }

  /** The first item selected is the first that qualifies. */
  lemma {:induction false} SelectFirst<T(!new)>(items: seq<T>, p: T -> bool) returns (k: nat)
    requires Select(items, p) != []
    ensures k < |items| && p(items[k]) && Select(items, p)[0] == items[k]
    ensures forall i :: 0 <= i < k ==> !p(items[i])
  {
    var n := |items| - 1;
    var rest := items[..n];
    SelectNone(rest, p);
    assert forall i :: 0 <= i < n ==> rest[i] == items[i];
    if Select(rest, p) == [] {
      k := n;
    } else {
      k := SelectFirst(rest, p);
    }
  }

  /** Two filters in a row are one when the second is the stricter. */
  lemma {:induction false} SelectTwice<T(!new)>(items: seq<T>, p: T -> bool, q: T -> bool)
    requires forall x :: q(x) ==> p(x)
    ensures Select(Select(items, p), q) == Select(items, q)
  {
    if items != [] {
      var n := |items| - 1;
      var rest, x := items[..n], items[n];
      SelectTwice(rest, p, q);
      var kept := Select(rest, p);
      if p(x) {
        assert Select(items, p) == kept + [x];
        SelectPush(kept, x, q);
      } else {
        assert Select(items, p) == kept;
        assert Select(items, q) == Select(rest, q);
      }
    }
  }
}
