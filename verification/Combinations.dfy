/** Portfolio enumeration of apps/backtest-engine/src/portfolio_search.rs: the recursive search over index
    combinations under a budget, and the cyclic selection of distinct members. */
module Combinations {
  import opened Arithmetic
  import opened Common

  /** One evaluation: the chosen candidate indices and the number of the allocation template. */
  datatype Work = Work(members: seq<nat>, template: nat)

  datatype Search = Search(indices: seq<nat>, targetLen: nat, templateLens: seq<nat>, symbolOf: nat -> string)

  function Symbols(q: Search, members: seq<nat>): set<string> {
    set i | 0 <= i < |members| :: q.symbolOf(members[i])
  }

  // ---------------------------------------------------------------- specification

  /** Templates of the right length, from number k on. */
  function TemplatesFrom(q: Search, members: seq<nat>, k: nat): seq<Work>
    requires k <= |q.templateLens|
    decreases |q.templateLens| - k
  {
    if k == |q.templateLens| then []
    else (if q.templateLens[k] == q.targetLen then [Work(members, k)] else []) + TemplatesFrom(q, members, k + 1)
  }

  lemma SkipTemplate(q: Search, members: seq<nat>, k: nat)
    requires k < |q.templateLens| && q.templateLens[k] != q.targetLen
    ensures TemplatesFrom(q, members, k) == TemplatesFrom(q, members, k + 1)
  {
  }

  lemma TakeTemplate(q: Search, members: seq<nat>, k: nat)
    requires k < |q.templateLens| && q.templateLens[k] == q.targetLen
    ensures TemplatesFrom(q, members, k) == [Work(members, k)] + TemplatesFrom(q, members, k + 1)
  {
  }

  /** What is evaluated for one full combination: nothing with fewer than two symbols. */
  function WorkOf(q: Search, members: seq<nat>): seq<Work> {
    if |Symbols(q, members)| < 2 then [] else TemplatesFrom(q, members, 0)
  }

  /** Every evaluation below a prefix, choosing r more positions from `start` on. */
  function AllWork(q: Search, prefix: seq<nat>, start: nat, r: nat): seq<Work>
    requires start <= |q.indices|
    decreases |q.indices| - start
  {
    if r == 0 then WorkOf(q, prefix)
    else if start == |q.indices| then []
    else AllWork(q, prefix + [q.indices[start]], start + 1, r - 1) + AllWork(q, prefix, start + 1, r)
  }

  function Take<T>(s: seq<T>, n: int): (r: seq<T>)
    ensures |r| == if n < 0 then 0 else if n < |s| then n else |s|
  {
    if n <= 0 then [] else if n < |s| then s[..n] else s
  }

  /** Evaluations made and counted so far. */
  datatype Progress = Progress(evaluated: seq<Work>, count: nat)

  /** Work through a list until the budget is spent. */
  function Perform(p: Progress, work: seq<Work>, maxCombos: nat): Progress {
    var done := Take(work, maxCombos - p.count);
    Progress(p.evaluated + done, p.count + |done|)
  }

  lemma PerformConcat(p: Progress, a: seq<Work>, b: seq<Work>, maxCombos: nat)
    ensures Perform(p, a + b, maxCombos) == Perform(Perform(p, a, maxCombos), b, maxCombos)
  {
    var n := maxCombos - p.count;
    var x := Take(a, n);
    assert Take(a + b, n) == x + Take(b, n - |x|);
    assert p.evaluated + (x + Take(b, n - |x|)) == (p.evaluated + x) + Take(b, n - |x|);
  }

  lemma PerformSpent(p: Progress, work: seq<Work>, maxCombos: nat)
    requires p.count >= maxCombos || work == []
    ensures Perform(p, work, maxCombos) == p
  {
    assert Take(work, maxCombos - p.count) == [];
    assert p.evaluated + [] == p.evaluated;
  }

  /** The work below a prefix is the work with the next index, then the work without it. */
  lemma PerformBranch(p: Progress, q: Search, prefix: seq<nat>, pos: nat, r: nat, maxCombos: nat)
    requires pos < |q.indices| && r > 0
    ensures Perform(p, AllWork(q, prefix, pos, r), maxCombos)
            == Perform(Perform(p, AllWork(q, prefix + [q.indices[pos]], pos + 1, r - 1), maxCombos),
                AllWork(q, prefix, pos + 1, r), maxCombos)
  {
    PerformConcat(p, AllWork(q, prefix + [q.indices[pos]], pos + 1, r - 1), AllWork(q, prefix, pos + 1, r), maxCombos);
  }

  lemma PerformOne(p: Progress, work: Work, maxCombos: nat)
    requires p.count < maxCombos
    ensures Perform(p, [work], maxCombos) == Progress(p.evaluated + [work], p.count + 1)
  {
  }

  /** The templates from k on are template k, when it fits, and those behind it. */
  lemma PerformTemplate(p: Progress, q: Search, members: seq<nat>, k: nat, maxCombos: nat)
    requires p.count < maxCombos && k < |q.templateLens| && q.templateLens[k] == q.targetLen
    ensures Perform(p, TemplatesFrom(q, members, k), maxCombos)
            == Perform(Progress(p.evaluated + [Work(members, k)], p.count + 1),
                TemplatesFrom(q, members, k + 1), maxCombos)
  {
    TakeTemplate(q, members, k);
    PerformConcat(p, [Work(members, k)], TemplatesFrom(q, members, k + 1), maxCombos);
    PerformOne(p, Work(members, k), maxCombos);
  }

  /** The count never passes the budget, and below it everything is done. */
  lemma PerformWithinBudget(p: Progress, work: seq<Work>, maxCombos: nat)
    requires p.count <= maxCombos
    ensures Perform(p, work, maxCombos).count <= maxCombos
    ensures Perform(p, work, maxCombos).count < maxCombos ==>
          Perform(p, work, maxCombos).evaluated == p.evaluated + work
  {
  }

  lemma {:induction false} TooFewLeft(q: Search, prefix: seq<nat>, start: nat, r: nat)
    requires start <= |q.indices| && |q.indices| - start < r
    ensures AllWork(q, prefix, start, r) == []
    decreases |q.indices| - start
  {
    if start < |q.indices| {
      TooFewLeft(q, prefix + [q.indices[start]], start + 1, r - 1);
      TooFewLeft(q, prefix, start + 1, r);
    }
  }

  // ---------------------------------------------------------------- the recursion

  class Enumerator {
    var current: seq<nat>
    var comboCount: nat
    var evaluated: seq<Work>

    ghost function State(): Progress
      reads this
    {
      Progress(evaluated, comboCount)
    }

    /** The loop over templates for one full combination. */
    method Evaluate(q: Search, maxCombos: nat)
      requires comboCount < maxCombos
      modifies this`comboCount, this`evaluated
      ensures State() == Perform(old(State()), WorkOf(q, current), maxCombos)
    {
      if |Symbols(q, current)| < 2 {
        PerformSpent(State(), [], maxCombos);
        return;
      }
      ghost var goal := TemplateOutlook(q, 0, maxCombos);
      for k := 0 to |q.templateLens|
        invariant comboCount < maxCombos
        invariant TemplateOutlook(q, k, maxCombos) == goal
      {
        EvaluateTemplate(q, k, maxCombos);
        if comboCount >= maxCombos {
          return;
        }
      }
      PerformSpent(State(), [], maxCombos);
    }

    /** What will have been done once the templates from k on are through. */
    ghost function TemplateOutlook(q: Search, k: nat, maxCombos: nat): Progress
      requires k <= |q.templateLens|
      reads this
    {
      Perform(State(), TemplatesFrom(q, current, k), maxCombos)
    }

    /** One template, when it fits. */
    method EvaluateTemplate(q: Search, k: nat, maxCombos: nat)
      requires k < |q.templateLens| && comboCount < maxCombos
      modifies this`comboCount, this`evaluated
      ensures TemplateOutlook(q, k + 1, maxCombos) == old(TemplateOutlook(q, k, maxCombos))
      ensures comboCount >= maxCombos ==> State() == TemplateOutlook(q, k + 1, maxCombos)
    {
      if q.templateLens[k] == q.targetLen {
        PerformTemplate(State(), q, current, k, maxCombos);
        evaluated := evaluated + [Work(current, k)];
        comboCount := comboCount + 1;
      } else {
        SkipTemplate(q, current, k);
      }
      if comboCount >= maxCombos {
        PerformSpent(State(), TemplatesFrom(q, current, k + 1), maxCombos);
      }
    }

    /** `enumerate_portfolio_index_combinations`: evaluates the specified work in order until the budget is spent, and
        leaves the working prefix as it found it. */
    method Enumerate(q: Search, startPos: nat, maxCombos: nat)
      requires startPos <= |q.indices| && |current| <= q.targetLen
      modifies this
      ensures current == old(current)
      ensures State() == Perform(old(State()), AllWork(q, current, startPos, q.targetLen - |current|), maxCombos)
      decreases |q.indices| - startPos, 2
    {
      ghost var work := AllWork(q, current, startPos, q.targetLen - |current|);
      if comboCount >= maxCombos {
        PerformSpent(State(), work, maxCombos);
        return;
      }
      if |current| == q.targetLen {
        Evaluate(q, maxCombos);
        return;
      }
      var remaining := q.targetLen - |current|;
      if |q.indices| - startPos < remaining {
        TooFewLeft(q, current, startPos, remaining);
        PerformSpent(State(), [], maxCombos);
        return;
      }
      EnumerateFrom(q, startPos, remaining, maxCombos);
    }

    /** The loop over the next position. */
    method EnumerateFrom(q: Search, startPos: nat, remaining: nat, maxCombos: nat)
      requires startPos <= |q.indices| && 0 < remaining == q.targetLen - |current| && comboCount < maxCombos
      modifies this
      ensures current == old(current)
      ensures State() == Perform(old(State()), AllWork(q, current, startPos, remaining), maxCombos)
      decreases |q.indices| - startPos, 1
    {
      ghost var goal := Outlook(q, startPos, remaining, maxCombos);
      for pos := startPos to |q.indices|
        invariant current == old(current) && comboCount < maxCombos
        invariant Outlook(q, pos, remaining, maxCombos) == goal
      {
        EnumerateWith(q, pos, remaining, maxCombos);
        if comboCount >= maxCombos {
          return;
        }
      }
      PerformSpent(State(), [], maxCombos);
    }

    /** What will have been done once the positions from `pos` on are through. */
    ghost function Outlook(q: Search, pos: nat, remaining: nat, maxCombos: nat): Progress
      requires pos <= |q.indices|
      reads this
    {
      Perform(State(), AllWork(q, current, pos, remaining), maxCombos)
    }

    /** `current.push`, the recursive call and `current.pop`. */
    method EnumerateWith(q: Search, pos: nat, remaining: nat, maxCombos: nat)
      requires pos < |q.indices| && 0 < remaining == q.targetLen - |current|
      modifies this
      ensures current == old(current)
      ensures Outlook(q, pos + 1, remaining, maxCombos) == old(Outlook(q, pos, remaining, maxCombos))
      ensures comboCount >= maxCombos ==> State() == Outlook(q, pos + 1, remaining, maxCombos)
      decreases |q.indices| - pos, 0
    {
      ghost var prefix := current;
      PerformBranch(State(), q, prefix, pos, remaining, maxCombos);
      current := current + [q.indices[pos]];
      Enumerate(q, pos + 1, maxCombos);
      current := current[..|current| - 1];
      assert current == prefix;
      if comboCount >= maxCombos {
        PerformSpent(State(), AllWork(q, prefix, pos + 1, remaining), maxCombos);
      }
    }
  }

  // ---------------------------------------------------------------- what the specification visits

  function Prefixed(first: nat, tuples: seq<seq<nat>>): (r: seq<seq<nat>>)
    ensures |r| == |tuples| && forall i :: 0 <= i < |r| ==> r[i] == [first] + tuples[i]
  {
    seq(|tuples|, i requires 0 <= i < |tuples| => [first] + tuples[i])
  }

  /** All choices of r positions in increasing order out of start..n, in lexicographic order. */
  function Tuples(n: nat, start: nat, r: nat): seq<seq<nat>>
    requires start <= n
    decreases n - start
  {
    if r == 0 then [[]]
    else if start == n then []
    else Prefixed(start, Tuples(n, start + 1, r - 1)) + Tuples(n, start + 1, r)
  }

  ghost predicate IncreasingIn(p: seq<nat>, start: nat, n: nat) {
    && (forall i :: 0 <= i < |p| ==> start <= p[i] < n)
    && (forall i, j :: 0 <= i < j < |p| ==> p[i] < p[j])
  }

  /** Exactly the strictly increasing tuples of length r appear. */
  lemma {:induction false} TuplesAreIncreasing(n: nat, start: nat, r: nat, k: nat)
    requires start <= n && k < |Tuples(n, start, r)|
    ensures |Tuples(n, start, r)[k]| == r && IncreasingIn(Tuples(n, start, r)[k], start, n)
    decreases n - start
  {
    if r > 0 && start < n {
      var first := Tuples(n, start + 1, r - 1);
      if k < |first| {
        TuplesAreIncreasing(n, start + 1, r - 1, k);
      } else {
        TuplesAreIncreasing(n, start + 1, r, k - |first|);
      }
    }
  }

  lemma LaterStart(p: seq<nat>, start: nat, n: nat)
    requires IncreasingIn(p, start, n) && p != []
    ensures p[0] == start ==> IncreasingIn(p[1..], start + 1, n) && [start] + p[1..] == p
    ensures p[0] > start ==> IncreasingIn(p, start + 1, n)
  {
    forall i | 0 <= i < |p| ensures p[0] <= p[i] {
    }
  }

  /** Every strictly increasing tuple is visited. */
  lemma {:induction false} EveryTupleVisited(n: nat, start: nat, r: nat, p: seq<nat>)
    requires start <= n && |p| == r && IncreasingIn(p, start, n)
    ensures p in Tuples(n, start, r)
    decreases n - start
  {
    if r > 0 {
      assert start <= p[0] < n;
      LaterStart(p, start, n);
      if p[0] == start {
        EveryTupleVisited(n, start + 1, r - 1, p[1..]);
        var tail := Tuples(n, start + 1, r - 1);
        var k :| 0 <= k < |tail| && tail[k] == p[1..];
        assert Prefixed(start, tail)[k] == p;
      } else {
        EveryTupleVisited(n, start + 1, r, p);
      }
    }
  }

  lemma PrefixedDiffer(first: nat, a: seq<nat>, b: seq<nat>)
    requires a != b
    ensures [first] + a != [first] + b
  {
    assert ([first] + a)[1..] == a && ([first] + b)[1..] == b;
  }

  lemma HeadsDiffer(first: nat, t: seq<nat>, u: seq<nat>)
    requires u != [] && u[0] > first
    ensures [first] + t != u
  {
    assert ([first] + t)[0] == first;
  }

  lemma LaterHead(n: nat, start: nat, r: nat, k: nat)
    requires start <= n && r > 0 && k < |Tuples(n, start, r)|
    ensures Tuples(n, start, r)[k] != [] && Tuples(n, start, r)[k][0] >= start
  {
    TuplesAreIncreasing(n, start, r, k);
  }

  ghost predicate AllDifferent(tuples: seq<seq<nat>>) {
    forall a, b :: 0 <= a < b < |tuples| ==> tuples[a] != tuples[b]
  }

  /** Entry k of a list put together from a prefixed part and a rest. */
  lemma SplitEntry(first: nat, front: seq<seq<nat>>, rest: seq<seq<nat>>, k: nat)
    requires k < |front| + |rest|
    ensures (Prefixed(first, front) + rest)[k] == if k < |front| then [first] + front[k] else rest[k - |front|]
  {
  }

  lemma EntriesDiffer(first: nat, front: seq<seq<nat>>, rest: seq<seq<nat>>, a: nat, b: nat)
    requires AllDifferent(front) && AllDifferent(rest) && a < b < |front| + |rest|
    requires forall k :: 0 <= k < |rest| ==> rest[k] != [] && rest[k][0] > first
    ensures (Prefixed(first, front) + rest)[a] != (Prefixed(first, front) + rest)[b]
  {
    SplitEntry(first, front, rest, a);
    SplitEntry(first, front, rest, b);
    if b < |front| {
      PrefixedDiffer(first, front[a], front[b]);
    } else if a < |front| {
      HeadsDiffer(first, front[a], rest[b - |front|]);
    }
  }

  lemma LaterHeads(n: nat, start: nat, r: nat)
    requires start <= n && r > 0
    ensures forall k :: 0 <= k < |Tuples(n, start, r)| ==>
          Tuples(n, start, r)[k] != [] && Tuples(n, start, r)[k][0] >= start
  {
    forall k | 0 <= k < |Tuples(n, start, r)|
      ensures Tuples(n, start, r)[k] != [] && Tuples(n, start, r)[k][0] >= start
    {
      LaterHead(n, start, r, k);
    }
  }

  /** No tuple is visited twice. */
  lemma {:induction false} TuplesDistinct(n: nat, start: nat, r: nat)
    requires start <= n
    ensures AllDifferent(Tuples(n, start, r))
    decreases n - start
  {
    if r > 0 && start < n {
      TuplesDistinct(n, start + 1, r - 1);
      TuplesDistinct(n, start + 1, r);
      LaterHeads(n, start + 1, r);
      JoinDiffers(start, Tuples(n, start + 1, r - 1), Tuples(n, start + 1, r));
    }
  }

  lemma JoinDiffers(first: nat, front: seq<seq<nat>>, rest: seq<seq<nat>>)
    requires AllDifferent(front) && AllDifferent(rest)
    requires forall k :: 0 <= k < |rest| ==> rest[k] != [] && rest[k][0] > first
    ensures AllDifferent(Prefixed(first, front) + rest)
  {
    var all := Prefixed(first, front) + rest;
    forall a, b | 0 <= a < b < |all| ensures all[a] != all[b] {
      EntriesDiffer(first, front, rest, a, b);
    }
  }

  function Pick(indices: seq<nat>, p: seq<nat>): (r: seq<nat>)
    ensures |r| == |p|
  {
    seq(|p|, i requires 0 <= i < |p| => if p[i] < |indices| then indices[p[i]] else 0)
  }

  /** The work of a list of position tuples, one after the other. */
  function WorkOfTuples(q: Search, prefix: seq<nat>, tuples: seq<seq<nat>>): seq<Work> {
    if tuples == [] then []
    else WorkOf(q, prefix + Pick(q.indices, tuples[0])) + WorkOfTuples(q, prefix, tuples[1..])
  }

  lemma {:induction false} WorkConcat(q: Search, prefix: seq<nat>, a: seq<seq<nat>>, b: seq<seq<nat>>)
    ensures WorkOfTuples(q, prefix, a + b) == WorkOfTuples(q, prefix, a) + WorkOfTuples(q, prefix, b)
  {
    if a == [] {
      assert a + b == b;
    } else {
      WorkConcat(q, prefix, a[1..], b);
      assert (a + b)[1..] == a[1..] + b && (a + b)[0] == a[0];
    }
  }

  lemma PickPrefixed(indices: seq<nat>, prefix: seq<nat>, first: nat, p: seq<nat>)
    requires first < |indices|
    ensures prefix + Pick(indices, [first] + p) == prefix + [indices[first]] + Pick(indices, p)
  {
  }

  lemma {:induction false} WorkPrefixed(q: Search, prefix: seq<nat>, first: nat, tuples: seq<seq<nat>>)
    requires first < |q.indices|
    ensures WorkOfTuples(q, prefix, Prefixed(first, tuples)) == WorkOfTuples(q, prefix + [q.indices[first]], tuples)
  {
    if tuples != [] {
      WorkPrefixed(q, prefix, first, tuples[1..]);
      assert Prefixed(first, tuples)[1..] == Prefixed(first, tuples[1..]);
      PickPrefixed(q.indices, prefix, first, tuples[0]);
    }
  }

  lemma WorkOfEmptyTuple(q: Search, prefix: seq<nat>)
    ensures WorkOfTuples(q, prefix, [[]]) == WorkOf(q, prefix)
  {
    assert prefix + Pick(q.indices, []) == prefix;
    var single: seq<seq<nat>> := [[]];
    assert single[1..] == [];
    assert WorkOfTuples(q, prefix, single) == WorkOf(q, prefix) + WorkOfTuples(q, prefix, []);
  }

  /** The work of the two branches of a list of tuples, whatever does it. */
  lemma WorkOfBranch(q: Search, prefix: seq<nat>, start: nat, r: nat, here: seq<Work>, later: seq<Work>)
    requires start < |q.indices| && r > 0
    requires here == WorkOfTuples(q, prefix + [q.indices[start]], Tuples(|q.indices|, start + 1, r - 1))
    requires later == WorkOfTuples(q, prefix, Tuples(|q.indices|, start + 1, r))
    ensures here + later == WorkOfTuples(q, prefix, Tuples(|q.indices|, start, r))
  {
    var first, rest := Tuples(|q.indices|, start + 1, r - 1), Tuples(|q.indices|, start + 1, r);
    assert Tuples(|q.indices|, start, r) == Prefixed(start, first) + rest;
    WorkPrefixed(q, prefix, start, first);
    WorkConcat(q, prefix, Prefixed(start, first), rest);
  }

  /** The recursion does the work of every increasing position tuple, in order: with `TuplesAreIncreasing`,
      `EveryTupleVisited` and `TuplesDistinct`, each exactly once. */
  lemma {:induction false} AllWorkIsTuples(q: Search, prefix: seq<nat>, start: nat, r: nat)
    requires start <= |q.indices|
    ensures AllWork(q, prefix, start, r) == WorkOfTuples(q, prefix, Tuples(|q.indices|, start, r))
    decreases |q.indices| - start, 1
  {
    if r == 0 {
      WorkWhenFull(q, prefix, start);
    } else if start == |q.indices| {
      NoTuples(q, prefix, r);
    } else {
      MoreWorkIsTuples(q, prefix, start, r);
    }
  }

  lemma {:induction false} MoreWorkIsTuples(q: Search, prefix: seq<nat>, start: nat, r: nat)
    requires start < |q.indices| && r > 0
    ensures AllWork(q, prefix, start, r) == WorkOfTuples(q, prefix, Tuples(|q.indices|, start, r))
    decreases |q.indices| - start, 0
  {
    AllWorkIsTuples(q, prefix + [q.indices[start]], start + 1, r - 1);
    AllWorkIsTuples(q, prefix, start + 1, r);
    BranchIsTuples(q, prefix, start, r);
  }

  lemma BranchIsTuples(q: Search, prefix: seq<nat>, start: nat, r: nat)
    requires start < |q.indices| && r > 0
    requires AllWork(q, prefix + [q.indices[start]], start + 1, r - 1)
          == WorkOfTuples(q, prefix + [q.indices[start]], Tuples(|q.indices|, start + 1, r - 1))
    requires AllWork(q, prefix, start + 1, r) == WorkOfTuples(q, prefix, Tuples(|q.indices|, start + 1, r))
    ensures AllWork(q, prefix, start, r) == WorkOfTuples(q, prefix, Tuples(|q.indices|, start, r))
  {
    WorkOfBranch(q, prefix, start, r, AllWork(q, prefix + [q.indices[start]], start + 1, r - 1),
                 AllWork(q, prefix, start + 1, r));
  }

  lemma WorkWhenFull(q: Search, prefix: seq<nat>, start: nat)
    requires start <= |q.indices|
    ensures AllWork(q, prefix, start, 0) == WorkOfTuples(q, prefix, Tuples(|q.indices|, start, 0))
  {
    WorkOfEmptyTuple(q, prefix);
  }

  lemma NoTuples(q: Search, prefix: seq<nat>, r: nat)
    requires r > 0
    ensures AllWork(q, prefix, |q.indices|, r) == [] == WorkOfTuples(q, prefix, Tuples(|q.indices|, |q.indices|, r))
  {
  }

  // ---------------------------------------------------------------- cyclic selection

  /** Some residue within n steps of any base. */
  lemma CoverResidue(base: nat, index: nat, n: nat) returns (o: nat)
    requires index < n
    ensures o < n && (base + o) % n == index
  {
    QuotientSign(base, n);
    var q, b := base / n, base % n;
    if index >= b {
      o := index - b;
      DivModUnique(base + o, q, index, n);
    } else {
      o := index + n - b;
      assert (q + 1) * n == q * n + n;
      DivModUnique(base + o, q + 1, index, n);
    }
  }

  /** All rows of the symbols in the order. */
  ghost function Rows(order: seq<string>, bySymbol: map<string, seq<nat>>): set<nat> {
    set k, i | 0 <= k < |order| && order[k] in bySymbol && 0 <= i < |bySymbol[order[k]]| :: bySymbol[order[k]][i]
  }

  ghost predicate Exhausted(bySymbol: map<string, seq<nat>>, symbol: string, seen: set<nat>) {
    symbol in bySymbol ==> forall x :: x in bySymbol[symbol] ==> x in seen
  }

  ghost predicate Distinct(s: seq<nat>) {
    forall i, j :: 0 <= i < j < |s| ==> s[i] != s[j]
  }

  ghost function Elements(s: seq<nat>): set<nat> { set x | x in s }

  lemma {:induction false} DistinctSize(s: seq<nat>)
    requires Distinct(s)
    ensures |Elements(s)| == |s|
  {
    if s != [] {
      var front, last := s[..|s| - 1], s[|s| - 1];
      DistinctSize(front);
      assert s == front + [last];
      assert Elements(s) == Elements(front) + {last};
      assert last !in front;
    } else {
      assert Elements(s) == {};
    }
  }

  /** `cycle()`: element k of the endless repetition. */
  function Cyclic<T>(s: seq<T>, k: nat): T
    requires s != []
  {
    QuotientSign(k, |s|);
    s[k % |s|]
  }

  lemma CyclicCovers<T>(s: seq<T>, base: nat, index: nat) returns (k: nat)
    requires index < |s|
    ensures base <= k < base + |s| && Cyclic(s, k) == s[index]
  {
    var o := CoverResidue(base, index, |s|);
    k := base + o;
  }

  /** The row is the first, in rotation from `position`, that is not in `seen`. */
  ghost predicate FirstFree(rows: seq<nat>, position: nat, seen: set<nat>, row: nat)
    requires rows != []
  {
    row !in seen && exists k: nat ::
      && position <= k < position + |rows| && Cyclic(rows, k) == row
      && forall j: nat :: position <= j < k ==> Cyclic(rows, j) in seen
  }

  method NextRow(rows: seq<nat>, position: nat, seen: set<nat>) returns (found: bool, row: nat)
    requires rows != []
    ensures found ==> row in rows && row !in seen && FirstFree(rows, position, seen, row)
    ensures !found ==> forall x :: x in rows ==> x in seen
  {
    row := 0;
    for shift := 0 to |rows|
      invariant forall k: nat :: position <= k < position + shift ==> Cyclic(rows, k) in seen
    {
      var candidate := Cyclic(rows, position + shift);
      if candidate !in seen {
        return true, candidate;
      }
    }
    forall x | x in rows ensures x in seen {
      var i :| 0 <= i < |rows| && rows[i] == x;
      var k := CyclicCovers(rows, position, i);
    }
    return false, row;
  }

  /** Distinct rows of the ordered symbols, with the set of them. */
  ghost predicate Taken(order: seq<string>, bySymbol: map<string, seq<nat>>, current: seq<nat>, seen: set<nat>) {
    Distinct(current) && seen == Elements(current) && seen <= Rows(order, bySymbol)
  }

  /** No row is left for any symbol visited in from..to. */
  ghost predicate Stalled(order: seq<string>, bySymbol: map<string, seq<nat>>, from: nat, to: nat, seen: set<nat>)
    requires order != []
  {
    forall p: nat :: from <= p < to ==> Exhausted(bySymbol, Cyclic(order, p), seen)
  }

  lemma FullCycleExhausts(order: seq<string>, bySymbol: map<string, seq<nat>>, from: nat, to: nat, seen: set<nat>)
    requires order != [] && Stalled(order, bySymbol, from, to, seen) && to - from >= |order|
    ensures Rows(order, bySymbol) <= seen
  {
    forall x | x in Rows(order, bySymbol) ensures x in seen {
      var k, i :| 0 <= k < |order| && order[k] in bySymbol && 0 <= i < |bySymbol[order[k]]|
          && bySymbol[order[k]][i] == x;
      var p := CyclicCovers(order, from, k);
      assert Exhausted(bySymbol, Cyclic(order, p), seen);
    }
  }

  /** Positions in a number of full cycles. */
  function Cycles(count: nat, n: nat): nat { count * n }

  lemma CycleMore(count: nat, n: nat)
    ensures Cycles(count + 1, n) == Cycles(count, n) + n
  {
    Spread(count, 1, n);
  }

  lemma CycleCount(taken: nat, memberCount: nat, n: nat, stall: nat, position: nat)
    requires taken < memberCount && stall < n && position <= Cycles(taken, n) + stall
    ensures position <= Cycles(memberCount, n)
  {
    var left := memberCount - taken;
    ProductAtLeast(left, n);
    Spread(taken, left, n);
  }

  lemma Spread(a: int, b: int, n: int)
    ensures (a + b) * n == a * n + b * n
  {
  }

  lemma RowAppears(order: seq<string>, bySymbol: map<string, seq<nat>>, k: nat, row: nat)
    requires k < |order| && order[k] in bySymbol && row in bySymbol[order[k]]
    ensures row in Rows(order, bySymbol)
  {
    var i :| 0 <= i < |bySymbol[order[k]]| && bySymbol[order[k]][i] == row;
  }

  lemma SeenGrows(current: seq<nat>, row: nat)
    requires Distinct(current) && row !in Elements(current)
    ensures Distinct(current + [row]) && Elements(current + [row]) == Elements(current) + {row}
  {
  }

  /** The symbol at the cursor has rows, and this is the first free one of them, in rotation from the position. */
  ghost predicate TakenAt(order: seq<string>, bySymbol: map<string, seq<nat>>, cursor: nat, position: nat,
                          seen: set<nat>, row: nat)
    requires order != []
  {
    var symbol := Cyclic(order, cursor);
    symbol in bySymbol && bySymbol[symbol] != [] && FirstFree(bySymbol[symbol], position, seen, row)
  }

  /** Row i was taken at position visits[i]: from the visit before on, no symbol had a row left until that one. */
  ghost predicate TakenInTurn(order: seq<string>, bySymbol: map<string, seq<nat>>, offset: nat, current: seq<nat>,
                              visits: seq<nat>, i: nat)
    requires order != [] && i < |current| == |visits|
  {
    var from, seen := if i == 0 then 0 else visits[i - 1] + 1, Elements(current[..i]);
    && from <= visits[i] && Stalled(order, bySymbol, from + offset, visits[i] + offset, seen)
    && TakenAt(order, bySymbol, visits[i] + offset, visits[i], seen, current[i])
  }

  /** The rows were taken in turn, going round the order from the offset on. */
  ghost predicate AllInTurn(order: seq<string>, bySymbol: map<string, seq<nat>>, offset: nat, current: seq<nat>,
                            visits: seq<nat>)
    requires order != []
  {
    |visits| == |current| && forall i :: 0 <= i < |current| ==> TakenInTurn(order, bySymbol, offset, current, visits, i)
  }

  lemma OneMoreInTurn(order: seq<string>, bySymbol: map<string, seq<nat>>, offset: nat, current: seq<nat>,
                      visits: seq<nat>, row: nat, position: nat, since: nat)
    requires order != [] && AllInTurn(order, bySymbol, offset, current, visits)
    requires since == (if visits == [] then 0 else Last(visits) + 1) && since <= position
    requires Stalled(order, bySymbol, since + offset, position + offset, Elements(current))
    requires TakenAt(order, bySymbol, position + offset, position, Elements(current), row)
    ensures AllInTurn(order, bySymbol, offset, current + [row], visits + [position])
  {
    var more, times := current + [row], visits + [position];
    forall i | 0 <= i < |more| ensures TakenInTurn(order, bySymbol, offset, more, times, i) {
      if i < |current| {
        assert more[..i] == current[..i];
        assert TakenInTurn(order, bySymbol, offset, current, visits, i);
      } else {
        assert more[..i] == current;
      }
    }
  }

  /** One visit: take the next free row of the symbol at the cursor, if it has one. */
  method Visit(order: seq<string>, bySymbol: map<string, seq<nat>>, cursor: nat, position: nat, current0: seq<nat>,
      seen0: set<nat>)
    returns (current: seq<nat>, seen: set<nat>, found: bool)
    requires order != [] && Taken(order, bySymbol, current0, seen0)
    requires forall k :: 0 <= k < |order| && order[k] in bySymbol ==> bySymbol[order[k]] != []
    ensures Taken(order, bySymbol, current, seen)
    ensures found ==> |current| == |current0| + 1 && seen0 != Rows(order, bySymbol)
    ensures found ==> current[..|current0|] == current0
    ensures found ==> TakenAt(order, bySymbol, cursor, position, seen0, current[|current0|])
    ensures !found ==> current == current0 && seen == seen0 && Exhausted(bySymbol, Cyclic(order, cursor), seen)
  {
    current, seen, found := current0, seen0, false;
    QuotientSign(cursor, |order|);
    var symbol := Cyclic(order, cursor);
    if symbol in bySymbol {
      var row;
      found, row := NextRow(bySymbol[symbol], position, seen);
      if found {
        RowAppears(order, bySymbol, cursor % |order|, row);
        SeenGrows(current, row);
        seen := seen + {row};
        current := current + [row];
      }
    }
  }

  /** A visit that takes nothing lengthens the stall; a full cycle without a take means there is nothing left. */
  lemma StallGrows(order: seq<string>, bySymbol: map<string, seq<nat>>, from: nat, cursor: nat, seen: set<nat>)
    requires order != [] && from <= cursor && Stalled(order, bySymbol, from, cursor, seen)
    requires Exhausted(bySymbol, Cyclic(order, cursor), seen) && seen <= Rows(order, bySymbol)
    ensures Stalled(order, bySymbol, from, cursor + 1, seen)
    ensures seen == Rows(order, bySymbol) || cursor + 1 - from < |order|
  {
    if cursor + 1 - from >= |order| {
      FullCycleExhausts(order, bySymbol, from, cursor + 1, seen);
    }
  }

  /** `repeated_distinct_indices_from_order`: distinct rows, as many as asked for or all there are, taken in turn from
      the symbols of the order, round and round from the offset on. */
  method RepeatedDistinct(order: seq<string>, bySymbol: map<string, seq<nat>>, memberCount: nat, offset: nat)
      returns (current: seq<nat>, ghost visits: seq<nat>)
    requires forall k :: 0 <= k < |order| && order[k] in bySymbol ==> bySymbol[order[k]] != []
    ensures Distinct(current) && Elements(current) <= Rows(order, bySymbol)
    ensures |current| == if memberCount <= |Rows(order, bySymbol)| then memberCount else |Rows(order, bySymbol)|
    ensures order != [] ==> AllInTurn(order, bySymbol, offset, current, visits)
  {
    current, visits := [], [];
    if order == [] {
      assert Rows(order, bySymbol) == {};
      return;
    }
    var n := |order|;
    var seen: set<nat> := {};
    var position := 0;
    ghost var since := 0;
    ghost var rows := Rows(order, bySymbol);
    var limit := Cycles(memberCount, n);
    while |current| < memberCount && position <= limit
      invariant Taken(order, bySymbol, current, seen) && |current| <= memberCount
      invariant AllInTurn(order, bySymbol, offset, current, visits)
      invariant since == if visits == [] then 0 else Last(visits) + 1
      invariant since <= position && Stalled(order, bySymbol, since + offset, position + offset, seen)
      invariant seen == rows || (position - since < n && since <= Cycles(|current|, n))
      decreases limit + 1 - position
    {
      ghost var before := current;
      var found;
      current, seen, found := Visit(order, bySymbol, position + offset, position, current, seen);
      if found {
        OneMoreInTurn(order, bySymbol, offset, before, visits, Last(current), position, since);
        assert current == before + [Last(current)];
        visits := visits + [position];
        since := position + 1;
        CycleMore(|before|, n);
      } else {
        StallGrows(order, bySymbol, since + offset, position + offset, seen);
      }
      position := position + 1;
    }
    DistinctSize(current);
    SubsetSize(seen, rows);
    if |current| < memberCount && seen != rows {
      CycleCount(|current|, memberCount, n, position - since, position);
    }
  }
}
