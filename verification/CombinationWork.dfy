/** Which portfolios the enumeration of apps/backtest-engine/src/portfolio_search.rs evaluates: every choice of the
    target length with two different symbols, under every template of that length, once. */
module CombinationWork {
  import opened Common
  import opened Combinations

  /** Strictly increasing positions in the list of indices. */
  ghost predicate Positions(p: seq<nat>, n: nat) {
    (forall i :: 0 <= i < |p| ==> p[i] < n) && forall i, j :: 0 <= i < j < |p| ==> p[i] < p[j]
  }

  /** The members are the indices at these positions. */
  ghost predicate ChosenAt(q: Search, members: seq<nat>, p: seq<nat>) {
    && |members| == |p| && Positions(p, |q.indices|)
    && forall i :: 0 <= i < |p| ==> members[i] == q.indices[p[i]]
  }

  ghost predicate TwoSymbols(q: Search, members: seq<nat>) {
    exists i, j :: 0 <= i < |members| && 0 <= j < |members| && q.symbolOf(members[i]) != q.symbolOf(members[j])
  }

  /** A choice of the target length with two different symbols, and a template of that length. */
  ghost predicate Wanted(q: Search, w: Work) {
    && (exists p :: |p| == q.targetLen && ChosenAt(q, w.members, p))
    && TwoSymbols(q, w.members)
    && w.template < |q.templateLens| && q.templateLens[w.template] == q.targetLen
  }

  // ---------------------------------------------------------------- one choice

  lemma SymbolsApart(q: Search, members: seq<nat>)
    ensures |Symbols(q, members)| >= 2 <==> TwoSymbols(q, members)
  {
    var symbols := Symbols(q, members);
    if |symbols| >= 2 {
      var a :| a in symbols;
      assert |symbols - {a}| >= 1;
      var b :| b in symbols - {a};
      var i :| 0 <= i < |members| && q.symbolOf(members[i]) == a;
      var j :| 0 <= j < |members| && q.symbolOf(members[j]) == b;
      assert TwoSymbols(q, members);
    }
    if i, j :| 0 <= i < |members| && 0 <= j < |members| && q.symbolOf(members[i]) != q.symbolOf(members[j]) {
      SubsetSize({q.symbolOf(members[i]), q.symbolOf(members[j])}, symbols);
    }
  }

  lemma {:induction false} TemplateMembers(q: Search, members: seq<nat>, k: nat, w: Work)
    requires k <= |q.templateLens|
    ensures w in TemplatesFrom(q, members, k) <==>
      w.members == members && k <= w.template < |q.templateLens| && q.templateLens[w.template] == q.targetLen
    decreases |q.templateLens| - k
  {
    if k < |q.templateLens| {
      TemplateMembers(q, members, k + 1, w);
    }
  }

  lemma WorkMembers(q: Search, members: seq<nat>, w: Work)
    ensures w in WorkOf(q, members) <==>
      && w.members == members && TwoSymbols(q, members)
      && w.template < |q.templateLens| && q.templateLens[w.template] == q.targetLen
  {
    SymbolsApart(q, members);
    TemplateMembers(q, members, 0, w);
  }

  // ---------------------------------------------------------------- all choices

  lemma {:induction false} TupleWork(q: Search, tuples: seq<seq<nat>>, w: Work)
    ensures w in WorkOfTuples(q, [], tuples) <==> exists t :: t in tuples && w in WorkOf(q, Pick(q.indices, t))
  {
    if tuples != [] {
      TupleWork(q, tuples[1..], w);
      assert [] + Pick(q.indices, tuples[0]) == Pick(q.indices, tuples[0]);
      assert tuples == [tuples[0]] + tuples[1..];
    }
  }

  lemma TuplesArePositions(n: nat, r: nat, t: seq<nat>)
    ensures t in Tuples(n, 0, r) <==> |t| == r && Positions(t, n)
  {
    if t in Tuples(n, 0, r) {
      var k :| 0 <= k < |Tuples(n, 0, r)| && Tuples(n, 0, r)[k] == t;
      TuplesAreIncreasing(n, 0, r, k);
    }
    if |t| == r && Positions(t, n) {
      assert IncreasingIn(t, 0, n);
      EveryTupleVisited(n, 0, r, t);
    }
  }

  lemma PickIsChosen(q: Search, t: seq<nat>, members: seq<nat>)
    requires Positions(t, |q.indices|)
    ensures Pick(q.indices, t) == members <==> ChosenAt(q, members, t)
  {
    var picked := Pick(q.indices, t);
    if ChosenAt(q, members, t) {
      assert forall i :: 0 <= i < |t| ==> picked[i] == members[i];
    }
  }

  /** All the work, without a budget: exactly the wanted portfolios. */
  lemma AllWorkIsWanted(q: Search, w: Work)
    ensures w in AllWork(q, [], 0, q.targetLen) <==> Wanted(q, w)
  {
    var tuples := Tuples(|q.indices|, 0, q.targetLen);
    AllWorkIsTuples(q, [], 0, q.targetLen);
    TupleWork(q, tuples, w);
    if t :| t in tuples && w in WorkOf(q, Pick(q.indices, t)) {
      TuplesArePositions(|q.indices|, q.targetLen, t);
      WorkMembers(q, Pick(q.indices, t), w);
      PickIsChosen(q, t, w.members);
    }
    if Wanted(q, w) {
      var p :| |p| == q.targetLen && ChosenAt(q, w.members, p);
      TuplesArePositions(|q.indices|, q.targetLen, p);
      PickIsChosen(q, p, w.members);
      WorkMembers(q, w.members, w);
    }
  }

  /** A search that starts empty and ends below its budget has evaluated exactly the wanted portfolios; one that
      spends it has evaluated as many of them as the budget allows. */
  lemma EvaluatedIff(q: Search, maxCombos: nat)
    ensures var end := Perform(Progress([], 0), AllWork(q, [], 0, q.targetLen), maxCombos);
      && end.count == |end.evaluated| <= maxCombos
      && (end.count < maxCombos ==> forall w :: w in end.evaluated <==> Wanted(q, w))
      && (forall w :: w in end.evaluated ==> Wanted(q, w))
  {
    var all := AllWork(q, [], 0, q.targetLen);
    var end := Perform(Progress([], 0), all, maxCombos);
    assert end.evaluated == Take(all, maxCombos);
    forall w ensures w in all <==> Wanted(q, w) {
      AllWorkIsWanted(q, w);
    }
  }

  // ---------------------------------------------------------------- nothing twice

  ghost predicate NoneTwice<T>(items: seq<T>) {
    forall a, b :: 0 <= a < b < |items| ==> items[a] != items[b]
  }

  lemma {:induction false} TemplatesDiffer(q: Search, members: seq<nat>, k: nat)
    requires k <= |q.templateLens|
    ensures NoneTwice(TemplatesFrom(q, members, k))
    decreases |q.templateLens| - k
  {
    if k < |q.templateLens| {
      TemplatesDiffer(q, members, k + 1);
      var rest := TemplatesFrom(q, members, k + 1);
      forall i | 0 <= i < |rest| ensures rest[i] != Work(members, k) {
        TemplateMembers(q, members, k + 1, rest[i]);
        assert rest[i] in rest;
      }
    }
  }

  lemma Concatenated<T>(a: seq<T>, b: seq<T>)
    requires NoneTwice(a) && NoneTwice(b) && forall x :: x in a ==> x !in b
    ensures NoneTwice(a + b)
  {
    forall i, j | 0 <= i < j < |a + b| ensures (a + b)[i] != (a + b)[j] {
      if i < |a| <= j {
        assert a[i] in a && b[j - |a|] in b;
      }
    }
  }

  /** Different positions choose different members when no index is listed twice. */
  lemma PicksDiffer(q: Search, t: seq<nat>, u: seq<nat>)
    requires Combinations.Distinct(q.indices) && Positions(t, |q.indices|) && Positions(u, |q.indices|)
    requires |t| == |u| && t != u
    ensures Pick(q.indices, t) != Pick(q.indices, u)
  {
    var i :| 0 <= i < |t| && t[i] != u[i];
    assert Pick(q.indices, t)[i] == q.indices[t[i]] && Pick(q.indices, u)[i] == q.indices[u[i]];
  }

  lemma {:induction false} TuplesNoneTwice(q: Search, tuples: seq<seq<nat>>, r: nat)
    requires Combinations.Distinct(q.indices) && AllDifferent(tuples)
    requires forall t :: t in tuples ==> |t| == r && Positions(t, |q.indices|)
    ensures NoneTwice(WorkOfTuples(q, [], tuples))
  {
    if tuples != [] {
      var first, rest := tuples[0], tuples[1..];
      assert tuples == [first] + rest;
      forall a, b | 0 <= a < b < |rest| ensures rest[a] != rest[b] {
        assert rest[a] == tuples[a + 1] && rest[b] == tuples[b + 1];
      }
      TuplesNoneTwice(q, rest, r);
      var here := Pick(q.indices, first);
      assert [] + here == here;
      TemplatesDiffer(q, here, 0);
      forall w | w in WorkOf(q, here) ensures w !in WorkOfTuples(q, [], rest) {
        FirstNotLater(q, first, rest, r, w);
      }
      Concatenated(WorkOf(q, here), WorkOfTuples(q, [], rest));
    }
  }

  lemma FirstNotLater(q: Search, first: seq<nat>, rest: seq<seq<nat>>, r: nat, w: Work)
    requires Combinations.Distinct(q.indices) && |first| == r && Positions(first, |q.indices|)
    requires first !in rest && forall t :: t in rest ==> |t| == r && Positions(t, |q.indices|)
    requires w in WorkOf(q, Pick(q.indices, first))
    ensures w !in WorkOfTuples(q, [], rest)
  {
    TupleWork(q, rest, w);
    WorkMembers(q, Pick(q.indices, first), w);
    forall t | t in rest ensures w !in WorkOf(q, Pick(q.indices, t)) {
      PicksDiffer(q, first, t);
      WorkMembers(q, Pick(q.indices, t), w);
    }
  }

  /** When no index is listed twice, as in the sorted lists without repeats that are searched, no portfolio is
      evaluated twice under one template. */
  lemma EvaluatedOnce(q: Search, maxCombos: nat)
    requires Combinations.Distinct(q.indices)
    ensures NoneTwice(Perform(Progress([], 0), AllWork(q, [], 0, q.targetLen), maxCombos).evaluated)
  {
    var tuples := Tuples(|q.indices|, 0, q.targetLen);
    AllWorkIsTuples(q, [], 0, q.targetLen);
    TuplesDistinct(|q.indices|, 0, q.targetLen);
    forall t | t in tuples ensures |t| == q.targetLen && Positions(t, |q.indices|) {
      TuplesArePositions(|q.indices|, q.targetLen, t);
    }
    TuplesNoneTwice(q, tuples, q.targetLen);
    var all := AllWork(q, [], 0, q.targetLen);
    assert Perform(Progress([], 0), all, maxCombos).evaluated == Take(all, maxCombos);
  }
}
