/** Combination of equity curves in apps/backtest-engine/src/portfolio_search.rs.

    A portfolio curve is computed by advancing one cursor per member over the sorted union of all timestamps.
    The loops are proved to compute the step-function specification `ValueAt`, and the combined curve is proved
    to draw down no more than its worst member. */
module EquityCurves {
  import opened Common
  import opened Timeline
  import Drawdown

  datatype EquityPoint = EquityPoint(timestamp: int, equity: Num)

  datatype Candidate = Candidate(curve: seq<EquityPoint>, plannedMargin: Num)

  datatype Member = Member(candidate: Candidate, allocationPct: real)

  predicate PositiveFinite(x: Num) { x.Fin? && x.v > 0.0 }

  function InitialEquity(c: Candidate): Num {
    if c.curve != [] && PositiveFinite(c.curve[0].equity) then c.curve[0].equity else c.plannedMargin
  }

  /** The part of the capital that is allocated to a member. */
  function Allocated(m: Member, capital: real): real { capital * (m.allocationPct / 100.0) }

  /** What one member contributes when its latest equity is `equity`. */
  function Share(m: Member, capital: real, equity: Num): Num {
    var initial := InitialEquity(m.candidate);
    if !PositiveFinite(initial) then Fin(0.0) else Mul(Fin(Allocated(m, capital)), Div(equity, initial))
  }

  // ---------------------------------------------------------------- specification

  /** How many points lead the curve with a timestamp not after t. */
  function Leading(curve: seq<EquityPoint>, t: int): (n: nat)
    ensures n <= |curve|
    ensures forall i :: 0 <= i < n ==> curve[i].timestamp <= t
    ensures n < |curve| ==> curve[n].timestamp > t
  {
    if curve == [] || curve[0].timestamp > t then 0 else 1 + Leading(curve[1..], t)
  }

  lemma LeadingUnique(curve: seq<EquityPoint>, t: int, n: nat)
    requires n <= |curve|
    requires forall i :: 0 <= i < n ==> curve[i].timestamp <= t
    requires n < |curve| ==> curve[n].timestamp > t
    ensures n == Leading(curve, t)
  {
  }

  /** Latest equity of a member at time t: its last point so far, or its initial equity before the first. */
  function SampleAt(c: Candidate, t: int): Num {
    var n := Leading(c.curve, t);
    if n == 0 then InitialEquity(c) else c.curve[n - 1].equity
  }

  function ValueAt(members: seq<Member>, capital: real, t: int): Num {
    if members == [] then Fin(0.0)
    else Add(ValueAt(members[..|members| - 1], capital, t),
             Share(members[|members| - 1], capital, SampleAt(members[|members| - 1].candidate, t)))
  }

  function TimestampsOf(curve: seq<EquityPoint>): (ts: seq<int>)
    ensures |ts| == |curve|
  {
    seq(|curve|, i requires 0 <= i < |curve| => curve[i].timestamp)
  }

  function AllTimestamps(members: seq<Member>): seq<int> {
    if members == [] then []
    else AllTimestamps(members[..|members| - 1]) + TimestampsOf(members[|members| - 1].candidate.curve)
  }

  /** A curve sampled at the given times. */
  function CurveOn(ts: seq<int>, value: int -> Num): (r: seq<EquityPoint>)
    ensures |r| == |ts|
  {
    seq(|ts|, k requires 0 <= k < |ts| => EquityPoint(ts[k], value(ts[k])))
  }

  function Valuation(members: seq<Member>, capital: real): int -> Num {
    t => ValueAt(members, capital, t)
  }

  function MergedOn(ts: seq<int>, members: seq<Member>, capital: real): seq<EquityPoint> {
    CurveOn(ts, Valuation(members, capital))
  }

  /** The general path: the portfolio value at every timestamp of any member. */
  function Merged(members: seq<Member>, capital: real): seq<EquityPoint> {
    MergedOn(SortedUnion(AllTimestamps(members)), members, capital)
  }

  /** The factor of the single-member path. */
  function Scale(m: Member, capital: real): Num { Div(Fin(Allocated(m, capital)), InitialEquity(m.candidate)) }

  /** A curve with every equity passed through f. */
  function Rescaled(curve: seq<EquityPoint>, f: Num -> Num): (r: seq<EquityPoint>)
    ensures |r| == |curve| && forall k :: 0 <= k < |r| ==> r[k] == EquityPoint(curve[k].timestamp, f(curve[k].equity))
  {
    seq(|curve|, i requires 0 <= i < |curve| => EquityPoint(curve[i].timestamp, f(curve[i].equity)))
  }

  function MultiplyBy(scale: Num): Num -> Num {
    equity => Mul(equity, scale)
  }

  /** The single-member path. */
  function Scaled(m: Member, capital: real): seq<EquityPoint> {
    Rescaled(m.candidate.curve, MultiplyBy(Scale(m, capital)))
  }

  function Combined(members: seq<Member>, capital: real): seq<EquityPoint> {
    if members == [] then []
    else if |members| == 1 then Scaled(members[0], capital)
    else Merged(members, capital)
  }

  // ---------------------------------------------------------------- the loops

  /** Advance one member's cursor to time t. */
  method Advance(curve: seq<EquityPoint>, t: int, positions: array<nat>, latest: array<Num>, idx: nat)
    requires idx < positions.Length == latest.Length
    requires positions[idx] <= Leading(curve, t)
    requires forall i :: 0 <= i < positions[idx] ==> i < |curve| && curve[i].timestamp <= t
    modifies positions, latest
    ensures positions[idx] == Leading(curve, t)
    ensures latest[idx] == if Leading(curve, t) == old(positions[idx]) then old(latest[idx])
          else curve[Leading(curve, t) - 1].equity
    ensures forall i :: 0 <= i < positions.Length && i != idx ==>
          positions[i] == old(positions[i]) && latest[i] == old(latest[i])
  {
    while positions[idx] < |curve| && curve[positions[idx]].timestamp <= t
      invariant old(positions[idx]) <= positions[idx] <= Leading(curve, t)
      invariant latest[idx] == if positions[idx] == old(positions[idx]) then old(latest[idx])
            else curve[positions[idx] - 1].equity
      invariant forall i :: 0 <= i < positions.Length && i != idx ==>
            positions[i] == old(positions[i]) && latest[i] == old(latest[i])
      decreases |curve| - positions[idx]
    {
      latest[idx] := curve[positions[idx]].equity;
      positions[idx] := positions[idx] + 1;
    }
  }

  /** Cursor and latest equity of one member after time `t`; `None` is before the first timestamp. */
  ghost predicate CursorAt(m: Member, position: nat, latest: Num, t: Option<int>) {
    match t
    case None => position == 0 && latest == InitialEquity(m.candidate)
    case Some(time) => position == Leading(m.candidate.curve, time) && latest == SampleAt(m.candidate, time)
  }

  ghost predicate CursorsAt(members: seq<Member>, positions: seq<nat>, latest: seq<Num>, t: Option<int>) {
    && |positions| == |latest| == |members|
    && forall i :: 0 <= i < |members| ==> CursorAt(members[i], positions[i], latest[i], t)
  }

  lemma {:induction false} LeadingMonotone(curve: seq<EquityPoint>, s: int, t: int)
    requires s <= t
    ensures Leading(curve, s) <= Leading(curve, t)
  {
    var n := Leading(curve, t);
    assert n < |curve| ==> curve[n].timestamp > s;
  }

  method AdvanceAll(members: seq<Member>, positions: array<nat>, latest: array<Num>, ghost before: Option<int>, t: int)
    requires CursorsAt(members, positions[..], latest[..], before)
    requires before.Some? ==> before.value <= t
    modifies positions, latest
    ensures CursorsAt(members, positions[..], latest[..], Some(t))
  {
    for idx := 0 to |members|
      invariant forall i :: 0 <= i < idx ==> CursorAt(members[i], positions[i], latest[i], Some(t))
      invariant forall i :: idx <= i < |members| ==> CursorAt(members[i], positions[i], latest[i], before)
    {
      var curve := members[idx].candidate.curve;
      if before.Some? {
        LeadingMonotone(curve, before.value, t);
      }
      Advance(curve, t, positions, latest, idx);
    }
  }

  method Total(members: seq<Member>, capital: real, latest: array<Num>, ghost t: int) returns (sum: Num)
    requires latest.Length == |members|
    requires forall i :: 0 <= i < |members| ==> latest[i] == SampleAt(members[i].candidate, t)
    ensures sum == ValueAt(members, capital, t)
  {
    sum := Fin(0.0);
    for idx := 0 to |members|
      invariant sum == ValueAt(members[..idx], capital, t)
    {
      assert members[..idx + 1][..idx] == members[..idx];
      sum := Add(sum, Share(members[idx], capital, latest[idx]));
    }
    assert members[..|members|] == members;
  }

  /** `combine_equity_curves`. */
  method CombineEquityCurves(members: seq<Member>, capital: real) returns (r: seq<EquityPoint>)
    ensures r == Combined(members, capital)
  {
    if members == [] {
      return [];
    }
    if |members| == 1 {
      return Scaled(members[0], capital);
    }
    r := Merge(SortedUnion(AllTimestamps(members)), members, capital);
  }

  lemma CurveOnNext(ts: seq<int>, k: nat, value: int -> Num)
    requires k < |ts|
    ensures CurveOn(ts[..k + 1], value) == CurveOn(ts[..k], value) + [EquityPoint(ts[k], value(ts[k]))]
  {
  }

  /** One timestamp: advance the cursors, then add up. */
  method MergePoint(members: seq<Member>, capital: real, positions: array<nat>, latest: array<Num>,
      ghost before: Option<int>, t: int)
    returns (point: EquityPoint)
    requires CursorsAt(members, positions[..], latest[..], before)
    requires before.Some? ==> before.value <= t
    modifies positions, latest
    ensures CursorsAt(members, positions[..], latest[..], Some(t))
    ensures point == EquityPoint(t, ValueAt(members, capital, t))
  {
    AdvanceAll(members, positions, latest, before, t);
    var sum := Total(members, capital, latest, t);
    point := EquityPoint(t, sum);
  }

  /** The loop over timestamps. */
  method Merge(timestamps: seq<int>, members: seq<Member>, capital: real) returns (r: seq<EquityPoint>)
    requires Increasing(timestamps)
    ensures r == MergedOn(timestamps, members, capital)
  {
    var positions := new nat[|members|](_ => 0);
    var latest := new Num[|members|](i requires 0 <= i < |members| => InitialEquity(members[i].candidate));
    r := [];
    ghost var before: Option<int> := None;
    for k := 0 to |timestamps|
      invariant r == MergedOn(timestamps[..k], members, capital)
      invariant before.Some? ==> k > 0 && before.value == timestamps[k - 1]
      invariant CursorsAt(members, positions[..], latest[..], before)
    {
      var point := MergePoint(members, capital, positions, latest, before, timestamps[k]);
      before := Some(timestamps[k]);
      CurveOnNext(timestamps, k, Valuation(members, capital));
      r := r + [point];
    }
    assert timestamps[..|timestamps|] == timestamps;
  }

  // ---------------------------------------------------------------- what the merged curve is

  /** On a curve in time order the sample is the last point at or before t, and the initial equity before all. */
  lemma SampleIsLastPoint(c: Candidate, t: int, i: nat)
    requires forall a, b :: 0 <= a < b < |c.curve| ==> c.curve[a].timestamp <= c.curve[b].timestamp
    requires i < |c.curve| && c.curve[i].timestamp <= t && (i + 1 < |c.curve| ==> c.curve[i + 1].timestamp > t)
    ensures SampleAt(c, t) == c.curve[i].equity
  {
    LeadingUnique(c.curve, t, i + 1);
  }

  lemma SampleBeforeCurve(c: Candidate, t: int)
    requires c.curve != [] ==> c.curve[0].timestamp > t
    ensures SampleAt(c, t) == InitialEquity(c)
  {
    LeadingUnique(c.curve, t, 0);
  }

  /** Output timestamps are strictly increasing, each is a timestamp of a member, and none is missing. */
  lemma MergedTimestamps(members: seq<Member>, capital: real)
    ensures Increasing(TimestampsOf(Merged(members, capital)))
    ensures forall i, k :: 0 <= i < |members| && 0 <= k < |members[i].candidate.curve| ==>
              members[i].candidate.curve[k].timestamp in TimestampsOf(Merged(members, capital))
    ensures forall x :: x in TimestampsOf(Merged(members, capital)) ==>
              exists i :: 0 <= i < |members| && x in TimestampsOf(members[i].candidate.curve)
  {
    var ts := AllTimestamps(members);
    assert TimestampsOf(Merged(members, capital)) == SortedUnion(ts);
    forall i, k | 0 <= i < |members| && 0 <= k < |members[i].candidate.curve|
      ensures members[i].candidate.curve[k].timestamp in ts
    {
      TimestampCollected(members, i, k);
    }
    forall x | x in ts
      ensures exists i :: 0 <= i < |members| && x in TimestampsOf(members[i].candidate.curve)
    {
      var i := TimestampOwner(members, x);
    }
  }

  lemma {:induction false} TimestampCollected(members: seq<Member>, i: nat, k: nat)
    requires i < |members| && k < |members[i].candidate.curve|
    ensures members[i].candidate.curve[k].timestamp in AllTimestamps(members)
  {
    var front, last := members[..|members| - 1], members[|members| - 1];
    if i < |front| {
      TimestampCollected(front, i, k);
    } else {
      assert TimestampsOf(last.candidate.curve)[k] == last.candidate.curve[k].timestamp;
    }
  }

  lemma {:induction false} TimestampOwner(members: seq<Member>, x: int) returns (i: nat)
    requires x in AllTimestamps(members)
    ensures i < |members| && x in TimestampsOf(members[i].candidate.curve)
  {
    var front, last := members[..|members| - 1], members[|members| - 1];
    if x in TimestampsOf(last.candidate.curve) {
      i := |members| - 1;
    } else {
      i := TimestampOwner(front, x);
    }
  }

  function TotalAllocation(members: seq<Member>): real {
    if members == [] then 0.0 else TotalAllocation(members[..|members| - 1]) + members[|members| - 1].allocationPct
  }

  /** The member has a usable starting equity and shows it at time t. */
  predicate AtInitial(c: Candidate, t: int) {
    PositiveFinite(InitialEquity(c)) && SampleAt(c, t) == InitialEquity(c)
  }

  /** So it is before the first point, and at the first point when that is usable and its timestamp does not repeat. */
  lemma StartsAtInitial(c: Candidate, t: int)
    requires PositiveFinite(InitialEquity(c)) && (c.curve != [] ==> t <= c.curve[0].timestamp)
    requires c.curve != [] && t == c.curve[0].timestamp ==>
      PositiveFinite(c.curve[0].equity) && (|c.curve| > 1 ==> c.curve[0].timestamp < c.curve[1].timestamp)
    ensures AtInitial(c, t)
  {
    LeadingUnique(c.curve, t, if c.curve != [] && c.curve[0].timestamp <= t then 1 else 0);
  }

  /** A share is to the allocated part of the capital as the equity is to the starting equity. */
  lemma ShareIsProportional(m: Member, capital: real, e: real)
    requires PositiveFinite(InitialEquity(m.candidate))
    ensures var s := Share(m, capital, Fin(e));
      s.Fin? && s.v * InitialEquity(m.candidate).v == Allocated(m, capital) * e
    ensures Allocated(m, capital) * 100.0 == capital * m.allocationPct
  {
    var x, a := InitialEquity(m.candidate).v, Allocated(m, capital);
    var q := e / x;
    assert q * x == e;
    assert (a * q) * x == a * (q * x);
    var part := m.allocationPct / 100.0;
    assert part * 100.0 == m.allocationPct;
    assert (capital * part) * 100.0 == capital * (part * 100.0);
  }

  /** The starting equity is the first one, or the planned margin where that is no positive number or missing. */
  lemma StartOrMargin(m: Member, capital: real, e: real)
    requires PositiveFinite(InitialEquity(m.candidate))
    ensures var c, s := m.candidate, Share(m, capital, Fin(e));
      && s.Fin?
      && (c.curve != [] && PositiveFinite(c.curve[0].equity) ==>
            s.v * c.curve[0].equity.v == Allocated(m, capital) * e)
      && (c.curve == [] || !PositiveFinite(c.curve[0].equity) ==>
            c.plannedMargin.Fin? && s.v * c.plannedMargin.v == Allocated(m, capital) * e)
  {
    ShareIsProportional(m, capital, e);
  }

  lemma FullShare(m: Member, capital: real)
    requires PositiveFinite(InitialEquity(m.candidate))
    ensures Share(m, capital, InitialEquity(m.candidate)) == Fin(Allocated(m, capital))
  {
    var x := InitialEquity(m.candidate).v;
    assert x / x == 1.0;
    assert Allocated(m, capital) * 1.0 == Allocated(m, capital);
  }

  lemma AddAllocation(capital: real, a: real, b: real)
    ensures capital * (a / 100.0) + capital * (b / 100.0) == capital * ((a + b) / 100.0)
  {
    assert (a + b) / 100.0 == a / 100.0 + b / 100.0;
  }

  /** Where every member shows its starting equity, the portfolio is worth the capital times the total allocation,
      whatever the scale of the candidates' own equity. */
  lemma {:induction false} FirstValueIsCapital(members: seq<Member>, capital: real, t: int)
    requires forall i :: 0 <= i < |members| ==> AtInitial(members[i].candidate, t)
    ensures WorthCapital(members, capital, t)
  {
    if members != [] {
      var front, last := members[..|members| - 1], members[|members| - 1];
      FirstValueIsCapital(front, capital, t);
      FullShare(last, capital);
      AddAllocation(capital, TotalAllocation(front), last.allocationPct);
    }
  }

  /** The candidates with the given allocations. */
  function Portfolio(candidates: seq<Candidate>, allocations: seq<real>): (members: seq<Member>)
    requires |candidates| == |allocations|
    ensures |members| == |candidates|
  {
    seq(|candidates|, i requires 0 <= i < |candidates| => Member(candidates[i], allocations[i]))
  }

  /** Everything to candidate k. */
  function AllTo(n: nat, k: nat): (allocations: seq<real>)
    ensures |allocations| == n
  {
    seq(n, i requires 0 <= i < n => if i == k then 100.0 else 0.0)
  }

  lemma AllToFront(candidates: seq<Candidate>, k: nat)
    requires candidates != []
    ensures var n, members := |candidates|, Portfolio(candidates, AllTo(|candidates|, k));
      Init(members) == Portfolio(Init(candidates), AllTo(n - 1, k)) &&
      Last(members) == Member(Last(candidates), if k == n - 1 then 100.0 else 0.0)
  {
  }

  lemma {:induction false} AllToTotal(candidates: seq<Candidate>, k: nat)
    ensures TotalAllocation(Portfolio(candidates, AllTo(|candidates|, k))) == if k < |candidates| then 100.0 else 0.0
  {
    if candidates != [] {
      AllToTotal(Init(candidates), k);
      AllToFront(candidates, k);
    }
  }

  /** What candidate k is worth with everything in it. */
  function Whole(candidates: seq<Candidate>, k: nat, t: int): Num {
    if k < |candidates| then Share(Member(candidates[k], 100.0), 1.0, SampleAt(candidates[k], t)) else Fin(0.0)
  }

  /** With everything in one candidate the value is that candidate's share, or not finite at all. */
  lemma {:induction false} AllToValue(candidates: seq<Candidate>, k: nat, t: int)
    ensures var v := ValueAt(Portfolio(candidates, AllTo(|candidates|, k)), 1.0, t);
      v.Fin? ==> v == Whole(candidates, k, t)
  {
    if candidates != [] {
      AllToValue(Init(candidates), k, t);
      AllToFront(candidates, k);
      LastValue(Portfolio(candidates, AllTo(|candidates|, k)), 1.0, t);
      WholeStep(candidates, k, t);
    }
  }

  lemma LastValue(members: seq<Member>, capital: real, t: int)
    requires members != []
    ensures ValueAt(members, capital, t) ==
            Add(ValueAt(Init(members), capital, t), Share(Last(members), capital, SampleAt(Last(members).candidate, t)))
  {
  }

  lemma WholeStep(candidates: seq<Candidate>, k: nat, t: int)
    requires candidates != []
    ensures var last := Last(candidates);
      var s := Share(Member(last, if k == |candidates| - 1 then 100.0 else 0.0), 1.0, SampleAt(last, t));
      forall v: Num :: (v.Fin? ==> v == Whole(Init(candidates), k, t)) && Add(v, s).Fin? ==>
        Add(v, s) == Whole(candidates, k, t)
  {
    NoShare(Last(candidates), SampleAt(Last(candidates), t));
    assert k < |candidates| - 1 ==> Init(candidates)[k] == candidates[k];
  }

  lemma NoShare(c: Candidate, equity: Num)
    ensures var s := Share(Member(c, 0.0), 1.0, equity); s.Fin? ==> s == Fin(0.0)
  {
    assert Allocated(Member(c, 0.0), 1.0) == 0.0;
  }

  /** A share is the whole allocation only when the member shows its starting equity. */
  lemma WholeShare(c: Candidate, t: int)
    requires Share(Member(c, 100.0), 1.0, SampleAt(c, t)) == Fin(1.0)
    ensures AtInitial(c, t)
  {
    var x, e := InitialEquity(c), SampleAt(c, t);
    assert Allocated(Member(c, 100.0), 1.0) == 1.0;
    assert PositiveFinite(x);
    if e.Fin? {
      var q := e.v / x.v;
      assert q * x.v == e.v;
    }
  }

  ghost predicate WorthCapital(members: seq<Member>, capital: real, t: int) {
    ValueAt(members, capital, t) == Fin(capital * (TotalAllocation(members) / 100.0))
  }

  lemma NotWorthCapital(candidates: seq<Candidate>, t: int, k: nat)
    requires k < |candidates| && !AtInitial(candidates[k], t)
    ensures !WorthCapital(Portfolio(candidates, AllTo(|candidates|, k)), 1.0, t)
  {
    AllToTotal(candidates, k);
    AllToValue(candidates, k, t);
    if Share(Member(candidates[k], 100.0), 1.0, SampleAt(candidates[k], t)) == Fin(1.0) {
      WholeShare(candidates[k], t);
    }
  }

  /** The value at a time is the capital times the total allocation, however the capital is allocated, exactly when
      every candidate shows a usable starting equity then. */
  lemma FirstValueIff(candidates: seq<Candidate>, t: int)
    ensures (forall allocations: seq<real>, capital | |allocations| == |candidates| ::
               WorthCapital(Portfolio(candidates, allocations), capital, t))
            <==> forall i :: 0 <= i < |candidates| ==> AtInitial(candidates[i], t)
  {
    if k :| 0 <= k < |candidates| && !AtInitial(candidates[k], t) {
      NotWorthCapital(candidates, t, k);
    } else {
      forall allocations: seq<real>, capital | |allocations| == |candidates|
        ensures WorthCapital(Portfolio(candidates, allocations), capital, t)
      {
        FirstValueIsCapital(Portfolio(candidates, allocations), capital, t);
      }
    }
  }

  /** The first time of any of the candidates. */
  ghost predicate Earliest(candidates: seq<Candidate>, t: int) {
    && (exists i :: 0 <= i < |candidates| && t in TimestampsOf(candidates[i].curve))
    && (forall i, k :: 0 <= i < |candidates| && 0 <= k < |candidates[i].curve| ==>
          t <= candidates[i].curve[k].timestamp)
  }

  /** The merged curve starts there, with the value there. */
  lemma FirstPoint(candidates: seq<Candidate>, allocations: seq<real>, capital: real, t: int)
    requires |allocations| == |candidates| && Earliest(candidates, t)
    ensures var r := Merged(Portfolio(candidates, allocations), capital);
      r != [] && r[0] == EquityPoint(t, ValueAt(Portfolio(candidates, allocations), capital, t))
  {
    var members := Portfolio(candidates, allocations);
    var ts := TimestampsOf(Merged(members, capital));
    MergedTimestamps(members, capital);
    var i :| 0 <= i < |candidates| && t in TimestampsOf(candidates[i].curve);
    var k :| 0 <= k < |candidates[i].curve| && TimestampsOf(candidates[i].curve)[k] == t;
    assert members[i].candidate.curve[k].timestamp in ts;
    assert ts[0] in ts;
    var j :| 0 <= j < |members| && ts[0] in TimestampsOf(members[j].candidate.curve);
    assert t <= ts[0];
  }

  /** The merged curve starts at the capital times the total allocation. */
  ghost predicate StartsAtCapital(members: seq<Member>, capital: real) {
    var r := Merged(members, capital);
    r != [] && r[0].equity == Fin(capital * (TotalAllocation(members) / 100.0))
  }

  /** The first point of the merged curve is the capital times the total allocation, however the capital is allocated,
      exactly when every candidate shows a usable starting equity at the first time of all. */
  lemma FirstPointIff(candidates: seq<Candidate>, t: int)
    requires Earliest(candidates, t)
    ensures (forall allocations: seq<real>, capital | |allocations| == |candidates| ::
               StartsAtCapital(Portfolio(candidates, allocations), capital))
            <==> forall i :: 0 <= i < |candidates| ==> AtInitial(candidates[i], t)
  {
    forall allocations: seq<real>, capital | |allocations| == |candidates|
      ensures StartsAtCapital(Portfolio(candidates, allocations), capital)
              <==> WorthCapital(Portfolio(candidates, allocations), capital, t)
    {
      FirstPoint(candidates, allocations, capital, t);
    }
    if k :| 0 <= k < |candidates| && !AtInitial(candidates[k], t) {
      NotWorthCapital(candidates, t, k);
    } else {
      FirstValueIff(candidates, t);
    }
  }

  /** A sound candidate, one whose first equity is zero under a usable margin, and one that repeats its first time. */
  const SOUND := Candidate([EquityPoint(0, Fin(10.0))], Fin(10.0))
  const ZERO_START := Candidate([EquityPoint(0, Fin(0.0)), EquityPoint(1, Fin(10.0))], Fin(10.0))
  const REPEATED_START := Candidate([EquityPoint(0, Fin(10.0)), EquityPoint(0, Fin(5.0))], Fin(10.0))

  lemma HalfAndHalf(c: Candidate, capital: real)
    requires c.curve != [] && c.curve[0].timestamp == 0 && forall k :: 0 <= k < |c.curve| ==> c.curve[k].timestamp >= 0
    ensures var r := Merged(Portfolio([SOUND, c], [50.0, 50.0]), capital);
      r != [] && r[0] == EquityPoint(0, Add(Fin(capital / 2.0), Share(Member(c, 50.0), capital, SampleAt(c, 0))))
  {
    assert TimestampsOf([SOUND, c][0].curve)[0] == 0;
    FirstPoint([SOUND, c], [50.0, 50.0], capital, 0);
    SoundHalf(capital);
    HalvesValue(Portfolio([SOUND, c], [50.0, 50.0]), capital, Share(Member(c, 50.0), capital, SampleAt(c, 0)));
  }

  lemma HalvesValue(members: seq<Member>, capital: real, y: Num)
    requires |members| == 2 && Share(members[0], capital, SampleAt(members[0].candidate, 0)) == Fin(capital / 2.0)
    requires y == Share(members[1], capital, SampleAt(members[1].candidate, 0))
    ensures ValueAt(members, capital, 0) == Add(Fin(capital / 2.0), y)
  {
    SingleValue(members[0], capital, 0);
    LastValue(members, capital, 0);
    FirstOfTwo(members);
  }

  lemma FirstOfTwo<T>(items: seq<T>)
    requires |items| == 2
    ensures Init(items) == [items[0]]
  {
  }

  lemma SoundHalf(capital: real)
    ensures Share(Member(SOUND, 50.0), capital, SampleAt(SOUND, 0)) == Fin(capital / 2.0)
  {
    StartsAtInitial(SOUND, 0);
    FullShare(Member(SOUND, 50.0), capital);
  }

  /** Half of the capital in a candidate that starts at zero, and the merged curve starts at the other half. */
  lemma ZeroStartIsLost()
    ensures var r := Merged(Portfolio([SOUND, ZERO_START], [50.0, 50.0]), 10000.0);
      r != [] && r[0] == EquityPoint(0, Fin(5000.0))
  {
    HalfAndHalf(ZERO_START, 10000.0);
    ShareOfZeroStart();
  }

  /** Half of it in one that repeats its first time, and the merged curve starts with the second point of that. */
  lemma RepeatedStartIsLost()
    ensures var r := Merged(Portfolio([SOUND, REPEATED_START], [50.0, 50.0]), 10000.0);
      r != [] && r[0] == EquityPoint(0, Fin(7500.0))
  {
    HalfAndHalf(REPEATED_START, 10000.0);
    ShareOfRepeatedStart();
  }

  lemma ShareOfZeroStart()
    ensures Share(Member(ZERO_START, 50.0), 10000.0, SampleAt(ZERO_START, 0)) == Fin(0.0)
  {
    LeadingUnique(ZERO_START.curve, 0, 1);
  }

  lemma ShareOfRepeatedStart()
    ensures Share(Member(REPEATED_START, 50.0), 10000.0, SampleAt(REPEATED_START, 0)) == Fin(2500.0)
  {
    LeadingUnique(REPEATED_START.curve, 0, 2);
  }

  // ---------------------------------------------------------------- the single-member shortcut

  lemma {:induction false} SortedUnionOfIncreasing(ts: seq<int>)
    requires Increasing(ts)
    ensures SortedUnion(ts) == ts
  {
    if ts != [] {
      var front, last := ts[..|ts| - 1], ts[|ts| - 1];
      SortedUnionOfIncreasing(front);
      assert ts == front + [last];
      assert front != [] ==> front[|front| - 1] == ts[|ts| - 2];
    }
  }

  lemma SingleValue(m: Member, capital: real, t: int)
    ensures ValueAt([m], capital, t) == Add(Fin(0.0), Share(m, capital, SampleAt(m.candidate, t)))
  {
    assert [m][..0] == [];
    assert ValueAt([], capital, t) == Fin(0.0);
  }

  lemma ScaleIsShare(m: Member, capital: real, equity: Num)
    requires PositiveFinite(InitialEquity(m.candidate))
    ensures Mul(equity, Scale(m, capital)) == Share(m, capital, equity)
  {
    var a, x := Allocated(m, capital), InitialEquity(m.candidate).v;
    var p := a / x;
    assert p * x == a;
    if equity.Fin? {
      var e := equity.v;
      var q := e / x;
      assert q * x == e;
      assert e * p == (q * x) * p == q * (p * x) == a * q;
    } else {
      SameSign(p, x);
    }
  }

  lemma SameSign(p: real, x: real)
    requires x > 0.0
    ensures Sign(Fin(p * x)) == Sign(Fin(p))
  {
    if p > 0.0 {
      assert p * x > 0.0;
    } else if p < 0.0 {
      assert p * x < 0.0;
    }
  }

  /** Without a usable starting equity the general path counts the member as nothing, at every time. */
  lemma UnusableValue(m: Member, capital: real, t: int)
    requires !PositiveFinite(InitialEquity(m.candidate))
    ensures ValueAt([m], capital, t) == Fin(0.0)
  {
    SingleValue(m, capital, t);
  }

  /** The shortcut, too, gives zero at every point. */
  ghost predicate Vanishes(m: Member, capital: real) {
    forall k :: 0 <= k < |m.candidate.curve| ==> VanishesAt(m.candidate.curve[k].equity, Scale(m, capital))
  }

  predicate VanishesAt(equity: Num, scale: Num) {
    equity.Fin? && scale.Fin? && (equity.v == 0.0 || scale.v == 0.0)
  }

  lemma ZeroProduct(x: Num, y: Num)
    ensures Mul(x, y) == Fin(0.0) <==> VanishesAt(x, y)
  {
    if x.Fin? && y.Fin? {
      NonZeroProduct(x.v, y.v);
    }
  }

  lemma NonZeroProduct(x: real, y: real)
    ensures x * y == 0.0 <==> x == 0.0 || y == 0.0
  {
  }

  lemma ShortcutPoint(m: Member, capital: real, k: nat)
    requires PositiveFinite(InitialEquity(m.candidate)) && k < |m.candidate.curve|
    requires Increasing(TimestampsOf(m.candidate.curve))
    ensures Mul(m.candidate.curve[k].equity, Scale(m, capital)) == ValueAt([m], capital, m.candidate.curve[k].timestamp)
  {
    var curve, ts := m.candidate.curve, TimestampsOf(m.candidate.curve);
    forall a, b | 0 <= a < b < |curve| ensures curve[a].timestamp < curve[b].timestamp {
      assert ts[a] < ts[b];
    }
    SingleValue(m, capital, curve[k].timestamp);
    SampleIsLastPoint(m.candidate, curve[k].timestamp, k);
    ScaleIsShare(m, capital, curve[k].equity);
  }

  lemma SingleTimestamps(m: Member)
    ensures AllTimestamps([m]) == TimestampsOf(m.candidate.curve)
  {
    assert [m][..0] == [];
    assert AllTimestamps([]) == [];
  }

  /** A rescaled curve is a valuation at its own timestamps exactly when it is so at every point. */
  lemma RescaledIsValuation(curve: seq<EquityPoint>, f: Num -> Num, value: int -> Num)
    ensures Rescaled(curve, f) == CurveOn(TimestampsOf(curve), value)
            <==> forall k :: 0 <= k < |curve| ==> f(curve[k].equity) == value(curve[k].timestamp)
  {
    var a, b := Rescaled(curve, f), CurveOn(TimestampsOf(curve), value);
    assert a == b <==> forall k :: 0 <= k < |curve| ==> a[k] == b[k];
  }

  lemma UsableShortcut(m: Member, capital: real)
    requires Increasing(TimestampsOf(m.candidate.curve)) && PositiveFinite(InitialEquity(m.candidate))
    ensures Scaled(m, capital) == MergedOn(TimestampsOf(m.candidate.curve), [m], capital)
  {
    var curve, f, value := m.candidate.curve, MultiplyBy(Scale(m, capital)), Valuation([m], capital);
    forall k | 0 <= k < |curve| ensures f(curve[k].equity) == value(curve[k].timestamp) {
      ShortcutPoint(m, capital, k);
    }
    RescaledIsValuation(curve, f, value);
  }

  /** A multiplied curve is zero throughout exactly when every product vanishes. */
  lemma ZeroCurve(curve: seq<EquityPoint>, scale: Num, value: int -> Num)
    requires forall k :: 0 <= k < |curve| ==> value(curve[k].timestamp) == Fin(0.0)
    ensures Rescaled(curve, MultiplyBy(scale)) == CurveOn(TimestampsOf(curve), value)
            <==> forall k :: 0 <= k < |curve| ==> VanishesAt(curve[k].equity, scale)
  {
    var f := MultiplyBy(scale);
    forall k | 0 <= k < |curve|
      ensures f(curve[k].equity) == value(curve[k].timestamp) <==> VanishesAt(curve[k].equity, scale)
    {
      ZeroProduct(curve[k].equity, scale);
    }
    RescaledIsValuation(curve, f, value);
  }

  lemma UnusableShortcut(m: Member, capital: real)
    requires !PositiveFinite(InitialEquity(m.candidate))
    ensures Scaled(m, capital) == MergedOn(TimestampsOf(m.candidate.curve), [m], capital) <==> Vanishes(m, capital)
  {
    var curve, value := m.candidate.curve, Valuation([m], capital);
    forall k | 0 <= k < |curve| ensures value(curve[k].timestamp) == Fin(0.0) {
      UnusableValue(m, capital, curve[k].timestamp);
    }
    ZeroCurve(curve, Scale(m, capital), value);
  }

  lemma MergedIncreasing(members: seq<Member>, capital: real)
    ensures Increasing(TimestampsOf(Merged(members, capital)))
  {
    assert TimestampsOf(Merged(members, capital)) == SortedUnion(AllTimestamps(members));
  }

  lemma ScaledTimestamps(m: Member, capital: real)
    ensures TimestampsOf(Scaled(m, capital)) == TimestampsOf(m.candidate.curve)
  {
  }

  /** The shortcut gives the curve of the general path exactly when the timestamps strictly increase (the general path
      never repeats one) and the starting equity is usable, or else both give zero throughout. */
  lemma ShortcutAgreesIff(m: Member, capital: real)
    ensures Scaled(m, capital) == Merged([m], capital)
            <==> Increasing(TimestampsOf(m.candidate.curve))
                 && (PositiveFinite(InitialEquity(m.candidate)) || Vanishes(m, capital))
  {
    SingleTimestamps(m);
    if Increasing(TimestampsOf(m.candidate.curve)) {
      SortedUnionOfIncreasing(TimestampsOf(m.candidate.curve));
      if PositiveFinite(InitialEquity(m.candidate)) {
        UsableShortcut(m, capital);
      } else {
        UnusableShortcut(m, capital);
      }
    }
    MergedIncreasing([m], capital);
    ScaledTimestamps(m, capital);
  }

  // ---------------------------------------------------------------- diversification never adds drawdown

  /** Everything about the member is positive. */
  predicate PositiveMember(m: Member) {
    && m.allocationPct > 0.0
    && PositiveFinite(InitialEquity(m.candidate))
    && forall i :: 0 <= i < |m.candidate.curve| ==> PositiveFinite(m.candidate.curve[i].equity)
  }

  function RealOf(x: Num): real { if x.Fin? then x.v else 0.0 }

  function Values(curve: seq<EquityPoint>): (r: seq<real>)
    ensures |r| == |curve|
  {
    seq(|curve|, i requires 0 <= i < |curve| => RealOf(curve[i].equity))
  }

  /** A positive member that never loses more than d percent. */
  ghost predicate MemberWithin(m: Member, d: real) {
    PositiveMember(m) && Drawdown.LossesWithin(Values(m.candidate.curve), d)
  }

  /** Between two times a positive member loses no more than its own drawdown. */
  lemma SampleDrop(m: Member, s: int, t: int, d: real)
    requires MemberWithin(m, d) && s <= t && d >= 0.0
    ensures PositiveFinite(SampleAt(m.candidate, s)) && PositiveFinite(SampleAt(m.candidate, t))
    ensures Drawdown.Drop(SampleAt(m.candidate, s).v, SampleAt(m.candidate, t).v, d)
  {
    var curve := m.candidate.curve;
    var values := Values(curve);
    LeadingMonotone(curve, s, t);
    if curve == [] {
      assert d / 100.0 * SampleAt(m.candidate, s).v >= 0.0;
    } else {
      Drawdown.PeaksCoverPairs(values, d);
      var i := if Leading(curve, s) == 0 then 0 else Leading(curve, s) - 1;
      var j := if Leading(curve, t) == 0 then 0 else Leading(curve, t) - 1;
      assert Drawdown.Drop(values[i], values[j], d);
    }
  }

  lemma ShareDrop(m: Member, capital: real, s: int, t: int, d: real)
    requires MemberWithin(m, d) && capital > 0.0 && s <= t && d >= 0.0
    ensures var a, b := Share(m, capital, SampleAt(m.candidate, s)), Share(m, capital, SampleAt(m.candidate, t));
            PositiveFinite(a) && PositiveFinite(b) && Drawdown.Drop(a.v, b.v, d)
  {
    SampleDrop(m, s, t, d);
    PositiveShare(m, capital, SampleAt(m.candidate, s).v, SampleAt(m.candidate, t).v, d);
  }

  lemma PositiveShare(m: Member, capital: real, e: real, f: real, d: real)
    requires m.allocationPct > 0.0 && capital > 0.0 && PositiveFinite(InitialEquity(m.candidate))
    requires e > 0.0 && f > 0.0 && Drawdown.Drop(e, f, d)
    ensures var a, b := Share(m, capital, Fin(e)), Share(m, capital, Fin(f));
            PositiveFinite(a) && PositiveFinite(b) && Drawdown.Drop(a.v, b.v, d)
  {
    var x := InitialEquity(m.candidate).v;
    var c := Allocated(m, capital);
    assert c > 0.0;
    var k := 1.0 / x;
    assert k * x == 1.0;
    assert k > 0.0;
    QuotientIsProduct(e, x, k);
    QuotientIsProduct(f, x, k);
    DropScales(e, f, k, d);
    DropScales(k * e, k * f, c, d);
    assert k * e > 0.0 && k * f > 0.0;
  }

  lemma QuotientIsProduct(e: real, x: real, k: real)
    requires x > 0.0 && k * x == 1.0
    ensures e / x == k * e
  {
    var q := e / x;
    assert q * x == e;
    assert k * (q * x) == q * (k * x);
  }

  lemma DropScales(e: real, f: real, k: real, d: real)
    requires k > 0.0 && Drawdown.Drop(e, f, d)
    ensures Drawdown.Drop(k * e, k * f, d)
  {
    var slack := d / 100.0 * e - (e - f);
    assert k * slack >= 0.0;
    assert k * slack == d / 100.0 * (k * e) - (k * e - k * f);
  }

  lemma DropAdds(a: real, b: real, x: real, y: real, d: real)
    requires Drawdown.Drop(a, b, d) && Drawdown.Drop(x, y, d)
    ensures Drawdown.Drop(a + x, b + y, d)
  {
    assert d / 100.0 * (a + x) == d / 100.0 * a + d / 100.0 * x;
  }

  lemma {:induction false} ValueDrop(members: seq<Member>, capital: real, s: int, t: int, d: real)
    requires capital > 0.0 && s <= t && d >= 0.0
    requires forall i :: 0 <= i < |members| ==> MemberWithin(members[i], d)
    ensures ValueAt(members, capital, s).Fin? && ValueAt(members, capital, t).Fin?
    ensures ValueAt(members, capital, s).v >= 0.0 && (members != [] ==> ValueAt(members, capital, s).v > 0.0)
    ensures Drawdown.Drop(ValueAt(members, capital, s).v, ValueAt(members, capital, t).v, d)
  {
    if members != [] {
      var front, last := members[..|members| - 1], members[|members| - 1];
      assert MemberWithin(last, d);
      ValueDrop(front, capital, s, t, d);
      ShareDrop(last, capital, s, t, d);
      DropAdds(ValueAt(front, capital, s).v, ValueAt(front, capital, t).v,
               Share(last, capital, SampleAt(last.candidate, s)).v,
                   Share(last, capital, SampleAt(last.candidate, t)).v, d);
    }
  }

  /** The merged curve of positive members with positive allocations is positive and draws down no more than d percent
      if no member does.  Timestamps may be in any order. */
  lemma MergedLossesWithin(members: seq<Member>, capital: real, d: real)
    requires members != [] && capital > 0.0 && d >= 0.0
    requires forall i :: 0 <= i < |members| ==> MemberWithin(members[i], d)
    ensures forall k :: 0 <= k < |Merged(members, capital)| ==> PositiveFinite(Merged(members, capital)[k].equity)
    ensures Drawdown.LossesWithin(Values(Merged(members, capital)), d)
  {
    var ts := SortedUnion(AllTimestamps(members));
    var r := Merged(members, capital);
    forall k | 0 <= k < |r|
      ensures PositiveFinite(r[k].equity)
    {
      ValueDrop(members, capital, ts[k], ts[k], d);
    }
    var values := Values(r);
    forall i, j | 0 <= i <= j < |values|
      ensures Drawdown.Drop(values[i], values[j], d)
    {
      assert ts[i] <= ts[j];
      ValueDrop(members, capital, ts[i], ts[j], d);
    }
    Drawdown.PeaksCoverPairs(values, d);
  }

  /** So does the single-member path, whatever its timestamps. */
  lemma ScaledLossesWithin(m: Member, capital: real, d: real)
    requires capital > 0.0 && d >= 0.0 && MemberWithin(m, d)
    ensures Drawdown.LossesWithin(Values(Scaled(m, capital)), d)
  {
    var curve, scaled := m.candidate.curve, Scaled(m, capital);
    var values, after := Values(curve), Values(scaled);
    Drawdown.PeaksCoverPairs(values, d);
    forall i, j | 0 <= i <= j < |curve|
      ensures after[i] > 0.0 && Drawdown.Drop(after[i], after[j], d)
    {
      ScaleIsShare(m, capital, curve[i].equity);
      ScaleIsShare(m, capital, curve[j].equity);
      assert Drawdown.Drop(values[i], values[j], d);
      PositiveShare(m, capital, values[i], values[j], d);
    }
    forall i | 0 <= i < |after| ensures after[i] > 0.0 {
      assert Drawdown.Drop(after[i], after[i], d);
    }
    Drawdown.PeaksCoverPairs(after, d);
  }

  /** The maximum drawdown of the combined curve, on either path, never exceeds the largest among its members. */
  lemma DiversificationBoundsDrawdown(members: seq<Member>, capital: real, drawdowns: seq<real>, worst: real,
      combined: real)
    requires members != [] && capital > 0.0
    requires forall i :: 0 <= i < |members| ==> PositiveMember(members[i])
    requires |drawdowns| == |members|
    requires forall i :: 0 <= i < |members| ==> Drawdown.IsMaxDrawdown(Values(members[i].candidate.curve), drawdowns[i])
    requires forall i :: 0 <= i < |members| ==> drawdowns[i] <= worst
    requires Drawdown.IsMaxDrawdown(Values(Combined(members, capital)), combined)
    ensures combined <= worst
  {
    assert drawdowns[0] >= 0.0;
    forall i | 0 <= i < |members|
      ensures MemberWithin(members[i], worst)
    {
      assert PositiveMember(members[i]);
      Drawdown.AllowanceMonotone(Values(members[i].candidate.curve), drawdowns[i], worst);
    }
    if |members| == 1 {
      ScaledLossesWithin(members[0], capital, worst);
    } else {
      MergedLossesWithin(members, capital, worst);
    }
  }
}
