/** When exactly the leasing allocator of apps/billing-chain-listener/src/address_pool.rs is safe against request times
    that go back. */
module LeaseTimes {
  import opened Common
  import opened AddressPool

  /** A later request lies below an earlier one that had itself risen above one before it. */
  ghost predicate Peak(times: seq<int>, i: int, j: int, k: int) {
    0 <= i < j < k < |times| && times[i] < times[j] && times[k] < times[j]
  }

  ghost predicate NoPeak(times: seq<int>) {
    forall i, j, k :: !Peak(times, i, j, k)
  }

  // ---------------------------------------------------------------- falling times

  ghost predicate Falling(times: seq<int>) {
    forall i, j :: 0 <= i < j < |times| ==> times[i] >= times[j]
  }

  ghost predicate HasGrant(grants: seq<Grant>, address: string) {
    exists i :: 0 <= i < |grants| && grants[i].address == address
  }

  /** Nothing was purged: the table is exactly the list of grants, all of different addresses and none ended by t. */
  ghost predicate AllKept(r: Trace, t: int) {
    && (forall a :: a in r.pool.leases ==> HasGrant(r.grants, a))
    && (forall i :: 0 <= i < |r.grants| ==> r.grants[i].address in r.pool.leases)
    && (forall i :: 0 <= i < |r.grants| ==> r.pool.leases[r.grants[i].address] == r.grants[i].end > t)
    && (forall i, j :: 0 <= i < j < |r.grants| ==> r.grants[i].address != r.grants[j].address)
  }

  lemma AllKeptIsExact(r: Trace, t: int, u: int)
    requires AllKept(r, t)
    ensures Disjoint(r.grants) && TableExact(r, u)
  {
    forall v, a | v >= u
      ensures a in Purge(r.pool.leases, v) <==> Held(r.grants, a, v)
    {
      if a in Purge(r.pool.leases, v) {
        var i :| 0 <= i < |r.grants| && r.grants[i].address == a;
        assert r.grants[i].end > v;
      }
    }
  }

  lemma KeepAll(before: Trace, t: int, u: int)
    requires WellFormed(before.pool) && before.pool.leaseDuration > 0 && AllKept(before, t) && u <= t
    ensures AllKept(Served(before, u), u)
  {
    assert Purge(before.pool.leases, u) == before.pool.leases by {
      forall a | a in before.pool.leases
        ensures before.pool.leases[a] > u
      {
        var i :| 0 <= i < |before.grants| && before.grants[i].address == a;
        assert before.pool.leases[a] > t;
      }
    }
    var answer := Assigned(before.pool, u);
    if answer.assignment.Some? {
      var g := Grant(answer.assignment.value.address, u, answer.assignment.value.expiresAt);
      assert g.address !in before.pool.leases;
      KeepOne(before, t, u, g, answer.pool);
    }
  }

  lemma HasGrantGrows(grants: seq<Grant>, g: Grant, address: string)
    requires HasGrant(grants, address) || g.address == address
    ensures HasGrant(grants + [g], address)
  {
    assert (grants + [g])[|grants|] == g;
    if HasGrant(grants, address) {
      var i :| 0 <= i < |grants| && grants[i].address == address;
      assert (grants + [g])[i].address == address;
    }
  }

  lemma KeepOne(before: Trace, t: int, u: int, g: Grant, pool: Pool)
    requires AllKept(before, t) && u <= t && g.address !in before.pool.leases && g.end > u
    requires pool.leases == before.pool.leases[g.address := g.end]
    ensures AllKept(Trace(pool, before.grants + [g]), u)
  {
    var grants := before.grants + [g];
    forall a | a in pool.leases
      ensures HasGrant(grants, a)
    {
      HasGrantGrows(before.grants, g, a);
    }
    forall i | 0 <= i < |grants|
      ensures grants[i].address in pool.leases && pool.leases[grants[i].address] == grants[i].end > u
      ensures i < |before.grants| ==> grants[i].address != g.address
    {
      assert i < |before.grants| ==> before.grants[i].address in before.pool.leases;
    }
  }

  lemma {:induction false} FallingKeepsAll(p: Pool, times: seq<int>)
    requires WellFormed(p) && p.leases == map[] && p.leaseDuration > 0 && times != [] && Falling(times)
    ensures AllKept(Run(p, times), times[|times| - 1])
  {
    var front, t := Init(times), times[|times| - 1];
    if front == [] {
      assert AllKept(Run(p, front), t);
      KeepAll(Run(p, front), t, t);
    } else {
      FallingKeepsAll(p, front);
      KeepAll(Run(p, front), front[|front| - 1], t);
    }
  }

  // ---------------------------------------------------------------- without a peak the pool is safe

  /** A drop at the end, without a peak, means that nothing ever rose. */
  lemma DropMeansFalling(times: seq<int>)
    requires |times| >= 2 && NoPeak(times) && times[|times| - 1] < times[|times| - 2]
    ensures Falling(times)
  {
    var n := |times| - 1;
    forall i, j | 0 <= i < j < |times|
      ensures times[i] >= times[j]
    {
      assert !Peak(times, i, n - 1, n) && !Peak(times, i, j, n) && !Peak(times, j, n - 1, n);
    }
  }

  lemma {:induction false} NoPeakIsSafe(p: Pool, times: seq<int>)
    requires WellFormed(p) && p.leases == map[] && p.leaseDuration > 0 && NoPeak(times)
    ensures Disjoint(Run(p, times).grants)
    ensures times != [] ==> TableExact(Run(p, times), times[|times| - 1])
  {
    if times != [] {
      var front, t := Init(times), times[|times| - 1];
      forall i, j, k ensures !Peak(front, i, j, k) {
        assert !Peak(times, i, j, k);
      }
      NoPeakIsSafe(p, front);
      if front != [] && t < front[|front| - 1] {
        DropMeansFalling(times);
        FallingKeepsAll(p, times);
        AllKeptIsExact(Run(p, times), t, t);
      } else {
        var before := Run(p, front);
        assert TableExact(before, t);
        RequestKeeps(before, t);
      }
    }
  }

  // ---------------------------------------------------------------- with a peak some pool is not

  /** n different addresses. */
  function Names(n: nat): (names: seq<string>)
    ensures |names| == n && forall i :: 0 <= i < n ==> |names[i]| == i
  {
    seq(n, i requires 0 <= i < n => seq(i, _ => 'a'))
  }

  ghost predicate Distinct(addresses: seq<string>) {
    forall i, j :: 0 <= i < j < |addresses| ==> addresses[i] != addresses[j]
  }

  /** The grants of requests that take the addresses in turn. */
  function TurnGrants(addresses: seq<string>, lease: int, times: seq<int>): (grants: seq<Grant>)
    requires |times| <= |addresses|
    ensures |grants| == |times|
  {
    seq(|times|, n requires 0 <= n < |times| => Grant(addresses[n], times[n], times[n] + lease))
  }

  ghost predicate Taken(addresses: seq<string>, m: nat, address: string) {
    exists n :: 0 <= n < m && n < |addresses| && addresses[n] == address
  }

  /** The table after them: only addresses taken so far, each until its lease ends, and what ended by a later request
      is forgotten. */
  ghost predicate TurnTable(leases: map<string, int>, addresses: seq<string>, lease: int, times: seq<int>)
    requires |times| <= |addresses|
  {
    && (forall a :: a in leases ==> Taken(addresses, |times|, a))
    && (forall n :: 0 <= n < |times| && addresses[n] in leases ==> leases[addresses[n]] == times[n] + lease)
    && (forall i, j :: 0 <= i < j < |times| && times[i] + lease <= times[j] ==> addresses[i] !in leases)
  }

  /** The state after as many requests as there are times, when the addresses were taken in turn. */
  ghost predicate InTurn(r: Trace, times: seq<int>) {
    var addresses, lease, m := r.pool.addresses, r.pool.leaseDuration, |times|;
    && m <= |addresses|
    && r.pool.nextIndex == (if m < |addresses| then m else 0)
    && r.grants == TurnGrants(addresses, lease, times)
    && TurnTable(r.pool.leases, addresses, lease, times)
  }

  /** A cursor on a free address takes it. */
  lemma TakesNext(p: Pool, t: int)
    requires WellFormed(p) && p.addresses != [] && p.addresses[p.nextIndex] !in Purge(p.leases, t)
    ensures var address := p.addresses[p.nextIndex];
      Assigned(p, t) == Answer(p.(leases := Purge(p.leases, t)[address := t + p.leaseDuration],
                                  nextIndex := if p.nextIndex + 1 < |p.addresses| then p.nextIndex + 1 else 0),
                               Some(Assignment(p.chain, address, t + p.leaseDuration)))
  {
    Wrap(p.nextIndex, |p.addresses|);
    Wrap(p.nextIndex + 1, |p.addresses|);
    assert FirstFree(p.addresses, p.nextIndex, Purge(p.leases, t), 0) == Some(0);
  }

  lemma TableNext(leases: map<string, int>, addresses: seq<string>, lease: int, times: seq<int>)
    requires 0 < |times| <= |addresses| && TurnTable(leases, addresses, lease, Init(times))
    requires forall i :: 0 <= i < |times| - 1 ==> addresses[i] != addresses[|times| - 1]
    ensures var address, t := addresses[|times| - 1], times[|times| - 1];
      && address !in Purge(leases, t)
      && TurnTable(Purge(leases, t)[address := t + lease], addresses, lease, times)
  {
    var m, t := |times| - 1, times[|times| - 1];
    var address := addresses[m];
    assert !Taken(addresses, m, address);
    var after := Purge(leases, t)[address := t + lease];
    forall a | a in after
      ensures Taken(addresses, |times|, a)
    {
      TakenLater(addresses, m, a, address);
    }
    forall i, j | 0 <= i < j < |times| && times[i] + lease <= times[j]
      ensures addresses[i] !in after
    {
      assert Init(times)[i] == times[i] && (j < m ==> Init(times)[j] == times[j]);
    }
    forall n | 0 <= n < |times| && addresses[n] in after
      ensures after[addresses[n]] == times[n] + lease
    {
      assert n < m ==> Init(times)[n] == times[n];
    }
  }

  lemma TakenLater(addresses: seq<string>, m: nat, a: string, address: string)
    requires m < |addresses| && addresses[m] == address
    ensures Taken(addresses, m, a) || a == address ==> Taken(addresses, m + 1, a)
  {
  }

  /** The next request takes the next address. */
  lemma NextInTurn(before: Trace, times: seq<int>)
    requires times != [] && WellFormed(before.pool) && InTurn(before, Init(times))
    requires |times| <= |before.pool.addresses|
    requires forall i :: 0 <= i < |times| - 1 ==> before.pool.addresses[i] != before.pool.addresses[|times| - 1]
    ensures InTurn(Served(before, times[|times| - 1]), times)
  {
    var p, t := before.pool, Last(times);
    TableNext(p.leases, p.addresses, p.leaseDuration, times);
    ServedNext(before, t);
    TurnGrantsNext(p.addresses, p.leaseDuration, times);
  }

  lemma ServedNext(before: Trace, t: int)
    requires var p := before.pool;
      WellFormed(p) && p.addresses != [] && p.addresses[p.nextIndex] !in Purge(p.leases, t)
    ensures var p, address := before.pool, before.pool.addresses[before.pool.nextIndex];
      Served(before, t) == Trace(p.(leases := Purge(p.leases, t)[address := t + p.leaseDuration],
                                    nextIndex := if p.nextIndex + 1 < |p.addresses| then p.nextIndex + 1 else 0),
                                 before.grants + [Grant(address, t, t + p.leaseDuration)])
  {
    TakesNext(before.pool, t);
  }

  lemma TurnGrantsNext(addresses: seq<string>, lease: int, times: seq<int>)
    requires 0 < |times| <= |addresses|
    ensures var m, t := |times| - 1, times[|times| - 1];
      TurnGrants(addresses, lease, times)
          == TurnGrants(addresses, lease, Init(times)) + [Grant(addresses[m], t, t + lease)]
  {
  }

  lemma {:induction false} RunInTurn(p: Pool, n: nat, times: seq<int>)
    requires WellFormed(p) && p.leases == map[] && p.nextIndex == 0
    requires |times| <= n <= |p.addresses| && Distinct(p.addresses[..n])
    ensures InTurn(Run(p, times), times)
  {
    if times != [] {
      RunInTurn(p, n, Init(times));
      forall i | 0 <= i < |times| - 1 ensures p.addresses[i] != p.addresses[|times| - 1] {
        assert p.addresses[..n][i] != p.addresses[..n][|times| - 1];
      }
      NextInTurn(Run(p, Init(times)), times);
    }
  }

  lemma {:induction false} GrantsGrow(p: Pool, times: seq<int>, n: nat)
    requires WellFormed(p) && n <= |times|
    ensures Run(p, times[..n]).grants <= Run(p, times).grants
  {
    if n < |times| {
      GrantsGrow(p, Init(times), n);
      assert Init(times)[..n] == times[..n];
      ServedGrows(Run(p, Init(times)), times[|times| - 1]);
    } else {
      assert times[..n] == times;
    }
  }

  lemma ServedGrows(before: Trace, t: int)
    requires WellFormed(before.pool)
    ensures before.grants <= Served(before, t).grants
  {
  }

  /** One request more, and everything after it. */
  lemma RunThrough(p: Pool, times: seq<int>, k: nat)
    requires WellFormed(p) && k < |times|
    ensures Served(Run(p, times[..k]), times[k]).grants <= Run(p, times).grants
  {
    assert times[..k + 1][..k] == times[..k];
    GrantsGrow(p, times, k + 1);
  }

  /** A grant of an address whose earlier lease has not ended. */
  lemma EarlyRegrant(grants: seq<Grant>, h: Grant, all: seq<Grant>, x: nat)
    requires grants + [h] <= all && x < |grants| && grants[x].address == h.address && grants[x].end > h.start
    ensures !Disjoint(all)
  {
    assert all[x] == (grants + [h])[x] && all[|grants|] == (grants + [h])[|grants|];
  }

  /** A free address means that a request is granted, to some address of the list. */
  lemma FreeIsGranted(p: Pool, t: int, i: nat) returns (x: nat)
    requires WellFormed(p) && i < |p.addresses| && p.addresses[i] !in Purge(p.leases, t)
    ensures x < |p.addresses|
          && Assigned(p, t).assignment == Some(Assignment(p.chain, p.addresses[x], t + p.leaseDuration))
  {
    var offset := CyclicCover(p.nextIndex, i, |p.addresses|);
    var found := FirstFree(p.addresses, p.nextIndex, Purge(p.leases, t), 0);
    assert found.Some?;
    x := IndexAt(p.nextIndex, found.value, |p.addresses|);
  }

  /** The first of the lowest of the first j times. */
  lemma {:induction false} LowestBefore(times: seq<int>, j: nat) returns (i: nat)
    requires 0 < j <= |times|
    ensures i < j && forall x :: 0 <= x < j ==> times[i] <= times[x]
    ensures forall x :: 0 <= x < i ==> times[i] < times[x]
  {
    if j == 1 {
      i := 0;
    } else {
      i := LowestBefore(times, j - 1);
      i := if times[j - 1] < times[i] then j - 1 else i;
    }
  }

  /** The first time after j that lies below it. */
  lemma FirstBelow(times: seq<int>, j: nat, k: nat) returns (first: nat)
    requires j < k < |times| && times[k] < times[j]
    ensures j < first <= k && times[first] < times[j]
    ensures forall x :: j <= x < first ==> times[x] >= times[j]
  {
    first := j + 1;
    while times[first] >= times[j]
      invariant j < first <= k
      invariant forall x :: j <= x < first ==> times[x] >= times[j]
      decreases k - first
    {
      first := first + 1;
    }
  }

  /** When every address was taken once and one of them is forgotten, the next request is granted an address again. */
  lemma RegrantedAfterTurns(r: Trace, past: seq<int>, t: int, i: nat, j: nat) returns (x: nat)
    requires WellFormed(r.pool) && InTurn(r, past) && |past| == |r.pool.addresses|
    requires i < j < |past| && past[i] + r.pool.leaseDuration <= past[j]
    ensures x < |past| && r.grants[x] == Grant(r.pool.addresses[x], past[x], past[x] + r.pool.leaseDuration)
    ensures Served(r, t).grants == r.grants + [Grant(r.pool.addresses[x], t, t + r.pool.leaseDuration)]
  {
    x := FreeIsGranted(r.pool, t, i);
  }

  lemma RegrantedEarly(r: Trace, past: seq<int>, t: int, i: nat, j: nat, all: seq<Grant>)
    requires WellFormed(r.pool) && InTurn(r, past) && |past| == |r.pool.addresses|
    requires i < j < |past| && past[i] + r.pool.leaseDuration <= past[j]
    requires forall x :: 0 <= x < |past| ==> past[x] + r.pool.leaseDuration > t
    requires Served(r, t).grants <= all
    ensures !Disjoint(all)
  {
    var x := RegrantedAfterTurns(r, past, t, i, j);
    EarlyRegrant(r.grants, Grant(r.pool.addresses[x], t, t + r.pool.leaseDuration), all, x);
  }

  lemma RunRegrantsEarly(p: Pool, times: seq<int>, i: nat, j: nat, k: nat)
    requires WellFormed(p) && k < |times| && k == |p.addresses| && InTurn(Run(p, times[..k]), times[..k])
    requires i < j < k && times[..k][i] + p.leaseDuration <= times[..k][j]
    requires forall x :: 0 <= x < k ==> times[..k][x] + p.leaseDuration > times[k]
    ensures !Disjoint(Run(p, times).grants)
  {
    RunThrough(p, times, k);
    RegrantedEarly(Run(p, times[..k]), times[..k], times[k], i, j, Run(p, times).grants);
  }

  /** At the drop no lease of the earlier requests has ended; at the peak the lowest one had. */
  lemma DropBeforeEnds(times: seq<int>, i: nat, j: nat, k: nat)
    requires Peak(times, i, j, k)
    requires forall x :: 0 <= x < j ==> times[i] <= times[x]
    requires forall x :: j <= x < k ==> times[x] >= times[j]
    ensures var past, lease := times[..k], times[j] - times[i];
      past[i] + lease <= past[j] && forall x :: 0 <= x < k ==> past[x] + lease > times[k]
  {
    forall x | 0 <= x < k ensures times[..k][x] + (times[j] - times[i]) > times[k] {
      assert times[..k][x] == times[x];
    }
  }

  /** As many addresses as requests before the drop, and a lease that ends the lowest of them at the peak. */
  lemma PeakIsUnsafe(chain: string, times: seq<int>, i: nat, j: nat, k: nat)
    requires Peak(times, i, j, k)
    requires forall x :: 0 <= x < j ==> times[i] <= times[x]
    requires forall x :: j <= x < k ==> times[x] >= times[j]
    ensures !Disjoint(Run(New(chain, Names(k), times[j] - times[i]), times).grants)
  {
    NamesDistinct(k);
    PeakIsUnsafeFor(New(chain, Names(k), times[j] - times[i]), times, i, j, k);
  }

  lemma PeakIsUnsafeFor(p: Pool, times: seq<int>, i: nat, j: nat, k: nat)
    requires WellFormed(p) && p.leases == map[] && p.nextIndex == 0 && |p.addresses| == k && Distinct(p.addresses)
    requires Peak(times, i, j, k) && p.leaseDuration == times[j] - times[i]
    requires forall x :: 0 <= x < j ==> times[i] <= times[x]
    requires forall x :: j <= x < k ==> times[x] >= times[j]
    ensures !Disjoint(Run(p, times).grants)
  {
    DropBeforeEnds(times, i, j, k);
    assert p.addresses[..k] == p.addresses;
    RunInTurn(p, k, times[..k]);
    RunRegrantsEarly(p, times, i, j, k);
  }

  lemma NamesDistinct(n: nat)
    ensures Distinct(Names(n))
  {
    forall i, j | 0 <= i < j < n ensures Names(n)[i] != Names(n)[j] {
      assert |Names(n)[i]| != |Names(n)[j]|;
    }
  }

  /** An address is never granted again before its earlier leases end, whatever the pool and the lease, exactly when
      the request times have no peak: they fall to their lowest value and from there on never go back.  The pools
      that fail have no address twice. */
  lemma SafeIffNoPeak(times: seq<int>)
    ensures (forall chain, addresses, lease | lease > 0 :: Disjoint(Run(New(chain, addresses, lease), times).grants))
            <==> forall i, j, k | 0 <= i < j < k < |times| :: !(times[i] < times[j] && times[k] < times[j])
  {
    if NoPeak(times) {
      forall chain, addresses, lease | lease > 0
        ensures Disjoint(Run(New(chain, addresses, lease), times).grants)
      {
        NoPeakIsSafe(New(chain, addresses, lease), times);
      }
      forall i, j, k | 0 <= i < j < k < |times|
        ensures !(times[i] < times[j] && times[k] < times[j])
      {
        assert !Peak(times, i, j, k);
      }
    } else {
      var i, j, k :| Peak(times, i, j, k);
      var low := LowestBefore(times, j);
      var first := FirstBelow(times, j, k);
      PeakIsUnsafe("BSC", times, low, j, first);
    }
  }

  // ---------------------------------------------------------------- sharing an instant

  /** Two leases of one address hold at the same instant. */
  ghost predicate Overlap(g: Grant, h: Grant) {
    g.address == h.address && g.start < h.end && h.start < g.end
  }

  ghost predicate NoneOverlap(grants: seq<Grant>) {
    forall i, j :: 0 <= i < j < |grants| ==> !Overlap(grants[i], grants[j])
  }

  /** The time rises from i to j by more than it lies apart between i and a later k. */
  ghost predicate Spike(times: seq<int>, i: int, j: int, k: int) {
    0 <= i < j < k < |times| && times[k] < times[j] && times[i] - times[k] < times[j] - times[i]
  }

  ghost predicate NoSpike(times: seq<int>) {
    forall i, j, k :: !Spike(times, i, j, k)
  }

  /** Which requests were granted. */
  ghost function Granted(p: Pool, times: seq<int>): seq<nat>
    requires WellFormed(p)
  {
    if times == [] then []
    else
      var before := Granted(p, Init(times));
      if Assigned(Run(p, Init(times)).pool, times[|times| - 1]).assignment.Some? then before + [|times| - 1] else before
  }

  /** Grant x is in the table, or a request after it came at or after its end. */
  ghost predicate Accounted(r: Trace, requests: seq<nat>, times: seq<int>, x: nat)
    requires x < |r.grants| == |requests|
  {
    var g, i := r.grants[x], requests[x];
    && i < |times| && g.start == times[i] && g.end == times[i] + r.pool.leaseDuration
    && ((g.address in r.pool.leases && r.pool.leases[g.address] == g.end)
        || exists j :: i < j < |times| && times[j] >= g.end)
  }

  lemma AccountedLater(r: Trace, requests: seq<nat>, times: seq<int>, leases: map<string, int>, x: nat)
    requires times != [] && x < |r.grants| == |requests| && Accounted(r, requests, Init(times), x)
    requires leases == Purge(r.pool.leases, times[|times| - 1])
    ensures Accounted(Trace(r.pool.(leases := leases), r.grants), requests, times, x)
    ensures r.grants[x].address !in leases ==> exists j :: requests[x] < j < |times| && times[j] >= r.grants[x].end
  {
    var g, i, n := r.grants[x], requests[x], |times| - 1;
    if j :| i < j < |Init(times)| && Init(times)[j] >= g.end {
      assert times[j] >= g.end;
    } else if g.end <= times[n] {
      assert i < n < |times|;
    }
  }

  /** What the invariant of a run says. */
  ghost predicate Apart(r: Trace, requests: seq<nat>, times: seq<int>) {
    && |r.grants| == |requests|
    && (forall x :: 0 <= x < |requests| ==> Accounted(r, requests, times, x))
    && NoneOverlap(r.grants)
  }

  /** One more grant overlaps no earlier one unless the times have a spike. */
  lemma NewGrantApart(r: Trace, requests: seq<nat>, times: seq<int>, h: Grant, x: nat)
    requires times != [] && NoSpike(times) && x < |r.grants| == |requests|
    requires requests[x] < |times| - 1 && r.grants[x].start == times[requests[x]]
    requires h.start == times[|times| - 1] && h.end - h.start == r.grants[x].end - r.grants[x].start
    requires h.address == r.grants[x].address ==> exists j :: requests[x] < j < |times| && times[j] >= r.grants[x].end
    ensures !Overlap(r.grants[x], h)
  {
    if h.address == r.grants[x].address {
      var j :| requests[x] < j < |times| && times[j] >= r.grants[x].end;
      assert !Spike(times, requests[x], j, |times| - 1);
    }
  }

  lemma PurgeKeepsApart(r: Trace, requests: seq<nat>, times: seq<int>, leases: map<string, int>)
    requires times != [] && Apart(r, requests, Init(times)) && leases == Purge(r.pool.leases, times[|times| - 1])
    ensures Apart(Trace(r.pool.(leases := leases), r.grants), requests, times)
  {
    forall x | 0 <= x < |requests|
      ensures Accounted(Trace(r.pool.(leases := leases), r.grants), requests, times, x)
    {
      AccountedLater(r, requests, times, leases, x);
    }
  }

  lemma GrantKeepsApart(r: Trace, requests: seq<nat>, times: seq<int>, pool: Pool, h: Grant)
    requires times != [] && NoSpike(times) && Apart(r, requests, Init(times))
          && pool.leaseDuration == r.pool.leaseDuration
    requires h.start == times[|times| - 1] && h.end == h.start + r.pool.leaseDuration
    requires h.address !in Purge(r.pool.leases, h.start)
    requires pool.leases == Purge(r.pool.leases, h.start)[h.address := h.end]
    ensures Apart(Trace(pool, r.grants + [h]), requests + [|times| - 1], times)
  {
    var leases := Purge(r.pool.leases, h.start);
    var grants, all := r.grants + [h], requests + [|times| - 1];
    forall x | 0 <= x < |requests|
      ensures !Overlap(r.grants[x], h) && Accounted(Trace(pool, grants), all, times, x)
    {
      AccountedLater(r, requests, times, leases, x);
      NewGrantApart(r, requests, times, h, x);
    }
    assert Accounted(Trace(pool, grants), all, times, |requests|);
  }

  lemma {:induction false} NoSpikeIsApart(p: Pool, times: seq<int>)
    requires WellFormed(p) && p.leases == map[] && NoSpike(times)
    ensures Apart(Run(p, times), Granted(p, times), times)
  {
    if times != [] {
      var front, t := Init(times), times[|times| - 1];
      forall i, j, k ensures !Spike(front, i, j, k) {
        assert !Spike(times, i, j, k);
      }
      NoSpikeIsApart(p, front);
      var before, requests := Run(p, front), Granted(p, front);
      ServedApart(before, requests, times);
    }
  }

  lemma ServedApart(before: Trace, requests: seq<nat>, times: seq<int>)
    requires times != [] && NoSpike(times) && WellFormed(before.pool) && Apart(before, requests, Init(times))
    ensures var t := times[|times| - 1];
      Apart(Served(before, t), if Assigned(before.pool, t).assignment.Some? then requests + [|times| - 1]
          else requests, times)
  {
    var p, t := before.pool, times[|times| - 1];
    var answer := Assigned(p, t);
    if answer.assignment.Some? {
      GrantKeepsApart(before, requests, times, answer.pool,
          Grant(answer.assignment.value.address, t, t + p.leaseDuration));
    } else if p.addresses == [] {
      NoAddresses(before, requests, times);
    } else {
      PurgeKeepsApart(before, requests, times, Purge(p.leases, t));
    }
  }

  lemma NoAddresses(r: Trace, requests: seq<nat>, times: seq<int>)
    requires times != [] && Apart(r, requests, Init(times))
    ensures Apart(r, requests, times)
  {
    forall x | 0 <= x < |requests|
      ensures Accounted(r, requests, times, x)
    {
      assert Accounted(r, requests, Init(times), x);
      var g, i := r.grants[x], requests[x];
      if j :| i < j < |Init(times)| && Init(times)[j] >= g.end {
        assert times[j] >= g.end;
      }
    }
  }

  lemma SharedInstant(grants: seq<Grant>, h: Grant, all: seq<Grant>, x: nat)
    requires grants + [h] <= all && x < |grants| && Overlap(grants[x], h)
    ensures !NoneOverlap(all)
  {
    assert all[x] == (grants + [h])[x] && all[|grants|] == (grants + [h])[|grants|];
  }
}
