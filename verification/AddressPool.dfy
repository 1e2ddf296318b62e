/** The leasing allocator of apps/billing-chain-listener/src/address_pool.rs.  Times are instants on one integer
    scale. */
module AddressPool {
  import Arithmetic
  import opened Common

  datatype Assignment = Assignment(chain: string, address: string, expiresAt: int)

  datatype Pool = Pool(chain: string, addresses: seq<string>, nextIndex: nat, leaseDuration: int,
                       leases: map<string, int>)

  ghost predicate WellFormed(p: Pool) {
    p.addresses != [] ==> p.nextIndex < |p.addresses|
  }

  // ---------------------------------------------------------------- one request

  /** `retain(|_, expires_at| *expires_at > requested_at)`. */
  function Purge(leases: map<string, int>, t: int): map<string, int> {
    map a | a in leases && leases[a] > t :: leases[a]
  }

  function IndexAt(next: nat, offset: nat, total: nat): nat
    requires total > 0
  {
    (next + offset) % total
  }

  /** First offset at or after `offset` whose address carries no lease. */
  function FirstFree(addresses: seq<string>, next: nat, leases: map<string, int>, offset: nat): (r: Option<nat>)
    requires addresses != [] && next < |addresses| && offset <= |addresses|
    ensures r.Some? ==> offset <= r.value < |addresses| && addresses[IndexAt(next, r.value, |addresses|)] !in leases
    ensures r.Some? ==> forall o :: offset <= o < r.value ==> addresses[IndexAt(next, o, |addresses|)] in leases
    ensures r.None? ==> forall o :: offset <= o < |addresses| ==> addresses[IndexAt(next, o, |addresses|)] in leases
    decreases |addresses| - offset
  {
    if offset == |addresses| then None
    else if addresses[IndexAt(next, offset, |addresses|)] !in leases then Some(offset)
    else FirstFree(addresses, next, leases, offset + 1)
  }

  datatype Answer = Answer(pool: Pool, assignment: Option<Assignment>)

  function Assigned(p: Pool, t: int): (r: Answer)
    requires WellFormed(p)
    ensures WellFormed(r.pool) && r.pool.addresses == p.addresses && r.pool.leaseDuration == p.leaseDuration
  {
    if p.addresses == [] then Answer(p, None)
    else
      var leases := Purge(p.leases, t);
      match FirstFree(p.addresses, p.nextIndex, leases, 0)
      case None => Answer(p.(leases := leases), None)
      case Some(offset) =>
        var index := IndexAt(p.nextIndex, offset, |p.addresses|);
        var address, expiresAt := p.addresses[index], t + p.leaseDuration;
        Answer(p.(leases := leases[address := expiresAt], nextIndex := (index + 1) % |p.addresses|),
               Some(Assignment(p.chain, address, expiresAt)))
  }

  class Allocator {
    var chain: string
    var addresses: seq<string>
    var nextIndex: nat
    var leaseDuration: int
    var activeLeases: map<string, int>

    ghost function State(): Pool
      reads this
    {
      Pool(chain, addresses, nextIndex, leaseDuration, activeLeases)
    }

    constructor (chain: string, addresses: seq<string>, leaseDuration: int)
      ensures State() == Pool(chain, addresses, 0, leaseDuration, map[]) && WellFormed(State())
    {
      this.chain, this.addresses, this.nextIndex := chain, addresses, 0;
      this.leaseDuration, this.activeLeases := leaseDuration, map[];
    }

    method Assign(requestedAt: int) returns (r: Option<Assignment>)
      requires WellFormed(State())
      modifies this
      ensures Answer(State(), r) == Assigned(old(State()), requestedAt)
    {
      if addresses == [] {
        return None;
      }
      activeLeases := Purge(activeLeases, requestedAt);
      var total := |addresses|;
      for offset := 0 to total
        invariant nextIndex == old(nextIndex) && activeLeases == Purge(old(activeLeases), requestedAt)
        invariant chain == old(chain) && addresses == old(addresses) && leaseDuration == old(leaseDuration)
        invariant FirstFree(addresses, nextIndex, activeLeases, 0)
              == FirstFree(addresses, nextIndex, activeLeases, offset)
      {
        var index := (nextIndex + offset) % total;
        var address := addresses[index];
        if address in activeLeases {
          continue;
        }
        var expiresAt := requestedAt + leaseDuration;
        activeLeases := activeLeases[address := expiresAt];
        nextIndex := (index + 1) % total;
        return Some(Assignment(chain, address, expiresAt));
      }
      return None;
    }
  }

  // ---------------------------------------------------------------- runs

  /** A granted lease: it holds from `start` up to, not including, `end`. */
  datatype Grant = Grant(address: string, start: int, end: int)

  datatype Trace = Trace(pool: Pool, grants: seq<Grant>)

  /** One more request. */
  function Served(before: Trace, t: int): (r: Trace)
    requires WellFormed(before.pool)
    ensures WellFormed(r.pool) && r.pool.addresses == before.pool.addresses
    ensures r.pool.leaseDuration == before.pool.leaseDuration
  {
    var answer := Assigned(before.pool, t);
    match answer.assignment
    case None => Trace(answer.pool, before.grants)
    case Some(a) => Trace(answer.pool, before.grants + [Grant(a.address, t, a.expiresAt)])
  }

  function Run(p: Pool, times: seq<int>): (r: Trace)
    requires WellFormed(p)
    ensures WellFormed(r.pool) && r.pool.addresses == p.addresses && r.pool.leaseDuration == p.leaseDuration
  {
    if times == [] then Trace(p, []) else Served(Run(p, times[..|times| - 1]), times[|times| - 1])
  }

  function New(chain: string, addresses: seq<string>, leaseDuration: int): (p: Pool)
    ensures WellFormed(p)
  {
    Pool(chain, addresses, 0, leaseDuration, map[])
  }

  ghost predicate NonDecreasing(times: seq<int>) {
    forall i, j :: 0 <= i < j < |times| ==> times[i] <= times[j]
  }

  /** Some earlier grant still holds the address at time t. */
  ghost predicate Held(grants: seq<Grant>, address: string, t: int) {
    exists i :: 0 <= i < |grants| && grants[i].address == address && grants[i].end > t
  }

  /** An address is granted again only from the end of its earlier leases on. */
  ghost predicate Disjoint(grants: seq<Grant>) {
    forall i, j :: 0 <= i < j < |grants| && grants[i].address == grants[j].address ==> grants[i].end <= grants[j].start
  }

  /** From time t on, the purged lease table says exactly which addresses are held. */
  ghost predicate TableExact(r: Trace, t: int) {
    forall u, a :: u >= t ==> (a in Purge(r.pool.leases, u) <==> Held(r.grants, a, u))
  }

  lemma GrantKeeps(before: Trace, t: int, g: Grant, pool: Pool)
    requires TableExact(before, t) && Disjoint(before.grants)
    requires g.start == t && g.address !in Purge(before.pool.leases, t)
    requires pool.leases == Purge(before.pool.leases, t)[g.address := g.end]
    ensures TableExact(Trace(pool, before.grants + [g]), t) && Disjoint(before.grants + [g])
  {
    assert !Held(before.grants, g.address, t);
    forall u, b | u >= t
      ensures b in Purge(pool.leases, u) <==> Held(before.grants + [g], b, u)
    {
      TableStep(before, t, g, u, b);
    }
  }

  lemma RefusalKeeps(before: Trace, t: int, pool: Pool)
    requires TableExact(before, t) && pool.leases == Purge(before.pool.leases, t)
    ensures TableExact(Trace(pool, before.grants), t)
  {
    forall u, b | u >= t
      ensures b in Purge(pool.leases, u) <==> Held(before.grants, b, u)
    {
      assert b in Purge(pool.leases, u) <==> b in Purge(before.pool.leases, u);
    }
  }

  lemma RequestKeeps(before: Trace, t: int)
    requires WellFormed(before.pool) && TableExact(before, t) && Disjoint(before.grants)
    ensures TableExact(Served(before, t), t) && Disjoint(Served(before, t).grants)
  {
    var answer := Assigned(before.pool, t);
    if answer.assignment.Some? {
      GrantKeeps(before, t, Grant(answer.assignment.value.address, t, answer.assignment.value.expiresAt), answer.pool);
    } else if before.pool.addresses != [] {
      RefusalKeeps(before, t, answer.pool);
    }
  }

  lemma HeldAppends(grants: seq<Grant>, g: Grant, address: string, u: int)
    ensures Held(grants + [g], address, u) <==> Held(grants, address, u) || (g.address == address && g.end > u)
  {
    var more := grants + [g];
    if Held(grants, address, u) {
      var i :| 0 <= i < |grants| && grants[i].address == address && grants[i].end > u;
      assert more[i] == grants[i];
    }
    assert more[|grants|] == g;
  }

  lemma HeldEarlier(grants: seq<Grant>, address: string, t: int, u: int)
    requires t <= u
    ensures Held(grants, address, u) ==> Held(grants, address, t)
  {
  }

  lemma TableStep(before: Trace, t: int, g: Grant, u: int, b: string)
    requires TableExact(before, t) && u >= t && !Held(before.grants, g.address, t)
    ensures b in Purge(Purge(before.pool.leases, t)[g.address := g.end], u) <==> Held(before.grants + [g], b, u)
  {
    HeldAppends(before.grants, g, b, u);
    HeldEarlier(before.grants, b, t, u);
    assert b in Purge(before.pool.leases, u) <==> Held(before.grants, b, u);
  }

  lemma {:induction false} RunKeeps(p: Pool, times: seq<int>)
    requires WellFormed(p) && p.leases == map[] && NonDecreasing(times)
    ensures Disjoint(Run(p, times).grants)
    ensures forall t :: (times == [] || t >= times[|times| - 1]) ==> TableExact(Run(p, times), t)
  {
    if times != [] {
      var front, t := times[..|times| - 1], times[|times| - 1];
      RunKeeps(p, front);
      assert front != [] ==> front[|front| - 1] == times[|times| - 2] <= t;
      RequestKeeps(Run(p, front), t);
      assert TableExact(Run(p, times), t);
    }
  }

  /** With request times that never go back, no address is ever held by two overlapping leases. */
  lemma NoDoubleLease(chain: string, addresses: seq<string>, leaseDuration: int, times: seq<int>)
    requires NonDecreasing(times)
    ensures Disjoint(Run(New(chain, addresses, leaseDuration), times).grants)
  {
    RunKeeps(New(chain, addresses, leaseDuration), times);
  }

  lemma Wrap(x: nat, total: nat)
    requires x < 2 * total
    ensures x % total == if x < total then x else x - total
  {
    if x < total {
      Arithmetic.DivModUnique(x, 0, x, total);
    } else {
      Arithmetic.DivModUnique(x, 1, x - total, total);
    }
  }

  lemma CyclicCover(next: nat, index: nat, total: nat) returns (offset: nat)
    requires next < total && index < total
    ensures offset < total && IndexAt(next, offset, total) == index
    ensures offset == if index >= next then index - next else index + total - next
  {
    offset := if index >= next then index - next else index + total - next;
    Wrap(next + offset, total);
  }

  /** A request is refused exactly when every address of the pool is held by an unexpired grant. */
  lemma RefusedIffAllHeld(chain: string, addresses: seq<string>, leaseDuration: int, times: seq<int>, t: int)
    requires NonDecreasing(times + [t])
    ensures var r := Run(New(chain, addresses, leaseDuration), times);
            Assigned(r.pool, t).assignment.None? <==> forall i :: 0 <= i < |addresses| ==>
                Held(r.grants, addresses[i], t)
  {
    var p := New(chain, addresses, leaseDuration);
    forall i, j | 0 <= i < j < |times| ensures times[i] <= times[j] {
      assert (times + [t])[i] <= (times + [t])[j];
    }
    RunKeeps(p, times);
    assert times != [] ==> (times + [t])[|times| - 1] <= (times + [t])[|times|];
    var r := Run(p, times);
    assert TableExact(r, t);
    if addresses != [] {
      var leases := Purge(r.pool.leases, t);
      if Assigned(r.pool, t).assignment.None? {
        forall i | 0 <= i < |addresses| ensures Held(r.grants, addresses[i], t) {
          var offset := CyclicCover(r.pool.nextIndex, i, |addresses|);
          assert addresses[i] in leases;
        }
      } else {
        var o := FirstFree(addresses, r.pool.nextIndex, leases, 0).value;
        assert !Held(r.grants, addresses[IndexAt(r.pool.nextIndex, o, |addresses|)], t);
      }
    }
  }

  /** When a request may lie before an earlier one the table can forget a lease too soon: an address is leased twice at
      once.  LeaseTimes says for which request times this can happen. */
  lemma BackwardsTimeLeasesTwice()
    ensures !Disjoint(Run(New("BSC", ["a", "b"], 10), [0, 10, 5]).grants)
  {
    var p := New("BSC", ["a", "b"], 10);
    assert [0, 10, 5][..2] == [0, 10] && [0, 10][..1] == [0] && [0][..0] == [];
    var r1 := Run(p, [0]);
    assert Purge(map[], 0) == map[];
    assert r1 == Trace(p.(nextIndex := 1, leases := map["a" := 10]), [Grant("a", 0, 10)]);
    var r2 := Run(p, [0, 10]);
    assert Purge(map["a" := 10], 10) == map[];
    assert r2 == Trace(p.(nextIndex := 0, leases := map["b" := 20]), [Grant("a", 0, 10), Grant("b", 10, 20)]);
    var r3 := Run(p, [0, 10, 5]);
    assert Purge(map["b" := 20], 5) == map["b" := 20];
    assert r3.grants == [Grant("a", 0, 10), Grant("b", 10, 20), Grant("a", 5, 15)];
    assert r3.grants[0].address == r3.grants[2].address;
  }

  // ---------------------------------------------------------------- fairness

  /** Cyclic distance from the cursor to an index. */
  function Distance(next: nat, index: nat, total: nat): nat
    requires next < total && index < total
  {
    if index >= next then index - next else index + total - next
  }

  /** The address is not leased when any of the requests is served. */
  ghost predicate FreeThroughout(p: Pool, times: seq<int>, address: string)
    requires WellFormed(p)
    decreases |times|
  {
    times != [] ==>
      address !in Purge(p.leases, times[0]) && FreeThroughout(Assigned(p, times[0]).pool, times[1..], address)
  }

  /** Some request of the list is answered with the address. */
  ghost predicate GrantedTo(p: Pool, times: seq<int>, address: string)
    requires WellFormed(p)
    decreases |times|
  {
    times != [] &&
      (Assigned(p, times[0]).assignment == Some(Assignment(p.chain, address, times[0] + p.leaseDuration)) ||
       GrantedTo(Assigned(p, times[0]).pool, times[1..], address))
  }

  lemma DistanceShrinks(next: nat, index: nat, total: nat, offset: nat)
    requires next < total && index < total && offset < Distance(next, index, total)
    ensures (IndexAt(next, offset, total) + 1) % total < total
    ensures Distance((IndexAt(next, offset, total) + 1) % total, index, total) < Distance(next, index, total)
  {
    Wrap(next + offset, total);
    Wrap(IndexAt(next, offset, total) + 1, total);
  }

  lemma {:induction false} FreeAddressIsReached(p: Pool, times: seq<int>, index: nat)
    requires WellFormed(p) && index < |p.addresses|
    requires Distance(p.nextIndex, index, |p.addresses|) < |times|
    requires FreeThroughout(p, times, p.addresses[index])
    ensures GrantedTo(p, times, p.addresses[index])
    decreases |times|
  {
    var leases := Purge(p.leases, times[0]);
    var goal := CyclicCover(p.nextIndex, index, |p.addresses|);
    var found := FirstFree(p.addresses, p.nextIndex, leases, 0);
    assert found.Some? && found.value <= goal;
    if found.value < goal {
      DistanceShrinks(p.nextIndex, index, |p.addresses|, found.value);
      FreeAddressIsReached(Assigned(p, times[0]).pool, times[1..], index);
    }
  }

  /** An address that stays free for as many consecutive requests as the pool has addresses is granted by one of
      them. */
  lemma NoStarvation(p: Pool, times: seq<int>, index: nat)
    requires WellFormed(p) && index < |p.addresses| == |times|
    requires FreeThroughout(p, times, p.addresses[index])
    ensures GrantedTo(p, times, p.addresses[index])
  {
    FreeAddressIsReached(p, times, index);
  }

  /** Over every run each grant is an address of the pool, made at the time of a request, and lasts one lease. */
  lemma {:induction false} GrantsLast(p: Pool, times: seq<int>)
    requires WellFormed(p)
    ensures forall i :: 0 <= i < |Run(p, times).grants| ==>
      var g := Run(p, times).grants[i];
      g.address in p.addresses && g.start in times && g.end == g.start + p.leaseDuration
  {
    if times != [] {
      var front, t := times[..|times| - 1], times[|times| - 1];
      GrantsLast(p, front);
      assert times == front + [t];
    }
  }
}
