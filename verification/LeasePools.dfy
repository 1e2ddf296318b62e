/** Pools of different addresses against request times with a spike: the allocator of
    apps/billing-chain-listener/src/address_pool.rs leases one address twice at once exactly then. */
module LeasePools {
  import opened Common
  import opened Filtering
  import opened AddressPool
  import opened LeaseTimes

  // ---------------------------------------------------------------- how many leases a pool holds

  ghost function Kept(held: set<nat>, lease: int, times: seq<int>): set<nat>
    requires times != []
  {
    set f | f in held && f < |times| && times[f] + lease > Last(times)
  }

  /** The requests whose leases a pool of n different addresses holds: whatever the addresses, a request is granted
      exactly when fewer than n leases are left. */
  ghost function Holding(n: nat, lease: int, times: seq<int>): set<nat> {
    if times == [] then {} else Admit(Kept(Holding(n, lease, Init(times)), lease, times), n, |times| - 1)
  }

  lemma {:induction false} HoldingEarlier(n: nat, lease: int, times: seq<int>)
    ensures forall f :: f in Holding(n, lease, times) ==> f < |times|
    ensures |Holding(n, lease, times)| <= |times|
  {
    if times != [] {
      HoldingEarlier(n, lease, Init(times));
      AdmitOne(Holding(n, lease, Init(times)), n, lease, times, |times| - 1, Holding(n, lease, times));
    }
  }

  lemma AdmitOne(held: set<nat>, n: nat, lease: int, times: seq<int>, x: nat, after: set<nat>)
    requires times != [] && |held| < |times| && x < |times| && after == Admit(Kept(held, lease, times), n, x)
    ensures forall f :: f in after ==> f < |times|
    ensures |after| <= |times|
  {
    SubsetSize(Kept(held, lease, times), held);
  }

  lemma KeptNested(a: set<nat>, b: set<nat>, lease: int, times: seq<int>)
    requires times != [] && a <= b && |b| <= |a| + 1
    ensures Kept(a, lease, times) <= Kept(b, lease, times)
    ensures |Kept(b, lease, times)| <= |Kept(a, lease, times)| + 1
  {
    var x, y := Kept(a, lease, times), Kept(b, lease, times);
    SubsetSize(y - x, b - a);
    assert y == x + (y - x);
    assert b == a + (b - a);
  }

  /** One request more, given what is kept. */
  ghost function Admit(kept: set<nat>, n: nat, x: nat): set<nat> {
    if |kept| < n then kept + {x} else kept
  }

  lemma AdmitNested(a: set<nat>, b: set<nat>, n: nat, x: nat)
    requires a <= b && |b| <= |a| + 1 && x !in b
    ensures Admit(a, n, x) <= Admit(b, n + 1, x) && |Admit(b, n + 1, x)| <= |Admit(a, n, x)| + 1
  {
    SubsetSize(a, b);
  }

  /** One address more holds the same leases and at most one more. */
  lemma {:induction false} HoldingNested(n: nat, lease: int, times: seq<int>)
    ensures Holding(n, lease, times) <= Holding(n + 1, lease, times)
    ensures |Holding(n + 1, lease, times)| <= |Holding(n, lease, times)| + 1
  {
    if times != [] {
      var a, b := Holding(n, lease, Init(times)), Holding(n + 1, lease, Init(times));
      HoldingNested(n, lease, Init(times));
      KeptNested(a, b, lease, times);
      HoldingEarlier(n + 1, lease, Init(times));
      AdmitNested(Kept(a, lease, times), Kept(b, lease, times), n, |times| - 1);
    }
  }

  lemma {:induction false} HoldingNone(lease: int, times: seq<int>)
    ensures Holding(0, lease, times) == {}
  {
    if times != [] {
      HoldingNone(lease, Init(times));
    }
  }

  /** So there is a pool with exactly the wanted number of free addresses. */
  lemma PoolWithRoom(lease: int, times: seq<int>, room: nat) returns (n: nat)
    ensures n == |Holding(n, lease, times)| + room
  {
    n := 0;
    HoldingNone(lease, times);
    while n < |Holding(n, lease, times)| + room
      invariant n <= |Holding(n, lease, times)| + room
      decreases |times| + room - n
    {
      HoldingEarlier(n, lease, times);
      HoldingNested(n, lease, times);
      SubsetSize(Holding(n, lease, times), Holding(n + 1, lease, times));
      n := n + 1;
    }
  }

  // ---------------------------------------------------------------- the table of a pool

  /** Every lease in the table belongs to one request, and these are the requests in `held`. */
  ghost predicate OwnedBy(own: map<string, nat>, p: Pool, times: seq<int>, held: set<nat>) {
    && own.Keys == p.leases.Keys && own.Values == held
    && (forall a :: a in own ==> a in p.addresses && own[a] < |times|)
    && (forall a :: a in own ==> p.leases[a] == times[own[a]] + p.leaseDuration)
    && (forall a, b :: a in own && b in own && own[a] == own[b] ==> a == b)
  }

  lemma {:induction false} OneEach(own: map<string, nat>)
    requires forall a, b :: a in own && b in own && own[a] == own[b] ==> a == b
    ensures |own.Keys| == |own.Values|
  {
    if own != map[] {
      var a :| a in own;
      var rest := own - {a};
      assert forall b :: b in rest ==> b in own && rest[b] == own[b];
      OneEach(rest);
      assert own.Keys == rest.Keys + {a};
      assert own.Values == rest.Values + {own[a]} by {
        forall v | v in own.Values ensures v in rest.Values + {own[a]} {
          var b :| b in own && own[b] == v;
          assert b != a ==> b in rest && rest[b] == v;
        }
      }
      assert own[a] !in rest.Values;
    }
  }

  /** A purge keeps exactly the leases of the requests that are kept. */
  lemma PurgedOwners(own: map<string, nat>, p: Pool, times: seq<int>, held: set<nat>) returns (kept: map<string, nat>)
    requires times != [] && OwnedBy(own, p, Init(times), held)
    ensures OwnedBy(kept, p.(leases := Purge(p.leases, Last(times))), times, Kept(held, p.leaseDuration, times))
    ensures forall a :: a in kept ==> kept[a] < |times| - 1
  {
    var left := Purge(p.leases, Last(times));
    kept := map a | a in own && a in left :: own[a];
    assert forall a :: a in own ==> Init(times)[own[a]] == times[own[a]];
    forall f | f in Kept(held, p.leaseDuration, times) ensures f in kept.Values {
      var a :| a in own && own[a] == f;
      assert a in kept && kept[a] == f;
    }
    forall f | f in kept.Values ensures f in Kept(held, p.leaseDuration, times) {
      var a :| a in kept && kept[a] == f;
      assert f in own.Values;
    }
  }

  ghost function Elements(addresses: seq<string>): set<string> {
    set a | a in addresses
  }

  lemma {:induction false} ElementsSize(addresses: seq<string>)
    requires Distinct(addresses)
    ensures |Elements(addresses)| == |addresses|
  {
    if addresses != [] {
      ElementsSize(Init(addresses));
      assert Elements(addresses) == Elements(Init(addresses)) + {Last(addresses)};
    }
  }

  /** A request is granted exactly when fewer leases are left than there are addresses. */
  lemma GrantedIffRoom(p: Pool, t: int)
    requires WellFormed(p) && p.addresses != [] && Distinct(p.addresses)
    requires forall a :: a in p.leases ==> a in p.addresses
    ensures Assigned(p, t).assignment.Some? <==> |Purge(p.leases, t).Keys| < |p.addresses|
  {
    var left := Purge(p.leases, t).Keys;
    ElementsSize(p.addresses);
    SubsetSize(left, Elements(p.addresses));
    if |left| < |p.addresses| {
      if Elements(p.addresses) <= left {
        SubsetSize(Elements(p.addresses), left);
      }
      var a :| a in Elements(p.addresses) && a !in left;
      var i :| 0 <= i < |p.addresses| && p.addresses[i] == a;
      var x := FreeIsGranted(p, t, i);
    }
  }

  /** What a served request leaves. */
  lemma ServedOwners(own: map<string, nat>, before: Trace, times: seq<int>, held: set<nat>)
      returns (after: map<string, nat>)
    requires WellFormed(before.pool) && before.pool.addresses != [] && Distinct(before.pool.addresses)
    requires times != [] && OwnedBy(own, before.pool, Init(times), held)
    ensures var kept := Kept(held, before.pool.leaseDuration, times);
      OwnedBy(after, Served(before, Last(times)).pool, times, Admit(kept, |before.pool.addresses|, |times| - 1))
  {
    var p, t := before.pool, Last(times);
    after := PurgedOwners(own, p, times, held);
    OneEach(after);
    GrantedIffRoom(p, t);
    after := AnswerOwners(after, p, times, Kept(held, p.leaseDuration, times));
  }

  lemma AnswerOwners(own: map<string, nat>, p: Pool, times: seq<int>, kept: set<nat>) returns (after: map<string, nat>)
    requires WellFormed(p) && p.addresses != [] && times != []
    requires OwnedBy(own, p.(leases := Purge(p.leases, Last(times))), times, kept)
    requires forall a :: a in own ==> own[a] < |times| - 1
    requires Assigned(p, Last(times)).assignment.Some? <==> |kept| < |p.addresses|
    ensures OwnedBy(after, Assigned(p, Last(times)).pool, times, Admit(kept, |p.addresses|, |times| - 1))
  {
    var answer := Assigned(p, Last(times));
    after := own;
    if answer.assignment.Some? {
      after := GrantOwner(own, p.(leases := Purge(p.leases, Last(times))), answer.assignment.value.address, answer.pool,
          times, kept);
    }
  }

  lemma GrantOwner(own: map<string, nat>, p: Pool, a: string, next: Pool, times: seq<int>, held: set<nat>)
      returns (after: map<string, nat>)
    requires times != [] && OwnedBy(own, p, times, held) && a !in p.leases && a in p.addresses
    requires forall b :: b in own ==> own[b] < |times| - 1
    requires next.leases == p.leases[a := Last(times) + p.leaseDuration]
    requires next.addresses == p.addresses && next.leaseDuration == p.leaseDuration
    ensures OwnedBy(after, next, times, held + {|times| - 1})
  {
    after := own[a := |times| - 1];
    forall v | v in held ensures v in after.Values {
      var b :| b in own && own[b] == v;
      assert after[b] == v;
    }
    assert after[a] == |times| - 1;
  }

  lemma {:induction false} RunOwners(p: Pool, times: seq<int>) returns (own: map<string, nat>)
    requires WellFormed(p) && p.leases == map[] && p.addresses != [] && Distinct(p.addresses)
    ensures OwnedBy(own, Run(p, times).pool, times, Holding(|p.addresses|, p.leaseDuration, times))
  {
    if times == [] {
      own := map[];
    } else {
      own := RunOwners(p, Init(times));
      own := ServedOwners(own, Run(p, Init(times)), times, Holding(|p.addresses|, p.leaseDuration, Init(times)));
    }
  }

  // ---------------------------------------------------------------- the addresses that come next

  function Rotated<T>(items: seq<T>, c: nat): (r: seq<T>)
    requires c <= |items|
    ensures |r| == |items|
  {
    items[c..] + items[..c]
  }

  function Outside(held: set<string>): string -> bool {
    a => a !in held
  }

  /** The addresses without a lasting lease, in the order in which the cursor meets them. */
  function Upcoming(addresses: seq<string>, c: nat, held: set<string>): seq<string>
    requires c < |addresses|
  {
    Select(Rotated(addresses, c), Outside(held))
  }

  lemma RotatedAt(addresses: seq<string>, c: nat, o: nat)
    requires c < |addresses| && o < |addresses|
    ensures addresses[IndexAt(c, o, |addresses|)] == Rotated(addresses, c)[o]
  {
    Cursor(c, o, |addresses|);
  }

  lemma RotatedBefore<T>(items: seq<T>, c: nat, o: nat)
    requires c + o < |items|
    ensures var r := Rotated(items, c); Rotated(items, c + o + 1) == r[o + 1..] + r[..o + 1]
  {
    var r := Rotated(items, c);
    assert r[o + 1..] == items[c + o + 1..] + items[..c];
    assert r[..o + 1] == items[c..c + o + 1];
    assert items[..c] + items[c..c + o + 1] == items[..c + o + 1];
  }

  lemma RotatedAfter<T>(items: seq<T>, c: nat, o: nat)
    requires c < |items| && o < |items| <= c + o
    ensures var r, i := Rotated(items, c), c + o - |items|; Rotated(items, i + 1) == r[o + 1..] + r[..o + 1]
  {
    var r, i := Rotated(items, c), c + o - |items|;
    assert r[o + 1..] == items[i + 1..c];
    assert r[..o + 1] == items[c..] + items[..i + 1];
    assert items[i + 1..c] + items[c..] == items[i + 1..];
  }

  lemma Cursor(c: nat, o: nat, n: nat)
    requires c < n && o < n
    ensures IndexAt(c, o, n) == if c + o < n then c + o else c + o - n
    ensures (IndexAt(c, o, n) + 1) % n == if c + o + 1 == n then 0 else if c + o < n then c + o + 1 else c + o - n + 1
  {
    Wrap(c + o, n);
    Wrap(IndexAt(c, o, n) + 1, n);
  }

  lemma RotatedOn(addresses: seq<string>, c: nat, o: nat)
    requires c < |addresses| && o < |addresses|
    ensures var next, r := (IndexAt(c, o, |addresses|) + 1) % |addresses|, Rotated(addresses, c);
      next < |addresses| && Rotated(addresses, next) == r[o + 1..] + r[..o + 1]
  {
    var n := |addresses|;
    Cursor(c, o, n);
    if c + o < n {
      RotatedBefore(addresses, c, o);
      assert Rotated(addresses, n) == Rotated(addresses, 0);
    } else {
      RotatedAfter(addresses, c, o);
    }
  }

  lemma SelectMiddle(a: seq<string>, x: string, b: seq<string>, p: string -> bool)
    requires p(x) && Select(a, p) == []
    ensures Select(a + [x] + b, p) == [x] + Select(b, p)
    ensures Select(b + (a + [x]), p) == Select(b, p) + [x]
  {
    SelectPush(a, x, p);
    SelectConcat(a + [x], b, p);
    SelectConcat(b, a + [x], p);
  }

  lemma SelectAround(r: seq<string>, p: string -> bool, o: nat)
    requires o < |r| && p(r[o]) && forall i :: 0 <= i < o ==> !p(r[i])
    ensures var u := Select(r, p);
      u != [] && u[0] == r[o] && Select(r[o + 1..] + r[..o + 1], p) == u[1..] + [u[0]]
  {
    SelectNone(r[..o], p);
    SelectMiddle(r[..o], r[o], r[o + 1..], p);
    SplitAt(r, o);
    HeadAndTail(r[o], Select(r[o + 1..], p));
  }

  lemma HeadAndTail<T>(x: T, rest: seq<T>)
    ensures ([x] + rest)[0] == x && ([x] + rest)[1..] == rest
  {
  }

  lemma SplitAt<T>(r: seq<T>, o: nat)
    requires o < |r|
    ensures r == r[..o] + [r[o]] + r[o + 1..] && r[..o + 1] == r[..o] + [r[o]]
  {
  }

  lemma FirstFreeAt(addresses: seq<string>, c: nat, leases: map<string, int>, o: nat)
    requires c < |addresses| && o < |addresses|
    requires Rotated(addresses, c)[o] !in leases && forall i :: 0 <= i < o ==> Rotated(addresses, c)[i] in leases
    ensures FirstFree(addresses, c, leases, 0) == Some(o)
  {
    var found := FirstFree(addresses, c, leases, 0);
    RotatedAt(addresses, c, o);
    if found.Some? {
      RotatedAt(addresses, c, found.value);
    }
  }

  /** The pool after an address was granted. */
  function Taking(p: Pool, t: int, address: string, next: nat): Pool {
    p.(leases := Purge(p.leases, t)[address := t + p.leaseDuration], nextIndex := next)
  }

  lemma TakesAt(before: Trace, t: int, o: nat, address: string, next: nat)
    requires var p := before.pool;
      && WellFormed(p) && o < |p.addresses| && FirstFree(p.addresses, p.nextIndex, Purge(p.leases, t), 0) == Some(o)
      && address == Rotated(p.addresses, p.nextIndex)[o]
      && next == (IndexAt(p.nextIndex, o, |p.addresses|) + 1) % |p.addresses|
    ensures Served(before, t) == Trace(Taking(before.pool, t, address, next),
                                       before.grants + [Grant(address, t, t + before.pool.leaseDuration)])
  {
    RotatedAt(before.pool.addresses, before.pool.nextIndex, o);
  }

  lemma UpcomingAfter(addresses: seq<string>, c: nat, o: nat, held: set<string>)
    requires c < |addresses| && o < |addresses|
    requires var r := Rotated(addresses, c); r[o] !in held && forall i :: 0 <= i < o ==> r[i] in held
    ensures var next, u := (IndexAt(c, o, |addresses|) + 1) % |addresses|, Upcoming(addresses, c, held);
      next < |addresses| && u != [] && Upcoming(addresses, next, held) == u[1..] + [u[0]]
  {
    RotatedOn(addresses, c, o);
    SelectAround(Rotated(addresses, c), Outside(held), o);
  }

  lemma FirstUpcoming(addresses: seq<string>, c: nat, held: set<string>) returns (o: nat)
    requires c < |addresses| && Upcoming(addresses, c, held) != []
    ensures var r := Rotated(addresses, c);
      o < |r| && r[o] == Upcoming(addresses, c, held)[0] && r[o] !in held && forall i :: 0 <= i < o ==> r[i] in held
  {
    o := SelectFirst(Rotated(addresses, c), Outside(held));
  }

  /** The first upcoming address is the one that the search from the cursor finds. */
  lemma UpcomingIsFound(addresses: seq<string>, c: nat, held: set<string>, leases: map<string, int>)
      returns (o: nat, next: nat)
    requires c < |addresses| && Upcoming(addresses, c, held) != []
    requires held <= leases.Keys && Upcoming(addresses, c, held)[0] !in leases
    ensures o < |addresses| && FirstFree(addresses, c, leases, 0) == Some(o)
    ensures next == (IndexAt(c, o, |addresses|) + 1) % |addresses| && next < |addresses|
    ensures var u := Upcoming(addresses, c, held);
      Rotated(addresses, c)[o] == u[0] && Upcoming(addresses, next, held) == u[1..] + [u[0]]
  {
    o := FirstUpcoming(addresses, c, held);
    next := (IndexAt(c, o, |addresses|) + 1) % |addresses|;
    FirstFreeAt(addresses, c, leases, o);
    UpcomingAfter(addresses, c, o, held);
  }

  /** A request takes the first of the upcoming addresses when that is free. */
  lemma TakesUpcoming(before: Trace, t: int, held: set<string>)
    requires WellFormed(before.pool) && before.pool.addresses != []
    requires Upcoming(before.pool.addresses, before.pool.nextIndex, held) != []
    requires held <= Purge(before.pool.leases, t).Keys
    requires Upcoming(before.pool.addresses, before.pool.nextIndex, held)[0] !in Purge(before.pool.leases, t)
    ensures var p, after := before.pool, Served(before, t);
      var a := Upcoming(p.addresses, p.nextIndex, held)[0];
      after == Trace(Taking(p, t, a, after.pool.nextIndex), before.grants + [Grant(a, t, t + p.leaseDuration)])
  {
    var p := before.pool;
    var o, next := UpcomingIsFound(p.addresses, p.nextIndex, held, Purge(p.leases, t));
    TakesAt(before, t, o, Upcoming(p.addresses, p.nextIndex, held)[0], next);
  }

  /** And it becomes the last of them. */
  lemma UpcomingMovesOn(before: Trace, t: int, held: set<string>)
    requires WellFormed(before.pool) && before.pool.addresses != []
    requires Upcoming(before.pool.addresses, before.pool.nextIndex, held) != []
    requires held <= Purge(before.pool.leases, t).Keys
    requires Upcoming(before.pool.addresses, before.pool.nextIndex, held)[0] !in Purge(before.pool.leases, t)
    ensures var u, q := Upcoming(before.pool.addresses, before.pool.nextIndex, held), Served(before, t).pool;
      Upcoming(q.addresses, q.nextIndex, held) == u[1..] + [u[0]]
  {
    var p := before.pool;
    var o, next := UpcomingIsFound(p.addresses, p.nextIndex, held, Purge(p.leases, t));
    NextCursor(before, t, o);
  }

  lemma NextCursor(before: Trace, t: int, o: nat)
    requires var p := before.pool;
      WellFormed(p) && o < |p.addresses| && FirstFree(p.addresses, p.nextIndex, Purge(p.leases, t), 0) == Some(o)
    ensures var p := before.pool;
      Served(before, t).pool.nextIndex == (IndexAt(p.nextIndex, o, |p.addresses|) + 1) % |p.addresses|
  {
  }

  // ---------------------------------------------------------------- one round over the free addresses

  ghost predicate Lasting(leases: map<string, int>, t: int) {
    forall a :: a in leases ==> leases[a] > t
  }

  /** The leases of `first` are all still there, and the others are those of the addresses taken in turn. */
  ghost predicate RoundTable(leases: map<string, int>, first: map<string, int>, turn: seq<string>, lease: int,
                             window: seq<int>)
    requires |window| <= |turn|
  {
    && first.Keys <= leases.Keys && (forall a :: a in first ==> leases[a] == first[a])
    && TurnTable(leases - first.Keys, turn, lease, window)
  }

  /** From `first` on the requests of `window` took the upcoming addresses in turn. */
  ghost predicate InRound(r: Trace, first: Trace, turn: seq<string>, window: seq<int>) {
    var lease, m := first.pool.leaseDuration, |window|;
    && WellFormed(r.pool) && r.pool.addresses != [] && r.pool.leaseDuration == lease && m <= |turn|
    && Upcoming(r.pool.addresses, r.pool.nextIndex, first.pool.leases.Keys) == turn[m..] + turn[..m]
    && r.grants == first.grants + TurnGrants(turn, lease, window)
    && RoundTable(r.pool.leases, first.pool.leases, turn, lease, window)
  }

  lemma PurgeOutside(leases: map<string, int>, held: set<string>, t: int, a: string, end: int)
    requires a !in held
    ensures Purge(leases, t) - held == Purge(leases - held, t)
    ensures Purge(leases, t)[a := end] - held == Purge(leases - held, t)[a := end]
    ensures a in Purge(leases, t) <==> a in Purge(leases - held, t)
  {
  }

  lemma HeldLasts(leases: map<string, int>, first: map<string, int>, t: int, a: string, end: int)
    requires first.Keys <= leases.Keys && (forall b :: b in first ==> leases[b] == first[b])
    requires Lasting(first, t) && a !in first
    ensures first.Keys <= Purge(leases, t).Keys
    ensures var after := Purge(leases, t)[a := end];
      first.Keys <= after.Keys && forall b :: b in first ==> after[b] == first[b]
  {
  }

  lemma TurnGoesOn(leases: map<string, int>, held: set<string>, turn: seq<string>, lease: int, window: seq<int>, t: int)
    requires |window| < |turn| && TurnTable(leases - held, turn, lease, window) && Distinct(turn)
    requires turn[|window|] !in held
    ensures turn[|window|] !in Purge(leases, t)
    ensures TurnTable(Purge(leases, t)[turn[|window|] := t + lease] - held, turn, lease, window + [t])
  {
    assert Init(window + [t]) == window;
    TableNext(leases - held, turn, lease, window + [t]);
    PurgeOutside(leases, held, t, turn[|window|], t + lease);
  }

  lemma TableGoesOn(leases: map<string, int>, first: map<string, int>, turn: seq<string>, lease: int, window: seq<int>,
                    t: int)
    requires |window| < |turn| && RoundTable(leases, first, turn, lease, window) && Distinct(turn)
    requires Lasting(first, t) && turn[|window|] !in first
    ensures turn[|window|] !in Purge(leases, t) && first.Keys <= Purge(leases, t).Keys
    ensures RoundTable(Purge(leases, t)[turn[|window|] := t + lease], first, turn, lease, window + [t])
  {
    TurnGoesOn(leases, first.Keys, turn, lease, window, t);
    HeldLasts(leases, first, t, turn[|window|], t + lease);
  }

  lemma TurnOn<T>(turn: seq<T>, m: nat)
    requires m < |turn|
    ensures var u := turn[m..] + turn[..m]; u[0] == turn[m] && u[1..] + [u[0]] == turn[m + 1..] + turn[..m + 1]
  {
    assert (turn[m..] + turn[..m])[1..] == turn[m + 1..] + turn[..m];
    assert turn[..m] + [turn[m]] == turn[..m + 1];
  }

  lemma GrantsGoOn(grants: seq<Grant>, turn: seq<string>, lease: int, window: seq<int>, t: int)
    requires |window| < |turn|
    ensures grants + TurnGrants(turn, lease, window) + [Grant(turn[|window|], t, t + lease)]
            == grants + TurnGrants(turn, lease, window + [t])
  {
    assert Init(window + [t]) == window;
    TurnGrantsNext(turn, lease, window + [t]);
  }

  lemma RoundPut(r: Trace, after: Trace, first: Trace, turn: seq<string>, window: seq<int>, t: int)
    requires InRound(r, first, turn, window) && |window| < |turn| && Distinct(turn)
    requires Lasting(first.pool.leases, t) && turn[|window|] !in first.pool.leases
    requires WellFormed(after.pool)
    requires Upcoming(r.pool.addresses, r.pool.nextIndex, first.pool.leases.Keys) == turn[|window|..] + turn[..|window|]
    requires var a := turn[|window|];
      after == Trace(Taking(r.pool, t, a, after.pool.nextIndex), r.grants + [Grant(a, t, t + r.pool.leaseDuration)])
    requires Upcoming(after.pool.addresses, after.pool.nextIndex, first.pool.leases.Keys)
             == turn[|window| + 1..] + turn[..|window| + 1]
    ensures InRound(after, first, turn, window + [t])
  {
    TableGoesOn(r.pool.leases, first.pool.leases, turn, first.pool.leaseDuration, window, t);
    GrantsGoOn(first.grants, turn, first.pool.leaseDuration, window, t);
  }

  lemma RoundGoesOn(r: Trace, first: Trace, turn: seq<string>, window: seq<int>, t: int)
    requires InRound(r, first, turn, window) && |window| < |turn| && Distinct(turn)
    requires Lasting(first.pool.leases, t) && turn[|window|] !in first.pool.leases
    ensures InRound(Served(r, t), first, turn, window + [t])
  {
    TurnOn(turn, |window|);
    TableGoesOn(r.pool.leases, first.pool.leases, turn, first.pool.leaseDuration, window, t);
    TakesUpcoming(r, t, first.pool.leases.Keys);
    UpcomingMovesOn(r, t, first.pool.leases.Keys);
    RoundPut(r, Served(r, t), first, turn, window, t);
  }

  lemma TableForgets(leases: map<string, int>, first: map<string, int>, turn: seq<string>, lease: int, window: seq<int>,
                     t: int, j: nat)
    requires |window| == |turn| && RoundTable(leases, first, turn, lease, window)
    requires Lasting(first, t) && 0 < j < |window| && turn[0] !in first && window[0] + lease <= window[j]
    ensures turn[0] !in Purge(leases, t) && first.Keys <= Purge(leases, t).Keys
  {
    HeldLasts(leases, first, t, turn[0], 0);
  }

  /** When the round is through and its first address is forgotten, the next request gets that one again. */
  lemma RoundStartsAgain(r: Trace, first: Trace, turn: seq<string>, window: seq<int>, t: int, j: nat)
    requires InRound(r, first, turn, window) && 0 < j < |window| == |turn|
    requires Lasting(first.pool.leases, t) && turn[0] !in first.pool.leases
    requires window[0] + first.pool.leaseDuration <= window[j]
    ensures Served(r, t).grants == r.grants + [Grant(turn[0], t, t + first.pool.leaseDuration)]
    ensures |first.grants| < |r.grants|
    ensures r.grants[|first.grants|] == Grant(turn[0], window[0], window[0] + first.pool.leaseDuration)
  {
    assert turn[|turn|..] + turn[..|turn|] == turn;
    TableForgets(r.pool.leases, first.pool.leases, turn, first.pool.leaseDuration, window, t, j);
    TakesUpcoming(r, t, first.pool.leases.Keys);
  }

  lemma {:induction false} OutsideSize(items: seq<string>, held: set<string>)
    requires Distinct(items)
    ensures |Select(items, Outside(held))| + |Elements(items) * held| == |items|
  {
    if items != [] {
      var front, x := Init(items), Last(items);
      OutsideSize(front, held);
      assert x !in front;
      assert Elements(items) * held == Elements(front) * held + (if x in held then {x} else {});
    }
  }

  lemma {:induction false} SelectDistinct(items: seq<string>, p: string -> bool)
    requires Distinct(items)
    ensures Distinct(Select(items, p))
  {
    if items != [] {
      SelectDistinct(Init(items), p);
      assert Last(items) !in Init(items);
    }
  }

  lemma RotatedDistinct(items: seq<string>, c: nat)
    requires Distinct(items) && c <= |items|
    ensures Distinct(Rotated(items, c)) && Elements(Rotated(items, c)) == Elements(items)
  {
    assert items == items[..c] + items[c..];
  }

  /** The free addresses of a pool in the order in which they come, all different. */
  ghost predicate FreeInTurn(p: Pool, turn: seq<string>) {
    && WellFormed(p) && p.addresses != [] && turn == Upcoming(p.addresses, p.nextIndex, p.leases.Keys) && Distinct(turn)
    && forall i :: 0 <= i < |turn| ==> turn[i] !in p.leases
  }

  lemma FreeAddresses(p: Pool) returns (turn: seq<string>)
    requires WellFormed(p) && p.addresses != [] && Distinct(p.addresses)
    requires forall a :: a in p.leases ==> a in p.addresses
    ensures FreeInTurn(p, turn) && |turn| + |p.leases.Keys| == |p.addresses|
  {
    var r := Rotated(p.addresses, p.nextIndex);
    turn := Upcoming(p.addresses, p.nextIndex, p.leases.Keys);
    RotatedDistinct(p.addresses, p.nextIndex);
    OutsideSize(r, p.leases.Keys);
    SelectDistinct(r, Outside(p.leases.Keys));
    assert Elements(r) * p.leases.Keys == p.leases.Keys;
    forall i | 0 <= i < |turn| ensures turn[i] !in p.leases {
      assert turn[i] in turn;
    }
  }

  lemma RoundStarts(first: Trace, turn: seq<string>)
    requires WellFormed(first.pool) && first.pool.addresses != []
    requires turn == Upcoming(first.pool.addresses, first.pool.nextIndex, first.pool.leases.Keys)
    ensures InRound(first, first, turn, [])
  {
    assert turn[0..] + turn[..0] == turn;
    assert first.grants + TurnGrants(turn, first.pool.leaseDuration, []) == first.grants;
    assert first.pool.leases - first.pool.leases.Keys == map[];
  }

  /** The states between the requests of a window. */
  ghost predicate StatesOf(states: seq<Trace>, window: seq<int>) {
    && |states| == |window| + 1
    && (forall x :: 0 <= x < |states| ==> WellFormed(states[x].pool))
    && (forall x, y :: 0 <= x < |window| && y == x + 1 ==> states[y] == Served(states[x], window[x]))
  }

  lemma LastOfPrefix<T>(items: seq<T>, m: nat)
    requires 0 < m <= |items|
    ensures items[..m - 1] + [items[m - 1]] == items[..m]
  {
  }

  lemma {:induction false} RoundAlong(states: seq<Trace>, window: seq<int>, turn: seq<string>, m: nat)
    requires StatesOf(states, window) && FreeInTurn(states[0].pool, turn) && m <= |window| <= |turn|
    requires forall x :: 0 <= x < |window| ==> Lasting(states[0].pool.leases, window[x])
    ensures InRound(states[m], states[0], turn, window[..m])
  {
    if m == 0 {
      RoundStarts(states[0], turn);
      assert window[..0] == [];
    } else {
      RoundAlong(states, window, turn, m - 1);
      LastOfPrefix(window, m);
      RoundGoesOn(states[m - 1], states[0], turn, window[..m - 1], window[m - 1]);
    }
  }

  lemma StatesPush(states: seq<Trace>, window: seq<int>, t: int)
    requires StatesOf(states, window)
    ensures StatesOf(states + [Served(Last(states), t)], window + [t])
  {
  }

  lemma RunOneMore(p: Pool, times: seq<int>, t: int)
    requires WellFormed(p)
    ensures Run(p, times + [t]) == Served(Run(p, times), t)
  {
    assert (times + [t])[..|times|] == times;
  }

  lemma LastApart<T>(past: seq<T>, window: seq<T>)
    requires window != []
    ensures past + window == (past + Init(window)) + [Last(window)] && Init(window) + [Last(window)] == window
  {
  }

  lemma {:induction false} RunStates(p: Pool, past: seq<int>, window: seq<int>) returns (states: seq<Trace>)
    requires WellFormed(p)
    ensures StatesOf(states, window) && states[0] == Run(p, past) && Last(states) == Run(p, past + window)
  {
    if window == [] {
      assert past + window == past;
      states := [Run(p, past)];
    } else {
      states := RunStates(p, past, Init(window));
      LastApart(past, window);
      RunOneMore(p, past + Init(window), Last(window));
      StatesPush(states, Init(window), Last(window));
      states := states + [Served(Last(states), Last(window))];
    }
  }

  // ---------------------------------------------------------------- with a spike some pool leases twice

  /** The lease of the first request of `window` ends at its highest one, j, and overlaps a lease from t on; everything
      in `past` came at a later time than the first of the window. */
  ghost predicate Steep(past: seq<int>, window: seq<int>, t: int, j: nat, lease: int) {
    && 0 < j < |window| && window[0] + lease == window[j]
    && window[0] - lease < t < window[0] + lease
    && (forall f :: 0 <= f < |past| ==> past[f] > window[0])
    && (forall x :: 0 <= x < |window| ==> window[x] <= window[j])
  }

  lemma {:induction false} HighestBetween(times: seq<int>, i: nat, k: nat) returns (j: nat)
    requires i + 1 < k <= |times|
    ensures i < j < k && forall x :: i < x < k ==> times[x] <= times[j]
  {
    if i + 2 == k {
      j := i + 1;
    } else {
      j := HighestBetween(times, i, k - 1);
      j := if times[k - 1] > times[j] then k - 1 else j;
    }
  }

  /** Every spike contains a steep one: from the lowest time before its top to the highest time behind that. */
  lemma SteepSpike(times: seq<int>, i: nat, j: nat, k: nat)
      returns (past: seq<int>, window: seq<int>, top: nat, lease: int)
    requires Spike(times, i, j, k)
    ensures past + window == times[..k] && lease > 0 && Steep(past, window, times[k], top, lease)
  {
    var base := LowestBefore(times, j);
    top := HighestBetween(times, base, k);
    past, window, lease := times[..base], times[base..k], times[top] - times[base];
    top := top - base;
  }

  /** The state before a steep spike: `turn` are the free addresses, as many as the spike has requests, and no lease
      ends before it is over. */
  ghost predicate RoomFor(q: Pool, turn: seq<string>, window: seq<int>, t: int) {
    && FreeInTurn(q, turn) && |turn| == |window|
    && (forall x :: 0 <= x < |window| ==> Lasting(q.leases, window[x]))
    && Lasting(q.leases, t)
  }

  lemma LastsOverSpike(own: map<string, nat>, q: Pool, past: seq<int>, window: seq<int>, t: int, j: nat, u: int)
    requires Steep(past, window, t, j, q.leaseDuration) && u <= window[j]
    requires OwnedBy(own, q, past, own.Values)
    ensures Lasting(q.leases, u)
  {
    forall a | a in q.leases ensures q.leases[a] > u {
      assert a in own && past[own[a]] > window[0];
    }
  }

  lemma RoomForSpike(p: Pool, past: seq<int>, window: seq<int>, t: int, j: nat, q: Pool) returns (turn: seq<string>)
    requires WellFormed(p) && p.leases == map[] && Distinct(p.addresses) && q == Run(p, past).pool
    requires Steep(past, window, t, j, p.leaseDuration)
    requires |p.addresses| == |Holding(|p.addresses|, p.leaseDuration, past)| + |window|
    ensures RoomFor(q, turn, window, t)
  {
    var own := RunOwners(p, past);
    OneEach(own);
    turn := FreeAddresses(q);
    forall x | 0 <= x < |window| ensures Lasting(q.leases, window[x]) {
      LastsOverSpike(own, q, past, window, t, j, window[x]);
    }
    LastsOverSpike(own, q, past, window, t, j, t);
  }

  lemma RoundOverlaps(r: Trace, first: Trace, turn: seq<string>, window: seq<int>, t: int, j: nat, all: seq<Grant>)
    requires InRound(r, first, turn, window) && |window| == |turn|
    requires Lasting(first.pool.leases, t) && turn != [] && turn[0] !in first.pool.leases
    requires Steep([], window, t, j, first.pool.leaseDuration)
    requires Served(r, t).grants <= all
    ensures !NoneOverlap(all)
  {
    RoundStartsAgain(r, first, turn, window, t, j);
    SharedInstant(r.grants, Grant(turn[0], t, t + first.pool.leaseDuration), all, |first.grants|);
  }

  lemma WindowOverlaps(states: seq<Trace>, window: seq<int>, t: int, turn: seq<string>, j: nat, all: seq<Grant>)
    requires StatesOf(states, window) && RoomFor(states[0].pool, turn, window, t)
    requires Steep([], window, t, j, states[0].pool.leaseDuration)
    requires Served(Last(states), t).grants <= all
    ensures !NoneOverlap(all)
  {
    RoundAlong(states, window, turn, |window|);
    assert window[..|window|] == window;
    RoundOverlaps(Last(states), states[0], turn, window, t, j, all);
  }

  /** The free addresses are taken in turn, and the request behind them gets the first of them again. */
  lemma SteepOverlaps(p: Pool, past: seq<int>, window: seq<int>, t: int, j: nat, all: seq<Grant>)
    requires WellFormed(p) && p.leases == map[] && Distinct(p.addresses)
    requires Steep(past, window, t, j, p.leaseDuration)
    requires |p.addresses| == |Holding(|p.addresses|, p.leaseDuration, past)| + |window|
    requires Served(Run(p, past + window), t).grants <= all
    ensures !NoneOverlap(all)
  {
    var states := RunStates(p, past, window);
    var turn := RoomForSpike(p, past, window, t, j, states[0].pool);
    WindowOverlaps(states, window, t, turn, j, all);
  }

  lemma RunOverlaps(p: Pool, times: seq<int>, k: nat, past: seq<int>, window: seq<int>, j: nat)
    requires WellFormed(p) && p.leases == map[] && Distinct(p.addresses)
    requires k < |times| && past + window == times[..k] && Steep(past, window, times[k], j, p.leaseDuration)
    requires |p.addresses| == |Holding(|p.addresses|, p.leaseDuration, past)| + |window|
    ensures !NoneOverlap(Run(p, times).grants)
  {
    RunThrough(p, times, k);
    SteepOverlaps(p, past, window, times[k], j, Run(p, times).grants);
  }

  /** For every spike there is a pool of different addresses that leases one of them twice at once. */
  lemma SpikeOverlaps(chain: string, times: seq<int>, i: nat, j: nat, k: nat) returns (n: nat, lease: int)
    requires Spike(times, i, j, k)
    ensures lease > 0 && Distinct(Names(n)) && !NoneOverlap(Run(New(chain, Names(n), lease), times).grants)
  {
    var past, window, top;
    past, window, top, lease := SteepSpike(times, i, j, k);
    n := PoolWithRoom(lease, past, |window|);
    NamesDistinct(n);
    RunOverlaps(New(chain, Names(n), lease), times, k, past, window, top);
  }

  /** No two leases of one address ever hold at the same instant, whatever the addresses and the lease, exactly when
      the request times have no spike; and it takes no repeated address to fail. */
  lemma ApartIffNoSpike(times: seq<int>)
    ensures (forall chain, addresses, lease | lease > 0 :: NoneOverlap(Run(New(chain, addresses, lease), times).grants))
            <==> NoSpike(times)
    ensures (forall chain, addresses, lease | lease > 0 && Distinct(addresses) ::
               NoneOverlap(Run(New(chain, addresses, lease), times).grants))
            <==> NoSpike(times)
  {
    if NoSpike(times) {
      forall chain, addresses, lease | lease > 0
        ensures NoneOverlap(Run(New(chain, addresses, lease), times).grants)
      {
        NoSpikeIsApart(New(chain, addresses, lease), times);
      }
    } else {
      var i, j, k :| Spike(times, i, j, k);
      var n, lease := SpikeOverlaps("BSC", times, i, j, k);
    }
  }
}
