/** Runs of the deposit table: any sequence of observed transfers, with any store failures, mixed with what the other
    services do to the same tables. */
module DepositRuns {
  import opened Common
  import opened Deposits
  import Entitlement

  datatype Step =
    | Observe(request: Request, faults: Faults)
      /** A new order; the listing may show it anywhere. */
    | Place(position: nat, order: Order)
    | Assign(id: nat, lease: Option<Lease>)
      /** An administrator's decisions about a deposit under review. */
    | Approve(key: Key, id: nat, at: int, email: string, member: Entitlement.Member)
    | Reject(key: Key)
      /** The matching endpoint of the API server: a confirming deposit is credited, or an unknown one is noted and then
          put under review. */
    | Promote(key: Key, id: nat, at: int, email: string, member: Entitlement.Member)
    | Note(key: Key, observedAt: int)
    | Flag(key: Key, deposit: Deposit)
    | Configure(plans: seq<Plan>, settings: map<string, nat>, bound: set<string>)

  predicate Known(db: Db, id: nat) {
    exists i :: 0 <= i < |db.orders| && db.orders[i].id == id
  }

  function WithLease(o: Order, id: nat, lease: Option<Lease>): Order {
    if o.id == id then o.(lease := lease) else o
  }

  predicate HasStatus(db: Db, key: Key, status: Status) {
    key in db.deposits && db.deposits[key].status == status
  }

  /** A deposit with that status may be credited to the order: it is known, unpaid and of the same chain. */
  predicate Creditable(db: Db, key: Key, status: Status, id: nat) {
    && HasStatus(db, key, status) && Known(db, id)
    && forall i :: 0 <= i < |db.orders| && db.orders[i].id == id ==>
         db.orders[i].paidAt.None? && db.orders[i].chain == key.chain
  }

  function Inserted(orders: seq<Order>, position: nat, order: Order): (r: seq<Order>)
    requires position <= |orders|
    ensures |r| == |orders| + 1
    ensures forall i :: 0 <= i < |r| ==> r[i] == if i < position then orders[i] else if i == position then order
          else orders[i - 1]
  {
    orders[..position] + [order] + orders[position..]
  }

  /** Where row i of `before` is after a new row was put at `position`. */
  function Shifted(i: int, position: nat): int {
    if i < position then i else i + 1
  }

  function WithDeposit(db: Db, key: Key, deposit: Deposit): Db {
    db.(deposits := db.deposits[key := deposit])
  }

  /** The row `record_seen_transfer` inserts. */
  function NotedRow(observedAt: int): Deposit {
    Deposit("", "", "", observedAt, None, Observed, OrderNotFound)
  }

  /** The other services: a step whose guard fails changes nothing. */
  function Elsewhere(db: Db, s: Step): Db
    requires !s.Observe?
  {
    match s
    case Place(position, order) =>
      if position <= |db.orders| && !Known(db, order.id) && order.paidAt.None?
      then db.(orders := Inserted(db.orders, position, order))
      else db
    case Assign(id, lease) =>
      db.(orders := seq(|db.orders|, i requires 0 <= i < |db.orders| => WithLease(db.orders[i], id, lease)))
    case Approve(key, id, at, email, member) =>
      if Creditable(db, key, UnderReview, id) then Pay(db, id, key, at, email, member, Approved) else db
    case Reject(key) =>
      if HasStatus(db, key, UnderReview) then WithDeposit(db, key, db.deposits[key].(status := Rejected)) else db
    case Promote(key, id, at, email, member) =>
      if Creditable(db, key, Confirming, id) then Pay(db, id, key, at, email, member, Matched) else db
    case Note(key, observedAt) => if key in db.deposits then db else WithDeposit(db, key, NotedRow(observedAt))
    case Flag(key, deposit) =>
      if HasStatus(db, key, Observed) then WithDeposit(db, key, deposit.(status := UnderReview)) else db
    case Configure(plans, settings, bound) => db.(plans := plans, settings := settings, bound := bound)
  }

  ghost function Next(db: Db, s: Step): Db {
    if s.Observe? then Process(db, s.request, s.faults) else Elsewhere(db, s)
  }

  ghost function After(db: Db, steps: seq<Step>): Db {
    if steps == [] then db else Next(After(db, steps[..|steps| - 1]), steps[|steps| - 1])
  }

  /** Step i of the run reports the payment of order id. */
  ghost predicate Reports(db: Db, steps: seq<Step>, i: nat, id: nat)
    requires i < |steps|
  {
    steps[i].Observe? && Decide(After(db, steps[..i]), steps[i].request, steps[i].faults).reply == Paid(id)
  }

  // ---------------------------------------------------------------- the writes of a call

  /** What must hold when a write happens. */
  ghost predicate Ready(db: Db, r: Request, w: Write) {
    match w
    case Confirm(_) => r.key in db.deposits ==> db.deposits[r.key].status == Confirming
    case Credit(order, _) =>
      && r.key in db.deposits && db.deposits[r.key].status == Confirming
      && order in db.orders && order.paidAt.None? && order.chain == r.key.chain
    case AskReview(_, _) => r.key !in db.deposits
  }

  ghost predicate AllReady(db: Db, r: Request, writes: seq<Write>)
    decreases |writes|
  {
    writes == [] || (Ready(db, r, writes[0]) && AllReady(Apply(db, r, writes[0]), r, writes[1..]))
  }

  lemma OneReady(db: Db, r: Request, w: Write)
    requires Ready(db, r, w)
    ensures AllReady(db, r, [w])
  {
    assert [w][1..] == [];
  }

  lemma ConfirmThenCredit(db: Db, r: Request, order: Order, member: Entitlement.Member)
    requires Ready(db, r, Confirm(order.id))
    requires order in db.orders && order.paidAt.None? && order.chain == r.key.chain
    ensures AllReady(db, r, [Confirm(order.id), Credit(order, member)])
  {
    var writes := [Confirm(order.id), Credit(order, member)];
    OneReady(Apply(db, r, writes[0]), r, writes[1]);
    assert writes[1..] == [writes[1]];
  }

  lemma MatchReady(db: Db, r: Request, order: Order, faults: Faults)
    requires Ready(db, r, Confirm(order.id))
    requires order in db.orders && order.paidAt.None? && order.chain == r.key.chain
    ensures AllReady(db, r, MatchOrder(db, r, order, faults).writes)
  {
    var writes := MatchOrder(db, r, order, faults).writes;
    OneReady(db, r, Confirm(order.id));
    if |writes| == 2 {
      ConfirmThenCredit(db, r, order, writes[1].member);
      assert writes == [Confirm(order.id), Credit(order, writes[1].member)];
    } else {
      assert writes == [] || writes == [Confirm(order.id)];
    }
  }

  lemma DecisionReady(db: Db, r: Request, faults: Faults)
    ensures AllReady(db, r, Decide(db, r, faults).writes)
  {
    var d, key := Decide(db, r, faults), r.key;
    if d.writes != [] {
      if |ValidCandidates(db, r)| == 1 {
        var k := CandidateIsOnlyOrder(db, r);
        MatchReady(db, r, db.orders[k], faults);
        assert d == MatchOrder(db, r, db.orders[k], faults);
      } else {
        OneReady(db, r, d.writes[0]);
        assert d.writes == [d.writes[0]];
      }
    }
  }

  // ---------------------------------------------------------------- statuses move one way

  function RowAt(db: Db, key: Key): Option<Deposit> {
    if key in db.deposits then Some(db.deposits[key]) else None
  }

  /** One write may do this to a deposit. */
  predicate Moves(before: Option<Deposit>, after: Option<Deposit>) {
    || before == after
    || (after.Some? && match after.value.status
        case Confirming => before.None? || before.value.status == Confirming
        case Matched => before.Some? && before.value.status == Confirming
        case UnderReview => before.None? || before.value.status == Observed
        case Observed => before.None?
        case Approved => before.Some? && before.value.status == UnderReview
        case Rejected => before.Some? && before.value.status == UnderReview)
  }

  lemma WriteMoves(db: Db, r: Request, w: Write, key: Key)
    requires Ready(db, r, w)
    ensures Moves(RowAt(db, key), RowAt(Apply(db, r, w), key))
    ensures key != r.key ==> RowAt(Apply(db, r, w), key) == RowAt(db, key)
  {
  }

  lemma ElsewhereMoves(db: Db, s: Step, key: Key)
    requires !s.Observe?
    ensures Moves(RowAt(db, key), RowAt(Elsewhere(db, s), key))
  {
  }

  /** The store after each write of a call. */
  ghost function Versions(db: Db, r: Request, writes: seq<Write>): (v: seq<Db>)
    ensures |v| == |writes| + 1 && v[0] == db && v[|writes|] == ApplyAll(db, r, writes)
    decreases |writes|
  {
    if writes == [] then [db] else [db] + Versions(Apply(db, r, writes[0]), r, writes[1..])
  }

  lemma {:induction false} VersionsMove(db: Db, r: Request, writes: seq<Write>, i: nat, key: Key)
    requires i < |writes| && AllReady(db, r, writes)
    ensures var v := Versions(db, r, writes); Moves(RowAt(v[i], key), RowAt(v[i + 1], key))
    decreases |writes|
  {
    if i == 0 {
      WriteMoves(db, r, writes[0], key);
    } else {
      VersionsMove(Apply(db, r, writes[0]), r, writes[1..], i - 1, key);
    }
  }

  /** The stores a step passes through, the last being the one it leaves. */
  ghost function Passed(db: Db, s: Step): (v: seq<Db>)
    ensures |v| > 0 && v[0] == db && v[|v| - 1] == Next(db, s)
  {
    if s.Observe? then Versions(db, s.request, Decide(db, s.request, s.faults).writes) else [db, Elsewhere(db, s)]
  }

  /** In every run, whatever fails, each write of each step moves each deposit along none -> confirming -> matched,
      none (-> observed) -> under review -> approved or rejected, or leaves it alone. */
  lemma EveryWriteMoves(db: Db, steps: seq<Step>, n: nat, i: nat, key: Key)
    requires n < |steps| && i + 1 < |Passed(After(db, steps[..n]), steps[n])|
    ensures var v := Passed(After(db, steps[..n]), steps[n]); Moves(RowAt(v[i], key), RowAt(v[i + 1], key))
  {
    var here, s := After(db, steps[..n]), steps[n];
    if s.Observe? {
      DecisionReady(here, s.request, s.faults);
      VersionsMove(here, s.request, Decide(here, s.request, s.faults).writes, i, key);
    } else {
      ElsewhereMoves(here, s, key);
    }
  }

  // ---------------------------------------------------------------- what stays

  predicate Final(row: Option<Deposit>) {
    row.Some? && (row.value.status == Matched || row.value.status == Approved || row.value.status == Rejected)
  }

  predicate PaidUp(db: Db, id: nat) {
    Known(db, id) && forall i :: 0 <= i < |db.orders| && db.orders[i].id == id ==> db.orders[i].paidAt.Some?
  }

  lemma PlaceKeepsPaid(db: Db, position: nat, order: Order, id: nat)
    requires PaidUp(db, id) && position <= |db.orders| && !Known(db, order.id)
    ensures PaidUp(db.(orders := Inserted(db.orders, position, order)), id)
  {
    var k :| 0 <= k < |db.orders| && db.orders[k].id == id;
    assert Inserted(db.orders, position, order)[Shifted(k, position)].id == id;
  }

  lemma SameIdsKeepPaid(db: Db, after: Db, id: nat)
    requires PaidUp(db, id) && |after.orders| == |db.orders|
    requires forall i :: 0 <= i < |db.orders| ==> after.orders[i].id == db.orders[i].id
    requires forall i :: 0 <= i < |db.orders| && db.orders[i].paidAt.Some? ==> after.orders[i].paidAt.Some?
    ensures PaidUp(after, id)
  {
    var k :| 0 <= k < |db.orders| && db.orders[k].id == id;
    assert after.orders[k].id == id;
  }

  lemma WriteKeepsPaid(db: Db, r: Request, w: Write, id: nat)
    requires PaidUp(db, id)
    ensures PaidUp(Apply(db, r, w), id)
  {
    SameIdsKeepPaid(db, Apply(db, r, w), id);
  }

  lemma ElsewhereKeepsPaid(db: Db, s: Step, id: nat)
    requires !s.Observe? && PaidUp(db, id)
    ensures PaidUp(Elsewhere(db, s), id)
  {
    if s.Place? {
      if s.position <= |db.orders| && !Known(db, s.order.id) {
        PlaceKeepsPaid(db, s.position, s.order, id);
      }
    } else {
      SameIdsKeepPaid(db, Elsewhere(db, s), id);
    }
  }

  lemma {:induction false} WritesKeep(db: Db, r: Request, writes: seq<Write>, key: Key, id: nat)
    requires AllReady(db, r, writes)
    ensures Final(RowAt(db, key)) ==> RowAt(ApplyAll(db, r, writes), key) == RowAt(db, key)
    ensures PaidUp(db, id) ==> PaidUp(ApplyAll(db, r, writes), id)
    decreases |writes|
  {
    if writes != [] {
      WriteMoves(db, r, writes[0], key);
      if PaidUp(db, id) {
        WriteKeepsPaid(db, r, writes[0], id);
      }
      WritesKeep(Apply(db, r, writes[0]), r, writes[1..], key, id);
    }
  }

  /** A settled or rejected deposit is as it was, and a paid order still paid. */
  ghost predicate Kept(before: Db, after: Db, key: Key, id: nat) {
    && (Final(RowAt(before, key)) ==> RowAt(after, key) == RowAt(before, key))
    && (PaidUp(before, id) ==> PaidUp(after, id))
  }

  lemma KeptTransitive(a: Db, b: Db, c: Db, key: Key, id: nat)
    requires Kept(a, b, key, id) && Kept(b, c, key, id)
    ensures Kept(a, c, key, id)
  {
  }

  lemma NextKeeps(db: Db, s: Step, key: Key, id: nat)
    ensures Kept(db, Next(db, s), key, id)
  {
    if s.Observe? {
      DecisionReady(db, s.request, s.faults);
      WritesKeep(db, s.request, Decide(db, s.request, s.faults).writes, key, id);
    } else {
      ElsewhereMoves(db, s, key);
      if PaidUp(db, id) {
        ElsewhereKeepsPaid(db, s, id);
      }
    }
  }

  /** A settled or rejected deposit never changes again and a paid order stays paid. */
  lemma {:induction false} RunKeeps(db: Db, steps: seq<Step>, m: nat, key: Key, id: nat)
    requires m <= |steps|
    ensures Kept(After(db, steps[..m]), After(db, steps), key, id)
  {
    if m < |steps| {
      var n := |steps| - 1;
      assert steps[..n][..m] == steps[..m];
      RunKeeps(db, steps[..n], m, key, id);
      NextKeeps(After(db, steps[..n]), steps[n], key, id);
      KeptTransitive(After(db, steps[..m]), After(db, steps[..n]), After(db, steps), key, id);
    } else {
      assert steps[..m] == steps;
    }
  }

  // ---------------------------------------------------------------- at most one report

  lemma PaidByMatch(db: Db, r: Request, order: Order, faults: Faults, id: nat)
    requires MatchOrder(db, r, order, faults).reply == Paid(id)
    ensures order.id == id
    ensures exists member :: MatchOrder(db, r, order, faults).writes == [Confirm(id), Credit(order, member)]
  {
    var writes := MatchOrder(db, r, order, faults).writes;
    assert writes == [Confirm(id), Credit(order, writes[1].member)];
  }

  lemma CreditSettles(db: Db, r: Request, order: Order, member: Entitlement.Member)
    requires order in db.orders
    ensures var after := ApplyAll(db, r, [Confirm(order.id), Credit(order, member)]);
      PaidUp(after, order.id)
          && RowAt(after, r.key) == Some(DepositRow(r, Some(order.id), Matched, AwaitingConfirmations))
  {
    var writes := [Confirm(order.id), Credit(order, member)];
    var k :| 0 <= k < |db.orders| && db.orders[k] == order;
    var first := Apply(db, r, writes[0]);
    var second := Apply(first, r, writes[1]);
    assert writes[1..] == [writes[1]] && [writes[1]][1..] == [];
    assert ApplyAll(first, r, [writes[1]]) == second;
    assert second.orders[k].id == order.id;
  }

  lemma ReportIsMatch(db: Db, r: Request, faults: Faults, id: nat) returns (k: nat)
    requires Decide(db, r, faults).reply == Paid(id)
    ensures !Final(RowAt(db, r.key)) && k < |db.orders| && db.orders[k].paidAt.None?
    ensures Decide(db, r, faults) == MatchOrder(db, r, db.orders[k], faults)
  {
    k := CandidateIsOnlyOrder(db, r);
  }

  /** A reported payment was for an unpaid order and a deposit not yet settled, and settles both. */
  lemma ReportSettles(db: Db, r: Request, faults: Faults, id: nat)
    requires Decide(db, r, faults).reply == Paid(id)
    ensures !PaidUp(db, id) && !Final(RowAt(db, r.key))
    ensures var after := Process(db, r, faults);
      PaidUp(after, id) && RowAt(after, r.key) == Some(DepositRow(r, Some(id), Matched, AwaitingConfirmations))
  {
    var k := ReportIsMatch(db, r, faults, id);
    var order := db.orders[k];
    PaidByMatch(db, r, order, faults, id);
    var member :| MatchOrder(db, r, order, faults).writes == [Confirm(id), Credit(order, member)];
    CreditSettles(db, r, order, member);
  }

  /** Over every run: no two reports are about the same order or the same transaction. */
  lemma MatchedAtMostOnce(db: Db, steps: seq<Step>, i: nat, j: nat, a: nat, b: nat)
    requires i < j < |steps| && Reports(db, steps, i, a) && Reports(db, steps, j, b)
    ensures a != b
    ensures steps[i].request.key != steps[j].request.key
  {
    var key := steps[i].request.key;
    ReportSettles(After(db, steps[..i]), steps[i].request, steps[i].faults, a);
    assert steps[..i + 1][..i] == steps[..i];
    assert After(db, steps[..i + 1]) == Next(After(db, steps[..i]), steps[i]);
    assert steps[..j][..i + 1] == steps[..i + 1];
    RunKeeps(db, steps[..j], i + 1, key, a);
    ReportSettles(After(db, steps[..j]), steps[j].request, steps[j].faults, b);
  }

  // ---------------------------------------------------------------- the ledger balances

  predicate Settled(d: Deposit) {
    d.status == Matched || d.status == Approved
  }

  /** Order row k was paid by deposit `key`. */
  predicate PaidBy(db: Db, key: Key, k: int) {
    && 0 <= k < |db.orders|
    && key in db.deposits && Settled(db.deposits[key]) && db.deposits[key].orderId == Some(db.orders[k].id)
    && db.orders[k].paidAt.Some? && db.orders[k].txHash == Some(key.txHash) && db.orders[k].chain == key.chain
  }

  predicate DistinctIds(db: Db) {
    forall i, j :: 0 <= i < j < |db.orders| ==> db.orders[i].id != db.orders[j].id
  }

  function PayerOf(o: Order): Key {
    Key(o.chain, if o.txHash.Some? then o.txHash.value else "")
  }

  /** Settled deposits and paid orders correspond one to one. */
  ghost predicate Balanced(db: Db) {
    && DistinctIds(db)
    && (forall key :: key in db.deposits && Settled(db.deposits[key]) ==> exists k :: PaidBy(db, key, k))
    && (forall k :: 0 <= k < |db.orders| && db.orders[k].paidAt.Some? ==> PaidBy(db, PayerOf(db.orders[k]), k))
  }

  function SettledKeys(db: Db): set<Key> {
    set key <- db.deposits | Settled(db.deposits[key])
  }

  function PaidRows(db: Db): set<nat> {
    set k: nat | k < |db.orders| && db.orders[k].paidAt.Some?
  }

  function Payers(rows: set<nat>, orders: seq<Order>): set<Key>
    requires forall k <- rows :: k < |orders|
  {
    set k <- rows :: PayerOf(orders[k])
  }

  lemma {:induction false} PayersSize(rows: set<nat>, orders: seq<Order>)
    requires forall k <- rows :: k < |orders|
    requires forall i, j :: i in rows && j in rows && PayerOf(orders[i]) == PayerOf(orders[j]) ==> i == j
    ensures |Payers(rows, orders)| == |rows|
    decreases |rows|
  {
    if rows != {} {
      var k :| k in rows;
      var rest := rows - {k};
      PayersSize(rest, orders);
      assert PayerOf(orders[k]) !in Payers(rest, orders);
      assert Payers(rows, orders) == Payers(rest, orders) + {PayerOf(orders[k])};
    }
  }

  /** In a balanced ledger the settled deposits are exactly the payers of the paid orders, one for each: no order is
      credited twice, no deposit pays twice and none is missing. */
  lemma OnePaymentPerOrder(db: Db)
    requires Balanced(db)
    ensures SettledKeys(db) == Payers(PaidRows(db), db.orders)
    ensures |SettledKeys(db)| == |PaidRows(db)|
  {
    forall i, j | i in PaidRows(db) && j in PaidRows(db) && PayerOf(db.orders[i]) == PayerOf(db.orders[j])
      ensures i == j
    {
      assert PaidBy(db, PayerOf(db.orders[i]), i) && PaidBy(db, PayerOf(db.orders[j]), j);
      assert db.orders[i].id == db.orders[j].id;
    }
    forall key | key in SettledKeys(db)
      ensures key in Payers(PaidRows(db), db.orders)
    {
      var k :| PaidBy(db, key, k);
      assert k in PaidRows(db) && PayerOf(db.orders[k]) == key;
    }
    forall k | k in PaidRows(db)
      ensures PayerOf(db.orders[k]) in SettledKeys(db)
    {
      assert PaidBy(db, PayerOf(db.orders[k]), k);
    }
    PayersSize(PaidRows(db), db.orders);
  }

  /** The common part of a match and of a manual approval. */
  lemma PayBalances(db: Db, k: nat, key: Key, at: int, email: string, member: Entitlement.Member, status: Status)
    requires Balanced(db) && k < |db.orders| && db.orders[k].paidAt.None? && db.orders[k].chain == key.chain
    requires key in db.deposits && !Settled(db.deposits[key]) && (status == Matched || status == Approved)
    ensures Balanced(Pay(db, db.orders[k].id, key, at, email, member, status))
  {
    var after := Pay(db, db.orders[k].id, key, at, email, member, status);
    assert forall i :: 0 <= i < |db.orders| ==> after.orders[i].id == db.orders[i].id;
    assert forall i :: 0 <= i < |db.orders| && i != k ==> after.orders[i] == db.orders[i] by {
      assert forall i :: 0 <= i < k ==> db.orders[i].id != db.orders[k].id;
      assert forall i :: k < i < |db.orders| ==> db.orders[k].id != db.orders[i].id;
    }
    assert PaidBy(after, key, k);
    forall other | other in after.deposits && Settled(after.deposits[other]) && other != key
      ensures exists j :: PaidBy(after, other, j)
    {
      var j :| PaidBy(db, other, j);
      assert PaidBy(after, other, j);
    }
    forall j | 0 <= j < |after.orders| && after.orders[j].paidAt.Some?
      ensures PaidBy(after, PayerOf(after.orders[j]), j)
    {
      if j != k {
        assert PaidBy(db, PayerOf(db.orders[j]), j);
      }
    }
  }

  /** Writing an unsettled deposit does not touch the correspondence. */
  lemma RecordBalances(db: Db, key: Key, d: Deposit)
    requires Balanced(db) && (key in db.deposits ==> !Settled(db.deposits[key])) && !Settled(d)
    ensures Balanced(db.(deposits := db.deposits[key := d]))
  {
    var after := db.(deposits := db.deposits[key := d]);
    forall other | other in after.deposits && Settled(after.deposits[other])
      ensures exists j :: PaidBy(after, other, j)
    {
      var j :| PaidBy(db, other, j);
      assert PaidBy(after, other, j);
    }
    forall j | 0 <= j < |after.orders| && after.orders[j].paidAt.Some?
      ensures PaidBy(after, PayerOf(after.orders[j]), j)
    {
      assert PaidBy(db, PayerOf(db.orders[j]), j);
    }
  }

  lemma WriteBalances(db: Db, r: Request, w: Write)
    requires Balanced(db) && Ready(db, r, w)
    ensures Balanced(Apply(db, r, w))
  {
    match w
    case Confirm(id) => RecordBalances(db, r.key, DepositRow(r, Some(id), Confirming, AwaitingConfirmations));
    case AskReview(reason, about) => RecordBalances(db, r.key, DepositRow(r, about, UnderReview, reason));
    case Credit(order, member) =>
      var k :| 0 <= k < |db.orders| && db.orders[k] == order;
      PayBalances(db, k, r.key, r.observedAt, order.email, member, Matched);
  }

  lemma {:induction false} WritesBalance(db: Db, r: Request, writes: seq<Write>)
    requires Balanced(db) && AllReady(db, r, writes)
    ensures Balanced(ApplyAll(db, r, writes))
    decreases |writes|
  {
    if writes != [] {
      WriteBalances(db, r, writes[0]);
      WritesBalance(Apply(db, r, writes[0]), r, writes[1..]);
    }
  }

  lemma PlaceKeepsIds(db: Db, position: nat, order: Order)
    requires DistinctIds(db) && position <= |db.orders| && !Known(db, order.id)
    ensures DistinctIds(db.(orders := Inserted(db.orders, position, order)))
  {
  }

  lemma PlaceKeepsPayer(db: Db, position: nat, order: Order, key: Key, k: int)
    requires position <= |db.orders| && PaidBy(db, key, k)
    ensures PaidBy(db.(orders := Inserted(db.orders, position, order)), key, Shifted(k, position))
  {
  }

  lemma PlaceBalances(db: Db, position: nat, order: Order)
    requires Balanced(db) && position <= |db.orders| && !Known(db, order.id) && order.paidAt.None?
    ensures Balanced(db.(orders := Inserted(db.orders, position, order)))
  {
    var after := db.(orders := Inserted(db.orders, position, order));
    PlaceKeepsIds(db, position, order);
    forall other | other in after.deposits && Settled(after.deposits[other])
      ensures exists j :: PaidBy(after, other, j)
    {
      var j :| PaidBy(db, other, j);
      PlaceKeepsPayer(db, position, order, other, j);
    }
    forall j | 0 <= j < |after.orders| && after.orders[j].paidAt.Some?
      ensures PaidBy(after, PayerOf(after.orders[j]), j)
    {
      var i := if j < position then j else j - 1;
      assert j == Shifted(i, position);
      PlaceKeepsPayer(db, position, order, PayerOf(db.orders[i]), i);
    }
  }

  lemma SameOrdersBalance(db: Db, after: Db)
    requires Balanced(db) && after.deposits == db.deposits && |after.orders| == |db.orders|
    requires forall i :: 0 <= i < |db.orders| ==> after.orders[i] == db.orders[i].(lease := after.orders[i].lease)
    ensures Balanced(after)
  {
    forall other | other in after.deposits && Settled(after.deposits[other])
      ensures exists j :: PaidBy(after, other, j)
    {
      var j :| PaidBy(db, other, j);
      assert PaidBy(after, other, j);
    }
    forall j | 0 <= j < |after.orders| && after.orders[j].paidAt.Some?
      ensures PaidBy(after, PayerOf(after.orders[j]), j)
    {
      assert PaidBy(db, PayerOf(db.orders[j]), j);
    }
  }

  lemma ElsewhereBalances(db: Db, s: Step)
    requires Balanced(db) && !s.Observe?
    ensures Balanced(Elsewhere(db, s))
  {
    match s
    case Place(position, order) =>
      if position <= |db.orders| && !Known(db, order.id) && order.paidAt.None? {
        PlaceBalances(db, position, order);
      }
    case Assign(id, lease) => SameOrdersBalance(db, Elsewhere(db, s));
    case Approve(key, id, at, email, member) =>
      if Creditable(db, key, UnderReview, id) {
        var k :| 0 <= k < |db.orders| && db.orders[k].id == id;
        PayBalances(db, k, key, at, email, member, Approved);
      }
    case Promote(key, id, at, email, member) =>
      if Creditable(db, key, Confirming, id) {
        var k :| 0 <= k < |db.orders| && db.orders[k].id == id;
        PayBalances(db, k, key, at, email, member, Matched);
      }
    case Configure(_, _, _) => SameOrdersBalance(db, Elsewhere(db, s));
    case _ => DepositStepBalances(db, s);
  }

  /** Steps that write one deposit and leave it unsettled. */
  lemma DepositStepBalances(db: Db, s: Step)
    requires Balanced(db) && (s.Reject? || s.Note? || s.Flag?)
    ensures Balanced(Elsewhere(db, s))
  {
    match s
    case Reject(key) =>
      if HasStatus(db, key, UnderReview) {
        RecordBalances(db, key, db.deposits[key].(status := Rejected));
      }
    case Note(key, observedAt) =>
      if key !in db.deposits {
        RecordBalances(db, key, NotedRow(observedAt));
      }
    case Flag(key, deposit) =>
      if HasStatus(db, key, Observed) {
        RecordBalances(db, key, deposit.(status := UnderReview));
      }
  }

  /** Over every run, whatever fails, the ledger stays balanced: money is credited once and never without a deposit. */
  lemma {:induction false} RunStaysBalanced(db: Db, steps: seq<Step>)
    requires Balanced(db)
    ensures Balanced(After(db, steps))
  {
    if steps != [] {
      var n := |steps| - 1;
      RunStaysBalanced(db, steps[..n]);
      var here, s := After(db, steps[..n]), steps[n];
      if s.Observe? {
        DecisionReady(here, s.request, s.faults);
        WritesBalance(here, s.request, Decide(here, s.request, s.faults).writes);
      } else {
        ElsewhereBalances(here, s);
      }
    }
  }
}
