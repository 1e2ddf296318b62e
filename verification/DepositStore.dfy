/** The mutable store and `process_observed_transfer` on it, call by call as in
    apps/billing-chain-listener/src/processor.rs. */
module DepositStore {
  import opened Common
  import opened Deposits
  import opened Filtering
  import Amounts
  import Entitlement

  class Store {
    var orders: seq<Order>
    var deposits: map<Key, Deposit>
    var members: map<string, Entitlement.Member>
    const plans: seq<Plan>
    const settings: map<string, nat>
    const bound: set<string>

    ghost function View(): Db
      reads this
    {
      Db(orders, deposits, members, plans, settings, bound)
    }

    constructor (db: Db)
      ensures View() == db
    {
      orders, deposits, members := db.orders, db.deposits, db.members;
      plans, settings, bound := db.plans, db.settings, db.bound;
    }

    /** The two filters over the listed orders. */
    method FindCandidates(r: Request) returns (at: seq<Order>, valid: seq<Order>)
      ensures at == AddressCandidates(View(), r) && valid == ValidCandidates(View(), r)
    {
      at := OrdersAtAddress(orders, r);
      valid := PayingOrders(at, r);
      SelectTwice(orders, o => AtAddress(o, r), o => PaysFor(o, r));
    }

    method UpsertDeposit(r: Request, orderId: Option<nat>, status: Status, reason: Reason, fault: Fault)
      modifies this`deposits
      ensures deposits == if fault == Fails then old(deposits)
            else old(deposits)[r.key := DepositRow(r, orderId, status, reason)]
    {
      if fault != Fails {
        deposits := deposits[r.key := Deposit(r.asset, r.address, r.amount, r.observedAt, orderId, status, reason)];
      }
    }

    method ApplyPayment(order: Order, r: Request, member: Entitlement.Member, fault: Fault)
      modifies this`orders, this`deposits, this`members
      ensures View() == if fault == Fails then old(View())
                        else Pay(old(View()), order.id, r.key, r.observedAt, order.email, member, Matched)
    {
      if fault != Fails {
        orders := PaidOrders(orders, order.id, r.key.txHash, r.observedAt);
        members := members[order.email := member];
        deposits := MarkSettled(deposits, r.key, order.id, Matched);
      }
    }

    /** The branch for exactly one valid candidate. */
    method MatchCandidate(r: Request, order: Order, faults: Faults) returns (reply: Reply)
      modifies this`orders, this`deposits, this`members
      ensures var d := MatchOrder(old(View()), r, order, faults);
        View() == ApplyAll(old(View()), r, d.writes) && reply == d.reply
    {
      ghost var before := View();
      var key := SettingKey(r.key.chain);
      if key.Some? && faults(ReadSetting) != Works {
        return StorageError;
      }
      var required := DEFAULT_CONFIRMATIONS;
      if key.Some? && key.value in settings && 0 < settings[key.value] <= 0xFFFF_FFFF {
        required := settings[key.value];
      }
      assert required == Required(before, r.key.chain);
      UpsertDeposit(r, Some(order.id), Confirming, AwaitingConfirmations, faults(RecordConfirming));
      OneWrite(before, r, Confirm(order.id));
      if faults(RecordConfirming) != Works {
        return StorageError;
      }
      assert View() == Apply(before, r, Confirm(order.id));
      if r.confirmations < required {
        return Awaiting(order.id);
      }
      reply := Credited(before, r, order, faults);
    }

    /** From the plan lookup to the notifications. */
    method Credited(ghost before: Db, r: Request, order: Order, faults: Faults) returns (reply: Reply)
      requires View() == Apply(before, r, Confirm(order.id))
      modifies this`orders, this`deposits, this`members
      ensures var d := Settle(before, r, order, faults);
        View() == ApplyAll(before, r, [Confirm(order.id)] + d.writes) && reply == d.reply
    {
      OneWrite(before, r, Confirm(order.id));
      assert [Confirm(order.id)] + [] == [Confirm(order.id)];
      if faults(ListPlans) != Works {
        return StorageError;
      }
      var plan := FindPlan(plans, order.planCode);
      if plan.None? {
        return PlanNotConfigured;
      }
      if faults(FindMember) != Works {
        return StorageError;
      }
      var current := if order.email in members then Some(members[order.email]) else None;
      var member := Entitlement.Window(current, plan.value.days, r.observedAt);
      TwoWrites(before, r, Confirm(order.id), Credit(order, member));
      assert [Confirm(order.id)] + [Credit(order, member)] == [Confirm(order.id), Credit(order, member)];
      ApplyPayment(order, r, member, faults(Call.ApplyPayment));
      if faults(Call.ApplyPayment) != Works || faults(FindBinding) != Works || faults(LogInApp) != Works {
        return StorageError;
      }
      if order.email in bound && faults(LogTelegram) != Works {
        return StorageError;
      }
      return Paid(order.id);
    }

    method ProcessObservedTransfer(t: Transfer, upper: Casing, faults: Faults) returns (reply: Reply)
      modifies this`orders, this`deposits, this`members
      ensures (View(), reply) == Reaction(old(View()), t, upper, faults)
    {
      var parsed := ParseTransfer(t, upper);
      if parsed.Malformed? {
        return Invalid(parsed.field);
      }
      reply := ProcessRequest(parsed.request, faults);
    }

    method ProcessRequest(r: Request, faults: Faults) returns (reply: Reply)
      modifies this`orders, this`deposits, this`members
      ensures View() == Process(old(View()), r, faults) && reply == Decide(old(View()), r, faults).reply
    {
      if faults(ListDeposits) != Works {
        return StorageError;
      }
      if r.key in deposits && deposits[r.key].status != Confirming {
        return Duplicate;
      }
      if faults(ListOrders) != Works {
        return StorageError;
      }
      var at, valid := FindCandidates(r);
      if |valid| == 1 {
        reply := MatchCandidate(r, valid[0], faults);
        return;
      }
      if r.key in deposits {
        return Duplicate;
      }
      ghost var before := View();
      var reason, about := Classify(at, valid, r);
      UpsertDeposit(r, about, UnderReview, reason, faults(RecordReview));
      OneWrite(before, r, AskReview(reason, about));
      if faults(RecordReview) != Works {
        return StorageError;
      }
      return Review(reason, about);
    }
  }

  lemma OneWrite(db: Db, r: Request, w: Write)
    ensures ApplyAll(db, r, [w]) == Apply(db, r, w)
  {
    assert [w][1..] == [];
    assert ApplyAll(Apply(db, r, w), r, []) == Apply(db, r, w);
  }

  method OrdersAtAddress(orders: seq<Order>, r: Request) returns (at: seq<Order>)
    ensures at == Select(orders, o => AtAddress(o, r))
  {
    at := [];
    for i := 0 to |orders|
      invariant at == Select(orders[..i], o => AtAddress(o, r))
    {
      assert orders[..i + 1] == orders[..i] + [orders[i]];
      SelectPush(orders[..i], orders[i], o => AtAddress(o, r));
      if AtAddress(orders[i], r) {
        at := at + [orders[i]];
      }
    }
    assert orders[..|orders|] == orders;
  }

  method PayingOrders(at: seq<Order>, r: Request) returns (valid: seq<Order>)
    requires forall o <- at :: AtAddress(o, r)
    ensures valid == Select(at, o => PaysFor(o, r))
  {
    valid := [];
    for i := 0 to |at|
      invariant valid == Select(at[..i], o => PaysFor(o, r))
    {
      assert at[..i + 1] == at[..i] + [at[i]];
      SelectPush(at[..i], at[i], o => PaysFor(o, r));
      var pays := OrderPays(at[i], r);
      if pays {
        valid := valid + [at[i]];
      }
    }
    assert at[..|at|] == at;
  }

  method OrderPays(o: Order, r: Request) returns (pays: bool)
    requires AtAddress(o, r)
    ensures pays <==> PaysFor(o, r)
  {
    var sameAmount := Amounts.AmountsMatch(o.amount, r.amount);
    pays := o.asset == r.asset && sameAmount && r.observedAt <= o.lease.value.expiresAt;
  }

  method ParseTransfer(t: Transfer, upper: Casing) returns (p: Parsed)
    ensures p == Parse(t, upper)
  {
    var chain, asset := Upper(Amounts.Trim(t.chain), upper), Upper(Amounts.Trim(t.asset), upper);
    var address, txHash := OnChain(chain, Amounts.Trim(t.address)), OnChain(chain, Amounts.Trim(t.txHash));
    if chain == "" {
      return Malformed(ChainField);
    }
    if asset == "" {
      return Malformed(AssetField);
    }
    if address == "" {
      return Malformed(AddressField);
    }
    if txHash == "" {
      return Malformed(TxHashField);
    }
    var amount := Amounts.CanonicalizeAmount(t.amount);
    if amount.None? {
      return Malformed(AmountField);
    }
    var confirmations := if t.confirmations.Some? then t.confirmations.value else 0;
    p := WellFormed(Request(Key(chain, txHash), asset, address, amount.value, confirmations, t.observedAt));
  }

  /** Why a transfer cannot be matched. */
  method Classify(at: seq<Order>, valid: seq<Order>, r: Request) returns (reason: Reason, about: Option<nat>)
    ensures (reason, about) == ReviewReason(at, valid, r)
  {
    if |valid| > 1 {
      return AmbiguousMatch, None;
    }
    if |at| > 1 && valid == [] {
      if AnyOtherAsset(at, r) {
        return WrongAsset, None;
      }
      if EachExpired(at, r) {
        return OrderExpired, Some(at[0].id);
      }
      return ExactAmountRequired, None;
    }
    if at == [] {
      return OrderNotFound, None;
    }
    if at[0].asset != r.asset {
      return WrongAsset, Some(at[0].id);
    }
    var sameAmount := Amounts.AmountsMatch(at[0].amount, r.amount);
    return if sameAmount then OrderExpired else ExactAmountRequired, Some(at[0].id);
  }
}
