/** Observed chain transfers against billing orders (apps/billing-chain-listener/src/processor.rs) over the PostgreSQL
    store of crates/shared-db. One call is one step; every store call inside it may fail, before or after taking
    effect. */
module Deposits {
  import opened Common
  import Amounts
  import Entitlement
  import opened Filtering

  // ---------------------------------------------------------------- records

  datatype Transfer = Transfer(chain: string, asset: string, address: string, amount: string, txHash: string,
                               confirmations: Option<nat>, observedAt: int)

  datatype Lease = Lease(address: string, expiresAt: int)

  datatype Order = Order(id: nat, email: string, chain: string, asset: string, planCode: string, amount: string,
                         requestedAt: int, lease: Option<Lease>, paidAt: Option<int>, txHash: Option<string>)

  /** Primary key of the deposit table. */
  datatype Key = Key(chain: string, txHash: string)

  /** `Observed` is set by the API server's own endpoint, the last two by an administrator's decision about a deposit
      under review. */
  datatype Status = Confirming | Matched | UnderReview | Observed | Approved | Rejected

  datatype Reason =
    | AwaitingConfirmations | AmbiguousMatch | WrongAsset | OrderExpired | ExactAmountRequired | OrderNotFound

  datatype Deposit = Deposit(asset: string, address: string, amount: string, observedAt: int, orderId: Option<nat>,
                             status: Status, reason: Reason)

  datatype Plan = Plan(code: string, days: int)

  /** `settings` holds the configured values that are unsigned integers; `bound` the members with a chat binding. */
  datatype Db = Db(orders: seq<Order>, deposits: map<Key, Deposit>, members: map<string, Entitlement.Member>,
                   plans: seq<Plan>, settings: map<string, nat>, bound: set<string>)

  datatype Call =
    | ListDeposits | ListOrders | ReadSetting | RecordConfirming | ListPlans | FindMember | ApplyPayment
    | FindBinding | LogInApp | LogTelegram | RecordReview

  /** What a store call does: work, fail without effect, or take effect and report failure. */
  datatype Fault = Works | Fails | FailsAfter

  type Faults = Call -> Fault

  datatype Field = ChainField | AssetField | AddressField | TxHashField | AmountField

  datatype Reply =
    | Duplicate
    | Awaiting(orderId: nat)
    | Paid(orderId: nat)
    | Review(reason: Reason, about: Option<nat>)
    | Invalid(field: Field)
    | PlanNotConfigured
    | StorageError

  // ---------------------------------------------------------------- normalisation

  function UpperChar(c: char): char {
    if 'a' <= c <= 'z' then c - 32 as char else c
  }

  function LowerChar(c: char): char {
    if 'A' <= c <= 'Z' then c + 32 as char else c
  }

  /** The upper case of one character, as Unicode defines it: possibly several characters, and the expected one in
      ASCII. */
  type Casing = upper: char -> string | forall c | c < 128 as char :: upper(c) == [UpperChar(c)]
    ghost witness (c: char) => [UpperChar(c)]

  /** `to_uppercase`. */
  function Upper(s: string, upper: Casing): string {
    if s == "" then "" else upper(s[0]) + Upper(s[1..], upper)
  }

  function Lower(s: string): string {
    seq(|s|, i requires 0 <= i < |s| => LowerChar(s[i]))
  }

  /** `normalize_chain_address` and `normalize_chain_tx_hash`: hexadecimal chains ignore case. */
  function OnChain(chain: string, text: string): string {
    if chain == "ETH" || chain == "BSC" then Lower(Amounts.Trim(text)) else Amounts.Trim(text)
  }

  lemma LowerKeepsSpace(s: string)
    requires s != "" ==> !Amounts.IsWhitespace(s[0]) && !Amounts.IsWhitespace(s[|s| - 1])
    ensures Lower(Lower(s)) == Lower(s) && Amounts.Trim(Lower(s)) == Lower(s)
  {
    Amounts.TrimOfPlain(Lower(s));
  }

  /** Normalising twice changes nothing: a stored hash or address is found again by its own text. */
  lemma OnChainIdempotent(chain: string, text: string)
    ensures OnChain(chain, OnChain(chain, text)) == OnChain(chain, text)
  {
    var s := Amounts.Trim(text);
    Amounts.TrimEdges(text);
    Amounts.TrimOfPlain(s);
    LowerKeepsSpace(s);
  }

  /** A well-formed observation: normalised text and the canonical amount. */
  datatype Request = Request(key: Key, asset: string, address: string, amount: string, confirmations: nat,
      observedAt: int)

  datatype Parsed = Malformed(field: Field) | WellFormed(request: Request)

  ghost function Parse(t: Transfer, upper: Casing): Parsed {
    var chain, asset := Upper(Amounts.Trim(t.chain), upper), Upper(Amounts.Trim(t.asset), upper);
    var address, txHash := OnChain(chain, Amounts.Trim(t.address)), OnChain(chain, Amounts.Trim(t.txHash));
    if chain == "" then Malformed(ChainField)
    else if asset == "" then Malformed(AssetField)
    else if address == "" then Malformed(AddressField)
    else if txHash == "" then Malformed(TxHashField)
    else if !Amounts.Accepted(t.amount) then Malformed(AmountField)
    else WellFormed(Request(Key(chain, txHash), asset, address, Amounts.Render(Amounts.Units(t.amount)),
                            if t.confirmations.Some? then t.confirmations.value else 0, t.observedAt))
  }

  /** The canonical amount of a well-formed observation is the number that was observed. */
  lemma ParsedAmount(t: Transfer, upper: Casing)
    requires Parse(t, upper).WellFormed?
    ensures var amount := Parse(t, upper).request.amount;
      Amounts.Accepted(t.amount) && Amounts.Accepted(amount) && Amounts.Units(amount) == Amounts.Units(t.amount)
  {
    Amounts.RenderRoundTrip(Amounts.Units(t.amount));
  }

  /** `amounts_match`, as Amounts.AmountsMatch proves it: equality of the numbers. */
  ghost predicate SameAmount(a: string, b: string) {
    Amounts.Accepted(a) && Amounts.Accepted(b) && Amounts.Units(a) == Amounts.Units(b)
  }

  // ---------------------------------------------------------------- candidates

  /** An unpaid order, requested by then, waiting on the receiving address. */
  predicate AtAddress(o: Order, r: Request) {
    && o.paidAt.None?
    && o.requestedAt <= r.observedAt
    && o.chain == r.key.chain
    && o.lease.Some?
    && OnChain(r.key.chain, o.lease.value.address) == r.address
  }

  ghost predicate PaysFor(o: Order, r: Request) {
    && AtAddress(o, r)
    && o.asset == r.asset
    && SameAmount(o.amount, r.amount)
    && r.observedAt <= o.lease.value.expiresAt
  }

  function AddressCandidates(db: Db, r: Request): seq<Order> {
    Select(db.orders, o => AtAddress(o, r))
  }

  ghost function ValidCandidates(db: Db, r: Request): seq<Order> {
    Select(db.orders, o => PaysFor(o, r))
  }

  const DEFAULT_CONFIRMATIONS: nat := 12

  function SettingKey(chain: string): Option<string> {
    if chain == "ETH" then Some("confirmations.eth")
    else if chain == "BSC" then Some("confirmations.bsc")
    else if chain == "SOL" then Some("confirmations.sol")
    else None
  }

  function Required(db: Db, chain: string): nat {
    var key := SettingKey(chain);
    if key.Some? && key.value in db.settings && 0 < db.settings[key.value] <= 0xFFFF_FFFF then db.settings[key.value]
    else DEFAULT_CONFIRMATIONS
  }

  function FindPlan(plans: seq<Plan>, code: string): (r: Option<Plan>)
    ensures r.Some? <==> exists p :: p in plans && p.code == code
    ensures r.Some? ==> r.value in plans && r.value.code == code
  {
    if plans == [] then None else if plans[0].code == code then Some(plans[0]) else FindPlan(plans[1..], code)
  }

  predicate Expired(o: Order, r: Request) {
    o.lease.Some? && r.observedAt > o.lease.value.expiresAt
  }

  predicate AnyOtherAsset(at: seq<Order>, r: Request) {
    exists o :: o in at && o.asset != r.asset
  }

  predicate EachExpired(at: seq<Order>, r: Request) {
    forall o :: o in at ==> Expired(o, r)
  }

  ghost predicate AnyOtherAmount(at: seq<Order>, r: Request) {
    exists o :: o in at && !SameAmount(o.amount, r.amount)
  }

  /** Why a transfer that pays for nothing, or for too much, is put under review, and which order it concerns. */
  ghost function ReviewReason(at: seq<Order>, valid: seq<Order>, r: Request): (Reason, Option<nat>) {
    if |valid| > 1 then (AmbiguousMatch, None)
    else if |at| > 1 && valid == [] then
      if AnyOtherAsset(at, r) then (WrongAsset, None)
      else if EachExpired(at, r) then (OrderExpired, Some(at[0].id))
      else (ExactAmountRequired, None)
    else if at != [] then
      if at[0].asset != r.asset then (WrongAsset, Some(at[0].id))
      else if !SameAmount(at[0].amount, r.amount) then (ExactAmountRequired, Some(at[0].id))
      else (OrderExpired, Some(at[0].id))
    else (OrderNotFound, None)
  }

  // ---------------------------------------------------------------- what a review reason means

  ghost predicate AnyAt(db: Db, r: Request) {
    exists o :: o in db.orders && AtAddress(o, r)
  }

  ghost predicate OtherAsset(db: Db, r: Request) {
    exists o :: o in db.orders && AtAddress(o, r) && o.asset != r.asset
  }

  ghost predicate OtherAmount(db: Db, r: Request) {
    exists o :: o in db.orders && AtAddress(o, r) && !SameAmount(o.amount, r.amount)
  }

  /** Orders wait on the address, all for the transferred asset, and no two of them are paid for. */
  ghost predicate RightAsset(db: Db, r: Request) {
    AnyAt(db, r) && !OtherAsset(db, r) && !PaysTwice(db, r)
  }

  ghost predicate AllExpired(db: Db, r: Request) {
    forall o :: o in db.orders && AtAddress(o, r) ==> Expired(o, r)
  }

  /** More than one order waits on the address. */
  ghost predicate Crowded(db: Db, r: Request) {
    TwoAt(db.orders, (o: Order) => AtAddress(o, r))
  }

  ghost predicate PaysTwice(db: Db, r: Request) {
    TwoAt(db.orders, (o: Order) => PaysFor(o, r))
  }

  /** Order row k is the first that waits on the address. */
  ghost predicate FirstAt(db: Db, r: Request, k: nat) {
    k < |db.orders| && AtAddress(db.orders[k], r) && forall i :: 0 <= i < k ==> !AtAddress(db.orders[i], r)
  }

  /** The address candidates in terms of the table. */
  lemma CandidatesAt(db: Db, r: Request) returns (k: nat)
    ensures var at := AddressCandidates(db, r);
      && (at == [] <==> !AnyAt(db, r)) && (|at| > 1 <==> Crowded(db, r))
      && (at != [] ==> FirstAt(db, r, k) && at[0] == db.orders[k])
      && (forall o :: o in at <==> o in db.orders && AtAddress(o, r))
  {
    var p, at := (o: Order) => AtAddress(o, r), AddressCandidates(db, r);
    SelectMany(db.orders, p);
    forall o ensures o in at <==> o in db.orders && AtAddress(o, r) {
      SelectMembers(db.orders, p, o);
    }
    if at != [] {
      assert at[0] in at;
      k := SelectFirst(db.orders, p);
    } else {
      k := 0;
      assert forall o :: o in db.orders && AtAddress(o, r) ==> o in at;
    }
  }

  /** When a transfer is put under review: exactly one of five reasons, each told by the order table alone.  A lone
      order is judged by its amount before its lease; among several an expired lease counts only if all have expired.
      */
  lemma ReasonMeaning(db: Db, r: Request)
    requires |ValidCandidates(db, r)| != 1
    ensures var reason := ReviewReason(AddressCandidates(db, r), ValidCandidates(db, r), r).0;
      && (reason == AmbiguousMatch <==> PaysTwice(db, r))
      && (reason == OrderNotFound <==> !AnyAt(db, r))
      && (reason == WrongAsset <==> !PaysTwice(db, r) && OtherAsset(db, r))
      && (reason == OrderExpired
          <==> RightAsset(db, r) && (if Crowded(db, r) then AllExpired(db, r) else !OtherAmount(db, r)))
      && (reason == ExactAmountRequired <==>
            RightAsset(db, r) && (if Crowded(db, r) then !AllExpired(db, r) else OtherAmount(db, r)))
  {
    var k := CandidatesAt(db, r);
    SelectMany(db.orders, (o: Order) => PaysFor(o, r));
    ReasonAmong(AddressCandidates(db, r), ValidCandidates(db, r), r);
    ReadOffTable(db, r, AddressCandidates(db, r));
    PaidForIsAt(db, r);
  }

  lemma PaidForIsAt(db: Db, r: Request)
    ensures PaysTwice(db, r) ==> AnyAt(db, r)
  {
    if PaysTwice(db, r) {
      var i, j :| 0 <= i < j < |db.orders| && PaysFor(db.orders[i], r) && PaysFor(db.orders[j], r);
      assert db.orders[i] in db.orders;
    }
  }

  /** The decision in terms of the two lists of candidates. */
  lemma ReasonAmong(at: seq<Order>, valid: seq<Order>, r: Request)
    requires |valid| != 1
    ensures var reason, several := ReviewReason(at, valid, r).0, |valid| > 1;
      var right := !several && at != [] && !AnyOtherAsset(at, r);
      && (reason == AmbiguousMatch <==> several)
      && (reason == OrderNotFound <==> !several && at == [])
      && (reason == WrongAsset <==> !several && AnyOtherAsset(at, r))
      && (reason == OrderExpired <==> right && (if |at| > 1 then EachExpired(at, r) else !AnyOtherAmount(at, r)))
      && (reason == ExactAmountRequired <==> right && (if |at| > 1 then !EachExpired(at, r) else AnyOtherAmount(at, r)))
  {
    if |at| == 1 {
      LoneOrder(at, r);
    }
  }

  lemma LoneOrder(at: seq<Order>, r: Request)
    requires |at| == 1
    ensures AnyOtherAsset(at, r) <==> at[0].asset != r.asset
    ensures AnyOtherAmount(at, r) <==> !SameAmount(at[0].amount, r.amount)
  {
    assert at[0] in at && forall o :: o in at ==> o == at[0];
  }

  /** What holds of some or of all candidates at the address, read off the table. */
  lemma ReadOffTable(db: Db, r: Request, at: seq<Order>)
    requires forall o :: o in at <==> o in db.orders && AtAddress(o, r)
    ensures AnyOtherAsset(at, r) <==> OtherAsset(db, r)
    ensures AnyOtherAmount(at, r) <==> OtherAmount(db, r)
    ensures EachExpired(at, r) <==> AllExpired(db, r)
  {
  }

  lemma NoneValid(db: Db, r: Request)
    ensures ValidCandidates(db, r) == [] ==> forall o :: o in db.orders ==> !PaysFor(o, r)
  {
    forall o | o in db.orders && PaysFor(o, r) ensures o in ValidCandidates(db, r) {
      SelectMembers(db.orders, (o: Order) => PaysFor(o, r), o);
    }
  }

  /** Whichever of the two it is called, an expired or mismatching order did not qualify: an expired reason about a lone
      order means its lease is over, and a mismatch among several means that one is still open with another amount. */
  lemma ReasonIsTrue(db: Db, r: Request)
    requires ValidCandidates(db, r) == []
    ensures var reason := ReviewReason(AddressCandidates(db, r), ValidCandidates(db, r), r).0;
      && (reason == OrderExpired ==> AllExpired(db, r))
      && (reason == ExactAmountRequired ==> OtherAmount(db, r))
  {
    ReasonMeaning(db, r);
    NoneValid(db, r);
  }

  /** The order a review names: the first at the address, unless there are several and they have not all expired. */
  lemma ReasonNames(db: Db, r: Request)
    requires |ValidCandidates(db, r)| != 1
    ensures var (reason, about) := ReviewReason(AddressCandidates(db, r), ValidCandidates(db, r), r);
      && (about.Some? <==> AnyAt(db, r) && !PaysTwice(db, r) && (Crowded(db, r) ==> reason == OrderExpired))
      && (about.Some? ==> exists k: nat :: FirstAt(db, r, k) && about == Some(db.orders[k].id))
  {
    var at, valid := AddressCandidates(db, r), ValidCandidates(db, r);
    var k := CandidatesAt(db, r);
    SelectMany(db.orders, (o: Order) => PaysFor(o, r));
    NamedOrder(at, valid, r);
  }

  lemma NamedOrder(at: seq<Order>, valid: seq<Order>, r: Request)
    requires |valid| != 1
    ensures var (reason, about) := ReviewReason(at, valid, r);
      && (about.Some? <==> at != [] && |valid| <= 1 && (|at| > 1 ==> reason == OrderExpired))
      && (about.Some? ==> about == Some(at[0].id))
  {
  }

  // ---------------------------------------------------------------- the store

  /** The row update of a payment: every row with that id. */
  function MarkPaid(o: Order, id: nat, txHash: string, at: int): Order {
    if o.id == id then o.(paidAt := Some(at), txHash := Some(txHash)) else o
  }

  function PaidOrders(orders: seq<Order>, id: nat, txHash: string, at: int): (r: seq<Order>)
    ensures |r| == |orders| && forall i :: 0 <= i < |r| ==> r[i] == MarkPaid(orders[i], id, txHash, at)
  {
    seq(|orders|, i requires 0 <= i < |orders| => MarkPaid(orders[i], id, txHash, at))
  }

  /** A deposit row that a payment settles. */
  function MarkSettled(deposits: map<Key, Deposit>, key: Key, id: nat, status: Status): map<Key, Deposit> {
    if key in deposits then deposits[key := deposits[key].(orderId := Some(id), status := status)] else deposits
  }

  /** One database transaction: the order is paid, the member's period stored and the deposit settled. */
  function Pay(db: Db, id: nat, key: Key, at: int, email: string, member: Entitlement.Member, status: Status): Db {
    db.(orders := PaidOrders(db.orders, id, key.txHash, at), members := db.members[email := member],
        deposits := MarkSettled(db.deposits, key, id, status))
  }

  function MemberOf(db: Db, email: string): Option<Entitlement.Member> {
    if email in db.members then Some(db.members[email]) else None
  }

  // ---------------------------------------------------------------- one observed transfer

  /** The store writes of one call. */
  datatype Write =
    | Confirm(orderId: nat)
    | Credit(order: Order, member: Entitlement.Member)
    | AskReview(reason: Reason, about: Option<nat>)

  /** What a call writes, in order, and what it answers. */
  datatype Decision = Decision(writes: seq<Write>, reply: Reply)

  /** The write of a call that may fail. */
  function Attempt(fault: Fault, w: Write): seq<Write> {
    if fault == Fails then [] else [w]
  }

  /** The part after the payment is stored: only notifications, any of which may fail. */
  function Notify(db: Db, order: Order, faults: Faults): Reply {
    if faults(FindBinding) != Works || faults(LogInApp) != Works then StorageError
    else if order.email in db.bound && faults(LogTelegram) != Works then StorageError
    else Paid(order.id)
  }

  /** Enough confirmations: look up the plan, compute the period and store the payment. */
  function Settle(db: Db, r: Request, order: Order, faults: Faults): Decision {
    var plan := FindPlan(db.plans, order.planCode);
    if faults(ListPlans) != Works then Decision([], StorageError)
    else if plan.None? then Decision([], PlanNotConfigured)
    else if faults(FindMember) != Works then Decision([], StorageError)
    else
      var member := Entitlement.Window(MemberOf(db, order.email), plan.value.days, r.observedAt);
      Decision(Attempt(faults(ApplyPayment), Credit(order, member)),
               if faults(ApplyPayment) != Works then StorageError else Notify(db, order, faults))
  }

  function MatchOrder(db: Db, r: Request, order: Order, faults: Faults): Decision {
    if SettingKey(r.key.chain).Some? && faults(ReadSetting) != Works then Decision([], StorageError)
    else if faults(RecordConfirming) != Works
        then Decision(Attempt(faults(RecordConfirming), Confirm(order.id)), StorageError)
    else if r.confirmations < Required(db, r.key.chain) then Decision([Confirm(order.id)], Awaiting(order.id))
    else
      var settled := Settle(db, r, order, faults);
      Decision([Confirm(order.id)] + settled.writes, settled.reply)
  }

  ghost function SendToReview(db: Db, r: Request, faults: Faults): Decision {
    var (reason, about) := ReviewReason(AddressCandidates(db, r), ValidCandidates(db, r), r);
    Decision(Attempt(faults(RecordReview), AskReview(reason, about)),
             if faults(RecordReview) != Works then StorageError else Review(reason, about))
  }

  /** `process_observed_transfer` on a well-formed request, as a decision on the store it finds. */
  ghost function Decide(db: Db, r: Request, faults: Faults): Decision {
    var key := r.key;
    if faults(ListDeposits) != Works then Decision([], StorageError)
    else if key in db.deposits && db.deposits[key].status != Confirming then Decision([], Duplicate)
    else if faults(ListOrders) != Works then Decision([], StorageError)
    else if |ValidCandidates(db, r)| == 1 then MatchOrder(db, r, ValidCandidates(db, r)[0], faults)
    else if key in db.deposits then Decision([], Duplicate)
    else SendToReview(db, r, faults)
  }

  ghost function DepositRow(r: Request, orderId: Option<nat>, status: Status, reason: Reason): Deposit {
    Deposit(r.asset, r.address, r.amount,
            r.observedAt, orderId, status, reason)
  }

  ghost function Apply(db: Db, r: Request, w: Write): Db {
    match w
    case Confirm(id) =>
      db.(deposits := db.deposits[r.key := DepositRow(r, Some(id), Confirming, AwaitingConfirmations)])
    case Credit(order, member) => Pay(db, order.id, r.key, r.observedAt, order.email, member, Matched)
    case AskReview(reason, about) => db.(deposits := db.deposits[r.key := DepositRow(r, about, UnderReview, reason)])
  }

  ghost function ApplyAll(db: Db, r: Request, writes: seq<Write>): Db
    decreases |writes|
  {
    if writes == [] then db else ApplyAll(Apply(db, r, writes[0]), r, writes[1..])
  }

  ghost function Process(db: Db, r: Request, faults: Faults): Db {
    ApplyAll(db, r, Decide(db, r, faults).writes)
  }

  /** The whole call: malformed input is refused before the store is touched. */
  ghost function Reaction(db: Db, t: Transfer, upper: Casing, faults: Faults): (Db, Reply) {
    match Parse(t, upper)
    case Malformed(field) => (db, Invalid(field))
    case WellFormed(r) => (Process(db, r, faults), Decide(db, r, faults).reply)
  }

  // ---------------------------------------------------------------- when a call reports a payment

  /** Row k, and no other row, pays for the transfer. */
  ghost predicate OnlyOrder(db: Db, r: Request, k: int) {
    OnlyAt(db.orders, (o: Order) => PaysFor(o, r), k)
  }

  /** No store call that settling the order needs fails. */
  predicate Healthy(db: Db, r: Request, order: Order, faults: Faults) {
    && faults(RecordConfirming) == faults(ListPlans) == faults(FindMember) == faults(ApplyPayment) == Works
    && faults(FindBinding) == faults(LogInApp) == Works
    && (SettingKey(r.key.chain).Some? ==> faults(ReadSetting) == Works)
    && (order.email in db.bound ==> faults(LogTelegram) == Works)
  }

  predicate Settles(db: Db, r: Request, order: Order, faults: Faults) {
    && r.confirmations >= Required(db, r.key.chain)
    && (exists p :: p in db.plans && p.code == order.planCode)
    && Healthy(db, r, order, faults)
  }

  /** The one order a call may settle. */
  lemma CandidateIsOnlyOrder(db: Db, r: Request) returns (k: nat)
    requires |ValidCandidates(db, r)| == 1
    ensures OnlyOrder(db, r, k) && ValidCandidates(db, r) == [db.orders[k]]
    ensures forall j :: OnlyOrder(db, r, j) ==> j == k
  {
    k := SelectOne(db.orders, o => PaysFor(o, r));
  }

  lemma OnlyOrderIsCandidate(db: Db, r: Request, k: nat)
    requires OnlyOrder(db, r, k)
    ensures ValidCandidates(db, r) == [db.orders[k]]
  {
    SelectOnly(db.orders, o => PaysFor(o, r), k);
  }

  /** With one paying order that is not settled yet, the call does what matching it says. */
  lemma DecideMatches(db: Db, r: Request, faults: Faults, k: nat)
    requires OnlyOrder(db, r, k) && (r.key in db.deposits ==> db.deposits[r.key].status == Confirming)
    requires faults(ListDeposits) == faults(ListOrders) == Works
    ensures Decide(db, r, faults) == MatchOrder(db, r, db.orders[k], faults)
  {
    OnlyOrderIsCandidate(db, r, k);
  }

  lemma MatchPaidIff(db: Db, r: Request, order: Order, faults: Faults, id: nat)
    ensures MatchOrder(db, r, order, faults).reply == Paid(id) <==> order.id == id && Settles(db, r, order, faults)
  {
  }

  /** A payment is reported exactly when the deposit is new or still confirming, one order and only one is paid for, the
      confirmations suffice, its plan exists and no store call failed. */
  lemma PaidIff(db: Db, r: Request, faults: Faults, id: nat)
    ensures Decide(db, r, faults).reply == Paid(id) <==>
      && faults(ListDeposits) == faults(ListOrders) == Works
      && (r.key in db.deposits ==> db.deposits[r.key].status == Confirming)
      && exists k :: OnlyOrder(db, r, k) && db.orders[k].id == id && Settles(db, r, db.orders[k], faults)
  {
    var open := faults(ListDeposits) == faults(ListOrders) == Works
             && (r.key in db.deposits ==> db.deposits[r.key].status == Confirming);
    if open && |ValidCandidates(db, r)| == 1 {
      var k := CandidateIsOnlyOrder(db, r);
      DecideMatches(db, r, faults, k);
      MatchPaidIff(db, r, db.orders[k], faults, id);
    } else {
      forall k | OnlyOrder(db, r, k) ensures !open {
        OnlyOrderIsCandidate(db, r, k);
      }
    }
  }

  /** The store after a payment of order row k under a plan. */
  ghost function Credited(db: Db, r: Request, k: nat, plan: Plan): Db
    requires k < |db.orders|
  {
    var order := db.orders[k];
    db.(orders := db.orders[k := order.(paidAt := Some(r.observedAt), txHash := Some(r.key.txHash))],
        deposits := db.deposits[r.key := DepositRow(r, Some(order.id), Matched, AwaitingConfirmations)],
        members := db.members[order.email := Entitlement.Window(MemberOf(db, order.email), plan.days, r.observedAt)])
  }

  /** A reported payment changes one order, one deposit and one membership, and nothing else. */
  lemma PaymentEffect(db: Db, r: Request, faults: Faults, k: nat)
    requires OnlyOrder(db, r, k) && forall i :: 0 <= i < |db.orders| && db.orders[i].id == db.orders[k].id ==> i == k
    requires Decide(db, r, faults).reply == Paid(db.orders[k].id)
    ensures exists plan ::
      plan in db.plans && plan.code == db.orders[k].planCode && Process(db, r, faults) == Credited(db, r, k, plan)
  {
    OnlyOrderIsCandidate(db, r, k);
    var order := db.orders[k];
    MatchPaidIff(db, r, order, faults, order.id);
    var plan := FindPlan(db.plans, order.planCode).value;
    var member := Entitlement.Window(MemberOf(db, order.email), plan.days, r.observedAt);
    assert Decide(db, r, faults).writes == [Confirm(order.id), Credit(order, member)];
    CreditEffect(db, r, k, plan);
  }

  lemma CreditEffect(db: Db, r: Request, k: nat, plan: Plan)
    requires k < |db.orders| && forall i :: 0 <= i < |db.orders| && db.orders[i].id == db.orders[k].id ==> i == k
    ensures var order := db.orders[k];
      ApplyAll(db, r, [Confirm(order.id),
          Credit(order, Entitlement.Window(MemberOf(db, order.email), plan.days, r.observedAt))])
      == Credited(db, r, k, plan)
  {
    var order := db.orders[k];
    TwoWrites(db, r, Confirm(order.id),
        Credit(order, Entitlement.Window(MemberOf(db, order.email), plan.days, r.observedAt)));
    assert PaidOrders(db.orders, order.id, r.key.txHash, r.observedAt) == Credited(db, r, k, plan).orders;
  }

  lemma TwoWrites(db: Db, r: Request, a: Write, b: Write)
    ensures ApplyAll(db, r, [a, b]) == Apply(Apply(db, r, a), r, b)
  {
    assert [a, b][1..] == [b] && [b][1..] == [];
    assert ApplyAll(Apply(db, r, a), r, [b]) == Apply(Apply(db, r, a), r, b);
  }
}
