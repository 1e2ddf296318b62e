/** Every answer of `process_observed_transfer` (apps/billing-chain-listener/src/processor.rs): exactly when it is given
    and what it leaves in the store, told by the transfer and the tables. */
module DepositReplies {
  import opened Common
  import opened Deposits
  import Amounts

  // ---------------------------------------------------------------- the same text on a chain

  /** Equal, or the two cases of one ASCII letter. */
  predicate SameLetter(a: char, b: char) {
    || a == b
    || ('a' <= a <= 'z' && a as int == b as int + 32)
    || ('a' <= b <= 'z' && b as int == a as int + 32)
  }

  /** Two texts denote one address or one hash: they differ in outer white space and, where addresses are hexadecimal,
      in the case of letters. */
  ghost predicate SameText(chain: string, a: string, b: string) {
    var x, y := Amounts.Trim(a), Amounts.Trim(b);
    if chain in {"ETH", "BSC"} then |x| == |y| && forall i :: 0 <= i < |x| ==> SameLetter(x[i], y[i])
    else x == y
  }

  lemma LowerEqualIff(x: string, y: string)
    ensures Lower(x) == Lower(y) <==> |x| == |y| && forall i :: 0 <= i < |x| ==> SameLetter(x[i], y[i])
  {
    if Lower(x) == Lower(y) {
      assert |x| == |Lower(x)| == |Lower(y)| == |y|;
      forall i | 0 <= i < |x| ensures SameLetter(x[i], y[i]) {
        assert Lower(x)[i] == Lower(y)[i];
      }
    } else if |x| == |y| {
      assert exists i :: 0 <= i < |x| && Lower(x)[i] != Lower(y)[i];
    }
  }

  /** Normalised texts are equal exactly when the texts denote the same. */
  lemma OnChainEqualIff(chain: string, a: string, b: string)
    ensures OnChain(chain, a) == OnChain(chain, b) <==> SameText(chain, a, b)
  {
    LowerEqualIff(Amounts.Trim(a), Amounts.Trim(b));
  }

  lemma TrimmedTwice(chain: string, text: string)
    ensures OnChain(chain, Amounts.Trim(text)) == OnChain(chain, text)
  {
    Amounts.TrimEdges(text);
    Amounts.TrimOfPlain(Amounts.Trim(text));
  }

  ghost function ChainOf(t: Transfer, upper: Casing): string { Upper(Amounts.Trim(t.chain), upper) }

  ghost function AssetOf(t: Transfer, upper: Casing): string { Upper(Amounts.Trim(t.asset), upper) }

  /** Two observations are one deposit exactly when they name the same chain and the same hash on it. */
  lemma SameKeyIff(t: Transfer, u: Transfer, upper: Casing)
    requires Parse(t, upper).WellFormed? && Parse(u, upper).WellFormed?
    ensures Parse(t, upper).request.key == Parse(u, upper).request.key <==>
      ChainOf(t, upper) == ChainOf(u, upper) && SameText(ChainOf(t, upper), t.txHash, u.txHash)
  {
    TrimmedTwice(ChainOf(t, upper), t.txHash);
    TrimmedTwice(ChainOf(u, upper), u.txHash);
    OnChainEqualIff(ChainOf(t, upper), t.txHash, u.txHash);
  }

  /** Which observations are refused, and for which field: the first one that is empty, or an amount that is no
      number. */
  lemma InvalidIff(t: Transfer, upper: Casing, field: Field)
    ensures Parse(t, upper) == Malformed(field) <==>
      var first :=
        if ChainOf(t, upper) == "" then Some(ChainField)
        else if AssetOf(t, upper) == "" then Some(AssetField)
        else if Amounts.Trim(t.address) == "" then Some(AddressField)
        else if Amounts.Trim(t.txHash) == "" then Some(TxHashField)
        else if !Amounts.Accepted(t.amount) then Some(AmountField)
        else None;
      first == Some(field)
  {
    var chain := ChainOf(t, upper);
    TrimmedTwice(chain, t.address);
    TrimmedTwice(chain, t.txHash);
    assert |Lower(Amounts.Trim(t.address))| == |Amounts.Trim(t.address)|;
    assert |Lower(Amounts.Trim(t.txHash))| == |Amounts.Trim(t.txHash)|;
  }

  // ---------------------------------------------------------------- which orders a transfer meets

  /** An unpaid order, requested no later than the transfer was seen, leased the address it went to. */
  ghost predicate Waits(o: Order, t: Transfer, upper: Casing) {
    && o.paidAt == None && o.lease.Some?
    && o.requestedAt <= t.observedAt && o.chain == ChainOf(t, upper)
    && SameText(ChainOf(t, upper), o.lease.value.address, t.address)
  }

  /** And it asks for that asset and that amount, and its lease had not run out. */
  ghost predicate IsPaid(o: Order, t: Transfer, upper: Casing) {
    && Waits(o, t, upper) && o.asset == AssetOf(t, upper)
    && Amounts.Accepted(o.amount) && Amounts.Accepted(t.amount) && Amounts.Units(o.amount) == Amounts.Units(t.amount)
    && t.observedAt <= o.lease.value.expiresAt
  }

  lemma WaitsIff(o: Order, t: Transfer, upper: Casing)
    requires Parse(t, upper).WellFormed?
    ensures AtAddress(o, Parse(t, upper).request) <==> Waits(o, t, upper)
  {
    var chain := ChainOf(t, upper);
    TrimmedTwice(chain, t.address);
    if o.lease.Some? {
      OnChainEqualIff(chain, o.lease.value.address, t.address);
    }
  }

  lemma IsPaidIff(o: Order, t: Transfer, upper: Casing)
    requires Parse(t, upper).WellFormed?
    ensures PaysFor(o, Parse(t, upper).request) <==> IsPaid(o, t, upper)
  {
    WaitsIff(o, t, upper);
    ParsedAmount(t, upper);
  }

  /** Row k of the orders, and no other, is paid by the transfer. */
  ghost predicate OnlyPaid(db: Db, t: Transfer, upper: Casing, k: int) {
    && 0 <= k < |db.orders| && IsPaid(db.orders[k], t, upper)
    && forall i :: 0 <= i < |db.orders| && IsPaid(db.orders[i], t, upper) ==> i == k
  }

  /** Confirmations a chain needs: the configured number, when there is one from 1 to 2^32 - 1, else twelve. */
  function Needed(settings: map<string, nat>, chain: string): nat {
    var name := "confirmations." + Lower(chain);
    if chain in {"ETH", "BSC", "SOL"} && name in settings && 1 <= settings[name] < 4294967296
    then settings[name] else 12
  }

  lemma RequiredIsNeeded(db: Db, chain: string)
    ensures Required(db, chain) == Needed(db.settings, chain)
    ensures SettingKey(chain).Some? <==> chain in {"ETH", "BSC", "SOL"}
  {
    assert Lower("ETH") == "eth" && Lower("BSC") == "bsc" && Lower("SOL") == "sol";
    assert "confirmations." + "eth" == "confirmations.eth";
    assert "confirmations." + "bsc" == "confirmations.bsc";
    assert "confirmations." + "sol" == "confirmations.sol";
  }

  // ---------------------------------------------------------------- why a transfer is put under review

  ghost predicate SomeWaits(db: Db, t: Transfer, upper: Casing) {
    exists i :: 0 <= i < |db.orders| && Waits(db.orders[i], t, upper)
  }

  ghost predicate TwoWait(db: Db, t: Transfer, upper: Casing) {
    exists i, j :: 0 <= i < j < |db.orders| && Waits(db.orders[i], t, upper) && Waits(db.orders[j], t, upper)
  }

  ghost predicate TwoPaid(db: Db, t: Transfer, upper: Casing) {
    exists i, j :: 0 <= i < j < |db.orders| && IsPaid(db.orders[i], t, upper) && IsPaid(db.orders[j], t, upper)
  }

  ghost predicate WaitsForOther(db: Db, t: Transfer, upper: Casing) {
    exists i :: 0 <= i < |db.orders| && Waits(db.orders[i], t, upper) && db.orders[i].asset != AssetOf(t, upper)
  }

  ghost predicate AsksOtherAmount(o: Order, t: Transfer) {
    !(Amounts.Accepted(o.amount) && Amounts.Accepted(t.amount) && Amounts.Units(o.amount) == Amounts.Units(t.amount))
  }

  ghost predicate WaitsForOtherAmount(db: Db, t: Transfer, upper: Casing) {
    exists i :: 0 <= i < |db.orders| && Waits(db.orders[i], t, upper) && AsksOtherAmount(db.orders[i], t)
  }

  ghost predicate AllOver(db: Db, t: Transfer, upper: Casing) {
    forall i :: 0 <= i < |db.orders| && Waits(db.orders[i], t, upper) ==>
      t.observedAt > db.orders[i].lease.value.expiresAt
  }

  /** The reason, read off the order table. */
  ghost function ReasonOf(db: Db, t: Transfer, upper: Casing): Reason {
    if TwoPaid(db, t, upper) then AmbiguousMatch
    else if !SomeWaits(db, t, upper) then OrderNotFound
    else if WaitsForOther(db, t, upper) then WrongAsset
    else if TwoWait(db, t, upper) then if AllOver(db, t, upper) then OrderExpired else ExactAmountRequired
    else if WaitsForOtherAmount(db, t, upper) then ExactAmountRequired else OrderExpired
  }

  ghost predicate FirstWaits(db: Db, t: Transfer, upper: Casing, k: int) {
    && 0 <= k < |db.orders| && Waits(db.orders[k], t, upper)
    && forall i :: 0 <= i < k ==> !Waits(db.orders[i], t, upper)
  }

  /** The order a review names: the first that waits, unless two are paid for or several wait that are not all over. */
  ghost predicate Names(db: Db, t: Transfer, upper: Casing, about: Option<nat>) {
    if SomeWaits(db, t, upper) && !TwoPaid(db, t, upper)
       && (TwoWait(db, t, upper) ==> ReasonOf(db, t, upper) == OrderExpired)
    then exists k :: FirstWaits(db, t, upper, k) && about == Some(db.orders[k].id)
    else about == None
  }

  lemma TableOfRequest(db: Db, t: Transfer, upper: Casing, r: Request)
    requires Parse(t, upper) == WellFormed(r)
    ensures forall i :: 0 <= i < |db.orders| ==> (AtAddress(db.orders[i], r) <==> Waits(db.orders[i], t, upper))
    ensures forall i :: 0 <= i < |db.orders| ==> (PaysFor(db.orders[i], r) <==> IsPaid(db.orders[i], t, upper))
    ensures forall i :: 0 <= i < |db.orders| ==>
      (!SameAmount(db.orders[i].amount, r.amount) <==> AsksOtherAmount(db.orders[i], t))
  {
    ParsedAmount(t, upper);
    forall i | 0 <= i < |db.orders|
      ensures AtAddress(db.orders[i], r) <==> Waits(db.orders[i], t, upper)
      ensures PaysFor(db.orders[i], r) <==> IsPaid(db.orders[i], t, upper)
    {
      WaitsIff(db.orders[i], t, upper);
      IsPaidIff(db.orders[i], t, upper);
    }
  }

  lemma OnlyPaidIff(db: Db, t: Transfer, upper: Casing, r: Request, k: int)
    requires Parse(t, upper) == WellFormed(r)
    ensures OnlyPaid(db, t, upper, k) <==> OnlyOrder(db, r, k)
  {
    TableOfRequest(db, t, upper, r);
  }

  /** What holds of some listed order, by content and by position. */
  lemma SomeListed(orders: seq<Order>, p: Order -> bool)
    ensures (exists o :: o in orders && p(o)) <==> exists i :: 0 <= i < |orders| && p(orders[i])
  {
    if o :| o in orders && p(o) {
      var i :| 0 <= i < |orders| && orders[i] == o;
    }
    if i :| 0 <= i < |orders| && p(orders[i]) {
      assert orders[i] in orders;
    }
  }

  lemma SomeWaitsAgrees(db: Db, t: Transfer, upper: Casing, r: Request)
    requires Parse(t, upper) == WellFormed(r)
    ensures AnyAt(db, r) <==> SomeWaits(db, t, upper)
  {
    TableOfRequest(db, t, upper, r);
    SomeListed(db.orders, o => AtAddress(o, r));
  }

  lemma OtherAssetAgrees(db: Db, t: Transfer, upper: Casing, r: Request)
    requires Parse(t, upper) == WellFormed(r)
    ensures OtherAsset(db, r) <==> WaitsForOther(db, t, upper)
  {
    TableOfRequest(db, t, upper, r);
    SomeListed(db.orders, o => AtAddress(o, r) && o.asset != r.asset);
  }

  lemma OtherAmountAgrees(db: Db, t: Transfer, upper: Casing, r: Request)
    requires Parse(t, upper) == WellFormed(r)
    ensures OtherAmount(db, r) <==> WaitsForOtherAmount(db, t, upper)
  {
    TableOfRequest(db, t, upper, r);
    SomeListed(db.orders, o => AtAddress(o, r) && !SameAmount(o.amount, r.amount));
  }

  lemma AllOverAgrees(db: Db, t: Transfer, upper: Casing, r: Request)
    requires Parse(t, upper) == WellFormed(r)
    ensures AllExpired(db, r) <==> AllOver(db, t, upper)
  {
    TableOfRequest(db, t, upper, r);
    SomeListed(db.orders, o => AtAddress(o, r) && !Expired(o, r));
  }

  lemma PredicatesAgree(db: Db, t: Transfer, upper: Casing, r: Request)
    requires Parse(t, upper) == WellFormed(r)
    ensures AnyAt(db, r) <==> SomeWaits(db, t, upper)
    ensures OtherAsset(db, r) <==> WaitsForOther(db, t, upper)
    ensures OtherAmount(db, r) <==> WaitsForOtherAmount(db, t, upper)
    ensures AllExpired(db, r) <==> AllOver(db, t, upper)
  {
    SomeWaitsAgrees(db, t, upper, r);
    OtherAssetAgrees(db, t, upper, r);
    OtherAmountAgrees(db, t, upper, r);
    AllOverAgrees(db, t, upper, r);
  }

  lemma PairsAgree(db: Db, t: Transfer, upper: Casing, r: Request)
    requires Parse(t, upper) == WellFormed(r)
    ensures Crowded(db, r) <==> TwoWait(db, t, upper)
    ensures PaysTwice(db, r) <==> TwoPaid(db, t, upper)
  {
    TableOfRequest(db, t, upper, r);
  }

  /** The classification of the code is the reason read off the table. */
  lemma ReasonAgrees(db: Db, t: Transfer, upper: Casing, r: Request)
    requires Parse(t, upper) == WellFormed(r) && |ValidCandidates(db, r)| != 1
    ensures ReviewReason(AddressCandidates(db, r), ValidCandidates(db, r), r).0 == ReasonOf(db, t, upper)
  {
    ReasonMeaning(db, r);
    PredicatesAgree(db, t, upper, r);
    PairsAgree(db, t, upper, r);
  }

  lemma NamesAgrees(db: Db, t: Transfer, upper: Casing, r: Request)
    requires Parse(t, upper) == WellFormed(r) && |ValidCandidates(db, r)| != 1
    ensures Names(db, t, upper, ReviewReason(AddressCandidates(db, r), ValidCandidates(db, r), r).1)
  {
    ReasonAgrees(db, t, upper, r);
    ReasonNames(db, r);
    PredicatesAgree(db, t, upper, r);
    PairsAgree(db, t, upper, r);
    if k: nat :| FirstAt(db, r, k) {
      FirstAgrees(db, t, upper, r, k);
    }
  }

  lemma FirstAgrees(db: Db, t: Transfer, upper: Casing, r: Request, k: nat)
    requires Parse(t, upper) == WellFormed(r)
    ensures FirstAt(db, r, k) <==> FirstWaits(db, t, upper, k)
  {
    TableOfRequest(db, t, upper, r);
  }

  lemma NamesOne(db: Db, t: Transfer, upper: Casing, a: Option<nat>, b: Option<nat>)
    requires Names(db, t, upper, a) && Names(db, t, upper, b)
    ensures a == b
  {
  }

  // ---------------------------------------------------------------- the answers

  /** Exactly one order is paid for. */
  ghost predicate OnePaid(db: Db, t: Transfer, upper: Casing) {
    exists k :: OnlyPaid(db, t, upper, k)
  }

  lemma OnePaidIff(db: Db, t: Transfer, upper: Casing, r: Request)
    requires Parse(t, upper) == WellFormed(r)
    ensures OnePaid(db, t, upper) <==> |ValidCandidates(db, r)| == 1
  {
    if |ValidCandidates(db, r)| == 1 {
      var k := CandidateIsOnlyOrder(db, r);
      OnlyPaidIff(db, t, upper, r, k);
    }
    if k :| OnlyPaid(db, t, upper, k) {
      OnlyPaidIff(db, t, upper, r, k);
      OnlyOrderIsCandidate(db, r, k);
    }
  }

  /** The deposit is not known, or still waits for confirmations. */
  predicate Open(db: Db, key: Key) {
    key in db.deposits ==> db.deposits[key].status == Confirming
  }

  ghost function AnswerTo(db: Db, t: Transfer, upper: Casing, faults: Faults): Reply {
    Reaction(db, t, upper, faults).1
  }

  ghost function StoreAfter(db: Db, t: Transfer, upper: Casing, faults: Faults): Db {
    Reaction(db, t, upper, faults).0
  }

  /** The deposit row of a transfer. */
  ghost function RowOf(t: Transfer, upper: Casing, orderId: Option<nat>, status: Status, reason: Reason): Deposit
    requires Amounts.Accepted(t.amount)
  {
    Deposit(AssetOf(t, upper), OnChain(ChainOf(t, upper), t.address), Amounts.Render(Amounts.Units(t.amount)),
            t.observedAt, orderId, status, reason)
  }

  lemma RowIsDeposit(t: Transfer, upper: Casing, r: Request, orderId: Option<nat>, status: Status, reason: Reason)
    requires Parse(t, upper) == WellFormed(r)
    ensures Amounts.Accepted(t.amount)
    ensures DepositRow(r, orderId, status, reason) == RowOf(t, upper, orderId, status, reason)
  {
    TrimmedTwice(ChainOf(t, upper), t.address);
  }

  lemma OneWritten(db: Db, r: Request, w: Write)
    ensures ApplyAll(db, r, [w]) == Apply(db, r, w)
  {
    assert [w][1..] == [];
    assert ApplyAll(Apply(db, r, w), r, []) == Apply(db, r, w);
  }

  lemma ReactionIs(db: Db, t: Transfer, upper: Casing, faults: Faults, r: Request)
    requires Parse(t, upper) == WellFormed(r)
    ensures AnswerTo(db, t, upper, faults) == Decide(db, r, faults).reply
    ensures StoreAfter(db, t, upper, faults) == ApplyAll(db, r, Decide(db, r, faults).writes)
  {
  }

  lemma MatchNeverDuplicates(db: Db, r: Request, order: Order, faults: Faults)
    ensures !MatchOrder(db, r, order, faults).reply.Duplicate? && !MatchOrder(db, r, order, faults).reply.Review?
  {
  }

  lemma DecideDuplicate(db: Db, r: Request, faults: Faults, one: bool)
    requires one <==> |ValidCandidates(db, r)| == 1
    ensures Decide(db, r, faults).reply == Duplicate <==>
      && faults(ListDeposits) == Works && r.key in db.deposits
      && (db.deposits[r.key].status != Confirming || (faults(ListOrders) == Works && !one))
    ensures Decide(db, r, faults).reply == Duplicate ==> Decide(db, r, faults).writes == []
  {
    if one {
      MatchNeverDuplicates(db, r, ValidCandidates(db, r)[0], faults);
    }
  }

  /** A duplicate is reported exactly when the deposit is known and decided, or known and still open without a single
      order it pays; nothing changes. */
  lemma DuplicateIff(db: Db, t: Transfer, upper: Casing, faults: Faults, r: Request)
    requires Parse(t, upper) == WellFormed(r)
    ensures AnswerTo(db, t, upper, faults) == Duplicate <==>
      && faults(ListDeposits) == Works && r.key in db.deposits
      && (db.deposits[r.key].status != Confirming || (faults(ListOrders) == Works && !OnePaid(db, t, upper)))
    ensures AnswerTo(db, t, upper, faults) == Duplicate ==> StoreAfter(db, t, upper, faults) == db
  {
    ReactionIs(db, t, upper, faults, r);
    OnePaidIff(db, t, upper, r);
    DecideDuplicate(db, r, faults, OnePaid(db, t, upper));
  }

  lemma DecideReview(db: Db, r: Request, faults: Faults, one: bool, reason: Reason, about: Option<nat>)
    requires one <==> |ValidCandidates(db, r)| == 1
    ensures Decide(db, r, faults).reply == Review(reason, about) <==>
      && faults(ListDeposits) == faults(ListOrders) == faults(RecordReview) == Works
      && r.key !in db.deposits && !one
      && ReviewReason(AddressCandidates(db, r), ValidCandidates(db, r), r) == (reason, about)
    ensures Decide(db, r, faults).reply == Review(reason, about) ==>
      Decide(db, r, faults).writes == [AskReview(reason, about)]
  {
    if one {
      MatchNeverDuplicates(db, r, ValidCandidates(db, r)[0], faults);
    }
  }

  /** What the code calls the reason and the order are those read off the table. */
  lemma ClassifiedIff(db: Db, t: Transfer, upper: Casing, r: Request, reason: Reason, about: Option<nat>)
    requires Parse(t, upper) == WellFormed(r) && |ValidCandidates(db, r)| != 1
    ensures ReviewReason(AddressCandidates(db, r), ValidCandidates(db, r), r) == (reason, about) <==>
      reason == ReasonOf(db, t, upper) && Names(db, t, upper, about)
  {
    ReasonAgrees(db, t, upper, r);
    NamesAgrees(db, t, upper, r);
    if Names(db, t, upper, about) {
      NamesOne(db, t, upper, about, ReviewReason(AddressCandidates(db, r), ValidCandidates(db, r), r).1);
    }
  }

  lemma ReviewStored(db: Db, t: Transfer, upper: Casing, r: Request, reason: Reason, about: Option<nat>)
    requires Parse(t, upper) == WellFormed(r)
    ensures Amounts.Accepted(t.amount)
    ensures ApplyAll(db, r, [AskReview(reason, about)]) ==
            db.(deposits := db.deposits[r.key := RowOf(t, upper, about, UnderReview, reason)])
  {
    OneWritten(db, r, AskReview(reason, about));
    RowIsDeposit(t, upper, r, about, UnderReview, reason);
  }

  /** A transfer is put under review exactly when its deposit is not known and not exactly one order is paid for, with
      the reason and the order read off the table; the review is stored and nothing else changes. */
  lemma ReviewIff(db: Db, t: Transfer, upper: Casing, faults: Faults, r: Request, reason: Reason, about: Option<nat>)
    requires Parse(t, upper) == WellFormed(r)
    ensures AnswerTo(db, t, upper, faults) == Review(reason, about) <==>
      && faults(ListDeposits) == faults(ListOrders) == faults(RecordReview) == Works
      && r.key !in db.deposits && !OnePaid(db, t, upper)
      && reason == ReasonOf(db, t, upper) && Names(db, t, upper, about)
    ensures AnswerTo(db, t, upper, faults) == Review(reason, about) ==>
      && Amounts.Accepted(t.amount)
      && StoreAfter(db, t, upper, faults) ==
         db.(deposits := db.deposits[r.key := RowOf(t, upper, about, UnderReview, reason)])
  {
    ReactionIs(db, t, upper, faults, r);
    OnePaidIff(db, t, upper, r);
    DecideReview(db, r, faults, OnePaid(db, t, upper), reason, about);
    if |ValidCandidates(db, r)| != 1 {
      ClassifiedIff(db, t, upper, r, reason, about);
    }
    ReviewStored(db, t, upper, r, reason, about);
  }

  /** What matching an order needs before the confirmations are looked at. */
  predicate Recordable(r: Request, faults: Faults) {
    faults(RecordConfirming) == Works && (SettingKey(r.key.chain).Some? ==> faults(ReadSetting) == Works)
  }

  lemma MatchAwaits(db: Db, r: Request, order: Order, faults: Faults, id: nat)
    ensures MatchOrder(db, r, order, faults).reply == Awaiting(id) <==>
      Recordable(r, faults) && r.confirmations < Required(db, r.key.chain) && order.id == id
    ensures MatchOrder(db, r, order, faults).reply == Awaiting(id) ==>
      MatchOrder(db, r, order, faults).writes == [Confirm(id)]
  {
  }

  lemma DecideAwaiting(db: Db, r: Request, faults: Faults, id: nat)
    ensures Decide(db, r, faults).reply == Awaiting(id) <==>
      && faults(ListDeposits) == faults(ListOrders) == Works && Open(db, r.key) && Recordable(r, faults)
      && r.confirmations < Required(db, r.key.chain)
      && |ValidCandidates(db, r)| == 1 && ValidCandidates(db, r)[0].id == id
    ensures Decide(db, r, faults).reply == Awaiting(id) ==> Decide(db, r, faults).writes == [Confirm(id)]
  {
    if |ValidCandidates(db, r)| == 1 {
      MatchAwaits(db, r, ValidCandidates(db, r)[0], faults, id);
    }
  }

  /** The only candidate has this id. */
  lemma CandidateIs(db: Db, t: Transfer, upper: Casing, r: Request, id: nat)
    requires Parse(t, upper) == WellFormed(r)
    ensures |ValidCandidates(db, r)| == 1 && ValidCandidates(db, r)[0].id == id <==>
      exists k :: OnlyPaid(db, t, upper, k) && db.orders[k].id == id
  {
    if |ValidCandidates(db, r)| == 1 {
      var k := CandidateIsOnlyOrder(db, r);
      OnlyPaidIff(db, t, upper, r, k);
    }
    if k :| OnlyPaid(db, t, upper, k) && db.orders[k].id == id {
      OnlyPaidIff(db, t, upper, r, k);
      OnlyOrderIsCandidate(db, r, k);
    }
  }

  lemma ConfirmingStored(db: Db, t: Transfer, upper: Casing, r: Request, id: nat)
    requires Parse(t, upper) == WellFormed(r)
    ensures Amounts.Accepted(t.amount)
    ensures ApplyAll(db, r, [Confirm(id)]) ==
            db.(deposits := db.deposits[r.key := RowOf(t, upper, Some(id), Confirming, AwaitingConfirmations)])
  {
    OneWritten(db, r, Confirm(id));
    RowIsDeposit(t, upper, r, Some(id), Confirming, AwaitingConfirmations);
  }

  /** How often the transfer was confirmed. */
  function Confirmations(t: Transfer): nat { if t.confirmations.Some? then t.confirmations.value else 0 }

  lemma RequestOf(t: Transfer, upper: Casing, r: Request)
    requires Parse(t, upper) == WellFormed(r)
    ensures r.key.chain == ChainOf(t, upper) && r.confirmations == Confirmations(t) && r.observedAt == t.observedAt
  {
  }

  /** A transfer waits exactly when it pays one order and its confirmations do not suffice; the open deposit is stored
      and nothing else changes. */
  lemma AwaitingIff(db: Db, t: Transfer, upper: Casing, faults: Faults, r: Request, id: nat)
    requires Parse(t, upper) == WellFormed(r)
    ensures AnswerTo(db, t, upper, faults) == Awaiting(id) <==>
      && faults(ListDeposits) == faults(ListOrders) == faults(RecordConfirming) == Works && Open(db, r.key)
      && (ChainOf(t, upper) in {"ETH", "BSC", "SOL"} ==> faults(ReadSetting) == Works)
      && Confirmations(t) < Needed(db.settings, ChainOf(t, upper))
      && exists k :: OnlyPaid(db, t, upper, k) && db.orders[k].id == id
    ensures AnswerTo(db, t, upper, faults) == Awaiting(id) ==>
      && Amounts.Accepted(t.amount)
      && StoreAfter(db, t, upper, faults) ==
         db.(deposits := db.deposits[r.key := RowOf(t, upper, Some(id), Confirming, AwaitingConfirmations)])
  {
    ReactionIs(db, t, upper, faults, r);
    RequestOf(t, upper, r);
    RequiredIsNeeded(db, ChainOf(t, upper));
    DecideAwaiting(db, r, faults, id);
    CandidateIs(db, t, upper, r, id);
    ConfirmingStored(db, t, upper, r, id);
  }

  lemma MatchUnplanned(db: Db, r: Request, order: Order, faults: Faults)
    ensures MatchOrder(db, r, order, faults).reply == PlanNotConfigured <==>
      && Recordable(r, faults) && r.confirmations >= Required(db, r.key.chain) && faults(ListPlans) == Works
      && !exists p :: p in db.plans && p.code == order.planCode
    ensures MatchOrder(db, r, order, faults).reply == PlanNotConfigured ==>
      MatchOrder(db, r, order, faults).writes == [Confirm(order.id)]
  {
  }

  lemma DecideUnplanned(db: Db, r: Request, faults: Faults, order: Order)
    requires |ValidCandidates(db, r)| == 1 ==> order == ValidCandidates(db, r)[0]
    ensures Decide(db, r, faults).reply == PlanNotConfigured <==>
      && faults(ListDeposits) == faults(ListOrders) == faults(ListPlans) == Works && Open(db, r.key)
      && Recordable(r, faults) && r.confirmations >= Required(db, r.key.chain)
      && |ValidCandidates(db, r)| == 1 && !exists p :: p in db.plans && p.code == order.planCode
    ensures Decide(db, r, faults).reply == PlanNotConfigured ==> Decide(db, r, faults).writes == [Confirm(order.id)]
  {
    if |ValidCandidates(db, r)| == 1 {
      MatchUnplanned(db, r, order, faults);
    }
  }

  /** An order whose plan is gone is refused exactly when all else is in place; the deposit stays open. */
  lemma PlanNotConfiguredIff(db: Db, t: Transfer, upper: Casing, faults: Faults, r: Request, k: nat)
    requires Parse(t, upper) == WellFormed(r) && OnlyPaid(db, t, upper, k)
    ensures AnswerTo(db, t, upper, faults) == PlanNotConfigured <==>
      && faults(ListDeposits) == faults(ListOrders) == faults(ListPlans) == faults(RecordConfirming) == Works
      && Open(db, r.key) && (ChainOf(t, upper) in {"ETH", "BSC", "SOL"} ==> faults(ReadSetting) == Works)
      && Confirmations(t) >= Needed(db.settings, ChainOf(t, upper))
      && forall p :: p in db.plans ==> p.code != db.orders[k].planCode
    ensures AnswerTo(db, t, upper, faults) == PlanNotConfigured ==>
      && Amounts.Accepted(t.amount)
      && StoreAfter(db, t, upper, faults) == db.(deposits :=
           db.deposits[r.key := RowOf(t, upper, Some(db.orders[k].id), Confirming, AwaitingConfirmations)])
  {
    ReactionIs(db, t, upper, faults, r);
    RequestOf(t, upper, r);
    RequiredIsNeeded(db, ChainOf(t, upper));
    OnlyPaidIff(db, t, upper, r, k);
    OnlyOrderIsCandidate(db, r, k);
    DecideUnplanned(db, r, faults, db.orders[k]);
    ConfirmingStored(db, t, upper, r, db.orders[k].id);
  }

  const CREDIT_CALLS: set<Call> :=
    {ListDeposits, ListOrders, RecordConfirming, ListPlans, FindMember, ApplyPayment, FindBinding, LogInApp}

  /** Every call that crediting the order needs works. */
  predicate CallsWork(db: Db, chain: string, order: Order, faults: Faults) {
    && (forall call :: call in CREDIT_CALLS ==> faults(call) == Works)
    && (chain in {"ETH", "BSC", "SOL"} ==> faults(ReadSetting) == Works)
    && (order.email in db.bound ==> faults(LogTelegram) == Works)
  }

  lemma CallsWorkIff(db: Db, r: Request, order: Order, faults: Faults)
    ensures CallsWork(db, r.key.chain, order, faults) <==>
      faults(ListDeposits) == faults(ListOrders) == Works && Healthy(db, r, order, faults)
  {
    RequiredIsNeeded(db, r.key.chain);
    assert forall call :: call in CREDIT_CALLS && CallsWork(db, r.key.chain, order, faults) ==> faults(call) == Works;
  }

  /** A payment is reported exactly when the one order the transfer pays can be credited. */
  lemma PaidForIff(db: Db, t: Transfer, upper: Casing, faults: Faults, r: Request, k: nat)
    requires Parse(t, upper) == WellFormed(r) && OnlyPaid(db, t, upper, k)
    ensures AnswerTo(db, t, upper, faults) == Paid(db.orders[k].id) <==>
      && Open(db, r.key) && CallsWork(db, ChainOf(t, upper), db.orders[k], faults)
      && Confirmations(t) >= Needed(db.settings, ChainOf(t, upper))
      && exists p :: p in db.plans && p.code == db.orders[k].planCode
  {
    ReactionIs(db, t, upper, faults, r);
    RequestOf(t, upper, r);
    RequiredIsNeeded(db, ChainOf(t, upper));
    OnlyPaidIff(db, t, upper, r, k);
    CallsWorkIff(db, r, db.orders[k], faults);
    PaidIff(db, r, faults, db.orders[k].id);
    forall j | OnlyOrder(db, r, j) ensures j == k {
    }
  }

  /** And never without such an order. */
  lemma PaidMeansOnePaid(db: Db, t: Transfer, upper: Casing, faults: Faults, r: Request, id: nat)
    requires Parse(t, upper) == WellFormed(r) && AnswerTo(db, t, upper, faults) == Paid(id)
    ensures exists k :: OnlyPaid(db, t, upper, k) && db.orders[k].id == id
  {
    ReactionIs(db, t, upper, faults, r);
    PaidIff(db, r, faults, id);
    var k :| OnlyOrder(db, r, k) && db.orders[k].id == id;
    OnlyPaidIff(db, t, upper, r, k);
  }

  /** A transfer to tables without orders and deposits, no call failing, is stored for review as an unknown order. */
  lemma UnknownIsReviewed(t: Transfer, upper: Casing, r: Request, plans: seq<Plan>)
    requires Parse(t, upper) == WellFormed(r)
    ensures var db := Db([], map[], map[], plans, map[], {});
      && AnswerTo(db, t, upper, _ => Works) == Review(OrderNotFound, None)
      && r.key in StoreAfter(db, t, upper, _ => Works).deposits
  {
    var db := Db([], map[], map[], plans, map[], {});
    ReviewIff(db, t, upper, _ => Works, r, OrderNotFound, None);
  }
}
