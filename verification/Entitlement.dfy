/** How long a payment keeps a membership active (apps/billing-chain-listener/src/processor.rs). Times are seconds. */
module Entitlement {
  import opened Common

  const DAY := 86_400
  const GRACE := 48 * 3_600

  /** A number of days in seconds. */
  function Days(n: int): int { n * 86_400 }

  /** The two stored columns; either may be empty in a record made elsewhere. */
  datatype Member = Member(activeUntil: Option<int>, graceUntil: Option<int>)

  datatype Payment = Payment(at: int, days: int)

  /** Whether a payment extends the stored period instead of starting a new one. */
  predicate Extends(current: Option<Member>, paidAt: int) {
    match current
    case Some(Member(Some(active), grace)) => (grace.Some? && paidAt <= grace.value) || active >= paidAt
    case _ => false
  }

  /** `entitlement_window`. */
  function Window(current: Option<Member>, days: int, paidAt: int): Member {
    var base := if Extends(current, paidAt) then current.value.activeUntil.value else paidAt;
    Member(Some(base + Days(days)), Some(base + Days(days) + GRACE))
  }

  /** The record after a run of payments by a new member. */
  function After(payments: seq<Payment>): Option<Member> {
    if payments == [] then None
    else
      var last := payments[|payments| - 1];
      Some(Window(After(payments[..|payments| - 1]), last.days, last.at))
  }

  function ActiveUntil(payments: seq<Payment>): int
    requires payments != []
  {
    After(payments).value.activeUntil.value
  }

  function TotalDays(payments: seq<Payment>): int {
    if payments == [] then 0 else TotalDays(payments[..|payments| - 1]) + payments[|payments| - 1].days
  }

  /** Whatever is stored, a payment for a positive duration moves the end of the active period forward. */
  lemma PaymentMovesEndForward(current: Option<Member>, days: int, paidAt: int)
    requires days > 0
    ensures var w := Window(current, days, paidAt);
      && w.activeUntil.Some? && w.graceUntil == Some(w.activeUntil.value + GRACE)
      && (current.Some? && current.value.activeUntil.Some? ==> w.activeUntil.value > current.value.activeUntil.value)
  {
  }

  /** Over any run the end of the active period only moves forward. */
  lemma {:induction false} EndNeverDecreases(payments: seq<Payment>, m: nat)
    requires 0 < m <= |payments|
    requires forall i :: 0 <= i < |payments| ==> payments[i].days > 0
    ensures ActiveUntil(payments[..m]) <= ActiveUntil(payments)
    ensures m < |payments| ==> ActiveUntil(payments[..m]) < ActiveUntil(payments)
  {
    if m < |payments| {
      var shorter := payments[..|payments| - 1];
      EndNeverDecreases(shorter, m);
      assert shorter[..m] == payments[..m];
    } else {
      assert payments[..m] == payments;
    }
  }

  /** Payment i comes too late to extend what the earlier ones left. */
  predicate Restarts(payments: seq<Payment>, i: nat)
    requires i < |payments|
  {
    i == 0 || payments[i].at > ActiveUntil(payments[..i]) + GRACE
  }

  function LastRestart(payments: seq<Payment>): (k: nat)
    requires payments != []
    ensures k < |payments|
  {
    var n := |payments| - 1;
    if Restarts(payments, n) then n else LastRestart(payments[..n])
  }

  lemma {:induction false} LastRestartIsLast(payments: seq<Payment>)
    requires payments != []
    ensures Restarts(payments, LastRestart(payments))
    ensures forall i :: LastRestart(payments) < i < |payments| ==> !Restarts(payments, i)
  {
    var n := |payments| - 1;
    if !Restarts(payments, n) {
      var shorter := payments[..n];
      LastRestartIsLast(shorter);
      forall i | 0 <= i < n
        ensures Restarts(payments, i) == Restarts(shorter, i)
      {
        assert shorter[..i] == payments[..i];
      }
    }
  }

  /** For every run: the active period ends at the last payment that came after a lapsed grace period, plus every
      duration paid from it on. */
  lemma {:induction false} EndIsRestartPlusDurations(payments: seq<Payment>)
    requires payments != []
    ensures var k := LastRestart(payments);
      ActiveUntil(payments) == payments[k].at + Days(TotalDays(payments[k..]))
  {
    var n := |payments| - 1;
    var shorter, k := payments[..n], LastRestart(payments);
    RecordHasGrace(shorter);
    assert After(payments) == Some(Window(After(shorter), payments[n].days, payments[n].at));
    if k == n {
      assert !Extends(After(shorter), payments[n].at);
      assert payments[n..] == [payments[n]];
      assert TotalDays([payments[n]]) == TotalDays([payments[n]][..0]) + payments[n].days;
    } else {
      EndIsRestartPlusDurations(shorter);
      assert payments[k..][..n - k] == shorter[k..];
      assert payments[k..][n - k] == payments[n];
      assert TotalDays(payments[k..]) == TotalDays(shorter[k..]) + payments[n].days;
    }
  }

  lemma RecordHasGrace(payments: seq<Payment>)
    ensures payments != [] ==>
      var m := After(payments).value;
      m.activeUntil.Some? && m.graceUntil == Some(m.activeUntil.value + GRACE)
  {
  }

  /** When each payment comes before the previous grace period ends, nothing paid for is lost. */
  lemma TimelyPaymentsAddUp(payments: seq<Payment>)
    requires payments != []
    requires forall i :: 0 < i < |payments| ==> payments[i].at <= ActiveUntil(payments[..i]) + GRACE
    ensures ActiveUntil(payments) == payments[0].at + Days(TotalDays(payments))
  {
    LastRestartIsLast(payments);
    EndIsRestartPlusDurations(payments);
    assert payments[0..] == payments;
  }

  /** With durations of at least the two days of grace, a payment never leaves the member already expired. */
  lemma PaidMeansActive(payments: seq<Payment>)
    requires payments != [] && payments[|payments| - 1].days >= 2
    ensures ActiveUntil(payments) >= payments[|payments| - 1].at
  {
    var earlier, last := payments[..|payments| - 1], payments[|payments| - 1];
    RecordHasGrace(earlier);
    assert After(payments) == Some(Window(After(earlier), last.days, last.at));
  }

  /** A duration is safe in that sense for every earlier history exactly when it is at least two days. */
  lemma DurationSafeIffTwoDays(days: int)
    requires days > 0
    ensures (forall earlier: seq<Payment>, at: int :: ActiveUntil(earlier + [Payment(at, days)]) >= at) <==> days >= 2
  {
    if days >= 2 {
      forall earlier: seq<Payment>, at: int
        ensures ActiveUntil(earlier + [Payment(at, days)]) >= at
      {
        PaidMeansActive(earlier + [Payment(at, days)]);
      }
    } else {
      OneDayPlanPaidLate();
      assert ActiveUntil([Payment(0, 1)] + [Payment(DAY + GRACE, days)]) < DAY + GRACE;
    }
  }

  /** A one-day plan renewed at the end of its grace period is over before it is paid. */
  lemma OneDayPlanPaidLate()
    ensures ActiveUntil([Payment(0, 1)] + [Payment(DAY + GRACE, 1)]) == 2 * DAY < DAY + GRACE
  {
    var payments := [Payment(0, 1)] + [Payment(DAY + GRACE, 1)];
    assert payments[..1] == [Payment(0, 1)];
    assert [Payment(0, 1)][..0] == [];
    assert After([Payment(0, 1)]) == Some(Window(None, 1, 0));
  }
}
