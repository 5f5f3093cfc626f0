/** Settlement moves debt between credit and bills without creating or losing any. */
module SettlementLaws {
  import opened Common
  import opened Entities
  import opened Settlement
  import opened Sums

  /** What a bill still asks for. */
  function DueOn(bill: Bill): Money {
    if bill.billType == CreditSettlement && bill.status != Paid then bill.totalCost else 0
  }

  /** What tenant `id` still owes on settlement bills. */
  function Due(bills: seq<Bill>, id: Id): Money {
    if bills == [] then 0
    else
      var last := bills[|bills| - 1];
      Due(bills[..|bills| - 1], id) + if last.tenantId == id then DueOn(last) else 0
  }

  function Owed(b: Books, id: Id): Money
    requires id in b.tenants
  {
    b.tenants[id].creditUsed + Due(b.bills, id)
  }

  lemma DueAfterNewBill(bills: seq<Bill>, bill: Bill, id: Id)
    ensures Due(bills + [bill], id) == Due(bills, id) + if bill.tenantId == id then DueOn(bill) else 0
  {
    assert (bills + [bill])[..|bills|] == bills;
  }

  lemma {:induction false} DueAfterUpdate(bills: seq<Bill>, i: nat, bill: Bill, id: Id)
    requires i < |bills| && bill.tenantId == bills[i].tenantId
    ensures Due(bills[i := bill], id) == Due(bills, id) + if bill.tenantId == id then DueOn(bill) - DueOn(bills[i]) else 0
  {
    var n := |bills| - 1;
    if i == n {
      assert bills[i := bill][..n] == bills[..n];
    } else {
      assert bills[i := bill][..n] == bills[..n][i := bill];
      DueAfterUpdate(bills[..n], i, bill, id);
    }
  }

  // ----------------------------------------------------------- conservation

  /** Settling moves the tenant's used credit onto one new bill and leaves every
      other tenant and bill as it was. */
  lemma SettleKeepsOwed(b: Books, id: Id, now: int, other: Id)
    requires other in b.tenants
    ensures var (c, r) := Settle(b, id, now);
      && other in c.tenants
      && Owed(c, other) == Owed(b, other)
      && b.bills <= c.bills
      && (r.Ok? && id == other ==> c.tenants[id].creditUsed == 0)
      && (r.Ok? ==> |c.bills| == |b.bills| + 1)
      && (r.Err? || id != other ==> c.tenants[other] == b.tenants[other])
  {
    if id in b.tenants {
      DueAfterNewBill(b.bills, SettlementBill(id, b.tenants[id], now), other);
    }
  }

  lemma {:induction false} ScheduledRunKeepsOwed(b: Books, listed: seq<Id>, clock: Clock, id: Id)
    requires id in b.tenants
    ensures var c := Scheduled(b, listed, clock).0;
      id in c.tenants && Owed(c, id) == Owed(b, id) && b.bills <= c.bills
  {
    if listed != [] {
      var n := |listed| - 1;
      ScheduledRunKeepsOwed(b, listed[..n], clock, id);
      SettleKeepsOwed(Scheduled(b, listed[..n], clock).0, listed[n], clock.now, id);
    }
  }

  function CreditByTenant(tenants: map<Id, Tenant>): map<Id, int> {
    map id | id in tenants :: tenants[id].creditUsed
  }

  /** Total of the successfully settled amounts a run reports. */
  function Reported(rs: seq<SettlementResult>): Money {
    if rs == [] then 0
    else
      var last := rs[|rs| - 1];
      Reported(rs[..|rs| - 1]) + if last.Settled? then last.amount else 0
  }

  function Billed(bills: seq<Bill>): Money {
    if bills == [] then 0 else Billed(bills[..|bills| - 1]) + bills[|bills| - 1].totalCost
  }

  lemma VisitBillsTheDrop(b: Books, id: Id, clock: Clock)
    ensures var (c, r) := Visit(b, id, clock);
      && Billed(c.bills) - Billed(b.bills) == Total(CreditByTenant(b.tenants)) - Total(CreditByTenant(c.tenants))
      && Billed(c.bills) - Billed(b.bills) == Reported(r)
      && |r| <= 1
  {
    var (c, r) := Visit(b, id, clock);
    if r != [] && r[0].Settled? {
      var t := b.tenants[id];
      assert (b.bills + [SettlementBill(id, t, clock.now)])[..|b.bills|] == b.bills;
      TotalUpdate(CreditByTenant(b.tenants), id, 0);
      assert CreditByTenant(c.tenants) == CreditByTenant(b.tenants)[id := 0];
    }
  }

  /** One scheduled run, over any list of tenants: the bills it creates total
      the drop in used credit, and that is what its results report. */
  lemma {:induction false} ScheduledRunBillsTheDrop(b: Books, listed: seq<Id>, clock: Clock)
    ensures var (c, rs) := Scheduled(b, listed, clock);
      && Billed(c.bills) - Billed(b.bills) == Total(CreditByTenant(b.tenants)) - Total(CreditByTenant(c.tenants))
      && Billed(c.bills) - Billed(b.bills) == Reported(rs)
  {
    if listed != [] {
      var n := |listed| - 1;
      var (c, rs) := Scheduled(b, listed[..n], clock);
      var r := Visit(c, listed[n], clock).1;
      ScheduledRunBillsTheDrop(b, listed[..n], clock);
      VisitBillsTheDrop(c, listed[n], clock);
      if r == [] {
        assert rs + r == rs;
      } else {
        assert (rs + r)[..|rs|] == rs;
        assert r[..0] == [];
      }
    }
  }

  // ------------------------------------------------------------ idempotence

  /** A scheduled run settles the tenant. */
  predicate IsDue(t: Tenant, clock: Clock) {
    TriggerOf(t, clock).shouldTrigger && t.creditUsed > 0
  }

  /** Exactly the listed tenants that are due have their credit reset. */
  lemma {:induction false} ScheduledRunSettlesExactly(b: Books, listed: seq<Id>, clock: Clock, id: Id)
    requires id in b.tenants
    ensures var c := Scheduled(b, listed, clock).0;
      && c.tenants.Keys == b.tenants.Keys
      && c.tenants[id] == if id in listed && IsDue(b.tenants[id], clock) then b.tenants[id].(creditUsed := 0) else b.tenants[id]
  {
    if listed != [] {
      var n := |listed| - 1;
      ScheduledRunSettlesExactly(b, listed[..n], clock, id);
      assert listed == listed[..n] + [listed[n]];
    }
  }

  lemma {:induction false} NothingDueNothingDone(b: Books, listed: seq<Id>, clock: Clock)
    requires forall id | id in listed && id in b.tenants :: !IsDue(b.tenants[id], clock)
    ensures Scheduled(b, listed, clock).0 == b
  {
    if listed != [] {
      var n := |listed| - 1;
      NothingDueNothingDone(b, listed[..n], clock);
      assert listed[n] in listed;
    }
  }

  /** A second run on the same day over tenants the first run listed creates no
      bill and changes no tenant. */
  lemma ScheduledRunIsIdempotent(b: Books, listed: seq<Id>, again: seq<Id>, clock: Clock, later: Clock)
    requires later.dayOfMonth == clock.dayOfMonth && later.weekday == clock.weekday
    requires forall id | id in again :: id in listed
    ensures var c := Scheduled(b, listed, clock).0;
      Scheduled(c, again, later).0 == c
  {
    var c := Scheduled(b, listed, clock).0;
    ScheduledTenants(b, listed, clock);
    forall id | id in again && id in c.tenants
      ensures !IsDue(c.tenants[id], later)
    {
      ScheduledRunSettlesExactly(b, listed, clock, id);
    }
    NothingDueNothingDone(c, again, later);
  }

  lemma {:induction false} ScheduledTenants(b: Books, listed: seq<Id>, clock: Clock)
    ensures Scheduled(b, listed, clock).0.tenants.Keys == b.tenants.Keys
  {
    if listed != [] {
      ScheduledTenants(b, listed[..|listed| - 1], clock);
    }
  }

  // ------------------------------------------------- who is ever billed at all

  datatype ScheduledCall = ScheduledCall(listed: seq<Id>, clock: Clock)

  function RunAll(b: Books, calls: seq<ScheduledCall>): Books {
    if calls == [] then b
    else Scheduled(RunAll(b, calls[..|calls| - 1]), calls[|calls| - 1].listed, calls[|calls| - 1].clock).0
  }

  predicate BilledBy(t: Tenant, id: Id, call: ScheduledCall) {
    id in call.listed && IsDue(t, call.clock)
  }

  /** Over any sequence of runs a tenant is billed if and only if some run lists
      it on a day it is due, for the credit it had at the start, and once. */
  lemma {:induction false} RunsBillExactly(b: Books, calls: seq<ScheduledCall>, id: Id)
    requires id in b.tenants
    ensures var t, c := b.tenants[id], RunAll(b, calls);
      && c.tenants.Keys == b.tenants.Keys
      && c.tenants[id] == if exists i :: 0 <= i < |calls| && BilledBy(t, id, calls[i]) then t.(creditUsed := 0) else t
  {
    if calls != [] {
      var n := |calls| - 1;
      var before := RunAll(b, calls[..n]);
      RunsBillExactly(b, calls[..n], id);
      ScheduledRunSettlesExactly(before, calls[n].listed, calls[n].clock, id);
      if i :| 0 <= i < n && BilledBy(b.tenants[id], id, calls[..n][i]) {
        assert BilledBy(b.tenants[id], id, calls[i]);
      }
      if i :| 0 <= i < |calls| && BilledBy(b.tenants[id], id, calls[i]) {
        assert i < n ==> calls[..n][i] == calls[i];
      }
    }
  }

  /** One run a day, listing the tenant: from the first day of the month, or up to
      seven days from any weekday. */
  predicate DailyRuns(calls: seq<ScheduledCall>, id: Id, cycle: SettlementCycle) {
    && calls != []
    && (forall i | 0 <= i < |calls| :: id in calls[i].listed)
    && (cycle == Monthly ==> forall i | 0 <= i < |calls| :: calls[i].clock.dayOfMonth == i + 1)
    && (cycle == Weekly ==> |calls| <= 7 && forall i | 0 <= i < |calls| :: calls[i].clock.weekday == (calls[0].clock.weekday + i) % 7)
  }

  /** Whether the settings name one of these days. */
  predicate HasMoment(t: Tenant, first: int, days: nat) {
    match t.cycle
    case Monthly => t.settlementDay.Some? && 1 <= t.settlementDay.value <= days
    case Weekly => t.settlementDay.Some? && 0 <= t.settlementDay.value < 7 && (t.settlementDay.value - first) % 7 < days
    case Threshold => t.thresholdAmount.Some? && t.thresholdAmount.value <= t.creditUsed
    case _ => false
  }

  /** A run that bills the tenant, if its settings name a day. */
  function MomentOf(t: Tenant, first: int): int {
    if t.cycle == Monthly && t.settlementDay.Some? then t.settlementDay.value - 1
    else if t.cycle == Weekly && t.settlementDay.Some? then (t.settlementDay.value - first) % 7
    else 0
  }

  predicate SpendsCredit(t: Tenant) {
    t.creditStatus == CreditApproved && t.creditLimit.Some? && t.creditUsed > 0
  }

  lemma SomeRunBills(t: Tenant, calls: seq<ScheduledCall>, id: Id)
    requires SpendsCredit(t) && DailyRuns(calls, id, t.cycle) && HasMoment(t, calls[0].clock.weekday, |calls|)
    ensures var i := MomentOf(t, calls[0].clock.weekday);
      0 <= i < |calls| && BilledBy(t, id, calls[i])
  {
  }

  lemma NoRunBills(t: Tenant, calls: seq<ScheduledCall>, id: Id, i: nat)
    requires DailyRuns(calls, id, t.cycle) && i < |calls|
    requires !SpendsCredit(t) || !HasMoment(t, calls[0].clock.weekday, |calls|)
    ensures !BilledBy(t, id, calls[i])
  {
  }

  /** Daily runs bill a tenant's used credit if and only if it may spend credit,
      has used some, and its settlement day is among the days of the runs or its
      threshold is set and reached. No setting is checked when it is stored, so a
      weekly tenant with day 7, or a monthly one with day 31 in a shorter month,
      is not billed in a whole cycle. */
  lemma CycleBillsExactly(b: Books, calls: seq<ScheduledCall>, id: Id)
    requires id in b.tenants && DailyRuns(calls, id, b.tenants[id].cycle)
    ensures var t, c := b.tenants[id], RunAll(b, calls);
      id in c.tenants &&
      c.tenants[id] == if SpendsCredit(t) && HasMoment(t, calls[0].clock.weekday, |calls|) then t.(creditUsed := 0) else t
  {
    var t := b.tenants[id];
    RunsBillExactly(b, calls, id);
    if SpendsCredit(t) && HasMoment(t, calls[0].clock.weekday, |calls|) {
      SomeRunBills(t, calls, id);
    } else {
      forall i | 0 <= i < |calls|
        ensures !BilledBy(t, id, calls[i])
      {
        NoRunBills(t, calls, id, i);
      }
    }
  }

  // ---------------------------------------------------- what a run answers

  /** The amount a trigger announces is the amount the bill will have. */
  lemma TriggerForetellsTheBill(b: Books, id: Id, clock: Clock)
    requires id in b.tenants
    ensures var trigger, (c, r) := TriggerOf(b.tenants[id], clock), Visit(b, id, clock);
      && (c.bills != b.bills ==> trigger.shouldTrigger && c.bills[|c.bills| - 1].totalCost == trigger.amount)
      && Billed(c.bills) - Billed(b.bills) == Max(trigger.amount, 0)
      && (!trigger.shouldTrigger ==> trigger.amount == 0)
  {
    VisitBillsTheDrop(b, id, clock);
  }

  /** What one tenant's turn reports. Only a threshold of zero or less can ask for
      a settlement of nothing. */
  lemma VisitReportsExactly(b: Books, id: Id, clock: Clock)
    ensures var (c, r) := Visit(b, id, clock);
      && (id !in b.tenants ==> r == [Failed(id, TenantNotFound)])
      && (id in b.tenants && |c.bills| > |b.bills| ==> r == [Settled(id, |b.bills|, b.tenants[id].creditUsed)])
      && (id in b.tenants && |c.bills| == |b.bills| ==>
            var t := b.tenants[id];
            r == if t.creditStatus == CreditApproved && t.creditLimit.Some? && t.cycle == Threshold
                    && t.thresholdAmount.Some? && t.thresholdAmount.value <= t.creditUsed <= 0
                 then [Failed(id, NothingToSettle)] else [])
  {
  }

  /** A reported settlement is a bill of the run, for the tenant and amount it
      reports. */
  predicate IsTrueReport(b: Books, c: Books, r: SettlementResult) {
    r.Settled? ==>
      && |b.bills| <= r.billId < |c.bills|
      && c.bills[r.billId].tenantId == r.tenantId && c.bills[r.billId].totalCost == r.amount
  }

  function SettledCount(rs: seq<SettlementResult>): nat {
    if rs == [] then 0 else SettledCount(rs[..|rs| - 1]) + if rs[|rs| - 1].Settled? then 1 else 0
  }

  /** The reports of a run are true, there is one for each new bill, and every
      listed tenant that does not exist is reported as failed. */
  lemma {:induction false} ScheduledReportsAreTrue(b: Books, listed: seq<Id>, clock: Clock)
    ensures var (c, rs) := Scheduled(b, listed, clock);
      && c.tenants.Keys == b.tenants.Keys && b.bills <= c.bills
      && (forall r | r in rs :: IsTrueReport(b, c, r))
      && SettledCount(rs) == |c.bills| - |b.bills|
      && (forall id :: Failed(id, TenantNotFound) in rs <==> id in listed && id !in b.tenants)
  {
    if listed != [] {
      var n := |listed| - 1;
      var (c, rs) := Scheduled(b, listed[..n], clock);
      var (d, r) := Visit(c, listed[n], clock);
      ScheduledReportsAreTrue(b, listed[..n], clock);
      VisitReportsExactly(c, listed[n], clock);
      assert listed == listed[..n] + [listed[n]];
      if r == [] {
        assert rs + r == rs;
      } else {
        assert (rs + r)[..|rs|] == rs;
      }
    }
  }

  // --------------------------------------------------------- bill payments

  function PayAll(bill: Bill, payments: seq<Money>): Bill {
    if payments == [] then bill
    else PayBill(PayAll(bill, payments[..|payments| - 1]), payments[|payments| - 1])
  }

  /** A bill paid in parts becomes paid exactly when the payments reach its
      original amount, and until then asks for exactly the rest. */
  lemma {:induction false} PaidExactlyWhenCovered(bill: Bill, payments: seq<Money>)
    requires bill.status != Paid && payments != []
    requires forall n | 0 <= n < |payments| :: Sum(payments[..n]) < bill.totalCost
    ensures var paid := PayAll(bill, payments);
      && (paid.status == Paid <==> Sum(payments) >= bill.totalCost)
      && (paid.status != Paid ==> paid.status == PartialPaid && paid.totalCost == bill.totalCost - Sum(payments))
      && DueOn(bill) - DueOn(paid) == (if bill.billType == CreditSettlement then Min(Sum(payments), bill.totalCost) else 0)
      && paid == bill.(status := paid.status, totalCost := paid.totalCost)
  {
    var n := |payments| - 1;
    var before := payments[..n];
    if n > 0 {
      forall m | 0 <= m < n
        ensures Sum(before[..m]) < bill.totalCost
      {
        assert before[..m] == payments[..m];
      }
      PaidExactlyWhenCovered(bill, before);
      assert Sum(payments[..n]) < bill.totalCost;
    } else {
      assert before == [];
      assert Sum(payments[..0]) < bill.totalCost;
    }
  }

  /** Nothing stops a payment on a paid bill, and one smaller than the amount
      left on it opens the bill again. */
  lemma PaidBillReopensExactly(bill: Bill, amount: Money)
    requires bill.status == Paid && bill.billType == CreditSettlement
    ensures PayBill(bill, amount).status != Paid <==> amount < bill.totalCost
    ensures DueOn(PayBill(bill, amount)) == Max(bill.totalCost - amount, 0)
  {
  }

  /** After any payment, however small, the overdue check no longer sees the bill. */
  lemma AnyPaymentHidesFromOverdue(bill: Bill, amount: Money, now: int)
    ensures !IsOverdue(PayBill(bill, amount), now)
  {
  }

  /** So of the overdue bills, however much is still due on them, exactly those
      that nothing was ever paid on are seen. */
  lemma OverdueIsSeenExactlyWhenUntouched(bill: Bill, payments: seq<Money>, now: int)
    requires IsOverdue(bill, now)
    ensures IsOverdue(PayAll(bill, payments), now) <==> payments == []
  {
    if payments != [] {
      var n := |payments| - 1;
      AnyPaymentHidesFromOverdue(PayAll(bill, payments[..n]), payments[n], now);
    }
  }

  // ------------------------------------------------ from settlement to overdue

  /** Settling succeeds exactly for an existing tenant with approved credit and
      something used. The one new bill then is that tenant's, pending, for exactly
      that amount, and due after the days its cycle allows. */
  lemma SettlingCreatesAPendingBill(b: Books, id: Id, now: int)
    ensures var (c, r) := Settle(b, id, now);
      && r == (if id !in b.tenants then Err(TenantNotFound)
               else if b.tenants[id].creditStatus != CreditApproved then Err(CreditNotApproved)
               else if b.tenants[id].creditUsed <= 0 then Err(NothingToSettle)
               else Ok)
      && (r.Err? ==> c == b)
      && (r.Ok? ==>
            var days := match b.tenants[id].cycle case Weekly => 7 case Threshold => 10 case _ => 15;
            && |c.bills| == |b.bills| + 1 && c.bills[..|b.bills|] == b.bills
            && c.bills[|b.bills|] == Bill(id, CreditSettlement, b.tenants[id].creditUsed, BillPending, Some(now + days * 86400)))
  {
  }

  function PayEach(b: Books, billId: nat, payments: seq<Money>): Books {
    if payments == [] then b else Pay(PayEach(b, billId, payments[..|payments| - 1]), billId, payments[|payments| - 1]).0
  }

  lemma {:induction false} PayEachIsPayAll(b: Books, billId: nat, payments: seq<Money>)
    requires billId < |b.bills| && b.bills[billId].billType == CreditSettlement
    ensures PayEach(b, billId, payments) == b.(bills := b.bills[billId := PayAll(b.bills[billId], payments)])
    ensures PayAll(b.bills[billId], payments).billType == CreditSettlement
  {
    if payments != [] {
      PayEachIsPayAll(b, billId, payments[..|payments| - 1]);
    }
  }

  /** From books without bills, the overdue check suspends a settled tenant at
      time `t` exactly if the days its cycle allows are over and nothing at all
      was paid. */
  lemma SettledTenantIsOverdueExactly(b: Books, id: Id, now: int, payments: seq<Money>, t: int)
    requires b.bills == [] && Settle(b, id, now).1.Ok?
    ensures var paid := PayEach(Settle(b, id, now).0, 0, payments);
      var days := match b.tenants[id].cycle case Weekly => 7 case Threshold => 10 case _ => 15;
      HasOverdue(paid.bills, id, t) <==> t > now + days * 86400 && payments == []
  {
    var c := Settle(b, id, now).0;
    SettlingCreatesAPendingBill(b, id, now);
    PayEachIsPayAll(c, 0, payments);
    if payments == [] {
      assert c.bills[0].tenantId == id;
      assert HasOverdue(c.bills, id, t) <==> IsOverdue(c.bills[0], t);
    } else {
      var n := |payments| - 1;
      AnyPaymentHidesFromOverdue(PayAll(c.bills[0], payments[..n]), payments[n], t);
    }
  }

  /** Bills of other kinds, and bills without a due date, never make a tenant
      overdue. */
  lemma OnlyDueSettlementBillsSuspend(bills: seq<Bill>, id: Id, now: int)
    requires HasOverdue(bills, id, now)
    ensures exists i | 0 <= i < |bills| ::
      && bills[i].tenantId == id && bills[i].billType == CreditSettlement && bills[i].status == BillPending
      && bills[i].dueAt.Some? && bills[i].dueAt.value < now
  {
  }

  /** A payment reaches exactly the settlement bill it names. Bills of other kinds
      cannot be paid this way, and no tenant row changes. */
  lemma PaymentTouchesOneBill(b: Books, billId: nat, amount: Money, other: nat)
    requires other < |b.bills|
    ensures var (c, r) := Pay(b, billId, amount);
      && c.tenants == b.tenants && |c.bills| == |b.bills|
      && r == (if billId >= |b.bills| then Err(BillNotFound)
               else if b.bills[billId].billType == UsageBill then Err(NotASettlementBill) else Ok)
      && (other != billId || b.bills[other].billType == UsageBill ==> c.bills[other] == b.bills[other])
      && (r.Ok? ==> c.bills[billId].status == (if b.bills[billId].totalCost <= amount then Paid else PartialPaid))
  {
  }
}
