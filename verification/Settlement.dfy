/** SettlementService: turning used credit into bills, paying bills in parts,
    and suspending the tenants of overdue bills. */
module Settlement {
  import opened Common
  import opened Entities

  const SECONDS_PER_DAY := 86400

  /** What the service reads from the wall clock. */
  datatype Clock = Clock(dayOfMonth: int, weekday: int, now: int)

  datatype Trigger = Trigger(shouldTrigger: bool, amount: Money)

  datatype SettlementResult =
    | Settled(tenantId: Id, billId: nat, amount: Money)
    | Failed(tenantId: Id, error: Error)

  /** The tenant and bill tables. */
  datatype Books = Books(tenants: map<Id, Tenant>, bills: seq<Bill>)

  const NO_TRIGGER := Trigger(false, 0)

  function TriggerOf(t: Tenant, clock: Clock): Trigger {
    if !t.HasCredit() then NO_TRIGGER
    else match t.cycle
      case Monthly =>
        if t.settlementDay == Some(clock.dayOfMonth) && t.creditUsed > 0 then Trigger(true, t.creditUsed) else NO_TRIGGER
      case Weekly =>
        if t.settlementDay == Some(clock.weekday) && t.creditUsed > 0 then Trigger(true, t.creditUsed) else NO_TRIGGER
      case Threshold =>
        if t.thresholdAmount.Some? && t.creditUsed >= t.thresholdAmount.value then Trigger(true, t.creditUsed) else NO_TRIGGER
      case _ => NO_TRIGGER
  }

  function DueInDays(cycle: SettlementCycle): int {
    match cycle
    case Monthly => 15
    case Weekly => 7
    case Threshold => 10
    case _ => 15
  }

  /** The two guards of TriggerSettlement, on one tenant. */
  function SettleError(t: Tenant): Option<Error> {
    if t.creditStatus != CreditApproved then Some(CreditNotApproved)
    else if t.creditUsed <= 0 then Some(NothingToSettle)
    else None
  }

  function SettlementBill(id: Id, t: Tenant, now: int): Bill {
    Bill(id, CreditSettlement, t.creditUsed, BillPending, Some(now + DueInDays(t.cycle) * SECONDS_PER_DAY))
  }

  /** Bill a tenant's whole used credit, if the guards allow it. */
  function Settle(b: Books, id: Id, now: int): (Books, Outcome) {
    if id !in b.tenants then (b, Err(TenantNotFound))
    else
      var t := b.tenants[id];
      match SettleError(t)
      case Some(e) => (b, Err(e))
      case None => (Books(b.tenants[id := t.(creditUsed := 0)], b.bills + [SettlementBill(id, t, now)]), Ok)
  }

  function PayBill(bill: Bill, amount: Money): Bill {
    if amount >= bill.totalCost then bill.(status := Paid)
    else bill.(status := PartialPaid, totalCost := bill.totalCost - amount)
  }

  function Pay(b: Books, billId: nat, amount: Money): (Books, Outcome) {
    if billId >= |b.bills| then (b, Err(BillNotFound))
    else if b.bills[billId].billType != CreditSettlement then (b, Err(NotASettlementBill))
    else (b.(bills := b.bills[billId := PayBill(b.bills[billId], amount)]), Ok)
  }

  /** One tenant's turn in a scheduled run. */
  function Visit(b: Books, id: Id, clock: Clock): (Books, seq<SettlementResult>) {
    if id !in b.tenants then (b, [Failed(id, TenantNotFound)])
    else if !TriggerOf(b.tenants[id], clock).shouldTrigger then (b, [])
    else
      var (c, r) := Settle(b, id, clock.now);
      if r.Err? then (b, [Failed(id, r.error)])
      else (c, [Settled(id, |b.bills|, b.tenants[id].creditUsed)])
  }

  function Scheduled(b: Books, listed: seq<Id>, clock: Clock): (Books, seq<SettlementResult>) {
    if listed == [] then (b, [])
    else
      var (c, rs) := Scheduled(b, listed[..|listed| - 1], clock);
      var (d, r) := Visit(c, listed[|listed| - 1], clock);
      (d, rs + r)
  }

  /** The bills CheckOverdueBills acts on. */
  predicate IsOverdue(bill: Bill, now: int) {
    bill.status == BillPending && bill.billType == CreditSettlement && bill.dueAt.Some? && now > bill.dueAt.value
  }

  predicate HasOverdue(bills: seq<Bill>, id: Id, now: int) {
    exists i | 0 <= i < |bills| :: bills[i].tenantId == id && IsOverdue(bills[i], now)
  }

  // ------------------------------------------------------------ the service

  class SettlementService {
    var tenants: map<Id, Tenant>
    var bills: seq<Bill>

    function State(): Books
      reads this
    {
      Books(tenants, bills)
    }

    method CheckSettlementTrigger(tenantId: Id, clock: Clock) returns (r: Result<Trigger, Error>)
      ensures r == if tenantId in tenants then Success(TriggerOf(tenants[tenantId], clock)) else Failure(TenantNotFound)
    {
      if tenantId !in tenants {
        return Failure(TenantNotFound);
      }
      var tenant := tenants[tenantId];
      if tenant.creditStatus != CreditApproved || tenant.creditLimit == None {
        return Success(NO_TRIGGER);
      }
      match tenant.cycle {
        case Monthly =>
          if tenant.settlementDay == None {
            return Success(NO_TRIGGER);
          }
          if clock.dayOfMonth == tenant.settlementDay.value && tenant.creditUsed > 0 {
            return Success(Trigger(true, tenant.creditUsed));
          }
        case Weekly =>
          if tenant.settlementDay == None {
            return Success(NO_TRIGGER);
          }
          if clock.weekday == tenant.settlementDay.value && tenant.creditUsed > 0 {
            return Success(Trigger(true, tenant.creditUsed));
          }
        case Threshold =>
          if tenant.thresholdAmount == None {
            return Success(NO_TRIGGER);
          }
          if tenant.creditUsed >= tenant.thresholdAmount.value {
            return Success(Trigger(true, tenant.creditUsed));
          }
        case _ =>
      }
      r := Success(NO_TRIGGER);
    }

    method TriggerSettlement(tenantId: Id, now: int) returns (r: Result<nat, Error>)
      modifies this
      ensures State() == Settle(old(State()), tenantId, now).0
      ensures match Settle(old(State()), tenantId, now).1
        case Ok => r == Success(|old(bills)|)
        case Err(e) => r == Failure(e)
    {
      if tenantId !in tenants {
        return Failure(TenantNotFound);
      }
      var tenant := tenants[tenantId];
      if tenant.creditStatus != CreditApproved {
        return Failure(CreditNotApproved);
      }
      if tenant.creditUsed <= 0 {
        return Failure(NothingToSettle);
      }
      var billId := |bills|;
      var dueAt := CalculateDueDate(tenant.cycle, now);
      bills := bills + [Bill(tenantId, CreditSettlement, tenant.creditUsed, BillPending, Some(dueAt))];
      tenant := tenant.(creditUsed := 0);
      tenants := tenants[tenantId := tenant];
      r := Success(billId);
    }

    method CalculateDueDate(cycle: SettlementCycle, now: int) returns (dueAt: int)
      ensures dueAt == now + DueInDays(cycle) * SECONDS_PER_DAY
      ensures 7 * SECONDS_PER_DAY <= dueAt - now <= 15 * SECONDS_PER_DAY
    {
      match cycle {
        case Monthly => dueAt := now + 15 * SECONDS_PER_DAY;
        case Weekly => dueAt := now + 7 * SECONDS_PER_DAY;
        case Threshold => dueAt := now + 10 * SECONDS_PER_DAY;
        case _ => dueAt := now + 15 * SECONDS_PER_DAY;
      }
    }

    method ProcessSettlementBill(billId: nat, paymentAmount: Money) returns (r: Outcome)
      modifies this`bills
      ensures (State(), r) == Pay(old(State()), billId, paymentAmount)
    {
      if billId >= |bills| {
        return Err(BillNotFound);
      }
      var bill := bills[billId];
      if bill.billType != CreditSettlement {
        return Err(NotASettlementBill);
      }
      if paymentAmount >= bill.totalCost {
        bill := bill.(status := Paid);
      } else {
        bill := bill.(status := PartialPaid);
        bill := bill.(totalCost := bill.totalCost - paymentAmount);
      }
      bills := bills[billId := bill];
      r := Ok;
    }

    /** `listed` is the repository's answer to "tenants with approved credit". */
    method RunScheduledSettlement(listed: seq<Id>, clock: Clock) returns (results: seq<SettlementResult>)
      modifies this
      ensures (State(), results) == Scheduled(old(State()), listed, clock)
    {
      results := [];
      for i := 0 to |listed|
        invariant (State(), results) == Scheduled(old(State()), listed[..i], clock)
      {
        assert listed[..i + 1][..i] == listed[..i];
        ghost var before, reported := State(), results;
        var id := listed[i];
        var trigger := CheckSettlementTrigger(id, clock);
        if trigger.Failure? {
          results := results + [Failed(id, trigger.error)];
        } else if trigger.value.shouldTrigger {
          var billed := TriggerSettlement(id, clock.now);
          if billed.Failure? {
            results := results + [Failed(id, billed.error)];
          } else {
            results := results + [Settled(id, billed.value, bills[billed.value].totalCost)];
          }
        } else {
          assert reported == reported + [];
        }
        assert (State(), results) == (Visit(before, id, clock).0, reported + Visit(before, id, clock).1);
      }
      assert listed[..|listed|] == listed;
    }

    /** Bills are listed newest first; the overdue ones suspend their tenants and
        are reported once each, in that order. */
    method CheckOverdueBills(now: int) returns (overdue: seq<nat>)
      modifies this`tenants
      ensures tenants.Keys == old(tenants).Keys
      ensures forall id | id in tenants ::
        tenants[id] == if HasOverdue(bills, id, now) then old(tenants)[id].(status := Suspended) else old(tenants)[id]
      ensures forall i :: i in overdue <==> 0 <= i < |bills| && IsOverdue(bills[i], now) && bills[i].tenantId in tenants
      ensures forall i, j | 0 <= i < j < |overdue| :: overdue[i] > overdue[j]
    {
      overdue := [];
      for n := |bills| downto 0
        invariant tenants.Keys == old(tenants).Keys
        invariant forall id | id in tenants ::
          tenants[id] == if HasOverdue(bills[n..], id, now) then old(tenants)[id].(status := Suspended) else old(tenants)[id]
        invariant forall i :: i in overdue <==> n <= i < |bills| && IsOverdue(bills[i], now) && bills[i].tenantId in tenants
        invariant forall i | 0 <= i < |overdue| :: overdue[i] >= n
        invariant forall i, j | 0 <= i < j < |overdue| :: overdue[i] > overdue[j]
      {
        var bill := bills[n];
        assert bills[n..] == [bill] + bills[n + 1..];
        forall id
          ensures HasOverdue(bills[n..], id, now) <==> (bill.tenantId == id && IsOverdue(bill, now)) || HasOverdue(bills[n + 1..], id, now)
        {
          OverdueCons(bill, bills[n + 1..], id, now);
        }
        if bill.status == BillPending && bill.billType == CreditSettlement {
          if bill.dueAt.Some? && now > bill.dueAt.value {
            if bill.tenantId in tenants {
              tenants := tenants[bill.tenantId := tenants[bill.tenantId].(status := Suspended)];
              overdue := overdue + [n];
            }
          }
        }
      }
      assert bills[0..] == bills;
    }
  }

  lemma OverdueCons(bill: Bill, rest: seq<Bill>, id: Id, now: int)
    ensures HasOverdue([bill] + rest, id, now) <==> (bill.tenantId == id && IsOverdue(bill, now)) || HasOverdue(rest, id, now)
  {
    var all := [bill] + rest;
    if bill.tenantId == id && IsOverdue(bill, now) {
      assert all[0] == bill;
    }
    if HasOverdue(rest, id, now) {
      var i :| 0 <= i < |rest| && rest[i].tenantId == id && IsOverdue(rest[i], now);
      assert all[i + 1] == rest[i];
    }
  }
}
