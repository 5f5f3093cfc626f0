/** Usage, payments and settlement acting on one set of books. */
module Ledger {
  import opened Common
  import opened Entities
  import opened Sums
  import Q = Quota
  import S = Settlement
  import L = SettlementLaws
  import P = Payment

  datatype World = World(
    users: map<Id, UserQuota>,
    members: map<Id, MemberQuota>,
    tenants: map<Id, Tenant>,
    orders: map<Id, P.PaymentOrder>,
    bills: seq<Bill>)
  {
    function Rows(): Q.Rows { Q.Rows(users, members, tenants) }
    function Accounts(): P.Accounts { P.Accounts(orders, users, tenants) }
    function Books(): S.Books { S.Books(tenants, bills) }
  }

  datatype Event =
    | Use(key: Q.ApiKey, tokens: int, cost: Money)
    | PaymentEvent(step: P.Step)
    | SettleOne(id: Id, now: int)
    | ScheduledRun(listed: seq<Id>, clock: S.Clock)
    | BillPayment(billId: nat, amount: Money)

  function Apply(order: Q.Order, w: World, e: Event): World {
    match e
    case Use(key, tokens, cost) =>
      var rows := Q.Deduct(order, w.Rows(), key, tokens, cost).0;
      w.(users := rows.users, members := rows.members, tenants := rows.tenants)
    case PaymentEvent(step) =>
      var a := P.Apply(w.Accounts(), step);
      w.(orders := a.orders, users := a.users, tenants := a.tenants)
    case SettleOne(id, now) =>
      var b := S.Settle(w.Books(), id, now).0;
      w.(tenants := b.tenants, bills := b.bills)
    case ScheduledRun(listed, clock) =>
      var b := S.Scheduled(w.Books(), listed, clock).0;
      w.(tenants := b.tenants, bills := b.bills)
    case BillPayment(billId, amount) =>
      w.(bills := S.Pay(w.Books(), billId, amount).0.bills)
  }

  function Run(order: Q.Order, w: World, es: seq<Event>): World
    decreases |es|
  {
    if es == [] then w else Run(order, Apply(order, w, es[0]), es[1..])
  }

  /** What tenant `id` has, less what it owes. */
  function Position(w: World, id: Id): Money
    requires id in w.tenants
  {
    w.tenants[id].balance - w.tenants[id].creditUsed - L.Due(w.bills, id)
  }

  ghost function Recharged(w: World, id: Id): Money {
    P.PaidTotal(w.Accounts(), P.ToTenant(id))
  }

  predicate ChargesTenant(w: World, e: Event, id: Id) {
    e.Use? && e.key.quotaType == Q.Member && e.key.tenantId == id && id in w.tenants
  }

  /** The cost an event really funds beyond the token quota. When no source is
      left the request fails, but a positive balance is still taken. */
  function FundedBy(w: World, e: Event, id: Id): Money {
    if !ChargesTenant(w, e, id) then 0
    else match Q.OrganizationSource(w.tenants[id], e.tokens, e.cost)
      case FromTokens => 0
      case FromBalance => e.cost
      case FromCredit => e.cost
      case Unfunded => Max(w.tenants[id].balance, 0)
  }

  /** A balance too small for the cost, on a tenant with credit. */
  predicate IsPartial(w: World, e: Event, id: Id) {
    && ChargesTenant(w, e, id)
    && Q.OrganizationSource(w.tenants[id], e.tokens, e.cost) == Q.FromCredit
    && w.tenants[id].balance > 0
  }

  function LostBy(order: Q.Order, w: World, e: Event, id: Id): Money {
    if order == Q.Written && IsPartial(w, e, id) then w.tenants[id].balance else 0
  }

  /** What a payment takes off the tenant's bills. On a bill already paid it
      takes nothing off, and a too small one brings debt back. */
  function AppliedBy(w: World, e: Event, id: Id): Money {
    if !(e.BillPayment? && e.billId < |w.bills|) then 0
    else
      var bill := w.bills[e.billId];
      if bill.tenantId != id || bill.billType != CreditSettlement then 0
      else if bill.status != Paid then Min(e.amount, bill.totalCost)
      else Min(e.amount - bill.totalCost, 0)
  }

  function Funded(order: Q.Order, w: World, es: seq<Event>, id: Id): Money
    decreases |es|
  {
    if es == [] then 0 else FundedBy(w, es[0], id) + Funded(order, Apply(order, w, es[0]), es[1..], id)
  }

  function Lost(order: Q.Order, w: World, es: seq<Event>, id: Id): Money
    decreases |es|
  {
    if es == [] then 0 else LostBy(order, w, es[0], id) + Lost(order, Apply(order, w, es[0]), es[1..], id)
  }

  function Applied(order: Q.Order, w: World, es: seq<Event>, id: Id): Money
    decreases |es|
  {
    if es == [] then 0 else AppliedBy(w, es[0], id) + Applied(order, Apply(order, w, es[0]), es[1..], id)
  }

  predicate EverPartial(order: Q.Order, w: World, es: seq<Event>, id: Id)
    decreases |es|
  {
    es != [] && (IsPartial(w, es[0], id) || EverPartial(order, Apply(order, w, es[0]), es[1..], id))
  }

  lemma UseMoves(order: Q.Order, w: World, e: Event, id: Id)
    requires id in w.tenants && e.Use?
    ensures var v := Apply(order, w, e);
      && id in v.tenants && v.orders == w.orders && v.bills == w.bills
      && v.tenants[id].balance - v.tenants[id].creditUsed ==
         w.tenants[id].balance - w.tenants[id].creditUsed - FundedBy(w, e, id) - LostBy(order, w, e, id)
  {
  }

  lemma PaymentMoves(order: Q.Order, w: World, e: Event, id: Id)
    requires id in w.tenants && e.PaymentEvent?
    ensures var v := Apply(order, w, e);
      && id in v.tenants && v.bills == w.bills
      && v.tenants[id].creditUsed == w.tenants[id].creditUsed
      && v.tenants[id].balance - w.tenants[id].balance == Recharged(v, id) - Recharged(w, id)
  {
    P.StepCredits(w.Accounts(), e.step, P.ToTenant(id));
  }

  lemma BillPaymentMoves(w: World, e: Event, id: Id)
    requires e.BillPayment?
    ensures L.Due(S.Pay(w.Books(), e.billId, e.amount).0.bills, id) == L.Due(w.bills, id) - AppliedBy(w, e, id)
  {
    if e.billId < |w.bills| && w.bills[e.billId].billType == CreditSettlement {
      L.DueAfterUpdate(w.bills, e.billId, S.PayBill(w.bills[e.billId], e.amount), id);
    }
  }

  lemma ScheduledKeepsBalances(b: S.Books, listed: seq<Id>, clock: S.Clock, id: Id)
    requires id in b.tenants
    ensures var c := S.Scheduled(b, listed, clock).0;
      id in c.tenants && c.tenants[id].balance == b.tenants[id].balance
  {
    L.ScheduledRunSettlesExactly(b, listed, clock, id);
  }

  lemma EventMoves(order: Q.Order, w: World, e: Event, id: Id)
    requires id in w.tenants
    ensures var v := Apply(order, w, e);
      && id in v.tenants
      && Position(v, id) == Position(w, id) + (Recharged(v, id) - Recharged(w, id)) + AppliedBy(w, e, id)
                            - FundedBy(w, e, id) - LostBy(order, w, e, id)
  {
    match e
    case Use(_, _, _) => UseMoves(order, w, e, id);
    case PaymentEvent(_) => PaymentMoves(order, w, e, id);
    case SettleOne(x, now) => L.SettleKeepsOwed(w.Books(), x, now, id);
    case ScheduledRun(listed, clock) =>
      L.ScheduledRunKeepsOwed(w.Books(), listed, clock, id);
      ScheduledKeepsBalances(w.Books(), listed, clock, id);
    case BillPayment(_, _) => BillPaymentMoves(w, e, id);
  }

  /** Every change of a tenant's position over a whole run is a recharge, a bill
      payment, funded cost, or what the written order loses. */
  lemma {:induction false} LedgerConservation(order: Q.Order, w: World, es: seq<Event>, id: Id)
    requires id in w.tenants
    ensures var v := Run(order, w, es);
      && id in v.tenants
      && Position(v, id) == Position(w, id) + (Recharged(v, id) - Recharged(w, id)) + Applied(order, w, es, id)
                            - Funded(order, w, es, id) - Lost(order, w, es, id)
    decreases |es|
  {
    if es != [] {
      EventMoves(order, w, es[0], id);
      LedgerConservation(order, Apply(order, w, es[0]), es[1..], id);
    }
  }

  /** The meant order loses nothing. The written order loses something exactly
      when the run passes through the partial branch. */
  lemma {:induction false} LossIsThePartialBranch(order: Q.Order, w: World, es: seq<Event>, id: Id)
    ensures Lost(order, w, es, id) >= 0
    ensures Lost(order, w, es, id) == 0 <==> order == Q.Meant || !EverPartial(order, w, es, id)
    decreases |es|
  {
    if es != [] {
      LossIsThePartialBranch(order, Apply(order, w, es[0]), es[1..], id);
    }
  }

  // -------------------------------------------------------- individual users

  /** What an event takes off the balance of an individual user. */
  function UserChargedBy(w: World, e: Event, id: Id): Money {
    if e.Use? && e.key.quotaType == Q.Individual && e.key.quotaId == id && id in w.users
       && Q.IndividualSource(w.users[id], e.tokens) == Q.FromBalance
    then e.cost else 0
  }

  function UserCharged(order: Q.Order, w: World, es: seq<Event>, id: Id): Money
    decreases |es|
  {
    if es == [] then 0 else UserChargedBy(w, es[0], id) + UserCharged(order, Apply(order, w, es[0]), es[1..], id)
  }

  ghost function UserRecharged(w: World, id: Id): Money {
    P.PaidTotal(w.Accounts(), P.ToUser(id))
  }

  lemma UserEventMoves(order: Q.Order, w: World, e: Event, id: Id)
    requires id in w.users
    ensures var v := Apply(order, w, e);
      && id in v.users
      && v.users[id].balance == w.users[id].balance + (UserRecharged(v, id) - UserRecharged(w, id)) - UserChargedBy(w, e, id)
  {
    if e.PaymentEvent? {
      P.StepCredits(w.Accounts(), e.step, P.ToUser(id));
    }
  }

  /** A user's balance changes by recharges and by the full cost of the requests
      the token quota did not cover, and by nothing else. */
  lemma {:induction false} UserLedgerConservation(order: Q.Order, w: World, es: seq<Event>, id: Id)
    requires id in w.users
    ensures var v := Run(order, w, es);
      && id in v.users
      && v.users[id].balance == w.users[id].balance + (UserRecharged(v, id) - UserRecharged(w, id)) - UserCharged(order, w, es, id)
    decreases |es|
  {
    if es != [] {
      UserEventMoves(order, w, es[0], id);
      UserLedgerConservation(order, Apply(order, w, es[0]), es[1..], id);
    }
  }
}
