/** PaymentService: payment orders, provider callbacks, cancellation and expiry. */
module Payment {
  import opened Common
  import opened Entities
  import opened Sums

  datatype PaymentMode = IndividualMode | OrganizationMode | OtherMode

  datatype OrderType = Recharge | Subscription | SettlementPayment | OtherType

  datatype OrderStatus = OrderPending | OrderPaid | OrderCancelled | OrderExpired

  datatype PaymentOrder = PaymentOrder(
    mode: PaymentMode,
    userQuotaId: Option<Id>,
    tenantId: Option<Id>,
    orderNumber: string,
    orderType: OrderType,
    amount: Money,
    paymentId: string,
    status: OrderStatus,
    expireAt: Option<int>)

  datatype CallbackRequest = CallbackRequest(orderNumber: string, paymentId: string, paidAmount: Money)

  datatype Accounts = Accounts(
    orders: map<Id, PaymentOrder>,
    users: map<Id, UserQuota>,
    tenants: map<Id, Tenant>)

  /** The account a recharge order pays into. */
  datatype Target = ToUser(userQuotaId: Id) | ToTenant(tenantId: Id)

  predicate Names(o: PaymentOrder, target: Target) {
    o.orderType == Recharge &&
    match target
    case ToUser(id) => o.mode == IndividualMode && o.userQuotaId == Some(id)
    case ToTenant(id) => o.mode == OrganizationMode && o.tenantId == Some(id)
  }

  predicate Exists(a: Accounts, target: Target) {
    match target
    case ToUser(id) => id in a.users
    case ToTenant(id) => id in a.tenants
  }

  function BalanceOf(a: Accounts, target: Target): Money
    requires Exists(a, target)
  {
    match target
    case ToUser(id) => a.users[id].balance
    case ToTenant(id) => a.tenants[id].balance
  }

  // ------------------------------------------------------ the state changes

  function Cancel(a: Accounts, id: Id): (Accounts, Outcome) {
    if id !in a.orders then (a, Err(OrderNotFound))
    else if a.orders[id].status != OrderPending then (a, Err(OrderAlreadyProcessed))
    else (a.(orders := a.orders[id := a.orders[id].(status := OrderCancelled)]), Ok)
  }

  function ExpireOrder(o: PaymentOrder, now: int): PaymentOrder {
    if o.status == OrderPending && o.expireAt.Some? && o.expireAt.value < now then o.(status := OrderExpired) else o
  }

  function Expire(a: Accounts, now: int): Accounts {
    a.(orders := map id | id in a.orders :: ExpireOrder(a.orders[id], now))
  }

  /** What reaches the account once an order has been marked paid. */
  function Credit(a: Accounts, o: PaymentOrder): (Accounts, Outcome) {
    match o.mode
    case IndividualMode =>
      if o.userQuotaId == None then (a, Err(TargetMissing))
      else if o.userQuotaId.value !in a.users then (a, Err(UserQuotaNotFound))
      else
        var q := a.users[o.userQuotaId.value];
        if o.orderType == Recharge then
          (a.(users := a.users[o.userQuotaId.value := q.(
             balance := q.balance + o.amount,
             status := if q.status == PendingPayment then Active else q.status)]), Ok)
        else if o.orderType == Subscription then (a, Ok)
        else (a, Err(UnsupportedOrder))
    case OrganizationMode =>
      if o.tenantId == None then (a, Err(TargetMissing))
      else if o.tenantId.value !in a.tenants then (a, Err(TenantNotFound))
      else
        var t := a.tenants[o.tenantId.value];
        if o.orderType == Recharge then
          (a.(tenants := a.tenants[o.tenantId.value := t.(balance := t.balance + o.amount)]), Ok)
        else if o.orderType == OtherType then (a, Err(UnsupportedOrder))
        else (a, Ok)
    case OtherMode => (a, Err(UnsupportedOrder))
  }

  function MarkPaid(o: PaymentOrder, req: CallbackRequest): PaymentOrder {
    o.(status := OrderPaid, paymentId := req.paymentId)
  }

  /** The callback is accepted down to 99% of the order amount. */
  predicate Accepts(o: PaymentOrder, req: CallbackRequest) {
    o.status == OrderPending && 100 * req.paidAmount >= 99 * o.amount
  }

  /** `found` is the order the repository returned for the request. */
  function Callback(a: Accounts, found: Option<Id>, req: CallbackRequest): (Accounts, Outcome) {
    if found == None || found.value !in a.orders then (a, Err(OrderNotFound))
    else
      var o := a.orders[found.value];
      if o.status != OrderPending then (a, Err(OrderAlreadyProcessed))
      else if !Accepts(o, req) then (a, Err(PaidAmountTooSmall))
      else Credit(a.(orders := a.orders[found.value := MarkPaid(o, req)]), MarkPaid(o, req))
  }

  /** By payment id first, by order number only if that finds nothing. Payment
      ids are not unique, so any match may be returned. */
  predicate IsLookup(orders: map<Id, PaymentOrder>, req: CallbackRequest, found: Option<Id>) {
    if exists id :: id in orders && orders[id].paymentId == req.paymentId then
      found.Some? && found.value in orders && orders[found.value].paymentId == req.paymentId
    else if exists id :: id in orders && orders[id].orderNumber == req.orderNumber then
      found.Some? && found.value in orders && orders[found.value].orderNumber == req.orderNumber
    else
      found == None
  }

  // ------------------------------------------------------------ the service

  class PaymentService {
    var orders: map<Id, PaymentOrder>
    var users: map<Id, UserQuota>
    var tenants: map<Id, Tenant>

    function State(): Accounts
      reads this
    {
      Accounts(orders, users, tenants)
    }

    method CancelPaymentOrder(orderId: Id) returns (r: Outcome)
      modifies this`orders
      ensures (State(), r) == Cancel(old(State()), orderId)
    {
      if orderId !in orders {
        return Err(OrderNotFound);
      }
      var order := orders[orderId];
      if order.status != OrderPending {
        return Err(OrderAlreadyProcessed);
      }
      order := order.(status := OrderCancelled);
      orders := orders[orderId := order];
      r := Ok;
    }

    method ProcessPaymentCallback(req: CallbackRequest) returns (r: Outcome, found: Option<Id>)
      modifies this
      ensures IsLookup(old(orders), req, found)
      ensures (State(), r) == Callback(old(State()), found, req)
    {
      found := FindOrder(req);
      if found == None {
        return Err(OrderNotFound), None;
      }
      var id := found.value;
      var order := orders[id];
      if order.status != OrderPending {
        return Err(OrderAlreadyProcessed), found;
      }
      if 100 * req.paidAmount < 99 * order.amount {
        return Err(PaidAmountTooSmall), found;
      }
      order := order.(status := OrderPaid);
      order := order.(paymentId := req.paymentId);
      orders := orders[id := order];
      r := ProcessPayment(order);
    }

    method FindOrder(req: CallbackRequest) returns (found: Option<Id>)
      ensures IsLookup(orders, req, found)
      ensures found.Some? ==> found.value in orders
    {
      if id :| id in orders && orders[id].paymentId == req.paymentId {
        return Some(id);
      }
      if id :| id in orders && orders[id].orderNumber == req.orderNumber {
        return Some(id);
      }
      found := None;
    }

    method ProcessPayment(order: PaymentOrder) returns (r: Outcome)
      modifies this`users, this`tenants
      ensures (State(), r) == Credit(old(State()), order)
    {
      match order.mode {
        case IndividualMode => r := ProcessIndividualPayment(order);
        case OrganizationMode => r := ProcessOrganizationPayment(order);
        case OtherMode => r := Err(UnsupportedOrder);
      }
    }

    method ProcessIndividualPayment(order: PaymentOrder) returns (r: Outcome)
      requires order.mode == IndividualMode
      modifies this`users
      ensures (State(), r) == Credit(old(State()), order)
    {
      if order.userQuotaId == None {
        return Err(TargetMissing);
      }
      var id := order.userQuotaId.value;
      if id !in users {
        return Err(UserQuotaNotFound);
      }
      var quota := users[id];
      match order.orderType {
        case Recharge =>
          quota := quota.(balance := quota.balance + order.amount);
          if quota.status == PendingPayment {
            quota := quota.(status := Active);
          }
          users := users[id := quota];
        case Subscription =>
        case _ =>
          return Err(UnsupportedOrder);
      }
      r := Ok;
    }

    method ProcessOrganizationPayment(order: PaymentOrder) returns (r: Outcome)
      requires order.mode == OrganizationMode
      modifies this`tenants
      ensures (State(), r) == Credit(old(State()), order)
    {
      if order.tenantId == None {
        return Err(TargetMissing);
      }
      var id := order.tenantId.value;
      if id !in tenants {
        return Err(TenantNotFound);
      }
      var tenant := tenants[id];
      match order.orderType {
        case Recharge =>
          tenant := tenant.(balance := tenant.balance + order.amount);
          tenants := tenants[id := tenant];
        case SettlementPayment =>
        case Subscription =>
        case _ =>
          return Err(UnsupportedOrder);
      }
      r := Ok;
    }

    method CheckExpiredOrders(now: int)
      modifies this`orders
      ensures State() == Expire(old(State()), now)
    {
      orders := map id | id in orders :: ExpireOrder(orders[id], now);
    }
  }

  // ------------------------------------------------------------------- runs

  datatype Step =
    | Create(id: Id, order: PaymentOrder)
    | CancelOrder(id: Id)
    | Notify(found: Option<Id>, req: CallbackRequest)
    | ExpireOrders(now: int)

  /** A new order gets a fresh id and is pending; any other Create is no step. */
  function Apply(a: Accounts, s: Step): Accounts {
    match s
    case Create(id, o) =>
      if id in a.orders || o.status != OrderPending then a else a.(orders := a.orders[id := o])
    case CancelOrder(id) => Cancel(a, id).0
    case Notify(found, req) => Callback(a, found, req).0
    case ExpireOrders(now) => Expire(a, now)
  }

  function Run(a: Accounts, steps: seq<Step>): Accounts
    decreases |steps|
  {
    if steps == [] then a else Run(Apply(a, steps[0]), steps[1..])
  }

  /** Amounts of the paid orders that pay into `target`. */
  function PaidInto(orders: map<Id, PaymentOrder>, target: Target): map<Id, int> {
    map id | id in orders && orders[id].status == OrderPaid && Names(orders[id], target) :: orders[id].amount
  }

  ghost function PaidTotal(a: Accounts, target: Target): int {
    Total(PaidInto(a.orders, target))
  }

  /** What providers reported as received, for callbacks that credited `target`. */
  function ReceivedBy(a: Accounts, s: Step, target: Target): Money {
    if s.Notify? && s.found.Some? && s.found.value in a.orders
       && Accepts(a.orders[s.found.value], s.req) && Names(a.orders[s.found.value], target)
    then s.req.paidAmount else 0
  }

  function Received(a: Accounts, steps: seq<Step>, target: Target): Money
    decreases |steps|
  {
    if steps == [] then 0
    else ReceivedBy(a, steps[0], target) + Received(Apply(a, steps[0]), steps[1..], target)
  }

  lemma PayingOneOrder(orders: map<Id, PaymentOrder>, id: Id, req: CallbackRequest, target: Target)
    requires id in orders && orders[id].status == OrderPending
    ensures Total(PaidInto(orders[id := MarkPaid(orders[id], req)], target)) ==
            Total(PaidInto(orders, target)) + if Names(orders[id], target) then orders[id].amount else 0
  {
    var after := orders[id := MarkPaid(orders[id], req)];
    if Names(orders[id], target) {
      TotalUpdate(PaidInto(orders, target), id, orders[id].amount);
      assert PaidInto(after, target) == PaidInto(orders, target)[id := orders[id].amount];
    } else {
      assert PaidInto(after, target) == PaidInto(orders, target);
    }
  }

  lemma WritingUnpaid(orders: map<Id, PaymentOrder>, id: Id, o: PaymentOrder, target: Target)
    requires id !in orders || orders[id].status != OrderPaid
    requires o.status != OrderPaid
    ensures PaidInto(orders[id := o], target) == PaidInto(orders, target)
  {
  }

  lemma ExpiryPaysNothing(a: Accounts, now: int, target: Target)
    ensures PaidInto(Expire(a, now).orders, target) == PaidInto(a.orders, target)
  {
    var after := Expire(a, now).orders;
    forall id | id in a.orders
      ensures id in PaidInto(after, target) <==> id in PaidInto(a.orders, target)
      ensures id in PaidInto(after, target) ==> PaidInto(after, target)[id] == PaidInto(a.orders, target)[id]
    {
      assert after[id] == ExpireOrder(a.orders[id], now);
    }
  }

  /** Crediting an order moves exactly the balance the order names. */
  lemma CreditMoves(a: Accounts, o: PaymentOrder, target: Target)
    requires Exists(a, target)
    ensures var b := Credit(a, o).0;
      && Exists(b, target)
      && b.orders == a.orders
      && BalanceOf(b, target) == BalanceOf(a, target) + if Names(o, target) then o.amount else 0
  {
  }

  lemma StepCredits(a: Accounts, s: Step, target: Target)
    requires Exists(a, target)
    ensures var b := Apply(a, s);
      && Exists(b, target)
      && BalanceOf(b, target) - BalanceOf(a, target) == PaidTotal(b, target) - PaidTotal(a, target)
      && 99 * (PaidTotal(b, target) - PaidTotal(a, target)) <= 100 * ReceivedBy(a, s, target)
  {
    match s
    case Create(id, o) =>
      if id !in a.orders && o.status == OrderPending {
        WritingUnpaid(a.orders, id, o, target);
      }
    case CancelOrder(id) =>
      if id in a.orders && a.orders[id].status == OrderPending {
        WritingUnpaid(a.orders, id, a.orders[id].(status := OrderCancelled), target);
      }
    case ExpireOrders(now) => ExpiryPaysNothing(a, now, target);
    case Notify(found, req) =>
      if found.Some? && found.value in a.orders && Accepts(a.orders[found.value], req) {
        var paid := MarkPaid(a.orders[found.value], req);
        PayingOneOrder(a.orders, found.value, req, target);
        CreditMoves(a.(orders := a.orders[found.value := paid]), paid, target);
      }
  }

  /** Over any run of duplicated, reordered or interleaved steps the balance
      gains exactly the amounts of the orders newly paid into it, each once,
      and providers have reported at least 99% of that. */
  lemma {:induction false} AtMostOnceCrediting(a: Accounts, steps: seq<Step>, target: Target)
    requires Exists(a, target)
    ensures var b := Run(a, steps);
      && Exists(b, target)
      && BalanceOf(b, target) - BalanceOf(a, target) == PaidTotal(b, target) - PaidTotal(a, target)
      && 99 * (BalanceOf(b, target) - BalanceOf(a, target)) <= 100 * Received(a, steps, target)
    decreases |steps|
  {
    if steps != [] {
      StepCredits(a, steps[0], target);
      AtMostOnceCrediting(Apply(a, steps[0]), steps[1..], target);
    }
  }

  /** `now` is what `was` may become: a settled order stays as it is, a pending
      one keeps what it is worth and whom it names. */
  predicate Succeeds(was: PaymentOrder, now: PaymentOrder) {
    && (was.status != OrderPending ==> now == was)
    && now == was.(status := now.status, paymentId := now.paymentId)
  }

  lemma StepKeepsOrders(a: Accounts, s: Step, id: Id)
    requires id in a.orders
    ensures id in Apply(a, s).orders && Succeeds(a.orders[id], Apply(a, s).orders[id])
  {
  }

  /** Paid, cancelled and expired orders never change again, whatever follows. */
  lemma {:induction false} SettledOrdersAreFinal(a: Accounts, steps: seq<Step>, id: Id)
    requires id in a.orders
    ensures id in Run(a, steps).orders && Succeeds(a.orders[id], Run(a, steps).orders[id])
    decreases |steps|
  {
    if steps != [] {
      StepKeepsOrders(a, steps[0], id);
      SettledOrdersAreFinal(Apply(a, steps[0]), steps[1..], id);
    }
  }

  /** The order names this account, the account is there, and crediting it would
      show: an amount, or a user waiting for payment. */
  predicate Reaches(a: Accounts, o: PaymentOrder, target: Target) {
    && Names(o, target) && Exists(a, target)
    && (o.amount != 0 || (target.ToUser? && a.users[target.userQuotaId].status == PendingPayment))
  }

  /** What the orders other than `id` have paid into `target`. */
  ghost function PaidByOthers(a: Accounts, id: Id, target: Target): int {
    Total(PaidInto(a.orders - {id}, target))
  }

  /** An accepted callback marks the order paid, and changes no account
      if and only if there is none the order reaches: it names no account, the
      account is gone, or it is not a recharge. Some of these are errors and some
      are reported as success. */
  lemma PaidButNotCredited(a: Accounts, id: Id, req: CallbackRequest)
    requires id in a.orders && Accepts(a.orders[id], req)
    ensures var (b, r) := Callback(a, Some(id), req);
      && b.orders == a.orders[id := MarkPaid(a.orders[id], req)]
      && (b.users == a.users && b.tenants == a.tenants <==> forall target :: !Reaches(a, a.orders[id], target))
      && (r.Err? <==> (match a.orders[id].mode
            case IndividualMode =>
              || a.orders[id].userQuotaId == None || a.orders[id].userQuotaId.value !in a.users
              || a.orders[id].orderType !in {Recharge, Subscription}
            case OrganizationMode =>
              || a.orders[id].tenantId == None || a.orders[id].tenantId.value !in a.tenants
              || a.orders[id].orderType == OtherType
            case OtherMode => true))
      && (r.Err? ==> b.users == a.users && b.tenants == a.tenants)
  {
    var o, b := a.orders[id], Callback(a, Some(id), req).0;
    if target :| Reaches(a, o, target) {
      match target
      case ToUser(u) => assert b.users[u] != a.users[u];
      case ToTenant(t) => assert b.tenants[t] != a.tenants[t];
    } else {
      NotReached(a, id, req);
    }
  }

  lemma NotReached(a: Accounts, id: Id, req: CallbackRequest)
    requires id in a.orders && Accepts(a.orders[id], req)
    requires forall target :: !Reaches(a, a.orders[id], target)
    ensures var b := Callback(a, Some(id), req).0;
      b.users == a.users && b.tenants == a.tenants
  {
    var o := a.orders[id];
    if o.userQuotaId.Some? {
      assert !Reaches(a, o, ToUser(o.userQuotaId.value));
    }
    if o.tenantId.Some? {
      assert !Reaches(a, o, ToTenant(o.tenantId.value));
    }
  }

  /** A paid order is never made good, or paid twice: whatever follows, it stays
      as it is, and every account gains exactly what the other orders pay. */
  lemma PaidOrderPaysNothingMore(a: Accounts, id: Id, steps: seq<Step>, target: Target)
    requires id in a.orders && a.orders[id].status == OrderPaid && Exists(a, target)
    ensures var b := Run(a, steps);
      && id in b.orders && b.orders[id] == a.orders[id]
      && Exists(b, target)
      && BalanceOf(b, target) - BalanceOf(a, target) == PaidByOthers(b, id, target) - PaidByOthers(a, id, target)
  {
    AtMostOnceCrediting(a, steps, target);
    SettledOrdersAreFinal(a, steps, id);
    SplitOffPaid(a, id, target);
    SplitOffPaid(Run(a, steps), id, target);
  }

  lemma SplitOffPaid(a: Accounts, id: Id, target: Target)
    requires id in a.orders && a.orders[id].status == OrderPaid
    ensures PaidTotal(a, target) == PaidByOthers(a, id, target) + if Names(a.orders[id], target) then a.orders[id].amount else 0
  {
    var paid := PaidInto(a.orders, target);
    if Names(a.orders[id], target) {
      TotalRemove(paid, id);
      assert PaidInto(a.orders - {id}, target) == paid - {id};
    } else {
      assert PaidInto(a.orders - {id}, target) == paid;
    }
  }

  // --------------------------------------------------- what each step decides

  /** A callback for an order pays it exactly if it is pending and at least 99% of
      the amount arrived; then nothing else in the orders changes. Otherwise
      nothing changes at all. */
  lemma CallbackPaysExactly(a: Accounts, id: Id, req: CallbackRequest)
    requires id in a.orders
    ensures var o, (b, r) := a.orders[id], Callback(a, Some(id), req);
      if o.status != OrderPending then (b, r) == (a, Err(OrderAlreadyProcessed))
      else if 100 * req.paidAmount < 99 * o.amount then (b, r) == (a, Err(PaidAmountTooSmall))
      else b.orders == a.orders[id := o.(status := OrderPaid, paymentId := req.paymentId)]
  {
  }

  /** Which order a callback is about: one with its payment id; only if there is
      none, one with its order number; none exactly if there is neither. */
  lemma LookupExactly(orders: map<Id, PaymentOrder>, req: CallbackRequest, found: Option<Id>)
    requires IsLookup(orders, req, found)
    ensures found == None <==> forall id | id in orders :: orders[id].paymentId != req.paymentId && orders[id].orderNumber != req.orderNumber
    ensures found.Some? ==> found.value in orders
    ensures found.Some? && orders[found.value].paymentId != req.paymentId ==>
            orders[found.value].orderNumber == req.orderNumber && forall id | id in orders :: orders[id].paymentId != req.paymentId
  {
  }

  /** The whole effect of crediting a paid order: only the account a recharge
      names changes, by exactly the amount, and a user that was waiting for
      payment becomes active. */
  lemma CreditTouchesOneAccount(a: Accounts, o: PaymentOrder)
    ensures var (b, r) := Credit(a, o);
      && b.orders == a.orders && b.users.Keys == a.users.Keys && b.tenants.Keys == a.tenants.Keys
      && (forall u | u in a.users ::
            b.users[u] == if o.mode == IndividualMode && o.userQuotaId == Some(u) && o.orderType == Recharge
                          then a.users[u].(balance := a.users[u].balance + o.amount,
                                           status := if a.users[u].status == PendingPayment then Active else a.users[u].status)
                          else a.users[u])
      && (forall t | t in a.tenants ::
            b.tenants[t] == if o.mode == OrganizationMode && o.tenantId == Some(t) && o.orderType == Recharge
                            then a.tenants[t].(balance := a.tenants[t].balance + o.amount)
                            else a.tenants[t])
      && (r == Err(TargetMissing) <==> (o.mode == IndividualMode && o.userQuotaId == None) || (o.mode == OrganizationMode && o.tenantId == None))
      && (r == Err(UserQuotaNotFound) <==> o.mode == IndividualMode && o.userQuotaId.Some? && o.userQuotaId.value !in a.users)
      && (r == Err(TenantNotFound) <==> o.mode == OrganizationMode && o.tenantId.Some? && o.tenantId.value !in a.tenants)
  {
  }

  /** Cancelling works exactly on a pending order, and for good: in whatever
      follows the order stays as it was but cancelled, and every callback for it
      is refused without effect. */
  lemma CancelledIsNeverPaid(a: Accounts, id: Id, steps: seq<Step>, req: CallbackRequest)
    requires id in a.orders
    ensures var (b, r) := Cancel(a, id);
      var c := Run(b, steps);
      if a.orders[id].status != OrderPending then b == a && r == Err(OrderAlreadyProcessed)
      else && r == Ok && b == a.(orders := b.orders) && b.orders - {id} == a.orders - {id}
           && id in c.orders && c.orders[id] == a.orders[id].(status := OrderCancelled)
           && Callback(c, Some(id), req) == (c, Err(OrderAlreadyProcessed))
  {
    if a.orders[id].status == OrderPending {
      SettledOrdersAreFinal(Cancel(a, id).0, steps, id);
    }
  }

  /** Expiry takes exactly the pending orders whose time is over, and for good,
      even for a callback that comes late. */
  lemma ExpiredIsNeverPaid(a: Accounts, now: int, id: Id, steps: seq<Step>, req: CallbackRequest)
    requires id in a.orders
    ensures var b, o := Expire(a, now), a.orders[id];
      var c := Run(b, steps);
      && b.users == a.users && b.tenants == a.tenants && b.orders.Keys == a.orders.Keys
      && if o.status == OrderPending && o.expireAt.Some? && o.expireAt.value < now
         then && id in c.orders && c.orders[id] == o.(status := OrderExpired)
              && Callback(c, Some(id), req) == (c, Err(OrderAlreadyProcessed))
         else b.orders[id] == o
  {
    SettledOrdersAreFinal(Expire(a, now), steps, id);
  }
}
