/** QuotaService: the two-layer allowance check and the funding waterfall
    token quota -> balance -> approved credit. */
module Quota {
  import opened Common
  import opened Entities

  datatype QuotaType = Individual | Member | UnknownType

  datatype ApiKey = ApiKey(quotaType: QuotaType, quotaId: Id, tenantId: Id)

  datatype Request = Request(key: ApiKey, tokens: int, cost: Money)

  // ---------------------------------------------------------------- checks

  function CheckIndividual(q: UserQuota, tokens: int, cost: Money): Outcome {
    if q.status != Active then Err(UserSuspended)
    else if q.tokenQuota > 0 && q.tokensUsed + tokens <= q.tokenQuota then Ok
    else if q.balance > 0 && q.balance >= cost then Ok
    else Err(InsufficientBalance)
  }

  function CheckMember(m: MemberQuota, tokens: int, cost: Money): Outcome {
    if m.status != Active then Err(MemberSuspended)
    else if m.tokenQuotaLimit.Some? && m.tokensUsed + tokens > m.tokenQuotaLimit.value then Err(MemberTokenQuotaExceeded)
    else if m.costLimit.Some? && m.costUsed + cost > m.costLimit.value then Err(MemberCostLimitExceeded)
    else Ok
  }

  function CheckOrganization(t: Tenant, tokens: int, cost: Money): Outcome {
    if t.status == Suspended then Err(TenantSuspended)
    else if t.tokenLimit.Some? && t.tokensUsedMonth + tokens <= t.tokenLimit.value then Ok
    else if t.balance > 0 && t.balance >= cost then Ok
    else if t.HasCredit() then
      if t.creditUsed + cost <= t.creditLimit.value then Ok else Err(CreditLimitExceeded)
    else Err(NoPaymentSource)
  }

  // ------------------------------------------------- what a deduction means

  /** Where the cost of one request comes from. */
  datatype Source = FromTokens | FromBalance | FromCredit | Unfunded

  function IndividualSource(q: UserQuota, tokens: int): Source {
    if q.tokenQuota > 0 && q.tokensUsed < q.tokenQuota && q.tokensUsed + tokens <= q.tokenQuota
    then FromTokens else FromBalance
  }

  function OrganizationSource(t: Tenant, tokens: int, cost: Money): Source {
    if t.tokenLimit.Some? && t.tokensUsedMonth + tokens <= t.tokenLimit.value then FromTokens
    else if t.balance > 0 && t.balance >= cost then FromBalance
    else if t.HasCredit() then FromCredit
    else Unfunded
  }

  /** The written order wipes the balance before computing what remains; the
      order its comment describes charges the balance first. */
  datatype Order = Written | Meant

  /** The part of the cost put on credit when the balance cannot cover it. */
  function CreditCharge(order: Order, balance: Money, cost: Money): Money {
    if order == Meant && balance > 0 then cost - balance else cost
  }

  function DeductIndividual(q: UserQuota, tokens: int, cost: Money): UserQuota {
    var exhausted := q.tokenQuota > 0 && q.tokensUsed < q.tokenQuota;
    match IndividualSource(q, tokens)
    case FromTokens =>
      q.(tokensUsed := q.tokensUsed + tokens, monthlyCost := q.monthlyCost + cost)
    case _ =>
      q.(tokensUsed := if exhausted then q.tokenQuota else q.tokensUsed,
         balance := q.balance - cost,
         monthlyCost := q.monthlyCost + cost,
         status := if q.balance <= cost then Suspended else q.status)
  }

  function DeductOrganization(order: Order, t: Tenant, tokens: int, cost: Money): (Tenant, Outcome) {
    var counted := t.(tokensUsedMonth := t.tokensUsedMonth + tokens, budgetUsedMonth := t.budgetUsedMonth + cost);
    match OrganizationSource(t, tokens, cost)
    case FromTokens => (counted, Ok)
    case FromBalance => (counted.(balance := t.balance - cost), Ok)
    case FromCredit =>
      (counted.(balance := Min(t.balance, 0), creditUsed := t.creditUsed + CreditCharge(order, t.balance, cost)), Ok)
    case Unfunded =>
      (counted.(balance := Min(t.balance, 0), status := Suspended), Err(NoPaymentSource))
  }

  function CountMember(m: MemberQuota, tokens: int, cost: Money): MemberQuota {
    m.(tokensUsed := m.tokensUsed + tokens, costUsed := m.costUsed + cost)
  }

  /** The three repositories behind the service. */
  datatype Rows = Rows(users: map<Id, UserQuota>, members: map<Id, MemberQuota>, tenants: map<Id, Tenant>)

  function Check(w: Rows, key: ApiKey, tokens: int, cost: Money): Outcome {
    match key.quotaType
    case Individual =>
      if key.quotaId !in w.users then Err(UserQuotaNotFound)
      else CheckIndividual(w.users[key.quotaId], tokens, cost)
    case Member =>
      if key.quotaId !in w.members then Err(MemberQuotaNotFound)
      else
        var first := CheckMember(w.members[key.quotaId], tokens, cost);
        if first.Err? then first
        else if key.tenantId !in w.tenants then Err(TenantNotFound)
        else CheckOrganization(w.tenants[key.tenantId], tokens, cost)
    case UnknownType => Err(InvalidQuotaType)
  }

  /** Counting a missing member updates zero rows and reports no error. */
  function CountMembers(members: map<Id, MemberQuota>, id: Id, tokens: int, cost: Money): map<Id, MemberQuota> {
    if id in members then members[id := CountMember(members[id], tokens, cost)] else members
  }

  function Deduct(order: Order, w: Rows, key: ApiKey, tokens: int, cost: Money): (Rows, Outcome) {
    match key.quotaType
    case Individual =>
      if key.quotaId !in w.users then (w, Err(UserQuotaNotFound))
      else (w.(users := w.users[key.quotaId := DeductIndividual(w.users[key.quotaId], tokens, cost)]), Ok)
    case Member =>
      var counted := w.(members := CountMembers(w.members, key.quotaId, tokens, cost));
      if key.tenantId !in w.tenants then (counted, Err(TenantNotFound))
      else
        var (t, r) := DeductOrganization(order, w.tenants[key.tenantId], tokens, cost);
        (counted.(tenants := w.tenants[key.tenantId := t]), r)
    case UnknownType => (w, Err(InvalidQuotaType))
  }

  // ------------------------------------------------------------ the service

  class QuotaService {
    var users: map<Id, UserQuota>
    var members: map<Id, MemberQuota>
    var tenants: map<Id, Tenant>

    function State(): Rows
      reads this
    {
      Rows(users, members, tenants)
    }

    method CheckUsageAllowance(key: ApiKey, tokens: int, cost: Money) returns (r: Outcome)
      ensures r == Check(State(), key, tokens, cost)
    {
      match key.quotaType {
        case Individual => r := CheckIndividualQuota(key.quotaId, tokens, cost);
        case Member => r := CheckMemberQuota(key.quotaId, key.tenantId, tokens, cost);
        case UnknownType => r := Err(InvalidQuotaType);
      }
    }

    method CheckIndividualQuota(quotaId: Id, tokens: int, cost: Money) returns (r: Outcome)
      ensures r == Check(State(), ApiKey(Individual, quotaId, 0), tokens, cost)
    {
      if quotaId !in users {
        return Err(UserQuotaNotFound);
      }
      var quota := users[quotaId];
      if quota.status != Active {
        return Err(UserSuspended);
      }
      if quota.tokenQuota > 0 && quota.tokensUsed + tokens <= quota.tokenQuota {
        return Ok;
      }
      if quota.balance > 0 && quota.balance >= cost {
        return Ok;
      }
      r := Err(InsufficientBalance);
    }

    method CheckMemberQuota(memberId: Id, tenantId: Id, tokens: int, cost: Money) returns (r: Outcome)
      ensures r == Check(State(), ApiKey(Member, memberId, tenantId), tokens, cost)
    {
      if memberId !in members {
        return Err(MemberQuotaNotFound);
      }
      var member := members[memberId];
      if member.status != Active {
        return Err(MemberSuspended);
      }
      if member.tokenQuotaLimit.Some? {
        if member.tokensUsed + tokens > member.tokenQuotaLimit.value {
          return Err(MemberTokenQuotaExceeded);
        }
      }
      if member.costLimit.Some? {
        if member.costUsed + cost > member.costLimit.value {
          return Err(MemberCostLimitExceeded);
        }
      }
      r := CheckOrganizationQuota(tenantId, tokens, cost);
    }

    method CheckOrganizationQuota(tenantId: Id, tokens: int, cost: Money) returns (r: Outcome)
      ensures r == if tenantId in tenants then CheckOrganization(tenants[tenantId], tokens, cost) else Err(TenantNotFound)
    {
      if tenantId !in tenants {
        return Err(TenantNotFound);
      }
      var tenant := tenants[tenantId];
      if tenant.status == Suspended {
        return Err(TenantSuspended);
      }
      if tenant.tokenLimit.Some? && tenant.tokensUsedMonth + tokens <= tenant.tokenLimit.value {
        return Ok;
      }
      if tenant.balance > 0 && tenant.balance >= cost {
        return Ok;
      }
      if tenant.creditStatus == CreditApproved && tenant.creditLimit.Some? {
        if tenant.creditUsed + cost <= tenant.creditLimit.value {
          return Ok;
        }
        return Err(CreditLimitExceeded);
      }
      r := Err(NoPaymentSource);
    }

    method DeductUsage(key: ApiKey, tokens: int, cost: Money) returns (r: Outcome)
      modifies this
      ensures (State(), r) == Deduct(Written, old(State()), key, tokens, cost)
    {
      match key.quotaType {
        case Individual => r := DeductIndividualUsage(key.quotaId, tokens, cost);
        case Member => r := DeductMemberUsage(key.quotaId, key.tenantId, tokens, cost);
        case UnknownType => r := Err(InvalidQuotaType);
      }
    }

    method DeductIndividualUsage(quotaId: Id, tokens: int, cost: Money) returns (r: Outcome)
      modifies this
      ensures (State(), r) == Deduct(Written, old(State()), ApiKey(Individual, quotaId, 0), tokens, cost)
    {
      if quotaId !in users {
        return Err(UserQuotaNotFound);
      }
      var quota := users[quotaId];
      if quota.tokenQuota > 0 && quota.tokensUsed < quota.tokenQuota {
        var remainingTokens := quota.tokenQuota - quota.tokensUsed;
        if tokens <= remainingTokens {
          quota := quota.(tokensUsed := quota.tokensUsed + tokens);
          quota := quota.(monthlyCost := quota.monthlyCost + cost);
          users := users[quotaId := quota];
          return Ok;
        }
        quota := quota.(tokensUsed := quota.tokenQuota);
      }
      quota := quota.(balance := quota.balance - cost);
      quota := quota.(monthlyCost := quota.monthlyCost + cost);
      users := users[quotaId := quota];
      if quota.balance <= 0 {
        quota := quota.(status := Suspended);
        users := users[quotaId := quota];
      }
      assert users == old(users)[quotaId := quota];
      r := Ok;
    }

    method DeductMemberUsage(memberId: Id, tenantId: Id, tokens: int, cost: Money) returns (r: Outcome)
      modifies this
      ensures (State(), r) == Deduct(Written, old(State()), ApiKey(Member, memberId, tenantId), tokens, cost)
    {
      if memberId in members {
        members := members[memberId := members[memberId].(tokensUsed := members[memberId].tokensUsed + tokens)];
      }
      if memberId in members {
        members := members[memberId := members[memberId].(costUsed := members[memberId].costUsed + cost)];
      }
      assert members == CountMembers(old(members), memberId, tokens, cost);
      r := DeductOrganizationUsage(tenantId, tokens, cost);
    }

    method DeductOrganizationUsage(tenantId: Id, tokens: int, cost: Money) returns (r: Outcome)
      modifies this`tenants
      ensures tenantId !in old(tenants) ==> r == Err(TenantNotFound) && tenants == old(tenants)
      ensures tenantId in old(tenants) ==>
        var (t, outcome) := DeductOrganization(Written, old(tenants)[tenantId], tokens, cost);
        tenants == old(tenants)[tenantId := t] && r == outcome
    {
      if tenantId !in tenants {
        return Err(TenantNotFound);
      }
      var tenant := tenants[tenantId];
      tenant := tenant.(tokensUsedMonth := tenant.tokensUsedMonth + tokens);
      tenant := tenant.(budgetUsedMonth := tenant.budgetUsedMonth + cost);
      if tenant.tokenLimit.Some? && tenant.tokensUsedMonth <= tenant.tokenLimit.value {
        tenants := tenants[tenantId := tenant];
        return Ok;
      }
      if tenant.balance > 0 {
        if tenant.balance >= cost {
          tenant := tenant.(balance := tenant.balance - cost);
          tenants := tenants[tenantId := tenant];
          return Ok;
        }
        tenant := tenant.(balance := 0);
        var remainingCost := cost - tenant.balance;
        if tenant.creditStatus == CreditApproved && tenant.creditLimit.Some? {
          tenant := tenant.(creditUsed := tenant.creditUsed + remainingCost);
          tenants := tenants[tenantId := tenant];
          return Ok;
        }
        tenant := tenant.(status := Suspended);
        tenants := tenants[tenantId := tenant];
        return Err(NoPaymentSource);
      }
      if tenant.creditStatus == CreditApproved && tenant.creditLimit.Some? {
        tenant := tenant.(creditUsed := tenant.creditUsed + cost);
        tenants := tenants[tenantId := tenant];
        return Ok;
      }
      tenant := tenant.(status := Suspended);
      tenants := tenants[tenantId := tenant];
      r := Err(NoPaymentSource);
    }
  }
}
