/** How the allowance check and the deduction fit together. */
module QuotaLaws {
  import opened Common
  import opened Entities
  import opened Quota

  // ------------------------------------- the check is exact for the deduction

  /** An organization check passes exactly when deducting from the same state
      finds a source and leaves credit within its limit if credit pays. */
  lemma OrganizationCheckIsExact(t: Tenant, tokens: int, cost: Money)
    ensures var (u, r) := DeductOrganization(Written, t, tokens, cost);
      CheckOrganization(t, tokens, cost).Ok? <==>
        && t.status != Suspended
        && r.Ok?
        && (OrganizationSource(t, tokens, cost) == FromCredit ==> u.creditUsed <= t.creditLimit.value)
  {
  }

  /** What one deduction does to each account: exactly one source pays, and a
      tenant is suspended exactly when none can. */
  lemma OrganizationDeductionEffects(t: Tenant, tokens: int, cost: Money)
    ensures var (u, r) := DeductOrganization(Written, t, tokens, cost);
      var within := t.tokenLimit.Some? && u.tokensUsedMonth <= t.tokenLimit.value;
      var covered := t.balance > 0 && t.balance >= cost;
      && u.tokensUsedMonth - t.tokensUsedMonth == tokens
      && u.budgetUsedMonth - t.budgetUsedMonth == cost
      && (within ==> r.Ok? && u.balance == t.balance && u.creditUsed == t.creditUsed)
      && (!within && covered ==> r.Ok? && u.balance + cost == t.balance && u.creditUsed == t.creditUsed)
      && (!within && !covered ==> u.balance <= 0 && (t.balance <= 0 ==> u.balance == t.balance))
      && (!within && !covered ==> (r.Ok? <==> t.HasCredit()))
      && (!within && !covered && t.HasCredit() ==> u.creditUsed == t.creditUsed + cost)
      && (r.Err? ==> r == Err(NoPaymentSource) && u.creditUsed == t.creditUsed)
      && u.status == (if r.Err? then Suspended else t.status)
      && u == t.(tokensUsedMonth := u.tokensUsedMonth, budgetUsedMonth := u.budgetUsedMonth,
                 balance := u.balance, creditUsed := u.creditUsed, status := u.status)
  {
  }

  /** What one individual deduction does: tokens pay for a request that fits what
      is left of the quota, and otherwise the whole cost comes off the balance,
      the quota is used up, and the user is suspended exactly when nothing is
      left. */
  lemma IndividualDeductionEffects(q: UserQuota, tokens: int, cost: Money)
    ensures var p := DeductIndividual(q, tokens, cost);
      var fits := 0 < q.tokenQuota && q.tokensUsed < q.tokenQuota && tokens <= q.tokenQuota - q.tokensUsed;
      && p.monthlyCost - q.monthlyCost == cost
      && q.balance - p.balance == (if fits then 0 else cost)
      && (fits ==> p.tokensUsed == q.tokensUsed + tokens && p.status == q.status)
      && (!fits ==> p.tokensUsed == (if 0 < q.tokenQuota then Max(q.tokensUsed, q.tokenQuota) else q.tokensUsed))
      && (!fits ==> p.status == (if p.balance <= 0 then Suspended else q.status))
      && p.tokenQuota == q.tokenQuota
  {
  }

  /** The written order differs from the meant one only on credit, only in the
      branch where a positive balance is too small, and by that whole balance. */
  lemma WrittenExceedsMeant(t: Tenant, tokens: int, cost: Money)
    ensures var (written, r) := DeductOrganization(Written, t, tokens, cost);
      var (meant, s) := DeductOrganization(Meant, t, tokens, cost);
      var partial := OrganizationSource(t, tokens, cost) == FromCredit && t.balance > 0;
      && r == s
      && written == meant.(creditUsed := meant.creditUsed + if partial then t.balance else 0)
      && (written != meant <==> partial)
  {
  }

  /** For positive token counts: an accepted individual request never overdraws,
      never passes the token quota, and suspends the user exactly when it
      spends the last of the balance. */
  lemma IndividualCheckProtects(q: UserQuota, tokens: int, cost: Money)
    requires CheckIndividual(q, tokens, cost).Ok? && tokens > 0 && q.balance >= 0
    ensures var p := DeductIndividual(q, tokens, cost);
      && p.balance >= 0
      && (0 < q.tokenQuota && q.tokensUsed <= q.tokenQuota ==> p.tokensUsed <= q.tokenQuota)
      && (p.status == Suspended <==> IndividualSource(q, tokens) == FromBalance && p.balance == 0)
      && (p.status == Suspended || p.status == Active)
  {
  }

  /** With zero tokens the two functions read an exactly used-up quota
      differently, and that is the only way an accepted request overdraws. */
  lemma IndividualOverdrawsExactly(q: UserQuota, tokens: int, cost: Money)
    requires CheckIndividual(q, tokens, cost).Ok? && tokens >= 0 && q.balance >= 0
    ensures DeductIndividual(q, tokens, cost).balance < 0 <==>
            tokens == 0 && 0 < q.tokenQuota == q.tokensUsed && q.balance < cost
  {
  }

  // ------------------------------------------------------ what refusals mean

  predicate WithinLimit(used: int, limit: Option<int>) {
    limit.Some? ==> used <= limit.value
  }

  /** An organization's refusals foretell the deduction: "no source" exactly if
      deducting would fail, "credit exceeded" exactly if it would succeed on
      credit beyond the limit. */
  lemma OrganizationRefusals(t: Tenant, tokens: int, cost: Money)
    ensures var r, (u, outcome) := CheckOrganization(t, tokens, cost), DeductOrganization(Written, t, tokens, cost);
      && (r == Err(TenantSuspended) <==> t.status == Suspended)
      && (r == Err(NoPaymentSource) <==> t.status != Suspended && outcome == Err(NoPaymentSource))
      && (r == Err(CreditLimitExceeded) <==>
            && t.status != Suspended && t.creditStatus == CreditApproved && t.creditLimit.Some?
            && !(t.tokenLimit.Some? && u.tokensUsedMonth <= t.tokenLimit.value)
            && !(t.balance > 0 && t.balance >= cost)
            && u.creditUsed > t.creditLimit.value)
      && r in {Ok, Err(TenantSuspended), Err(NoPaymentSource), Err(CreditLimitExceeded)}
  {
  }

  /** A user's refusals: out of service, or neither the quota nor a positive
      balance covers the request, which deducting would then overdraw. */
  lemma IndividualRefusals(q: UserQuota, tokens: int, cost: Money)
    ensures var r, p := CheckIndividual(q, tokens, cost), DeductIndividual(q, tokens, cost);
      && (r == Err(UserSuspended) <==> q.status != Active)
      && (r == Err(InsufficientBalance) <==>
            q.status == Active && !(0 < q.tokenQuota && q.tokensUsed + tokens <= q.tokenQuota) && (q.balance <= 0 || q.balance < cost))
      && r in {Ok, Err(UserSuspended), Err(InsufficientBalance)}
      && (r == Err(InsufficientBalance) && q.balance > 0 ==> p.balance < 0)
  {
  }

  /** A member's refusals, in order: out of service, tokens over the limit once
      counted, cost over the limit once counted. */
  lemma MemberRefusals(m: MemberQuota, tokens: int, cost: Money)
    ensures var r, n := CheckMember(m, tokens, cost), CountMember(m, tokens, cost);
      && (r == Err(MemberSuspended) <==> m.status != Active)
      && (r == Err(MemberTokenQuotaExceeded) <==> m.status == Active && !WithinLimit(n.tokensUsed, m.tokenQuotaLimit))
      && (r == Err(MemberCostLimitExceeded) <==>
            m.status == Active && WithinLimit(n.tokensUsed, m.tokenQuotaLimit) && !WithinLimit(n.costUsed, m.costLimit))
      && r in {Ok, Err(MemberSuspended), Err(MemberTokenQuotaExceeded), Err(MemberCostLimitExceeded)}
  {
  }

  /** Which layer answers: missing rows have their own errors, a member's refusal
      stands, and otherwise the user or the tenant decides. */
  lemma LayersAnswerInOrder(w: Rows, key: ApiKey, tokens: int, cost: Money)
    ensures var r := Check(w, key, tokens, cost);
      && (r == Err(InvalidQuotaType) <==> key.quotaType == UnknownType)
      && (r == Err(UserQuotaNotFound) <==> key.quotaType == Individual && key.quotaId !in w.users)
      && (r == Err(MemberQuotaNotFound) <==> key.quotaType == Member && key.quotaId !in w.members)
      && (key.quotaType == Individual && key.quotaId in w.users ==> r == CheckIndividual(w.users[key.quotaId], tokens, cost))
      && (key.quotaType == Member && key.quotaId in w.members ==>
            var first := CheckMember(w.members[key.quotaId], tokens, cost);
            if first != Ok then r == first
            else if key.tenantId in w.tenants then r == CheckOrganization(w.tenants[key.tenantId], tokens, cost)
            else r == Err(TenantNotFound))
  {
  }

  /** A deduction touches the user row, or the member row and then the tenant row,
      that its key names, and no other row. A member is counted even when its
      tenant is missing. */
  lemma DeductionTouchesItsRows(w: Rows, key: ApiKey, tokens: int, cost: Money, id: Id)
    ensures var (v, r) := Deduct(Written, w, key, tokens, cost);
      && v.users.Keys == w.users.Keys && v.members.Keys == w.members.Keys && v.tenants.Keys == w.tenants.Keys
      && (id in w.users ==> v.users[id] == if key.quotaType == Individual && key.quotaId == id
                                           then DeductIndividual(w.users[id], tokens, cost) else w.users[id])
      && (id in w.members ==>
            var m := w.members[id];
            v.members[id] == if key.quotaType == Member && key.quotaId == id
                             then m.(tokensUsed := m.tokensUsed + tokens, costUsed := m.costUsed + cost) else m)
      && (id in w.tenants ==> v.tenants[id] == if key.quotaType == Member && key.tenantId == id
                                               then DeductOrganization(Written, w.tenants[id], tokens, cost).0 else w.tenants[id])
      && r == (match key.quotaType
               case Individual => if key.quotaId in w.users then Ok else Err(UserQuotaNotFound)
               case Member => if key.tenantId !in w.tenants then Err(TenantNotFound)
                              else DeductOrganization(Written, w.tenants[key.tenantId], tokens, cost).1
               case UnknownType => Err(InvalidQuotaType))
  {
  }

  // ------------------------------------------------------- whole guarded runs

  predicate UserInBounds(q: UserQuota) {
    q.balance >= 0 && (q.tokenQuota > 0 ==> q.tokensUsed <= q.tokenQuota)
  }

  predicate MemberInBounds(m: MemberQuota) {
    WithinLimit(m.tokensUsed, m.tokenQuotaLimit) && WithinLimit(m.costUsed, m.costLimit)
  }

  predicate TenantInBounds(t: Tenant) {
    t.balance >= 0 && WithinLimit(t.creditUsed, t.creditLimit)
  }

  ghost predicate InBounds(w: Rows) {
    && (forall id | id in w.users :: UserInBounds(w.users[id]))
    && (forall id | id in w.members :: MemberInBounds(w.members[id]))
    && (forall id | id in w.tenants :: TenantInBounds(w.tenants[id]))
  }

  /** Check, then deduct from the same state if the check passed. */
  function Serve(w: Rows, rq: Request): (Rows, Outcome) {
    var allowed := Check(w, rq.key, rq.tokens, rq.cost);
    if allowed.Err? then (w, allowed) else Deduct(Written, w, rq.key, rq.tokens, rq.cost)
  }

  function ServeAll(w: Rows, rqs: seq<Request>): Rows
    decreases |rqs|
  {
    if rqs == [] then w else ServeAll(Serve(w, rqs[0]).0, rqs[1..])
  }

  ghost predicate SameTenantStatuses(w: Rows, v: Rows) {
    v.tenants.Keys == w.tenants.Keys && forall id | id in w.tenants :: v.tenants[id].status == w.tenants[id].status
  }

  /** If the check accepts, the deduction succeeds, suspends no tenant and keeps
      every balance, credit line, token quota and member limit in bounds. */
  lemma CheckRefinesDeduct(w: Rows, rq: Request)
    requires InBounds(w) && rq.tokens > 0
    ensures var (v, r) := Serve(w, rq);
      && r == Check(w, rq.key, rq.tokens, rq.cost)
      && InBounds(v)
      && SameTenantStatuses(w, v)
  {
    var key, tokens, cost := rq.key, rq.tokens, rq.cost;
    if Check(w, key, tokens, cost).Ok? {
      if key.quotaType == Individual {
        IndividualCheckProtects(w.users[key.quotaId], tokens, cost);
      } else {
        OrganizationCheckIsExact(w.tenants[key.tenantId], tokens, cost);
        OrganizationDeductionEffects(w.tenants[key.tenantId], tokens, cost);
      }
    }
  }

  /** The whole two-layer check is exact: it accepts exactly the requests whose
      deduction from the same state is funded and keeps the accounts it touches
      in bounds. */
  lemma CheckIsExact(w: Rows, key: ApiKey, tokens: int, cost: Money)
    requires tokens > 0
    ensures var (v, r) := Deduct(Written, w, key, tokens, cost);
      Check(w, key, tokens, cost).Ok? <==>
      match key.quotaType
      case Individual =>
        && key.quotaId in w.users && w.users[key.quotaId].status == Active
        && (IndividualSource(w.users[key.quotaId], tokens) != FromTokens ==>
              w.users[key.quotaId].balance > 0 && v.users[key.quotaId].balance >= 0)
      case Member =>
        && key.quotaId in w.members && w.members[key.quotaId].status == Active
        && MemberInBounds(v.members[key.quotaId])
        && key.tenantId in w.tenants && w.tenants[key.tenantId].status != Suspended
        && r.Ok?
        && (OrganizationSource(w.tenants[key.tenantId], tokens, cost) == FromCredit ==>
              WithinLimit(v.tenants[key.tenantId].creditUsed, w.tenants[key.tenantId].creditLimit))
      case UnknownType => false
  {
  }

  lemma {:induction false} GuardedRunsStayInBounds(w: Rows, rqs: seq<Request>)
    requires InBounds(w) && forall rq | rq in rqs :: rq.tokens > 0
    ensures InBounds(ServeAll(w, rqs)) && SameTenantStatuses(w, ServeAll(w, rqs))
    decreases |rqs|
  {
    if rqs != [] {
      CheckRefinesDeduct(w, rqs[0]);
      GuardedRunsStayInBounds(Serve(w, rqs[0]).0, rqs[1..]);
    }
  }
}
