/** Member counters against the tenant's monthly totals. */
module Members {
  import opened Common
  import opened Entities
  import opened Quota
  import opened Sums

  function TokensByMember(members: map<Id, MemberQuota>, tenantId: Id): map<Id, int> {
    map id | id in members && members[id].tenantId == tenantId :: members[id].tokensUsed
  }

  function CostByMember(members: map<Id, MemberQuota>, tenantId: Id): map<Id, int> {
    map id | id in members && members[id].tenantId == tenantId :: members[id].costUsed
  }

  /** How far the tenant's monthly totals are ahead of its members' sums. */
  ghost function TokenDrift(w: Rows, tenantId: Id): int
    requires tenantId in w.tenants
  {
    w.tenants[tenantId].tokensUsedMonth - Total(TokensByMember(w.members, tenantId))
  }

  ghost function CostDrift(w: Rows, tenantId: Id): int
    requires tenantId in w.tenants
  {
    w.tenants[tenantId].budgetUsedMonth - Total(CostByMember(w.members, tenantId))
  }

  /** A key whose member quota exists and belongs to the key's tenant. */
  predicate WellLinked(w: Rows, key: ApiKey) {
    key.quotaType == Member ==> key.quotaId in w.members && w.members[key.quotaId].tenantId == key.tenantId
  }

  lemma CountingAMember(members: map<Id, MemberQuota>, id: Id, tokens: int, cost: Money, tenantId: Id)
    ensures var after := CountMembers(members, id, tokens, cost);
      var own := id in members && members[id].tenantId == tenantId;
      && Total(TokensByMember(after, tenantId)) == Total(TokensByMember(members, tenantId)) + (if own then tokens else 0)
      && Total(CostByMember(after, tenantId)) == Total(CostByMember(members, tenantId)) + (if own then cost else 0)
  {
    var after := CountMembers(members, id, tokens, cost);
    if id in members && members[id].tenantId == tenantId {
      var m := members[id];
      TotalUpdate(TokensByMember(members, tenantId), id, m.tokensUsed + tokens);
      TotalUpdate(CostByMember(members, tenantId), id, m.costUsed + cost);
      assert TokensByMember(after, tenantId) == TokensByMember(members, tenantId)[id := m.tokensUsed + tokens];
      assert CostByMember(after, tenantId) == CostByMember(members, tenantId)[id := m.costUsed + cost];
    } else {
      assert TokensByMember(after, tenantId) == TokensByMember(members, tenantId);
      assert CostByMember(after, tenantId) == CostByMember(members, tenantId);
    }
  }

  lemma TenantCounts(order: Order, t: Tenant, tokens: int, cost: Money)
    ensures var u := DeductOrganization(order, t, tokens, cost).0;
      u.tokensUsedMonth == t.tokensUsedMonth + tokens && u.budgetUsedMonth == t.budgetUsedMonth + cost
  {
  }

  lemma DeductCounts(order: Order, w: Rows, key: ApiKey, tokens: int, cost: Money, tenantId: Id)
    requires tenantId in w.tenants
    ensures var v := Deduct(order, w, key, tokens, cost).0;
      var charged := key.quotaType == Member && key.tenantId == tenantId;
      && tenantId in v.tenants
      && v.tenants[tenantId].tokensUsedMonth == w.tenants[tenantId].tokensUsedMonth + (if charged then tokens else 0)
      && v.tenants[tenantId].budgetUsedMonth == w.tenants[tenantId].budgetUsedMonth + (if charged then cost else 0)
      && v.members == if key.quotaType == Member then CountMembers(w.members, key.quotaId, tokens, cost) else w.members
  {
    if key.quotaType == Member && key.tenantId == tenantId {
      TenantCounts(order, w.tenants[tenantId], tokens, cost);
    }
  }

  /** One deduction, whatever its outcome, moves the drift of a tenant exactly
      when the key names that tenant but its member quota does not, or the
      other way round. */
  lemma DriftOfOneDeduction(order: Order, w: Rows, key: ApiKey, tokens: int, cost: Money, tenantId: Id)
    requires tenantId in w.tenants
    ensures var v := Deduct(order, w, key, tokens, cost).0;
      var charged := key.quotaType == Member && key.tenantId == tenantId;
      var counted := key.quotaType == Member && key.quotaId in w.members && w.members[key.quotaId].tenantId == tenantId;
      && tenantId in v.tenants
      && TokenDrift(v, tenantId) == TokenDrift(w, tenantId) + (if charged then tokens else 0) - (if counted then tokens else 0)
      && CostDrift(v, tenantId) == CostDrift(w, tenantId) + (if charged then cost else 0) - (if counted then cost else 0)
  {
    DeductCounts(order, w, key, tokens, cost, tenantId);
    CountingAMember(w.members, key.quotaId, tokens, cost, tenantId);
  }

  function DeductAll(order: Order, w: Rows, rqs: seq<Request>): Rows
    decreases |rqs|
  {
    if rqs == [] then w else DeductAll(order, Deduct(order, w, rqs[0].key, rqs[0].tokens, rqs[0].cost).0, rqs[1..])
  }

  lemma LinksAreStable(order: Order, w: Rows, rq: Request, key: ApiKey)
    ensures WellLinked(Deduct(order, w, rq.key, rq.tokens, rq.cost).0, key) <==> WellLinked(w, key)
  {
  }

  /** Over any run of deductions through linked keys the members' sums and the
      tenant's monthly totals move together, on every outcome. */
  lemma {:induction false} MemberTotalsAgree(order: Order, w: Rows, rqs: seq<Request>, tenantId: Id)
    requires tenantId in w.tenants
    requires forall rq | rq in rqs :: WellLinked(w, rq.key)
    ensures var v := DeductAll(order, w, rqs);
      && tenantId in v.tenants
      && TokenDrift(v, tenantId) == TokenDrift(w, tenantId)
      && CostDrift(v, tenantId) == CostDrift(w, tenantId)
    decreases |rqs|
  {
    if rqs != [] {
      var rq := rqs[0];
      var v := Deduct(order, w, rq.key, rq.tokens, rq.cost).0;
      DriftOfOneDeduction(order, w, rq.key, rq.tokens, rq.cost, tenantId);
      forall x | x in rqs[1..]
        ensures WellLinked(v, x.key)
      {
        LinksAreStable(order, w, rq, x.key);
      }
      MemberTotalsAgree(order, v, rqs[1..], tenantId);
    }
  }

  predicate ReachesNoCounter(w: Rows, key: ApiKey) {
    && key.tenantId !in w.tenants
    && (key.quotaId in w.members ==> w.members[key.quotaId].tenantId !in w.tenants)
  }

  ghost predicate SameDrift(w: Rows, v: Rows, tenantId: Id) {
    && tenantId in w.tenants && tenantId in v.tenants
    && TokenDrift(v, tenantId) == TokenDrift(w, tenantId)
    && CostDrift(v, tenantId) == CostDrift(w, tenantId)
  }

  /** A single member deduction that counts something keeps the drift of every
      tenant, in tokens and in cost, if and only if its key is linked or reaches
      no tenant's counters at all. */
  lemma DriftKeptExactlyByLinkedKeys(order: Order, w: Rows, key: ApiKey, tokens: int, cost: Money)
    requires (tokens != 0 || cost != 0) && key.quotaType == Member
    ensures (forall id | id in w.tenants :: SameDrift(w, Deduct(order, w, key, tokens, cost).0, id)) <==>
            WellLinked(w, key) || ReachesNoCounter(w, key)
  {
    var v := Deduct(order, w, key, tokens, cost).0;
    forall id | id in w.tenants
      ensures SameDrift(w, v, id) <==>
              (key.tenantId == id <==> key.quotaId in w.members && w.members[key.quotaId].tenantId == id)
    {
      DriftOfOneDeduction(order, w, key, tokens, cost, id);
    }
  }
}
