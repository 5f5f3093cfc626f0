/** Overlapping checks and deductions of individual users and of members. */
module Overlap {
  import opened Common
  import opened Entities
  import opened Quota
  import opened Overdraft

  datatype OverlapStep = Enter(request: Flight) | Leave(index: nat)

  function Without(fs: seq<Flight>, i: nat): seq<Flight>
    requires i < |fs|
  {
    fs[..i] + fs[i + 1..]
  }

  // -------------------------------------------------------- individual users

  datatype UserWindow = UserWindow(user: UserQuota, inFlight: seq<Flight>)

  function UserApply(k: nat, s: UserWindow, step: OverlapStep): UserWindow {
    match step
    case Enter(rq) =>
      if |s.inFlight| < k && CheckIndividual(s.user, rq.tokens, rq.cost).Ok?
      then s.(inFlight := s.inFlight + [rq]) else s
    case Leave(i) =>
      if i < |s.inFlight|
      then UserWindow(DeductIndividual(s.user, s.inFlight[i].tokens, s.inFlight[i].cost), Without(s.inFlight, i)) else s
  }

  function UserRun(k: nat, s: UserWindow, steps: seq<OverlapStep>): UserWindow
    decreases |steps|
  {
    if steps == [] then s else UserRun(k, UserApply(k, s, steps[0]), steps[1..])
  }

  /** An overdrawn user is suspended, so no request enters any more. */
  ghost predicate UserInv(s: UserWindow, k: nat, c: Money) {
    && |s.inFlight| <= k
    && (forall f | f in s.inFlight :: Bounded(f, c))
    && s.user.balance - CostOf(s.inFlight) >= -(k * c)
    && (s.user.balance < 0 ==> s.user.status != Active)
  }

  lemma UserStepKeepsInv(k: nat, c: Money, s: UserWindow, step: OverlapStep)
    requires 0 <= c && UserInv(s, k, c) && (step.Enter? ==> Bounded(step.request, c))
    ensures UserInv(UserApply(k, s, step), k, c)
  {
    match step
    case Enter(rq) =>
      var t := UserApply(k, s, step);
      if t != s {
        CostOfBounded(t.inFlight, k, c);
      }
    case Leave(i) =>
      if i < |s.inFlight| {
        CostOfRemove(s.inFlight, i);
        assert s.inFlight[i] in s.inFlight;
      }
  }

  /** With at most `k` requests in flight of cost at most `c` each, a user that
      starts without debt never owes more than k * c, and is suspended as soon as
      it owes anything. */
  lemma {:induction false} UserDebtIsBounded(k: nat, c: Money, s: UserWindow, steps: seq<OverlapStep>)
    requires 0 <= c && UserInv(s, k, c)
    requires forall x | x in steps && x.Enter? :: Bounded(x.request, c)
    ensures var t := UserRun(k, s, steps);
      && t.user.balance >= -(k * c)
      && (t.user.balance < 0 ==> t.user.status != Active)
    decreases |steps|
  {
    if steps != [] {
      assert steps[0] in steps;
      UserStepKeepsInv(k, c, s, steps[0]);
      UserDebtIsBounded(k, c, UserApply(k, s, steps[0]), steps[1..]);
    } else {
      CostOfBounded(s.inFlight, k, c);
    }
  }

  lemma QuietUser(q: UserQuota, k: nat, c: Money)
    requires 0 <= c && q.balance >= 0
    ensures UserInv(UserWindow(q, []), k, c)
  {
    assert 0 <= k * c;
  }

  // ----------------------------------------------------------------- members

  datatype MemberWindow = MemberWindow(member: MemberQuota, inFlight: seq<Flight>)

  function MemberApply(k: nat, s: MemberWindow, step: OverlapStep): MemberWindow {
    match step
    case Enter(rq) =>
      if |s.inFlight| < k && CheckMember(s.member, rq.tokens, rq.cost).Ok?
      then s.(inFlight := s.inFlight + [rq]) else s
    case Leave(i) =>
      if i < |s.inFlight|
      then MemberWindow(CountMember(s.member, s.inFlight[i].tokens, s.inFlight[i].cost), Without(s.inFlight, i)) else s
  }

  function MemberRun(k: nat, s: MemberWindow, steps: seq<OverlapStep>): MemberWindow
    decreases |steps|
  {
    if steps == [] then s else MemberRun(k, MemberApply(k, s, steps[0]), steps[1..])
  }

  /** The same requests with tokens and cost exchanged: CostOf counts tokens. */
  function Turned(fs: seq<Flight>): (ts: seq<Flight>)
    ensures |ts| == |fs| && forall i | 0 <= i < |fs| :: ts[i] == Flight(fs[i].cost, fs[i].tokens)
  {
    seq(|fs|, i requires 0 <= i < |fs| => Flight(fs[i].cost, fs[i].tokens))
  }

  /** A counter with what is in flight, against its limit. */
  predicate CounterInv(used: int, limit: Option<int>, fs: seq<Flight>, k: nat, c: int) {
    limit.Some? ==> used + CostOf(fs) <= limit.value + (k - 1) * c
  }

  ghost predicate MemberInv(s: MemberWindow, k: nat, n: int, c: Money) {
    && 1 <= k && 0 <= n && 0 <= c && |s.inFlight| <= k
    && (forall f | f in s.inFlight :: Bounded(f, c) && f.tokens <= n)
    && CounterInv(s.member.tokensUsed, s.member.tokenQuotaLimit, Turned(s.inFlight), k, n)
    && CounterInv(s.member.costUsed, s.member.costLimit, s.inFlight, k, c)
  }

  /** A request that still fits the limit enters beside at most k - 1 others. */
  lemma CounterEnter(used: int, limit: Option<int>, fs: seq<Flight>, f: Flight, k: nat, c: int)
    requires |fs| < k && 0 <= c && (forall g | g in fs :: Bounded(g, c))
    requires limit.Some? ==> used + f.cost <= limit.value
    ensures CounterInv(used, limit, fs + [f], k, c)
  {
    CostOfBounded(fs, k - 1, c);
    CostOfConcat(fs, [f]);
  }

  lemma CounterLeave(used: int, limit: Option<int>, fs: seq<Flight>, i: nat, k: nat, c: int)
    requires i < |fs| && CounterInv(used, limit, fs, k, c)
    ensures CounterInv(used + fs[i].cost, limit, Without(fs, i), k, c)
  {
    CostOfRemove(fs, i);
  }

  lemma MemberStepKeepsInv(k: nat, n: int, c: Money, s: MemberWindow, step: OverlapStep)
    requires MemberInv(s, k, n, c) && (step.Enter? ==> Bounded(step.request, c) && step.request.tokens <= n)
    ensures var t := MemberApply(k, s, step);
      && MemberInv(t, k, n, c)
      && t.member.tokenQuotaLimit == s.member.tokenQuotaLimit && t.member.costLimit == s.member.costLimit
  {
    var m, fs := s.member, s.inFlight;
    match step
    case Enter(rq) =>
      if MemberApply(k, s, step) != s {
        CounterEnter(m.costUsed, m.costLimit, fs, rq, k, c);
        CounterEnter(m.tokensUsed, m.tokenQuotaLimit, Turned(fs), Flight(rq.cost, rq.tokens), k, n);
        assert Turned(fs + [rq]) == Turned(fs) + [Flight(rq.cost, rq.tokens)];
      }
    case Leave(i) =>
      if i < |fs| {
        CounterLeave(m.costUsed, m.costLimit, fs, i, k, c);
        CounterLeave(m.tokensUsed, m.tokenQuotaLimit, Turned(fs), i, k, n);
        assert Turned(Without(fs, i)) == Without(Turned(fs), i);
      }
  }

  /** With at most `k` requests in flight of at most `n` tokens and cost `c` each,
      a member passes its token limit by at most (k - 1) * n and its cost limit by
      at most (k - 1) * c: the last request that entered still fitted alone. */
  lemma {:induction false} MemberOvershootIsBounded(k: nat, n: int, c: Money, s: MemberWindow, steps: seq<OverlapStep>)
    requires MemberInv(s, k, n, c)
    requires forall x | x in steps && x.Enter? :: Bounded(x.request, c) && x.request.tokens <= n
    ensures var t := MemberRun(k, s, steps);
      && (s.member.tokenQuotaLimit.Some? ==> t.member.tokensUsed <= s.member.tokenQuotaLimit.value + (k - 1) * n)
      && (s.member.costLimit.Some? ==> t.member.costUsed <= s.member.costLimit.value + (k - 1) * c)
    decreases |steps|
  {
    if steps != [] {
      assert steps[0] in steps;
      MemberStepKeepsInv(k, n, c, s, steps[0]);
      MemberOvershootIsBounded(k, n, c, MemberApply(k, s, steps[0]), steps[1..]);
    } else {
      CostOfBounded(s.inFlight, k, c);
      CostOfBounded(Turned(s.inFlight), k, n);
    }
  }

  lemma QuietMember(m: MemberQuota, k: nat, n: int, c: Money)
    requires 1 <= k && 0 <= n && 0 <= c
    requires m.tokenQuotaLimit.Some? ==> m.tokensUsed <= m.tokenQuotaLimit.value
    requires m.costLimit.Some? ==> m.costUsed <= m.costLimit.value
    ensures MemberInv(MemberWindow(m, []), k, n, c)
  {
    assert 0 <= (k - 1) * n && 0 <= (k - 1) * c;
  }
}
