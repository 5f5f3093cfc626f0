/** How far credit can overshoot when checks and deductions interleave. */
module Overdraft {
  import opened Common
  import opened Entities
  import opened Quota
  import opened Settlement

  datatype Flight = Flight(tokens: int, cost: Money)

  /** A tenant and the requests that passed the check but are not yet deducted. */
  datatype Window = Window(tenant: Tenant, inFlight: seq<Flight>)

  datatype Step =
    | Admit(request: Flight)
    | Complete(index: nat)
    | SettleCredit

  /** One atomic step, with room for at most `k` requests in flight. */
  function Apply(order: Order, k: nat, s: Window, step: Step): Window {
    match step
    case Admit(rq) =>
      if |s.inFlight| < k && CheckOrganization(s.tenant, rq.tokens, rq.cost).Ok?
      then s.(inFlight := s.inFlight + [rq]) else s
    case Complete(i) =>
      if i < |s.inFlight|
      then Window(DeductOrganization(order, s.tenant, s.inFlight[i].tokens, s.inFlight[i].cost).0, s.inFlight[..i] + s.inFlight[i + 1..])
      else s
    case SettleCredit =>
      Window(Settle(Books(map[0 := s.tenant], []), 0, 0).0.tenants[0], s.inFlight)
  }

  function Run(order: Order, k: nat, s: Window, steps: seq<Step>): Window
    decreases |steps|
  {
    if steps == [] then s else Run(order, k, Apply(order, k, s, steps[0]), steps[1..])
  }

  function CostOf(fs: seq<Flight>): int {
    if fs == [] then 0 else fs[0].cost + CostOf(fs[1..])
  }

  predicate Bounded(f: Flight, c: Money) {
    f.tokens >= 0 && 0 <= f.cost <= c
  }

  /** Once credit has paid, neither tokens nor balance can admit again. */
  predicate Closed(t: Tenant) {
    t.balance <= 0 && (t.tokenLimit.Some? ==> t.tokensUsedMonth > t.tokenLimit.value)
  }

  ghost predicate Inv(s: Window, k: nat, c: Money) {
    && |s.inFlight| <= k
    && (forall f | f in s.inFlight :: Bounded(f, c))
    && s.tenant.creditLimit.Some?
    && 0 <= s.tenant.creditLimit.value
    && s.tenant.creditUsed + CostOf(s.inFlight) <= s.tenant.creditLimit.value + k * c
    && (s.tenant.creditUsed > s.tenant.creditLimit.value ==> Closed(s.tenant))
  }

  lemma {:induction false} CostOfConcat(a: seq<Flight>, b: seq<Flight>)
    ensures CostOf(a + b) == CostOf(a) + CostOf(b)
  {
    if a == [] {
      assert a + b == b;
    } else {
      CostOfConcat(a[1..], b);
      assert (a + b)[1..] == a[1..] + b;
    }
  }

  lemma {:induction false} CostOfBounded(fs: seq<Flight>, k: nat, c: Money)
    requires |fs| <= k && 0 <= c && forall f | f in fs :: Bounded(f, c)
    ensures 0 <= CostOf(fs) <= k * c
  {
    if fs != [] {
      assert fs[0] in fs;
      CostOfBounded(fs[1..], k - 1, c);
      assert k * c == (k - 1) * c + c;
    } else {
      assert 0 <= k * c;
    }
  }

  lemma CostOfRemove(fs: seq<Flight>, i: nat)
    requires i < |fs|
    ensures CostOf(fs[..i] + fs[i + 1..]) == CostOf(fs) - fs[i].cost
  {
    CostOfConcat(fs[..i], fs[i + 1..]);
    CostOfConcat(fs[..i], fs[i..]);
    assert fs == fs[..i] + fs[i..];
  }

  /** A deduction puts at most its cost on credit, and any credit it uses
      closes the other two sources. */
  lemma DeductionOnCredit(order: Order, t: Tenant, f: Flight, c: Money)
    requires Bounded(f, c)
    ensures var u := DeductOrganization(order, t, f.tokens, f.cost).0;
      && u.creditLimit == t.creditLimit
      && t.creditUsed <= u.creditUsed <= t.creditUsed + f.cost
      && (u.creditUsed > t.creditUsed || Closed(t) ==> Closed(u))
  {
  }

  lemma CompleteKeepsInv(order: Order, k: nat, c: Money, s: Window, i: nat)
    requires 0 <= c && Inv(s, k, c) && i < |s.inFlight|
    ensures Inv(Apply(order, k, s, Complete(i)), k, c)
    ensures Apply(order, k, s, Complete(i)).tenant.creditLimit == s.tenant.creditLimit
  {
    CostOfRemove(s.inFlight, i);
    assert s.inFlight[i] in s.inFlight;
    DeductionOnCredit(order, s.tenant, s.inFlight[i], c);
  }

  lemma StepKeepsInv(order: Order, k: nat, c: Money, s: Window, step: Step)
    requires 0 <= c && Inv(s, k, c) && (step.Admit? ==> Bounded(step.request, c))
    ensures Inv(Apply(order, k, s, step), k, c)
    ensures Apply(order, k, s, step).tenant.creditLimit == s.tenant.creditLimit
  {
    match step
    case Admit(rq) =>
      var t := Apply(order, k, s, step);
      if t != s {
        CostOfBounded(t.inFlight, k, c);
      }
    case Complete(i) =>
      if i < |s.inFlight| {
        CompleteKeepsInv(order, k, c, s, i);
      }
    case SettleCredit =>
      CostOfBounded(s.inFlight, k, c);
  }

  /** With at most `k` requests in flight of cost at most `c` each, credit never
      passes its limit by more than `k * c`, in either order of the waterfall,
      although deductions do not look at the limit. */
  lemma {:induction false} BoundedOverdraft(order: Order, k: nat, c: Money, s: Window, steps: seq<Step>)
    requires 0 <= c && Inv(s, k, c)
    requires forall x | x in steps && x.Admit? :: Bounded(x.request, c)
    ensures var t := Run(order, k, s, steps);
      && t.tenant.creditLimit == s.tenant.creditLimit
      && t.tenant.creditUsed <= s.tenant.creditLimit.value + k * c
      && Inv(t, k, c)
    decreases |steps|
  {
    if steps != [] {
      assert steps[0] in steps;
      StepKeepsInv(order, k, c, s, steps[0]);
      BoundedOverdraft(order, k, c, Apply(order, k, s, steps[0]), steps[1..]);
    } else {
      CostOfBounded(s.inFlight, k, c);
    }
  }

  /** Every quiet tenant whose credit is within its limit is a valid start. */
  lemma QuietStart(t: Tenant, k: nat, c: Money)
    requires 0 <= c && t.creditLimit.Some? && 0 <= t.creditUsed <= t.creditLimit.value
    ensures Inv(Window(t, []), k, c)
  {
    assert 0 <= k * c;
  }

  // ----------------------------------------------------- one at a time is safe

  ghost predicate InvAlone(s: Window) {
    && |s.inFlight| <= 1
    && s.tenant.creditLimit.Some? && 0 <= s.tenant.creditLimit.value
    && s.tenant.creditUsed <= s.tenant.creditLimit.value
    && (s.inFlight != [] ==> CheckOrganization(s.tenant, s.inFlight[0].tokens, s.inFlight[0].cost).Ok?)
  }

  lemma StepKeepsInvAlone(order: Order, s: Window, step: Step)
    requires InvAlone(s) && (step.Admit? ==> step.request.tokens >= 0)
    ensures var t := Apply(order, 1, s, step);
      InvAlone(t) && t.tenant.creditLimit == s.tenant.creditLimit
  {
  }

  /** With a single request in flight credit never passes its limit at all. */
  lemma {:induction false} OneAtATimeStaysWithin(order: Order, s: Window, steps: seq<Step>)
    requires InvAlone(s) && forall x | x in steps && x.Admit? :: x.request.tokens >= 0
    ensures var t := Run(order, 1, s, steps);
      InvAlone(t) && t.tenant.creditLimit == s.tenant.creditLimit && t.tenant.creditUsed <= s.tenant.creditLimit.value
    decreases |steps|
  {
    if steps != [] {
      assert steps[0] in steps;
      StepKeepsInvAlone(order, s, steps[0]);
      OneAtATimeStaysWithin(order, Apply(order, 1, s, steps[0]), steps[1..]);
    }
  }

  // ------------------------------------------------ tenants without a token limit

  /** What the balance can still hide: while there is one, the last admission may
      rest on it; the written order forgets it when credit takes over. */
  function Slack(order: Order, t: Tenant, c: Money): Money {
    if t.balance > 0 then Min(t.balance, c) else if order == Written then c - 1 else 0
  }

  ghost predicate InvCash(order: Order, s: Window, k: nat, c: Money) {
    && 1 <= k && 1 <= c && |s.inFlight| <= k
    && (forall f | f in s.inFlight :: Bounded(f, c))
    && s.tenant.tokenLimit == None
    && s.tenant.creditLimit.Some?
    && s.tenant.creditUsed + CostOf(s.inFlight) <= s.tenant.creditLimit.value + (k - 1) * c + Slack(order, s.tenant, c)
    && (s.tenant.balance > 0 ==> s.tenant.creditUsed <= s.tenant.creditLimit.value)
  }

  lemma DeductionOnCash(order: Order, t: Tenant, f: Flight, c: Money)
    requires Bounded(f, c) && 1 <= c && t.tokenLimit == None
    ensures var u := DeductOrganization(order, t, f.tokens, f.cost).0;
      && u.creditLimit == t.creditLimit && u.tokenLimit == None
      && u.creditUsed - f.cost - Slack(order, u, c) <= t.creditUsed - Slack(order, t, c)
      && (u.balance > 0 ==> t.balance > 0 && u.creditUsed == t.creditUsed)
  {
  }

  lemma StepKeepsInvCash(order: Order, k: nat, c: Money, s: Window, step: Step)
    requires InvCash(order, s, k, c) && (step.Admit? ==> Bounded(step.request, c))
    ensures InvCash(order, Apply(order, k, s, step), k, c)
    ensures Apply(order, k, s, step).tenant.creditLimit == s.tenant.creditLimit
  {
    match step
    case Admit(rq) =>
      if |s.inFlight| < k {
        CostOfBounded(s.inFlight, k - 1, c);
        CostOfConcat(s.inFlight, [rq]);
      }
    case Complete(i) =>
      if i < |s.inFlight| {
        CostOfRemove(s.inFlight, i);
        assert s.inFlight[i] in s.inFlight;
        DeductionOnCash(order, s.tenant, s.inFlight[i], c);
      }
    case SettleCredit =>
  }

  /** Without a token limit the bound is smaller, and the two orders differ: the
      meant order passes the limit by at most (k - 1) * c, the written one by at
      most one unit less than k * c. */
  lemma {:induction false} BoundedOverdraftWithoutTokens(order: Order, k: nat, c: Money, s: Window, steps: seq<Step>)
    requires InvCash(order, s, k, c)
    requires forall x | x in steps && x.Admit? :: Bounded(x.request, c)
    ensures var t := Run(order, k, s, steps);
      && t.tenant.creditLimit == s.tenant.creditLimit
      && t.tenant.creditUsed <= s.tenant.creditLimit.value + (k - 1) * c + (if order == Written then c - 1 else 0)
    decreases |steps|
  {
    if steps != [] {
      assert steps[0] in steps;
      StepKeepsInvCash(order, k, c, s, steps[0]);
      BoundedOverdraftWithoutTokens(order, k, c, Apply(order, k, s, steps[0]), steps[1..]);
    } else {
      CostOfBounded(s.inFlight, k, c);
      assert 0 <= (k - 1) * c;
    }
  }

  lemma QuietCashStart(order: Order, t: Tenant, k: nat, c: Money)
    requires 1 <= k && 1 <= c && t.tokenLimit == None && t.creditLimit.Some? && t.creditUsed <= t.creditLimit.value
    ensures InvCash(order, Window(t, []), k, c)
  {
    assert 0 <= (k - 1) * c;
  }

  // -------------------------------------------------- the overshoot is real

  function Repeat(step: Step, n: nat): seq<Step> {
    if n == 0 then [] else [step] + Repeat(step, n - 1)
  }

  function Copies(rq: Flight, n: nat): (fs: seq<Flight>)
    ensures |fs| == n && forall f | f in fs :: f == rq
  {
    seq(n, _ => rq)
  }

  lemma {:induction false} AdmitMany(order: Order, k: nat, s: Window, rq: Flight, n: nat)
    requires CheckOrganization(s.tenant, rq.tokens, rq.cost).Ok? && |s.inFlight| + n <= k
    ensures Run(order, k, s, Repeat(Admit(rq), n)) == Window(s.tenant, s.inFlight + Copies(rq, n))
    decreases n
  {
    if n > 0 {
      var steps := Repeat(Admit(rq), n);
      assert steps[0] == Admit(rq) && steps[1..] == Repeat(Admit(rq), n - 1);
      AdmitMany(order, k, Apply(order, k, s, Admit(rq)), rq, n - 1);
      assert s.inFlight + [rq] + Copies(rq, n - 1) == s.inFlight + Copies(rq, n);
    } else {
      assert s.inFlight + Copies(rq, n) == s.inFlight;
    }
  }

  predicate LandsOnCredit(order: Order, t: Tenant, f: Flight) {
    && OrganizationSource(t, f.tokens, f.cost) == FromCredit
    && CreditCharge(order, t.balance, f.cost) == f.cost
  }

  lemma CompleteOne(order: Order, k: nat, s: Window)
    requires s.inFlight != [] && LandsOnCredit(order, s.tenant, s.inFlight[0])
    ensures var t := Apply(order, k, s, Complete(0));
      && t.inFlight == s.inFlight[1..]
      && t.tenant.creditUsed == s.tenant.creditUsed + s.inFlight[0].cost
      && t.tenant.HasCredit() && (s.inFlight[0].tokens >= 0 ==> forall f: Flight | f.tokens >= 0 :: LandsOnCredit(order, t.tenant, f))
  {
  }

  /** Once the first request lands on credit, they all do. */
  lemma {:induction false} CompleteAll(order: Order, k: nat, s: Window)
    requires forall f | f in s.inFlight :: f.tokens >= 0
    requires s.inFlight != [] ==> LandsOnCredit(order, s.tenant, s.inFlight[0])
    ensures Run(order, k, s, Repeat(Complete(0), |s.inFlight|)).tenant.creditUsed == s.tenant.creditUsed + CostOf(s.inFlight)
    decreases |s.inFlight|
  {
    var n := |s.inFlight|;
    if n > 0 {
      var steps := Repeat(Complete(0), n);
      assert steps[0] == Complete(0) && steps[1..] == Repeat(Complete(0), n - 1);
      assert s.inFlight[0] in s.inFlight;
      CompleteOne(order, k, s);
      CompleteAll(order, k, Apply(order, k, s, Complete(0)));
    }
  }

  lemma {:induction false} CostOfEqual(fs: seq<Flight>, rq: Flight)
    requires forall f | f in fs :: f == rq
    ensures CostOf(fs) == |fs| * rq.cost
  {
    if fs != [] {
      assert fs[0] in fs;
      assert forall f | f in fs[1..] :: f in fs;
      CostOfEqual(fs[1..], rq);
    }
  }

  lemma {:induction false} RunConcat(order: Order, k: nat, s: Window, a: seq<Step>, b: seq<Step>)
    ensures Run(order, k, s, a + b) == Run(order, k, Run(order, k, s, a), b)
    decreases |a|
  {
    if a == [] {
      assert a + b == b;
    } else {
      assert (a + b)[1..] == a[1..] + b;
      RunConcat(order, k, Apply(order, k, s, a[0]), a[1..], b);
    }
  }

  /** A first request is deducted while k - 1 others wait; a last one is admitted
      on what it left. Then all k are deducted. */
  function WorstCase(k: nat, first: Flight, waiting: Flight, last: Flight): seq<Step>
    requires k >= 2
  {
    [Admit(first)] + Repeat(Admit(waiting), k - 1) + [Complete(0), Admit(last)] + Repeat(Complete(0), k)
  }

  lemma WorstCaseFills(k: nat, t: Tenant, first: Flight, waiting: Flight, last: Flight)
    requires k >= 2
    requires CheckOrganization(t, first.tokens, first.cost).Ok? && CheckOrganization(t, waiting.tokens, waiting.cost).Ok?
    requires CheckOrganization(DeductOrganization(Written, t, first.tokens, first.cost).0, last.tokens, last.cost).Ok?
    ensures Run(Written, k, Window(t, []), [Admit(first)] + Repeat(Admit(waiting), k - 1) + [Complete(0), Admit(last)]) ==
            Window(DeductOrganization(Written, t, first.tokens, first.cost).0, Copies(waiting, k - 1) + [last])
  {
    var s := Window(t, []);
    var filling := [Admit(first)] + Repeat(Admit(waiting), k - 1);
    var s1 := Window(t, [first]);
    assert filling[1..] == Repeat(Admit(waiting), k - 1);
    AdmitMany(Written, k, s1, waiting, k - 1);
    var s2 := Window(t, [first] + Copies(waiting, k - 1));
    assert Run(Written, k, s, filling) == s2 by {
      assert filling[0] == Admit(first) && Apply(Written, k, s, Admit(first)) == s1;
    }
    RunConcat(Written, k, s, filling, [Complete(0), Admit(last)]);
    var s3 := Apply(Written, k, s2, Complete(0));
    assert s3.inFlight == Copies(waiting, k - 1);
    assert Run(Written, k, s2, [Complete(0), Admit(last)]) == Run(Written, k, s3, [Admit(last)]) by {
      assert [Complete(0), Admit(last)][1..] == [Admit(last)];
    }
    assert Run(Written, k, s3, [Admit(last)]) == Apply(Written, k, s3, Admit(last)) by {
      assert [Admit(last)][1..] == [];
    }
  }

  lemma WaitingCost(waiting: Flight, last: Flight, n: nat)
    ensures CostOf(Copies(waiting, n) + [last]) == n * waiting.cost + last.cost
  {
    CostOfConcat(Copies(waiting, n), [last]);
    CostOfEqual(Copies(waiting, n), waiting);
    CostOfEqual([last], last);
  }

  /** Of such a run, all but the first request end on credit. */
  lemma WorstCaseLands(k: nat, t: Tenant, first: Flight, waiting: Flight, last: Flight)
    requires k >= 2 && waiting.tokens >= 0 && last.tokens >= 0
    requires CheckOrganization(t, first.tokens, first.cost).Ok? && CheckOrganization(t, waiting.tokens, waiting.cost).Ok?
    requires var u := DeductOrganization(Written, t, first.tokens, first.cost).0;
      && CheckOrganization(u, last.tokens, last.cost).Ok?
      && u.creditUsed == t.creditUsed && LandsOnCredit(Written, u, waiting)
    ensures Run(Written, k, Window(t, []), WorstCase(k, first, waiting, last)).tenant.creditUsed ==
            t.creditUsed + (k - 1) * waiting.cost + last.cost
  {
    var filling := [Admit(first)] + Repeat(Admit(waiting), k - 1) + [Complete(0), Admit(last)];
    RunConcat(Written, k, Window(t, []), filling, Repeat(Complete(0), k));
    WorstCaseFills(k, t, first, waiting, last);
    var waits := Copies(waiting, k - 1);
    assert waits[0] in waits;
    CompleteAll(Written, k, Window(DeductOrganization(Written, t, first.tokens, first.cost).0, waits + [last]));
    WaitingCost(waiting, last, k - 1);
  }

  /** A tenant at its credit limit. */
  predicate AtTheLimit(t: Tenant) {
    t.HasCredit() && t.status == Active && t.creditUsed == t.creditLimit.value
  }

  /** The bound is reached for every k >= 2 and every cost: the first request
      takes all but one of the last `room` tokens, the others were admitted on
      the same tokens, and all k land on a credit line that was already full. */
  lemma OverdraftIsReached(k: nat, c: Money, t: Tenant, room: nat)
    requires k >= 2 && room >= 2 && AtTheLimit(t) && t.balance == 0
    requires t.tokenLimit.Some? && t.tokensUsedMonth + room == t.tokenLimit.value
    ensures var steps := WorstCase(k, Flight(room - 1, c), Flight(2, c), Flight(1, c));
      Run(Written, k, Window(t, []), steps).tenant.creditUsed == t.creditLimit.value + k * c
  {
    WorstCaseLands(k, t, Flight(room - 1, c), Flight(2, c), Flight(1, c));
    assert k * c == (k - 1) * c + c;
  }

  /** The bound without a token limit is reached too: the first request leaves a
      balance one unit too small for the ones that wait. */
  lemma WrittenOverdraftIsReachedWithoutTokens(k: nat, c: Money, t: Tenant)
    requires k >= 2 && c >= 1 && AtTheLimit(t) && t.tokenLimit == None && t.balance == 2 * c - 1
    ensures var steps := WorstCase(k, Flight(0, c), Flight(0, c), Flight(0, c - 1));
      Run(Written, k, Window(t, []), steps).tenant.creditUsed == t.creditLimit.value + (k - 1) * c + (c - 1)
  {
    WorstCaseLands(k, t, Flight(0, c), Flight(0, c), Flight(0, c - 1));
  }

  /** In either order: k requests that each still fit are admitted together. */
  lemma TogetherOverdraftIsReached(order: Order, k: nat, t: Tenant, rq: Flight)
    requires rq.tokens >= 0 && t.HasCredit() && t.status == Active && t.balance == 0 && t.tokenLimit == None
    requires t.creditUsed + rq.cost == t.creditLimit.value
    ensures Run(order, k, Window(t, []), Repeat(Admit(rq), k) + Repeat(Complete(0), k)).tenant.creditUsed ==
            t.creditLimit.value + (k - 1) * rq.cost
  {
    var s := Window(t, []);
    RunConcat(order, k, s, Repeat(Admit(rq), k), Repeat(Complete(0), k));
    AdmitMany(order, k, s, rq, k);
    assert [] + Copies(rq, k) == Copies(rq, k);
    if k > 0 {
      assert Copies(rq, k)[0] in Copies(rq, k);
    }
    CompleteAll(order, k, Window(t, Copies(rq, k)));
    CostOfEqual(Copies(rq, k), rq);
    assert k * rq.cost == (k - 1) * rq.cost + rq.cost;
  }
}
