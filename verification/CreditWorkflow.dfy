/** CreditApplicationService: applying for, reviewing and adjusting credit. */
module CreditWorkflow {
  import opened Common
  import opened Entities
  import Settlement
  import opened Quota

  datatype AppStatus = AppPending | AppApproved | AppRejected

  datatype Terms = Terms(cycle: SettlementCycle, thresholdAmount: Option<Money>, settlementDay: Option<int>)

  /** Fields left out of an update keep their value. */
  datatype Revision = Revision(
    requestedLimit: Money,
    cycle: Option<SettlementCycle>,
    thresholdAmount: Option<Money>,
    settlementDay: Option<int>)

  datatype Application = Application(
    id: Id,
    tenantId: Id,
    requestedLimit: Money,
    status: AppStatus,
    approvedLimit: Option<Money>,
    terms: Terms)

  /** The tenant table and the application table in order of creation. */
  datatype Desk = Desk(tenants: map<Id, Tenant>, apps: seq<Application>)

  // -------------------------------------------------------------- the tables

  /** Row of the application with this id, or the number of rows. */
  function RowOf(apps: seq<Application>, id: Id): (i: nat)
    ensures i <= |apps|
    ensures i < |apps| ==> apps[i].id == id
    ensures forall j | 0 <= j < i :: apps[j].id != id
  {
    if apps == [] then 0 else if apps[0].id == id then 0 else RowOf(apps[1..], id) + 1
  }

  /** The tenant's most recently created application. */
  function Latest(apps: seq<Application>, tenantId: Id): (r: Option<Application>)
    ensures r == None ==> forall j | 0 <= j < |apps| :: apps[j].tenantId != tenantId
    ensures r.Some? ==> exists i | 0 <= i < |apps| ::
      apps[i] == r.value && apps[i].tenantId == tenantId && forall j | i < j < |apps| :: apps[j].tenantId != tenantId
  {
    if apps == [] then None
    else
      var n := |apps| - 1;
      if apps[n].tenantId == tenantId then Some(apps[n]) else Latest(apps[..n], tenantId)
  }

  // ------------------------------------------------------- the state changes

  function SetTenant(d: Desk, id: Id, t: Tenant): Desk { d.(tenants := d.tenants[id := t]) }

  /** `newId` is the identifier the database gives the new row. */
  function Apply(d: Desk, tenantId: Id, newId: Id, requestedLimit: Money, terms: Terms): (Desk, Outcome) {
    if tenantId !in d.tenants then (d, Err(TenantNotFound))
    else if !d.tenants[tenantId].isOrganization then (d, Err(InvalidQuotaType))
    else
      var latest := Latest(d.apps, tenantId);
      if latest.Some? && latest.value.status == AppPending then (d, Err(ApplicationPending))
      else
        var app := Application(newId, tenantId, requestedLimit, AppPending, None, terms);
        (Desk(d.tenants[tenantId := d.tenants[tenantId].(creditStatus := CreditPending)], d.apps + [app]), Ok)
  }

  /** Shared guard of update, cancel, approve and reject. */
  function PendingRow(d: Desk, appId: Id): Result<nat, Error> {
    var i := RowOf(d.apps, appId);
    if i == |d.apps| then Failure(ApplicationNotFound)
    else if d.apps[i].status != AppPending then Failure(ApplicationAlreadyProcessed)
    else Success(i)
  }

  function Revised(app: Application, rev: Revision): Application {
    app.(requestedLimit := if rev.requestedLimit > 0 then rev.requestedLimit else app.requestedLimit,
         terms := Terms(if rev.cycle.Some? then rev.cycle.value else app.terms.cycle,
                        if rev.thresholdAmount.Some? then rev.thresholdAmount else app.terms.thresholdAmount,
                        if rev.settlementDay.Some? then rev.settlementDay else app.terms.settlementDay))
  }

  function Revise(d: Desk, appId: Id, rev: Revision): (Desk, Outcome) {
    match PendingRow(d, appId)
    case Failure(e) => (d, Err(e))
    case Success(i) =>
      assert i < |d.apps|;
      (d.(apps := d.apps[i := Revised(d.apps[i], rev)]), Ok)
  }

  function Cancel(d: Desk, appId: Id): (Desk, Outcome) {
    match PendingRow(d, appId)
    case Failure(e) => (d, Err(e))
    case Success(i) =>
      assert i < |d.apps|;
      var tenantId := d.apps[i].tenantId;
      var deleted := d.(apps := d.apps[..i] + d.apps[i + 1..]);
      if tenantId !in d.tenants then (deleted, Err(TenantNotFound))
      else (SetTenant(deleted, tenantId, d.tenants[tenantId].(creditStatus := NoCredit)), Ok)
  }

  function ApprovedTenant(t: Tenant, limit: Money, terms: Terms): Tenant {
    t.(creditLimit := Some(limit), creditStatus := CreditApproved, cycle := terms.cycle,
       thresholdAmount := terms.thresholdAmount,
       settlementDay := if terms.settlementDay.Some? then terms.settlementDay else t.settlementDay)
  }

  function Approve(d: Desk, appId: Id, limit: Money): (Desk, Outcome) {
    match PendingRow(d, appId)
    case Failure(e) => (d, Err(e))
    case Success(i) =>
      assert i < |d.apps|;
      var app := d.apps[i];
      var marked := d.(apps := d.apps[i := app.(status := AppApproved, approvedLimit := Some(limit))]);
      if app.tenantId !in d.tenants then (marked, Err(TenantNotFound))
      else (SetTenant(marked, app.tenantId, ApprovedTenant(d.tenants[app.tenantId], limit, app.terms)), Ok)
  }

  function Reject(d: Desk, appId: Id): (Desk, Outcome) {
    match PendingRow(d, appId)
    case Failure(e) => (d, Err(e))
    case Success(i) =>
      assert i < |d.apps|;
      var app := d.apps[i];
      var marked := d.(apps := d.apps[i := app.(status := AppRejected)]);
      if app.tenantId !in d.tenants then (marked, Err(TenantNotFound))
      else (SetTenant(marked, app.tenantId, d.tenants[app.tenantId].(creditStatus := CreditRejected)), Ok)
  }

  function Adjust(d: Desk, tenantId: Id, limit: Money): (Desk, Outcome) {
    if tenantId !in d.tenants then (d, Err(TenantNotFound))
    else if d.tenants[tenantId].creditStatus != CreditApproved then (d, Err(CreditNotApproved))
    else (SetTenant(d, tenantId, d.tenants[tenantId].(creditLimit := Some(limit))), Ok)
  }

  // ------------------------------------------------------------- the service

  class CreditApplicationService {
    var tenants: map<Id, Tenant>
    var apps: seq<Application>

    function State(): Desk
      reads this
    {
      Desk(tenants, apps)
    }

    method ApplyForCredit(tenantId: Id, newId: Id, requestedLimit: Money, terms: Terms) returns (r: Outcome)
      modifies this
      ensures (State(), r) == Apply(old(State()), tenantId, newId, requestedLimit, terms)
    {
      if tenantId !in tenants {
        return Err(TenantNotFound);
      }
      var tenant := tenants[tenantId];
      if !tenant.isOrganization {
        return Err(InvalidQuotaType);
      }
      var existing := Latest(apps, tenantId);
      if existing.Some? && existing.value.status == AppPending {
        return Err(ApplicationPending);
      }
      apps := apps + [Application(newId, tenantId, requestedLimit, AppPending, None, terms)];
      tenant := tenant.(creditStatus := CreditPending);
      tenants := tenants[tenantId := tenant];
      r := Ok;
    }

    method UpdateApplication(appId: Id, rev: Revision) returns (r: Outcome)
      modifies this`apps
      ensures (State(), r) == Revise(old(State()), appId, rev)
    {
      var i := RowOf(apps, appId);
      if i == |apps| {
        return Err(ApplicationNotFound);
      }
      var application := apps[i];
      if application.status != AppPending {
        return Err(ApplicationAlreadyProcessed);
      }
      var terms := application.terms;
      if rev.requestedLimit > 0 {
        application := application.(requestedLimit := rev.requestedLimit);
      }
      if rev.cycle.Some? {
        terms := terms.(cycle := rev.cycle.value);
      }
      if rev.thresholdAmount.Some? {
        terms := terms.(thresholdAmount := rev.thresholdAmount);
      }
      if rev.settlementDay.Some? {
        terms := terms.(settlementDay := rev.settlementDay);
      }
      application := application.(terms := terms);
      apps := apps[i := application];
      r := Ok;
    }

    method CancelApplication(appId: Id) returns (r: Outcome)
      modifies this
      ensures (State(), r) == Cancel(old(State()), appId)
    {
      var i := RowOf(apps, appId);
      if i == |apps| {
        return Err(ApplicationNotFound);
      }
      var application := apps[i];
      if application.status != AppPending {
        return Err(ApplicationAlreadyProcessed);
      }
      apps := apps[..i] + apps[i + 1..];
      if application.tenantId !in tenants {
        return Err(TenantNotFound);
      }
      var tenant := tenants[application.tenantId];
      tenant := tenant.(creditStatus := NoCredit);
      tenants := tenants[application.tenantId := tenant];
      r := Ok;
    }

    method ApproveApplication(appId: Id, approvedLimit: Money) returns (r: Outcome)
      modifies this
      ensures (State(), r) == Approve(old(State()), appId, approvedLimit)
    {
      var i := RowOf(apps, appId);
      if i == |apps| {
        return Err(ApplicationNotFound);
      }
      var application := apps[i];
      if application.status != AppPending {
        return Err(ApplicationAlreadyProcessed);
      }
      apps := apps[i := application.(status := AppApproved, approvedLimit := Some(approvedLimit))];
      if application.tenantId !in tenants {
        return Err(TenantNotFound);
      }
      var tenant := tenants[application.tenantId];
      tenant := tenant.(creditLimit := Some(approvedLimit));
      tenant := tenant.(creditStatus := CreditApproved);
      tenant := tenant.(cycle := application.terms.cycle);
      tenant := tenant.(thresholdAmount := application.terms.thresholdAmount);
      if application.terms.settlementDay.Some? {
        tenant := tenant.(settlementDay := application.terms.settlementDay);
      }
      tenants := tenants[application.tenantId := tenant];
      r := Ok;
    }

    method RejectApplication(appId: Id) returns (r: Outcome)
      modifies this
      ensures (State(), r) == Reject(old(State()), appId)
    {
      var i := RowOf(apps, appId);
      if i == |apps| {
        return Err(ApplicationNotFound);
      }
      var application := apps[i];
      if application.status != AppPending {
        return Err(ApplicationAlreadyProcessed);
      }
      apps := apps[i := application.(status := AppRejected)];
      if application.tenantId !in tenants {
        return Err(TenantNotFound);
      }
      var tenant := tenants[application.tenantId];
      tenant := tenant.(creditStatus := CreditRejected);
      tenants := tenants[application.tenantId := tenant];
      r := Ok;
    }

    method AdjustCreditLimit(tenantId: Id, newLimit: Money) returns (r: Outcome)
      modifies this`tenants
      ensures (State(), r) == Adjust(old(State()), tenantId, newLimit)
    {
      if tenantId !in tenants {
        return Err(TenantNotFound);
      }
      var tenant := tenants[tenantId];
      if tenant.creditStatus != CreditApproved {
        return Err(CreditNotApproved);
      }
      tenant := tenant.(creditLimit := Some(newLimit));
      tenants := tenants[tenantId := tenant];
      r := Ok;
    }
  }

  // --------------------------------------------------------------- invariant

  predicate IsPendingFor(apps: seq<Application>, i: int, tenantId: Id) {
    0 <= i < |apps| && apps[i].tenantId == tenantId && apps[i].status == AppPending
  }

  /** A pending application is the last one of its tenant; so it is the only
      pending one. */
  predicate PendingIsLatest(apps: seq<Application>) {
    forall i, j | 0 <= i < j < |apps| && apps[i].tenantId == apps[j].tenantId :: apps[i].status != AppPending
  }

  ghost predicate Inv(d: Desk) {
    && (forall i, j | 0 <= i < j < |d.apps| :: d.apps[i].id != d.apps[j].id)
    && (forall i | 0 <= i < |d.apps| :: d.apps[i].tenantId in d.tenants)
    && PendingIsLatest(d.apps)
    && (forall id | id in d.tenants ::
          d.tenants[id].creditStatus == CreditPending <==> exists i :: IsPendingFor(d.apps, i, id))
    && (forall id | id in d.tenants ::
          d.tenants[id].creditStatus == CreditApproved ==> d.tenants[id].creditLimit.Some?)
  }

  datatype Step =
    | DoApply(tenantId: Id, newId: Id, requestedLimit: Money, terms: Terms)
    | DoRevise(appId: Id, revision: Revision)
    | DoCancel(appId: Id)
    | DoApprove(appId: Id, limit: Money)
    | DoReject(appId: Id)
    | DoAdjust(tenantId: Id, limit: Money)

  /** The database never hands out an id that is in use. */
  predicate Enabled(d: Desk, s: Step) {
    s.DoApply? ==> RowOf(d.apps, s.newId) == |d.apps|
  }

  function Next(d: Desk, s: Step): Desk {
    if !Enabled(d, s) then d
    else match s
      case DoApply(tenantId, newId, limit, terms) => Apply(d, tenantId, newId, limit, terms).0
      case DoRevise(appId, rev) => Revise(d, appId, rev).0
      case DoCancel(appId) => Cancel(d, appId).0
      case DoApprove(appId, limit) => Approve(d, appId, limit).0
      case DoReject(appId) => Reject(d, appId).0
      case DoAdjust(tenantId, limit) => Adjust(d, tenantId, limit).0
  }

  function Run(d: Desk, steps: seq<Step>): Desk
    decreases |steps|
  {
    if steps == [] then d else Run(Next(d, steps[0]), steps[1..])
  }

  /** Rewriting the pending row `i` with a decided status. */
  lemma DecidingKeepsInv(d: Desk, i: nat, app: Application, t: Tenant)
    requires Inv(d) && i < |d.apps| && d.apps[i].status == AppPending
    requires app.id == d.apps[i].id && app.tenantId == d.apps[i].tenantId && app.status != AppPending
    requires t.creditStatus != CreditPending && (t.creditStatus == CreditApproved ==> t.creditLimit.Some?)
    ensures Inv(Desk(d.tenants[app.tenantId := t], d.apps[i := app]))
  {
    var e := Desk(d.tenants[app.tenantId := t], d.apps[i := app]);
    forall id | id in e.tenants
      ensures e.tenants[id].creditStatus == CreditPending <==> exists k :: IsPendingFor(e.apps, k, id)
    {
      if id == app.tenantId {
        assert forall k :: !IsPendingFor(e.apps, k, id);
      } else {
        assert forall k :: IsPendingFor(e.apps, k, id) <==> IsPendingFor(d.apps, k, id);
      }
    }
  }

  function Without(apps: seq<Application>, i: nat): seq<Application>
    requires i < |apps|
  {
    apps[..i] + apps[i + 1..]
  }

  lemma WithoutKeepsPending(apps: seq<Application>, i: nat, id: Id)
    requires i < |apps| && apps[i].tenantId != id
    ensures (exists k :: IsPendingFor(Without(apps, i), k, id)) <==> exists k :: IsPendingFor(apps, k, id)
  {
    if k :| IsPendingFor(apps, k, id) {
      assert IsPendingFor(Without(apps, i), if k < i then k else k - 1, id);
    }
    if k :| IsPendingFor(Without(apps, i), k, id) {
      assert IsPendingFor(apps, if k < i then k else k + 1, id);
    }
  }

  lemma CancellingKeepsInv(d: Desk, i: nat, t: Tenant)
    requires Inv(d) && i < |d.apps| && d.apps[i].status == AppPending
    requires t.creditStatus == NoCredit
    ensures Inv(Desk(d.tenants[d.apps[i].tenantId := t], Without(d.apps, i)))
  {
    var own := d.apps[i].tenantId;
    var e := Desk(d.tenants[own := t], Without(d.apps, i));
    assert forall k | 0 <= k < |e.apps| :: e.apps[k] == d.apps[if k < i then k else k + 1];
    forall id | id in e.tenants
      ensures e.tenants[id].creditStatus == CreditPending <==> exists k :: IsPendingFor(e.apps, k, id)
    {
      if id == own {
        assert forall k :: !IsPendingFor(e.apps, k, id);
      } else {
        WithoutKeepsPending(d.apps, i, id);
      }
    }
  }

  lemma ApplyingKeepsInv(d: Desk, tenantId: Id, newId: Id, limit: Money, terms: Terms)
    requires Inv(d) && RowOf(d.apps, newId) == |d.apps|
    ensures Inv(Apply(d, tenantId, newId, limit, terms).0)
  {
    var (e, r) := Apply(d, tenantId, newId, limit, terms);
    if r.Ok? {
      var n := |d.apps|;
      PendingMeansLatest(d, tenantId);
      forall id | id in e.tenants
        ensures e.tenants[id].creditStatus == CreditPending <==> exists k :: IsPendingFor(e.apps, k, id)
      {
        if id == tenantId {
          assert IsPendingFor(e.apps, n, id);
        } else {
          assert forall k :: IsPendingFor(e.apps, k, id) <==> IsPendingFor(d.apps, k, id);
        }
      }
    }
  }

  lemma RevisingKeepsInv(d: Desk, appId: Id, rev: Revision)
    requires Inv(d)
    ensures Inv(Revise(d, appId, rev).0)
  {
    var e := Revise(d, appId, rev).0;
    assert forall k, id :: IsPendingFor(e.apps, k, id) <==> IsPendingFor(d.apps, k, id);
  }

  lemma StepKeepsInv(d: Desk, s: Step)
    requires Inv(d)
    ensures Inv(Next(d, s))
  {
    if Enabled(d, s) {
      match s
      case DoApply(tenantId, newId, limit, terms) => ApplyingKeepsInv(d, tenantId, newId, limit, terms);
      case DoRevise(appId, rev) => RevisingKeepsInv(d, appId, rev);
      case DoCancel(appId) =>
        if PendingRow(d, appId).Success? {
          var i := RowOf(d.apps, appId);
          CancellingKeepsInv(d, i, d.tenants[d.apps[i].tenantId].(creditStatus := NoCredit));
        }
      case DoApprove(appId, limit) =>
        if PendingRow(d, appId).Success? {
          var app := d.apps[RowOf(d.apps, appId)];
          DecidingKeepsInv(d, RowOf(d.apps, appId), app.(status := AppApproved, approvedLimit := Some(limit)),
                           ApprovedTenant(d.tenants[app.tenantId], limit, app.terms));
        }
      case DoReject(appId) =>
        if PendingRow(d, appId).Success? {
          var app := d.apps[RowOf(d.apps, appId)];
          DecidingKeepsInv(d, RowOf(d.apps, appId), app.(status := AppRejected),
                           d.tenants[app.tenantId].(creditStatus := CreditRejected));
        }
      case DoAdjust(_, _) =>
    }
  }

  /** In every reachable state a tenant has at most one pending application, it
      is the tenant's latest, the tenant is marked pending exactly then, and an
      approved tenant has a limit. */
  lemma {:induction false} CreditWorkflowInvariant(d: Desk, steps: seq<Step>)
    requires Inv(d)
    ensures Inv(Run(d, steps))
    decreases |steps|
  {
    if steps != [] {
      StepKeepsInv(d, steps[0]);
      CreditWorkflowInvariant(Next(d, steps[0]), steps[1..]);
    }
  }

  /** The invariant in terms of what the service looks up: a tenant is pending
      exactly when its latest application is, and no other one is. */
  lemma PendingMeansLatest(d: Desk, tenantId: Id)
    requires Inv(d) && tenantId in d.tenants
    ensures d.tenants[tenantId].creditStatus == CreditPending <==>
            Latest(d.apps, tenantId).Some? && Latest(d.apps, tenantId).value.status == AppPending
    ensures forall i, j :: IsPendingFor(d.apps, i, tenantId) && IsPendingFor(d.apps, j, tenantId) ==> i == j
  {
    var latest := Latest(d.apps, tenantId);
    if latest.Some? {
      var i :| 0 <= i < |d.apps| && d.apps[i] == latest.value && d.apps[i].tenantId == tenantId
               && forall j | i < j < |d.apps| :: d.apps[j].tenantId != tenantId;
      if latest.value.status == AppPending {
        assert IsPendingFor(d.apps, i, tenantId);
      }
    }
  }

  /** Approval grants exactly the approved limit on the application's own terms,
      to the application's own tenant, and touches no money. */
  lemma ApprovalGrantsTheApplication(d: Desk, appId: Id, limit: Money)
    requires Inv(d) && Approve(d, appId, limit).1.Ok?
    ensures var (e, _) := Approve(d, appId, limit);
      var i := RowOf(d.apps, appId);
      i < |d.apps| && |e.apps| == |d.apps| && e.apps[i].tenantId in e.tenants &&
      var app, t, was := e.apps[i], e.tenants[e.apps[i].tenantId], d.tenants[e.apps[i].tenantId];
      && app.status == AppApproved && app.approvedLimit == t.creditLimit == Some(limit)
      && t.HasCredit() && t.cycle == d.apps[i].terms.cycle && t.thresholdAmount == d.apps[i].terms.thresholdAmount
      && t.settlementDay == (if d.apps[i].terms.settlementDay.Some? then d.apps[i].terms.settlementDay else was.settlementDay)
      && t.balance == was.balance && t.creditUsed == was.creditUsed
      && (forall j | 0 <= j < |d.apps| && j != i :: e.apps[j] == d.apps[j])
      && (forall id | id in d.tenants && id != app.tenantId :: e.tenants[id] == d.tenants[id])
  {
  }

  // ------------------------------------------------- losing and regaining credit

  /** The step approves a pending application of this tenant. */
  predicate Approves(d: Desk, s: Step, tenantId: Id) {
    s.DoApprove? && PendingRow(d, s.appId).Success? && d.apps[RowOf(d.apps, s.appId)].tenantId == tenantId
  }

  predicate NeverApproves(d: Desk, steps: seq<Step>, tenantId: Id)
    decreases |steps|
  {
    steps == [] || (!Approves(d, steps[0], tenantId) && NeverApproves(Next(d, steps[0]), steps[1..], tenantId))
  }

  /** A tenant with credit loses it in one step if and only if it applies again. */
  lemma CreditIsLostExactly(d: Desk, s: Step, tenantId: Id)
    requires Inv(d) && tenantId in d.tenants && d.tenants[tenantId].HasCredit()
    ensures tenantId in Next(d, s).tenants
    ensures !Next(d, s).tenants[tenantId].HasCredit() <==>
            s.DoApply? && s.tenantId == tenantId && Enabled(d, s) && d.tenants[tenantId].isOrganization
  {
    match s
    case DoApply(_, _, _, _) => PendingMeansLatest(d, tenantId);
    case DoCancel(appId) => assert !IsPendingFor(d.apps, RowOf(d.apps, appId), tenantId);
    case DoReject(appId) => assert !IsPendingFor(d.apps, RowOf(d.apps, appId), tenantId);
    case _ =>
  }

  /** A tenant without approved credit is approved by one step if and only if the
      step approves a pending application of that tenant. No step changes used
      credit. */
  lemma CreditIsGainedExactly(d: Desk, s: Step, tenantId: Id)
    requires tenantId in d.tenants
    ensures tenantId in Next(d, s).tenants
    ensures Next(d, s).tenants[tenantId].creditUsed == d.tenants[tenantId].creditUsed
    ensures d.tenants[tenantId].creditStatus != CreditApproved ==>
            (Next(d, s).tenants[tenantId].creditStatus == CreditApproved <==> Approves(d, s, tenantId))
  {
  }

  lemma {:induction false} NoCreditWithoutApproval(d: Desk, steps: seq<Step>, tenantId: Id)
    requires tenantId in d.tenants && d.tenants[tenantId].creditStatus != CreditApproved
    requires NeverApproves(d, steps, tenantId)
    ensures var e := Run(d, steps);
      && tenantId in e.tenants
      && e.tenants[tenantId].creditStatus != CreditApproved
      && e.tenants[tenantId].creditUsed == d.tenants[tenantId].creditUsed
    decreases |steps|
  {
    if steps != [] {
      CreditIsGainedExactly(d, steps[0], tenantId);
      NoCreditWithoutApproval(Next(d, steps[0]), steps[1..], tenantId);
    }
  }

  /** A tenant that applies again loses any credit it had at once, and does not
      settle what it used, in every run until a pending application of it is
      approved, whatever is withdrawn, rejected or adjusted meanwhile. */
  lemma ReapplyingFreezesCredit(d: Desk, tenantId: Id, newId: Id, limit: Money, terms: Terms, steps: seq<Step>)
    requires Apply(d, tenantId, newId, limit, terms).1.Ok?
    requires NeverApproves(Apply(d, tenantId, newId, limit, terms).0, steps, tenantId)
    ensures var e := Run(Apply(d, tenantId, newId, limit, terms).0, steps);
      && tenantId in e.tenants
      && !e.tenants[tenantId].HasCredit()
      && e.tenants[tenantId].creditUsed == d.tenants[tenantId].creditUsed
      && Settlement.SettleError(e.tenants[tenantId]) == Some(CreditNotApproved)
  {
    NoCreditWithoutApproval(Apply(d, tenantId, newId, limit, terms).0, steps, tenantId);
  }

  /** Withdrawing or rejecting the new application ends its pending state and
      gives nothing back. */
  lemma WithdrawingRestoresNothing(d: Desk, tenantId: Id, newId: Id, limit: Money, terms: Terms, withdraw: Step)
    requires Inv(d) && RowOf(d.apps, newId) == |d.apps|
    requires Apply(d, tenantId, newId, limit, terms).1.Ok?
    requires withdraw in {DoCancel(newId), DoReject(newId)}
    ensures var f := Next(Apply(d, tenantId, newId, limit, terms).0, withdraw);
      && tenantId in f.tenants
      && f.tenants[tenantId].creditStatus != CreditPending
      && !f.tenants[tenantId].HasCredit()
      && f.tenants[tenantId].creditUsed == d.tenants[tenantId].creditUsed
      && Settlement.SettleError(f.tenants[tenantId]) == Some(CreditNotApproved)
  {
    var e := Apply(d, tenantId, newId, limit, terms).0;
    var n := |d.apps|;
    assert e.apps[n].id == newId;
    assert forall j | 0 <= j < n :: e.apps[j] == d.apps[j] && d.apps[j].id != newId;
    assert RowOf(e.apps, newId) == n;
  }

  // ------------------------------------------------ what each operation leaves

  /** An application is refused exactly for an unknown tenant, a tenant that is
      no organization, and a pending latest application. Otherwise it becomes the
      tenant's latest, pending, as requested, and only that tenant's credit
      status changes. */
  lemma ApplyingExactly(d: Desk, tenantId: Id, newId: Id, limit: Money, terms: Terms)
    ensures var (e, r) := Apply(d, tenantId, newId, limit, terms);
      && r == (if tenantId !in d.tenants then Err(TenantNotFound)
               else if !d.tenants[tenantId].isOrganization then Err(InvalidQuotaType)
               else if Latest(d.apps, tenantId).Some? && Latest(d.apps, tenantId).value.status == AppPending
                    then Err(ApplicationPending)
               else Ok)
      && (r.Err? ==> e == d)
      && (r.Ok? ==>
            && Latest(e.apps, tenantId) == Some(Application(newId, tenantId, limit, AppPending, None, terms))
            && |e.apps| == |d.apps| + 1 && d.apps <= e.apps
            && e.tenants == d.tenants[tenantId := d.tenants[tenantId].(creditStatus := CreditPending)])
  {
    if Apply(d, tenantId, newId, limit, terms).1.Ok? {
      var apps := Apply(d, tenantId, newId, limit, terms).0.apps;
      assert apps[|d.apps|].tenantId == tenantId;
    }
  }

  /** Revising, cancelling, approving and rejecting share their refusals: no such
      application, or one that is decided. */
  lemma OnlyPendingApplicationsChange(d: Desk, appId: Id, rev: Revision, limit: Money, i: nat)
    requires i < |d.apps| && d.apps[i].id == appId && d.apps[i].status != AppPending
    requires forall j | 0 <= j < i :: d.apps[j].id != appId
    ensures Revise(d, appId, rev) == Cancel(d, appId) == Approve(d, appId, limit) == Reject(d, appId) ==
            (d, Err(ApplicationAlreadyProcessed))
  {
    assert RowOf(d.apps, appId) == i;
  }

  lemma UnknownApplicationsChangeNothing(d: Desk, appId: Id, rev: Revision, limit: Money)
    requires forall j | 0 <= j < |d.apps| :: d.apps[j].id != appId
    ensures Revise(d, appId, rev) == Cancel(d, appId) == Approve(d, appId, limit) == Reject(d, appId) ==
            (d, Err(ApplicationNotFound))
  {
    assert RowOf(d.apps, appId) == |d.apps|;
  }

  /** From application to credit: what is applied for, revised and approved is
      what the tenant gets, each term from the revision where it names one. */
  lemma RevisedTermsAreGranted(d: Desk, tenantId: Id, newId: Id, requested: Money, terms: Terms, rev: Revision, limit: Money)
    requires Inv(d) && (forall j | 0 <= j < |d.apps| :: d.apps[j].id != newId)
    requires Apply(d, tenantId, newId, requested, terms).1.Ok?
    ensures var d1 := Apply(d, tenantId, newId, requested, terms).0;
      var (d2, revised) := Revise(d1, newId, rev);
      var (d3, approved) := Approve(d2, newId, limit);
      && revised == Ok && approved == Ok && tenantId in d3.tenants
      && var was, t, app := d.tenants[tenantId], d3.tenants[tenantId], d3.apps[|d3.apps| - 1];
      && t == was.(creditStatus := CreditApproved, creditLimit := Some(limit), cycle := t.cycle,
                   thresholdAmount := t.thresholdAmount, settlementDay := t.settlementDay)
      && t.cycle == (match rev.cycle case Some(c) => c case None => terms.cycle)
      && t.thresholdAmount == (match rev.thresholdAmount case Some(m) => Some(m) case None => terms.thresholdAmount)
      && t.settlementDay == (match rev.settlementDay
                             case Some(day) => Some(day)
                             case None => match terms.settlementDay case Some(day) => Some(day) case None => was.settlementDay)
      && app.id == newId && app.tenantId == tenantId && app.status == AppApproved && app.approvedLimit == Some(limit)
      && app.requestedLimit == (if rev.requestedLimit > 0 then rev.requestedLimit else requested)
      && d3.apps[..|d3.apps| - 1] == d.apps
  {
    var d1 := Apply(d, tenantId, newId, requested, terms).0;
    var n := |d.apps|;
    assert RowOf(d1.apps, newId) == n by {
      assert d1.apps[n].id == newId && forall j | 0 <= j < n :: d1.apps[j] == d.apps[j];
    }
    var d2 := Revise(d1, newId, rev).0;
    assert RowOf(d2.apps, newId) == n by {
      assert d2.apps[n].id == newId && forall j | 0 <= j < n :: d2.apps[j] == d.apps[j];
    }
  }

  /** Rejecting and cancelling a pending application: the row is rejected or gone,
      the tenant has no usable credit, and everything else stays. */
  lemma EndingAnApplication(d: Desk, appId: Id, i: nat)
    requires Inv(d) && i < |d.apps| && d.apps[i].id == appId && d.apps[i].status == AppPending
    ensures var t := d.tenants[d.apps[i].tenantId];
      && Reject(d, appId) == (Desk(d.tenants[d.apps[i].tenantId := t.(creditStatus := CreditRejected)],
                                   d.apps[i := d.apps[i].(status := AppRejected)]), Ok)
      && Cancel(d, appId) == (Desk(d.tenants[d.apps[i].tenantId := t.(creditStatus := NoCredit)],
                                   d.apps[..i] + d.apps[i + 1..]), Ok)
  {
    assert RowOf(d.apps, appId) == i;
  }

  /** Decided applications are kept as they are in every run. */
  lemma {:induction false} DecidedApplicationsAreFinal(d: Desk, steps: seq<Step>, app: Application)
    requires app in d.apps && app.status != AppPending
    ensures app in Run(d, steps).apps
    decreases |steps|
  {
    if steps != [] {
      DecidedStays(d, steps[0], app);
      DecidedApplicationsAreFinal(Next(d, steps[0]), steps[1..], app);
    }
  }

  lemma DecidedStays(d: Desk, s: Step, app: Application)
    requires app in d.apps && app.status != AppPending
    ensures app in Next(d, s).apps
  {
    var j :| 0 <= j < |d.apps| && d.apps[j] == app;
    var e := Next(d, s);
    if s.DoCancel? && PendingRow(d, s.appId).Success? {
      var i := RowOf(d.apps, s.appId);
      assert e.apps[if j < i then j else j - 1] == app;
    } else {
      assert e.apps[j] == app;
    }
  }

  /** Adjusting sets the limit of an approved tenant, and nothing else. It may go
      below what is used: then credit funds nothing more until some is settled. */
  lemma AdjustingExactly(d: Desk, tenantId: Id, limit: Money)
    ensures var (e, r) := Adjust(d, tenantId, limit);
      && r == (if tenantId !in d.tenants then Err(TenantNotFound)
               else if d.tenants[tenantId].creditStatus != CreditApproved then Err(CreditNotApproved) else Ok)
      && e == (if r.Ok? then d.(tenants := d.tenants[tenantId := d.tenants[tenantId].(creditLimit := Some(limit))]) else d)
      && (r.Ok? && limit <= d.tenants[tenantId].creditUsed ==>
            forall tokens, cost | cost > 0 && OrganizationSource(e.tenants[tenantId], tokens, cost) == FromCredit ::
              CheckOrganization(e.tenants[tenantId], tokens, cost).Err?)
  {
  }
}
