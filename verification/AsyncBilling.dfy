/** AsyncBillingQueue: a bounded queue served by workers that deduct a user's
    balance, write a usage record, and give the money back if that fails. */
module AsyncBilling {
  import opened Common

  /** `cost` is what CalculateCost answers for the event: None without pricing. */
  datatype BillingEvent = BillingEvent(requestId: Id, userId: Id, cost: Option<Money>)

  /** Where a worker stands inside RecordUsage. */
  datatype Worker =
    | Idle
    | Holding(event: BillingEvent)
    | Deducted(event: BillingEvent)
    | Refunding(event: BillingEvent)
    | Stopped

  /** `recorded` is the usage table, whose request ids are unique; `accepted`
      lists every event the queue took. */
  datatype Queue = Queue(
    capacity: nat,
    events: seq<BillingEvent>,
    workers: seq<Worker>,
    balances: map<Id, Money>,
    recorded: seq<BillingEvent>,
    failed: seq<BillingEvent>,
    accepted: seq<BillingEvent>,
    stopping: bool)

  datatype Step =
    | Enqueue(event: BillingEvent)
    | Take(worker: nat)
    | Deduct(worker: nat)
    | Create(worker: nat, databaseOk: bool)
    | Refund(worker: nat)
    | Stop
    | Leave(worker: nat)

  predicate IsRecorded(recorded: seq<BillingEvent>, requestId: Id) {
    exists i | 0 <= i < |recorded| :: recorded[i].requestId == requestId
  }

  predicate CanPay(balances: map<Id, Money>, e: BillingEvent) {
    e.cost.Some? && e.userId in balances && balances[e.userId] >= e.cost.value
  }

  function Price(e: BillingEvent): Money { if e.cost.Some? then e.cost.value else 0 }

  function Set(s: Queue, w: nat, worker: Worker): Queue
    requires w < |s.workers|
  {
    s.(workers := s.workers[w := worker])
  }

  function TakeEvent(s: Queue, w: nat): Queue
    requires w < |s.workers| && s.workers[w].Idle? && s.events != []
  {
    Set(s, w, Holding(s.events[0])).(events := s.events[1..])
  }

  function DeductBalance(s: Queue, w: nat): Queue
    requires w < |s.workers| && s.workers[w].Holding?
  {
    var e := s.workers[w].event;
    if CanPay(s.balances, e)
    then Set(s, w, Deducted(e)).(balances := s.balances[e.userId := s.balances[e.userId] - Price(e)])
    else Set(s, w, Idle).(failed := s.failed + [e])
  }

  function CreateRecord(s: Queue, w: nat, databaseOk: bool): Queue
    requires w < |s.workers| && s.workers[w].Deducted?
  {
    var e := s.workers[w].event;
    if databaseOk && !IsRecorded(s.recorded, e.requestId)
    then Set(s, w, Idle).(recorded := s.recorded + [e])
    else Set(s, w, Refunding(e))
  }

  function GiveBack(balances: map<Id, Money>, e: BillingEvent): map<Id, Money> {
    if e.userId in balances then balances[e.userId := balances[e.userId] + Price(e)] else balances
  }

  function RefundBalance(s: Queue, w: nat): Queue
    requires w < |s.workers| && s.workers[w].Refunding?
  {
    var e := s.workers[w].event;
    Set(s, w, Idle).(balances := GiveBack(s.balances, e), failed := s.failed + [e])
  }

  /** A step that is not possible changes nothing. */
  function Apply(s: Queue, step: Step): Queue {
    match step
    case Enqueue(e) =>
      if |s.events| < s.capacity then s.(events := s.events + [e], accepted := s.accepted + [e]) else s
    case Stop => s.(stopping := true)
    case Take(w) => if w < |s.workers| && s.workers[w].Idle? && s.events != [] then TakeEvent(s, w) else s
    case Deduct(w) => if w < |s.workers| && s.workers[w].Holding? then DeductBalance(s, w) else s
    case Create(w, databaseOk) => if w < |s.workers| && s.workers[w].Deducted? then CreateRecord(s, w, databaseOk) else s
    case Refund(w) => if w < |s.workers| && s.workers[w].Refunding? then RefundBalance(s, w) else s
    case Leave(w) => if w < |s.workers| && s.workers[w].Idle? && s.stopping then Set(s, w, Stopped) else s
  }

  function Run(s: Queue, steps: seq<Step>): Queue
    decreases |steps|
  {
    if steps == [] then s else Run(Apply(s, steps[0]), steps[1..])
  }

  // ------------------------------------------------------------ the service

  class AsyncBillingQueue {
    const capacity: nat
    var events: seq<BillingEvent>
    var workers: seq<Worker>
    var balances: map<Id, Money>
    var recorded: seq<BillingEvent>
    var failed: seq<BillingEvent>
    var accepted: seq<BillingEvent>
    var stopping: bool

    function State(): Queue
      reads this
    {
      Queue(capacity, events, workers, balances, recorded, failed, accepted, stopping)
    }

    /** Never blocks: a full queue drops the event. */
    method EnqueueBilling(event: BillingEvent) returns (queued: bool)
      modifies this`events, this`accepted
      ensures State() == Apply(old(State()), Enqueue(event))
      ensures queued <==> |old(events)| < capacity
    {
      if |events| < capacity {
        events := events + [event];
        accepted := accepted + [event];
        return true;
      }
      queued := false;
    }

    /** RecordUsage without interference: charged and recorded, or neither. */
    method RecordUsage(event: BillingEvent, databaseOk: bool) returns (ok: bool)
      modifies this`balances, this`recorded
      ensures ok <==>
        && event.cost.Some? && event.userId in old(balances) && old(balances)[event.userId] >= event.cost.value
        && databaseOk && forall i | 0 <= i < |old(recorded)| :: old(recorded)[i].requestId != event.requestId
      ensures ok ==> balances == old(balances)[event.userId := old(balances)[event.userId] - event.cost.value]
                     && recorded == old(recorded) + [event]
      ensures !ok ==> balances == old(balances) && recorded == old(recorded)
    {
      if event.cost == None {
        return false;
      }
      var cost := event.cost.value;
      if event.userId !in balances || balances[event.userId] < cost {
        return false;
      }
      balances := balances[event.userId := balances[event.userId] - cost];
      if !databaseOk || IsRecorded(recorded, event.requestId) {
        balances := balances[event.userId := balances[event.userId] + cost];
        assert balances == old(balances);
        return false;
      }
      recorded := recorded + [event];
      ok := true;
    }

    /** One turn of a worker's loop on the billing channel, run alone. */
    method ServeNext(w: nat, databaseOk: bool)
      requires w < |workers| && workers[w].Idle? && events != []
      modifies this`events, this`balances, this`recorded, this`failed
      ensures State() == Run(old(State()), [Take(w), Deduct(w), Create(w, databaseOk), Refund(w)])
    {
      ghost var s := State();
      var event := events[0];
      events := events[1..];
      var ok := RecordUsage(event, databaseOk);
      if !ok {
        failed := failed + [event];
      }
      AloneInFourSteps(s, w, databaseOk);
    }
  }

  lemma AloneInFourSteps(s: Queue, w: nat, databaseOk: bool)
    requires w < |s.workers| && s.workers[w].Idle? && s.events != []
    ensures var e := s.events[0];
      var ok := CanPay(s.balances, e) && databaseOk && !IsRecorded(s.recorded, e.requestId);
      Run(s, [Take(w), Deduct(w), Create(w, databaseOk), Refund(w)]) ==
      s.(events := s.events[1..],
         balances := if ok then s.balances[e.userId := s.balances[e.userId] - Price(e)] else s.balances,
         recorded := if ok then s.recorded + [e] else s.recorded,
         failed := if ok then s.failed else s.failed + [e])
  {
    FourSteps(s, Take(w), Deduct(w), Create(w, databaseOk), Refund(w));
    var s1 := TakeEvent(s, w);
    if CanPay(s.balances, s.events[0]) {
      PaidAlone(s1, w, databaseOk);
    } else {
      UnpaidAlone(s1, w, databaseOk);
    }
    assert s1.workers[w := Idle] == s.workers;
  }

  /** An event served alone is recorded if and only if it has a price, its user
      has that much, the database accepts and no row has its request id. Then
      exactly the price leaves exactly that balance; otherwise no balance and no
      row changes and the event has failed. */
  lemma ServedAloneExactly(s: Queue, w: nat, databaseOk: bool)
    requires w < |s.workers| && s.workers[w].Idle? && s.events != []
    ensures var e, t := s.events[0], Run(s, [Take(w), Deduct(w), Create(w, databaseOk), Refund(w)]);
      var pays := && e.cost.Some? && e.userId in s.balances && s.balances[e.userId] >= e.cost.value
                  && databaseOk && forall i | 0 <= i < |s.recorded| :: s.recorded[i].requestId != e.requestId;
      && t.events == s.events[1..] && t.workers == s.workers
      && t.recorded == (if pays then s.recorded + [e] else s.recorded)
      && t.failed == (if pays then s.failed else s.failed + [e])
      && t.balances.Keys == s.balances.Keys
      && forall u | u in s.balances :: t.balances[u] == s.balances[u] - if pays && u == e.userId then e.cost.value else 0
  {
    AloneInFourSteps(s, w, databaseOk);
  }

  lemma UnpaidAlone(s: Queue, w: nat, databaseOk: bool)
    requires w < |s.workers| && s.workers[w].Holding? && !CanPay(s.balances, s.workers[w].event)
    ensures Apply(Apply(Apply(s, Deduct(w)), Create(w, databaseOk)), Refund(w)) ==
            Set(s, w, Idle).(failed := s.failed + [s.workers[w].event])
  {
  }

  lemma PaidAlone(s: Queue, w: nat, databaseOk: bool)
    requires w < |s.workers| && s.workers[w].Holding? && CanPay(s.balances, s.workers[w].event)
    ensures var e := s.workers[w].event;
      Apply(Apply(Apply(s, Deduct(w)), Create(w, databaseOk)), Refund(w)) ==
      if databaseOk && !IsRecorded(s.recorded, e.requestId)
      then Set(s, w, Idle).(balances := s.balances[e.userId := s.balances[e.userId] - Price(e)], recorded := s.recorded + [e])
      else Set(s, w, Idle).(failed := s.failed + [e])
  {
    var e := s.workers[w].event;
    var s2 := DeductBalance(s, w);
    var s3 := CreateRecord(s2, w, databaseOk);
    assert s3.workers == s.workers[w := s3.workers[w]];
    if s3.workers[w].Refunding? {
      assert GiveBack(s2.balances, e) == s.balances;
      assert s3.workers[w := Idle] == s.workers[w := Idle];
    }
  }

  lemma FourSteps(s: Queue, a: Step, b: Step, c: Step, d: Step)
    ensures Run(s, [a, b, c, d]) == Apply(Apply(Apply(Apply(s, a), b), c), d)
  {
    var s1, s2, s3 := Apply(s, a), Apply(Apply(s, a), b), Apply(Apply(Apply(s, a), b), c);
    assert [a, b, c, d][1..] == [b, c, d];
    assert [b, c, d][1..] == [c, d];
    assert [c, d][1..] == [d];
    assert [d][1..] == [];
    assert Run(s3, [d]) == Run(Apply(s3, d), []) == Apply(s3, d);
    assert Run(s2, [c, d]) == Run(s3, [d]);
    assert Run(s1, [b, c, d]) == Run(s2, [c, d]);
  }

  // ------------------------------------------------------------ bookkeeping

  /** Money a worker has taken from `userId` and not yet accounted for. */
  function HeldBy(w: Worker, userId: Id): Money {
    if (w.Deducted? || w.Refunding?) && w.event.userId == userId then Price(w.event) else 0
  }

  function Held(ws: seq<Worker>, userId: Id): Money {
    if ws == [] then 0 else HeldBy(ws[0], userId) + Held(ws[1..], userId)
  }

  /** What the recorded requests of a user cost. */
  function Charged(recorded: seq<BillingEvent>, userId: Id): Money {
    if recorded == [] then 0
    else
      var last := recorded[|recorded| - 1];
      Charged(recorded[..|recorded| - 1], userId) + if last.userId == userId && last.cost.Some? then last.cost.value else 0
  }

  function Carried(w: Worker): multiset<BillingEvent> {
    if w.Idle? || w.Stopped? then multiset{} else multiset{w.event}
  }

  function CarriedByAll(ws: seq<Worker>): multiset<BillingEvent> {
    if ws == [] then multiset{} else Carried(ws[0]) + CarriedByAll(ws[1..])
  }

  lemma {:induction false} HeldMoves(ws: seq<Worker>, i: nat, w: Worker, userId: Id)
    requires i < |ws|
    ensures Held(ws[i := w], userId) == Held(ws, userId) - HeldBy(ws[i], userId) + HeldBy(w, userId)
  {
    var vs := ws[i := w];
    if i == 0 {
      assert vs[1..] == ws[1..];
    } else {
      assert vs[1..] == ws[1..][i - 1 := w];
      HeldMoves(ws[1..], i - 1, w, userId);
    }
  }

  lemma {:induction false} CarriedMoves(ws: seq<Worker>, i: nat, w: Worker)
    requires i < |ws|
    ensures CarriedByAll(ws[i := w]) + Carried(ws[i]) == CarriedByAll(ws) + Carried(w)
  {
    var vs := ws[i := w];
    if i == 0 {
      assert vs[1..] == ws[1..];
    } else {
      assert vs[1..] == ws[1..][i - 1 := w];
      CarriedMoves(ws[1..], i - 1, w);
      AddToBoth(Carried(ws[0]), CarriedByAll(vs[1..]), Carried(ws[i]), CarriedByAll(ws[1..]), Carried(w));
    }
  }

  lemma AddToBoth(a: multiset<BillingEvent>, b: multiset<BillingEvent>, c: multiset<BillingEvent>,
                  d: multiset<BillingEvent>, e: multiset<BillingEvent>)
    requires b + c == d + e
    ensures (a + b) + c == (a + d) + e
  {
    assert (a + b) + c == a + (b + c);
    assert (a + d) + e == a + (d + e);
  }

  lemma ChargedAppend(recorded: seq<BillingEvent>, e: BillingEvent, userId: Id)
    ensures Charged(recorded + [e], userId) == Charged(recorded, userId) + if e.userId == userId then Price(e) else 0
  {
    assert (recorded + [e])[..|recorded|] == recorded;
  }

  /** A user's money, wherever it currently is. */
  function Wealth(s: Queue, userId: Id): Money
    requires userId in s.balances
  {
    s.balances[userId] + Charged(s.recorded, userId) + Held(s.workers, userId)
  }

  ghost predicate EachAcceptedOnce(s: Queue) {
    multiset(s.accepted) == CarriedByAll(s.workers) + Filed(s)
  }

  predicate UniqueRequests(recorded: seq<BillingEvent>) {
    forall i, j | 0 <= i < j < |recorded| :: recorded[i].requestId != recorded[j].requestId
  }

  predicate NonNegative(e: BillingEvent) { e.cost.Some? ==> e.cost.value >= 0 }

  predicate PricedWorker(w: Worker) {
    w.Holding? || w.Deducted? || w.Refunding? ==> NonNegative(w.event)
  }

  /** Request ids are unique, no balance is negative and no price is. */
  ghost predicate Tidy(s: Queue) {
    && UniqueRequests(s.recorded)
    && (forall id | id in s.balances :: s.balances[id] >= 0)
    && (forall i | 0 <= i < |s.events| :: NonNegative(s.events[i]))
    && (forall i | 0 <= i < |s.workers| :: PricedWorker(s.workers[i]))
  }

  ghost predicate Inv(s: Queue) {
    EachAcceptedOnce(s) && Tidy(s)
  }

  /** The worker a step moves, if the step is possible. */
  predicate Moves(s: Queue, step: Step) {
    match step
    case Enqueue(_) => false
    case Stop => false
    case Take(w) => w < |s.workers| && s.workers[w].Idle? && s.events != []
    case Deduct(w) => w < |s.workers| && s.workers[w].Holding?
    case Create(w, _) => w < |s.workers| && s.workers[w].Deducted?
    case Refund(w) => w < |s.workers| && s.workers[w].Refunding?
    case Leave(w) => w < |s.workers| && s.workers[w].Idle? && s.stopping
  }

  lemma OnlyOneWorkerMoves(s: Queue, step: Step)
    requires Moves(s, step)
    ensures var t := Apply(s, step);
      |t.workers| == |s.workers| && t.workers == s.workers[step.worker := t.workers[step.worker]]
  {
  }

  /** The events no worker carries. */
  function Filed(s: Queue): multiset<BillingEvent> {
    multiset(s.events) + multiset(s.recorded) + multiset(s.failed)
  }

  lemma FiledEvents(events: seq<BillingEvent>, e: BillingEvent)
    ensures multiset(events + [e]) == multiset(events) + multiset{e}
    ensures events != [] ==> multiset(events) == multiset{events[0]} + multiset(events[1..])
  {
    if events != [] {
      assert events == [events[0]] + events[1..];
    }
  }

  ghost predicate PassesEvent(s: Queue, t: Queue, i: nat) {
    && i < |s.workers| && i < |t.workers| && t.accepted == s.accepted
    && Filed(s) + Carried(s.workers[i]) == Filed(t) + Carried(t.workers[i])
  }

  lemma TakePasses(s: Queue, w: nat)
    requires w < |s.workers| && s.workers[w].Idle? && s.events != []
    ensures PassesEvent(s, TakeEvent(s, w), w)
  {
    FiledEvents(s.events, s.events[0]);
  }

  lemma DeductPasses(s: Queue, w: nat)
    requires w < |s.workers| && s.workers[w].Holding?
    ensures PassesEvent(s, DeductBalance(s, w), w)
  {
    FiledEvents(s.failed, s.workers[w].event);
  }

  lemma CreatePasses(s: Queue, w: nat, databaseOk: bool)
    requires w < |s.workers| && s.workers[w].Deducted?
    ensures PassesEvent(s, CreateRecord(s, w, databaseOk), w)
  {
    FiledEvents(s.recorded, s.workers[w].event);
  }

  lemma RefundPasses(s: Queue, w: nat)
    requires w < |s.workers| && s.workers[w].Refunding?
    ensures PassesEvent(s, RefundBalance(s, w), w)
  {
    FiledEvents(s.failed, s.workers[w].event);
  }

  lemma LeavePasses(s: Queue, w: nat)
    requires w < |s.workers| && s.workers[w].Idle?
    ensures PassesEvent(s, Set(s, w, Stopped), w)
  {
  }

  /** One move passes its event between queue, worker, usage table and failures. */
  lemma MovePassesItsEvent(s: Queue, step: Step)
    requires Moves(s, step)
    ensures PassesEvent(s, Apply(s, step), step.worker)
  {
    match step
    case Take(w) =>
      assert Apply(s, step) == TakeEvent(s, w);
      TakePasses(s, w);
    case Deduct(w) =>
      assert Apply(s, step) == DeductBalance(s, w);
      DeductPasses(s, w);
    case Create(w, databaseOk) =>
      assert Apply(s, step) == CreateRecord(s, w, databaseOk);
      CreatePasses(s, w, databaseOk);
    case Refund(w) =>
      assert Apply(s, step) == RefundBalance(s, w);
      RefundPasses(s, w);
    case Leave(w) =>
      assert Apply(s, step) == Set(s, w, Stopped);
      LeavePasses(s, w);
  }

  lemma EventsInOnePlace(s: Queue, step: Step)
    requires EachAcceptedOnce(s)
    ensures EachAcceptedOnce(Apply(s, step))
  {
    if Moves(s, step) {
      var t := Apply(s, step);
      OnlyOneWorkerMoves(s, step);
      MovePassesItsEvent(s, step);
      CarriedMoves(s.workers, step.worker, t.workers[step.worker]);
      Rebalance(CarriedByAll(s.workers), CarriedByAll(t.workers), Carried(s.workers[step.worker]), Carried(t.workers[step.worker]),
                Filed(s), Filed(t));
    }
  }

  lemma Rebalance(all: multiset<BillingEvent>, all': multiset<BillingEvent>,
                  one: multiset<BillingEvent>, one': multiset<BillingEvent>,
                  rest: multiset<BillingEvent>, rest': multiset<BillingEvent>)
    requires all' + one == all + one' && rest + one == rest' + one'
    ensures all + rest == all' + rest'
  {
    forall e: BillingEvent
      ensures (all + rest)[e] == (all' + rest')[e]
    {
      assert (all' + one)[e] == (all + one')[e];
      assert (rest + one)[e] == (rest' + one')[e];
    }
  }

  /** One move passes its money between balance, worker and usage table. */
  lemma MovePassesItsMoney(s: Queue, step: Step, userId: Id)
    requires Moves(s, step) && userId in s.balances
    ensures var t, i := Apply(s, step), step.worker;
      && |t.workers| == |s.workers| && userId in t.balances
      && s.balances[userId] + HeldBy(s.workers[i], userId) + Charged(s.recorded, userId) ==
         t.balances[userId] + HeldBy(t.workers[i], userId) + Charged(t.recorded, userId)
  {
    if step.Create? {
      ChargedAppend(s.recorded, s.workers[step.worker].event, userId);
    }
  }

  lemma StepKeepsWealth(s: Queue, step: Step, userId: Id)
    requires userId in s.balances
    ensures userId in Apply(s, step).balances && Wealth(Apply(s, step), userId) == Wealth(s, userId)
  {
    if Moves(s, step) {
      OnlyOneWorkerMoves(s, step);
      MovePassesItsMoney(s, step, userId);
      HeldMoves(s.workers, step.worker, Apply(s, step).workers[step.worker], userId);
    }
  }

  lemma MoveKeepsTables(s: Queue, step: Step)
    requires Moves(s, step) && Tidy(s)
    ensures Tidy(Apply(s, step))
  {
    var t := Apply(s, step);
    OnlyOneWorkerMoves(s, step);
    assert PricedWorker(s.workers[step.worker]);
    if step.Take? {
      assert NonNegative(s.events[0]);
    }
    assert PricedWorker(t.workers[step.worker]);
  }

  lemma StepKeepsInv(s: Queue, step: Step)
    requires Inv(s) && (step.Enqueue? ==> NonNegative(step.event))
    ensures Inv(Apply(s, step))
  {
    EventsInOnePlace(s, step);
    if Moves(s, step) {
      MoveKeepsTables(s, step);
    }
  }

  /** Any number of workers, interleaved in any way, with any database failures:
      no balance goes negative, each accepted event is in exactly one place, a
      request id is recorded at most once, and a user's balance, recorded costs
      and costs in flight always add up to the same amount. */
  lemma {:induction false} BillingIsConserved(s: Queue, steps: seq<Step>, userId: Id)
    requires Inv(s) && userId in s.balances
    requires forall x | x in steps && x.Enqueue? :: NonNegative(x.event)
    ensures var t := Run(s, steps);
      Inv(t) && userId in t.balances && Wealth(t, userId) == Wealth(s, userId)
    decreases |steps|
  {
    if steps != [] {
      assert steps[0] in steps;
      StepKeepsInv(s, steps[0]);
      StepKeepsWealth(s, steps[0], userId);
      BillingIsConserved(Apply(s, steps[0]), steps[1..], userId);
    }
  }

  predicate Quiet(ws: seq<Worker>) {
    forall w | w in ws :: w.Idle? || w.Stopped?
  }

  lemma {:induction false} QuietHoldsNothing(ws: seq<Worker>, userId: Id)
    requires Quiet(ws)
    ensures Held(ws, userId) == 0 && CarriedByAll(ws) == multiset{}
  {
    if ws != [] {
      assert ws[0] in ws;
      assert forall w | w in ws[1..] :: w in ws;
      QuietHoldsNothing(ws[1..], userId);
    }
  }

  /** Once no worker is busy, a user has paid exactly for the recorded requests,
      and every accepted event is still queued, recorded or failed. */
  lemma ChargedOnceWhenQuiet(s: Queue, steps: seq<Step>, userId: Id)
    requires Inv(s) && userId in s.balances && Quiet(s.workers) && s.recorded == []
    requires forall x | x in steps && x.Enqueue? :: NonNegative(x.event)
    requires Quiet(Run(s, steps).workers)
    ensures var t := Run(s, steps);
      && userId in t.balances
      && s.balances[userId] - t.balances[userId] == Charged(t.recorded, userId)
      && UniqueRequests(t.recorded)
      && multiset(t.accepted) == multiset(t.events) + multiset(t.recorded) + multiset(t.failed)
  {
    BillingIsConserved(s, steps, userId);
    QuietHoldsNothing(s.workers, userId);
    QuietHoldsNothing(Run(s, steps).workers, userId);
  }

  // ---------------------------------------------------------------- stopping

  predicate AllStopped(ws: seq<Worker>) {
    forall i | 0 <= i < |ws| :: ws[i].Stopped?
  }

  predicate NothingEnqueued(steps: seq<Step>) {
    forall x | x in steps :: !x.Enqueue?
  }

  /** Steps that let worker `w` finish what it holds and leave. */
  function Exit(w: nat): seq<Step> { [Deduct(w), Create(w, true), Refund(w), Leave(w)] }

  function ExitAll(n: nat): seq<Step> {
    if n == 0 then [] else ExitAll(n - 1) + Exit(n - 1)
  }

  lemma {:induction false} RunConcat(s: Queue, a: seq<Step>, b: seq<Step>)
    ensures Run(s, a + b) == Run(Run(s, a), b)
    decreases |a|
  {
    if a == [] {
      assert a + b == b;
    } else {
      assert (a + b)[1..] == a[1..] + b;
      RunConcat(Apply(s, a[0]), a[1..], b);
    }
  }

  lemma WorkerFinishes(s: Queue, w: nat)
    requires w < |s.workers| && !s.workers[w].Stopped?
    ensures var t := Apply(Apply(Apply(s, Deduct(w)), Create(w, true)), Refund(w));
      t.workers == s.workers[w := Idle] && t.events == s.events && t.stopping == s.stopping
  {
    var s1 := Apply(s, Deduct(w));
    var s2 := Apply(s1, Create(w, true));
    assert s1.workers == s.workers[w := s1.workers[w]] && s1.events == s.events;
    assert s2.workers == s.workers[w := s2.workers[w]] && s2.events == s.events;
  }

  lemma WorkerLeaves(s: Queue, w: nat)
    requires s.stopping && w < |s.workers|
    ensures var t := Run(s, Exit(w));
      t.workers == s.workers[w := Stopped] && t.events == s.events && t.stopping
  {
    FourSteps(s, Deduct(w), Create(w, true), Refund(w), Leave(w));
    if !s.workers[w].Stopped? {
      WorkerFinishes(s, w);
    }
  }

  lemma {:induction false} WorkersLeave(s: Queue, n: nat)
    requires s.stopping && n <= |s.workers|
    ensures var t := Run(s, ExitAll(n));
      && |t.workers| == |s.workers| && t.events == s.events && t.stopping
      && forall i | 0 <= i < n :: t.workers[i].Stopped?
    ensures NothingEnqueued(ExitAll(n))
  {
    if n > 0 {
      WorkersLeave(s, n - 1);
      RunConcat(s, ExitAll(n - 1), Exit(n - 1));
      WorkerLeaves(Run(s, ExitAll(n - 1)), n - 1);
    }
  }

  lemma {:induction false} EmptyQueueStaysEmpty(s: Queue, steps: seq<Step>)
    requires s.events == [] && NothingEnqueued(steps)
    ensures Run(s, steps).events == []
    decreases |steps|
  {
    if steps != [] {
      assert steps[0] in steps;
      EmptyQueueStaysEmpty(Apply(s, steps[0]), steps[1..]);
    }
  }

  /** Every worker leaves and the first queued event is never served. */
  ghost predicate Abandons(s: Queue, steps: seq<Step>) {
    && NothingEnqueued(steps)
    && AllStopped(Run(s, steps).workers)
    && Run(s, steps).events != []
  }

  /** Stopping is graceful only for what the workers already hold: whatever they
      hold, they may all leave with events still queued if and only if something
      is queued when the queue is told to stop. */
  lemma StopAbandonsExactly(s: Queue)
    ensures var stopped := Apply(s, Stop);
      (exists steps :: Abandons(stopped, steps)) <==> s.events != []
  {
    var stopped := Apply(s, Stop);
    if s.events != [] {
      WorkersLeave(stopped, |s.workers|);
      assert Abandons(stopped, ExitAll(|s.workers|));
    } else {
      forall steps | NothingEnqueued(steps)
        ensures !Abandons(stopped, steps)
      {
        EmptyQueueStaysEmpty(stopped, steps);
      }
    }
  }

  /** What has been abandoned is lost: once every worker has left, no step
      touches a balance or a table again, and queued events stay. */
  lemma {:induction false} StoppedQueueKeepsItsEvents(s: Queue, steps: seq<Step>)
    requires AllStopped(s.workers)
    ensures var t := Run(s, steps);
      && t.balances == s.balances && t.recorded == s.recorded && t.failed == s.failed
      && s.events <= t.events && t.workers == s.workers
    decreases |steps|
  {
    if steps != [] {
      StoppedQueueKeepsItsEvents(Apply(s, steps[0]), steps[1..]);
    }
  }

  // ----------------------------------------------- stopping may also be clean

  /** Steps in which worker `w` serves the first `n` queued events. */
  function Drain(w: nat, n: nat): seq<Step> {
    if n == 0 then [] else [Take(w), Deduct(w), Create(w, true), Refund(w)] + Drain(w, n - 1)
  }

  lemma {:induction false} WorkerDrains(s: Queue, w: nat)
    requires w < |s.workers| && s.workers[w].Idle?
    ensures var t := Run(s, Drain(w, |s.events|));
      t.events == [] && t.workers == s.workers && t.stopping == s.stopping
    ensures NothingEnqueued(Drain(w, |s.events|))
    decreases |s.events|
  {
    var n := |s.events|;
    if n > 0 {
      var serve := [Take(w), Deduct(w), Create(w, true), Refund(w)];
      AloneInFourSteps(s, w, true);
      RunConcat(s, serve, Drain(w, n - 1));
      WorkerDrains(Run(s, serve), w);
    }
  }

  /** Every worker leaves and nothing is left in the queue. */
  ghost predicate Clears(s: Queue, steps: seq<Step>) {
    && NothingEnqueued(steps)
    && AllStopped(Run(s, steps).workers)
    && Run(s, steps).events == []
  }

  lemma ClearsByOneWorker(s: Queue, w: nat)
    requires s.stopping && w < |s.workers| && !s.workers[w].Stopped?
    ensures exists steps :: Clears(s, steps)
  {
    var finish, n := [Deduct(w), Create(w, true), Refund(w), Refund(w)], |s.events|;
    FourSteps(s, Deduct(w), Create(w, true), Refund(w), Refund(w));
    WorkerFinishes(s, w);
    var s1 := Run(s, finish);
    WorkerDrains(s1, w);
    var s2 := Run(s1, Drain(w, n));
    WorkersLeave(s2, |s2.workers|);
    RunConcat(s, finish, Drain(w, n));
    RunConcat(s, finish + Drain(w, n), ExitAll(|s2.workers|));
    assert Clears(s, finish + Drain(w, n) + ExitAll(|s2.workers|));
  }

  /** A told stop may also serve everything, if and only if nothing is queued or
      some worker has not left yet: which of the two happens is up to the
      select of the workers. */
  lemma StopClearsExactly(s: Queue)
    ensures var stopped := Apply(s, Stop);
      (exists steps :: Clears(stopped, steps)) <==> s.events == [] || !AllStopped(s.workers)
  {
    var stopped := Apply(s, Stop);
    if !AllStopped(s.workers) {
      var w :| 0 <= w < |s.workers| && !s.workers[w].Stopped?;
      ClearsByOneWorker(stopped, w);
    } else if s.events == [] {
      assert Run(stopped, []) == stopped;
      assert Clears(stopped, []);
    } else {
      forall steps
        ensures !Clears(stopped, steps)
      {
        StoppedQueueKeepsItsEvents(stopped, steps);
      }
    }
  }

  // -------------------------------------------------------------- queue order

  /** The queue holds the latest accepted events, in order of acceptance and
      within its capacity. */
  ghost predicate InOrder(s: Queue) {
    && |s.events| <= s.capacity && |s.events| <= |s.accepted|
    && s.events == s.accepted[|s.accepted| - |s.events|..]
  }

  function Served(s: Queue): int { |s.accepted| - |s.events| }

  /** A step accepts an event exactly if it offers one and the queue has room. */
  lemma EnqueueKeepsOrder(s: Queue, e: BillingEvent)
    requires InOrder(s)
    ensures var t := Apply(s, Enqueue(e));
      InOrder(t) && Served(t) == Served(s) && t.accepted == if |s.events| < s.capacity then s.accepted + [e] else s.accepted
  {
  }

  /** A worker takes the oldest event not yet served, exactly if it is idle and
      there is one. */
  lemma TakeKeepsOrder(s: Queue, w: nat)
    requires InOrder(s)
    ensures var t := Apply(s, Take(w));
      var takes := w < |s.workers| && s.workers[w].Idle? && s.events != [];
      && InOrder(t) && t.accepted == s.accepted && Served(t) == Served(s) + (if takes then 1 else 0)
      && (takes ==> t.workers == s.workers[w := Holding(s.accepted[Served(s)])])
  {
  }

  lemma OtherStepsKeepOrder(s: Queue, step: Step)
    requires !step.Enqueue? && !step.Take?
    ensures var t := Apply(s, step);
      t.events == s.events && t.accepted == s.accepted && t.capacity == s.capacity
  {
  }

  /** In every run events are served in the order in which they were accepted. */
  lemma {:induction false} QueueIsFifo(s: Queue, steps: seq<Step>)
    requires InOrder(s)
    ensures var t := Run(s, steps);
      InOrder(t) && s.accepted <= t.accepted && Served(s) <= Served(t)
    decreases |steps|
  {
    if steps != [] {
      match steps[0] {
        case Enqueue(e) => EnqueueKeepsOrder(s, e);
        case Take(w) => TakeKeepsOrder(s, w);
        case _ => OtherStepsKeepOrder(s, steps[0]);
      }
      QueueIsFifo(Apply(s, steps[0]), steps[1..]);
    }
  }

  /** Workers leave only when told to. */
  lemma {:induction false} WorkersStayUntilStopped(s: Queue, steps: seq<Step>)
    requires !s.stopping && (forall i | 0 <= i < |s.workers| :: !s.workers[i].Stopped?) && Stop !in steps
    ensures var t := Run(s, steps);
      !t.stopping && |t.workers| == |s.workers| && forall i | 0 <= i < |t.workers| :: !t.workers[i].Stopped?
    decreases |steps|
  {
    if steps != [] {
      WorkersStayUntilStopped(Apply(s, steps[0]), steps[1..]);
    }
  }
}
