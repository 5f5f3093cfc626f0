/** The circuit breaker that guards a provider. */
module Circuit {
  import opened Common

  datatype Settings = Settings(resetTimeout: int, failureThreshold: int, successThreshold: int, halfOpenMaxRequests: int)

  datatype State = Closed | Open | HalfOpen

  datatype Verdict = Admitted | CircuitOpen | TooManyRequests

  /** `lastFail` is None until the first failure (Go's zero time, ages ago). */
  datatype Breaker = Breaker(state: State, failures: int, successes: int, halfOpenReq: int, lastFail: Option<int>)

  const NEW := Breaker(Closed, 0, 0, 0, None)

  predicate TimedOut(s: Settings, lastFail: Option<int>, now: int) {
    lastFail.Some? ==> now - lastFail.value > s.resetTimeout
  }

  function Allow(s: Settings, b: Breaker, now: int): (Breaker, Verdict) {
    match b.state
    case Closed => (b, Admitted)
    case Open =>
      if TimedOut(s, b.lastFail, now) then (b.(state := HalfOpen, failures := 0, successes := 0, halfOpenReq := 0), Admitted)
      else (b, CircuitOpen)
    case HalfOpen =>
      if b.halfOpenReq >= s.halfOpenMaxRequests then (b, TooManyRequests)
      else (b.(halfOpenReq := b.halfOpenReq + 1), Admitted)
  }

  function Succeed(s: Settings, b: Breaker): Breaker {
    if b.state == HalfOpen then
      var closes := b.successes + 1 >= s.successThreshold;
      Breaker(if closes then Closed else HalfOpen, 0, b.successes + 1, if closes then 0 else b.halfOpenReq, b.lastFail)
    else b.(failures := 0)
  }

  function Fail(s: Settings, b: Breaker, now: int): Breaker {
    match b.state
    case Closed =>
      Breaker(if b.failures + 1 >= s.failureThreshold then Open else Closed, b.failures + 1, 0, b.halfOpenReq, Some(now))
    case HalfOpen => Breaker(Open, b.failures, 0, 0, Some(now))
    case Open => b.(successes := 0, lastFail := Some(now))
  }

  function Reset(b: Breaker): Breaker { Breaker(Closed, 0, 0, 0, b.lastFail) }

  // ------------------------------------------------------------- the breaker

  class CircuitBreaker {
    const settings: Settings
    var state: State
    var failures: int
    var successes: int
    var halfOpenReq: int
    var lastFailTime: Option<int>

    function Value(): Breaker
      reads this
    {
      Breaker(state, failures, successes, halfOpenReq, lastFailTime)
    }

    constructor (settings: Settings)
      ensures Value() == NEW && this.settings == settings
    {
      this.settings := settings;
      state, failures, successes, halfOpenReq, lastFailTime := Closed, 0, 0, 0, None;
    }

    method AllowRequest(now: int) returns (v: Verdict)
      modifies this
      ensures (Value(), v) == Allow(settings, old(Value()), now)
    {
      match state {
        case Closed =>
          return Admitted;
        case Open =>
          if lastFailTime == None || now - lastFailTime.value > settings.resetTimeout {
            state := HalfOpen;
            successes := 0;
            failures := 0;
            halfOpenReq := 0;
            return Admitted;
          }
          return CircuitOpen;
        case HalfOpen =>
          if halfOpenReq >= settings.halfOpenMaxRequests {
            return TooManyRequests;
          }
          halfOpenReq := halfOpenReq + 1;
          return Admitted;
      }
    }

    method RecordSuccess()
      modifies this
      ensures Value() == Succeed(settings, old(Value()))
    {
      failures := 0;
      if state == HalfOpen {
        successes := successes + 1;
        if successes >= settings.successThreshold {
          state := Closed;
          halfOpenReq := 0;
        }
      }
    }

    method RecordFailure(now: int)
      modifies this
      ensures Value() == Fail(settings, old(Value()), now)
    {
      successes := 0;
      lastFailTime := Some(now);
      match state {
        case Closed =>
          failures := failures + 1;
          if failures >= settings.failureThreshold {
            state := Open;
          }
        case HalfOpen =>
          state := Open;
          halfOpenReq := 0;
        case Open =>
      }
    }

    method ResetBreaker()
      modifies this
      ensures Value() == Reset(old(Value()))
    {
      state := Closed;
      failures := 0;
      successes := 0;
      halfOpenReq := 0;
    }
  }

  // --------------------------------------------------------------- histories

  datatype Event = Call(now: int) | Success | Failure(now: int) | Restart

  function Step(s: Settings, b: Breaker, e: Event): Breaker {
    match e
    case Call(now) => Allow(s, b, now).0
    case Success => Succeed(s, b)
    case Failure(now) => Fail(s, b, now)
    case Restart => Reset(b)
  }

  function After(s: Settings, h: seq<Event>): Breaker {
    if h == [] then NEW else Step(s, After(s, h[..|h| - 1]), h[|h| - 1])
  }

  predicate AdmittedBy(s: Settings, b: Breaker, e: Event) {
    e.Call? && Allow(s, b, e.now).1 == Admitted
  }

  /** Failures reported since the last success or reset, calls aside. */
  function TrailingFailures(h: seq<Event>): nat {
    if h == [] then 0
    else match h[|h| - 1]
      case Call(_) => TrailingFailures(h[..|h| - 1])
      case Failure(_) => TrailingFailures(h[..|h| - 1]) + 1
      case _ => 0
  }

  function LastFailure(h: seq<Event>): Option<int> {
    if h == [] then None
    else if h[|h| - 1].Failure? then Some(h[|h| - 1].now)
    else LastFailure(h[..|h| - 1])
  }

  /** Calls admitted since the breaker last became half-open. */
  function EpisodeCalls(s: Settings, h: seq<Event>): nat {
    if h == [] then 0
    else
      var before := After(s, h[..|h| - 1]);
      var now := if AdmittedBy(s, before, h[|h| - 1]) then 1 else 0;
      if before.state == HalfOpen then EpisodeCalls(s, h[..|h| - 1]) + now else now
  }

  /** The counters of every reachable breaker are explained by its history. */
  lemma {:induction false} CountersAreExplained(s: Settings, h: seq<Event>)
    ensures var b := After(s, h);
      && b.lastFail == LastFailure(h)
      && (b.state == Closed ==> b.failures == TrailingFailures(h) < Max(1, s.failureThreshold))
      && (b.state == Open ==> LastFailure(h).Some?)
      && (b.state == HalfOpen ==>
            && EpisodeCalls(s, h) == b.halfOpenReq + 1
            && 0 <= b.halfOpenReq <= Max(0, s.halfOpenMaxRequests))
  {
    if h != [] {
      CountersAreExplained(s, h[..|h| - 1]);
    }
  }

  /** A closed breaker opens exactly on the failure that completes a run of
      FailureThreshold failures, and nothing else opens it. */
  lemma OpensExactlyOnTheThreshold(s: Settings, h: seq<Event>, e: Event)
    requires After(s, h).state == Closed
    ensures After(s, h + [e]).state != Closed <==> e.Failure? && TrailingFailures(h + [e]) == Max(1, s.failureThreshold)
    ensures After(s, h + [e]).state != HalfOpen
  {
    CountersAreExplained(s, h);
    assert (h + [e])[..|h|] == h;
  }

  /** Successes since the breaker last became half-open. */
  function EpisodeSuccesses(s: Settings, h: seq<Event>): nat {
    if h == [] || After(s, h[..|h| - 1]).state != HalfOpen then 0
    else EpisodeSuccesses(s, h[..|h| - 1]) + if h[|h| - 1].Success? then 1 else 0
  }

  lemma {:induction false} SuccessesAreExplained(s: Settings, h: seq<Event>)
    ensures After(s, h).state == HalfOpen ==> After(s, h).successes == EpisodeSuccesses(s, h) < Max(1, s.successThreshold)
  {
    if h != [] {
      SuccessesAreExplained(s, h[..|h| - 1]);
    }
  }

  /** A half-open breaker opens exactly on a failure and closes exactly on the
      success that completes SuccessThreshold of them, or on a reset. */
  lemma HalfOpenLeavesExactly(s: Settings, h: seq<Event>, e: Event)
    requires After(s, h).state == HalfOpen
    ensures After(s, h + [e]).state == Open <==> e.Failure?
    ensures After(s, h + [e]).state == Closed <==>
            e.Restart? || (e.Success? && EpisodeSuccesses(s, h) + 1 == Max(1, s.successThreshold))
  {
    SuccessesAreExplained(s, h);
    assert (h + [e])[..|h|] == h;
  }

  /** After a failed probe calls wait for the whole timeout again. */
  lemma FailedProbeWaits(s: Settings, h: seq<Event>, now: int, t: int)
    requires After(s, h).state == HalfOpen
    ensures Allow(s, After(s, h + [Event.Failure(now)]), t).1 == (if t - now > s.resetTimeout then Admitted else CircuitOpen)
  {
    assert (h + [Event.Failure(now)])[..|h|] == h;
  }

  /** An open breaker changes its state exactly on a call more than ResetTimeout
      after the last failure, to half-open, or on a reset, to closed. */
  lemma OpenLeavesExactly(s: Settings, h: seq<Event>, e: Event)
    requires After(s, h).state == Open
    ensures LastFailure(h).Some?
    ensures After(s, h + [e]).state == HalfOpen <==> e.Call? && e.now - LastFailure(h).value > s.resetTimeout
    ensures After(s, h + [e]).state == Closed <==> e.Restart?
  {
    CountersAreExplained(s, h);
    assert (h + [e])[..|h|] == h;
  }

  /** What a call is answered, from the history alone. */
  lemma VerdictsAreExplained(s: Settings, h: seq<Event>, now: int)
    ensures var b := After(s, h);
      var v := Allow(s, b, now).1;
      match b.state
      case Closed => v == Admitted && Allow(s, b, now).0 == b
      case Open => LastFailure(h).Some? && v == if now - LastFailure(h).value > s.resetTimeout then Admitted else CircuitOpen
      case HalfOpen => v == if EpisodeCalls(s, h) <= s.halfOpenMaxRequests then Admitted else TooManyRequests
  {
    CountersAreExplained(s, h);
  }

  predicate TimesAscend(h: seq<Event>, now: int) {
    && (forall i | 0 <= i < |h| && h[i].Failure? :: h[i].now <= now)
    && (forall i, j | 0 <= i < j < |h| && h[i].Failure? && h[j].Failure? :: h[i].now <= h[j].now)
  }

  lemma {:induction false} LastFailureIsLatest(h: seq<Event>, i: nat)
    requires i < |h| && h[i].Failure?
    requires forall i, j | 0 <= i < j < |h| && h[i].Failure? && h[j].Failure? :: h[i].now <= h[j].now
    ensures LastFailure(h).Some? && h[i].now <= LastFailure(h).value
  {
    if !h[|h| - 1].Failure? {
      LastFailureIsLatest(h[..|h| - 1], i);
    }
  }

  /** An open breaker admits a call exactly when more than ResetTimeout has
      passed since every failure in its history, late ones included. */
  lemma OpenWaitsForEveryFailure(s: Settings, h: seq<Event>, now: int)
    requires After(s, h).state == Open && TimesAscend(h, now)
    ensures Allow(s, After(s, h), now).1 == Admitted <==>
            forall i | 0 <= i < |h| && h[i].Failure? :: now - h[i].now > s.resetTimeout
    ensures Allow(s, After(s, h), now).1 == Admitted <==> Allow(s, After(s, h), now).0.state == HalfOpen
  {
    CountersAreExplained(s, h);
    FindLastFailure(h);
    forall i | 0 <= i < |h| && h[i].Failure?
      ensures h[i].now <= LastFailure(h).value
    {
      LastFailureIsLatest(h, i);
    }
  }

  lemma {:induction false} FindLastFailure(h: seq<Event>)
    ensures LastFailure(h).Some? ==> exists i | 0 <= i < |h| :: h[i] == Event.Failure(LastFailure(h).value)
  {
    if h != [] && !h[|h| - 1].Failure? {
      FindLastFailure(h[..|h| - 1]);
      if LastFailure(h).Some? {
        var i :| 0 <= i < |h| - 1 && h[..|h| - 1][i] == Event.Failure(LastFailure(h).value);
        assert h[i] == Event.Failure(LastFailure(h).value);
      }
    } else if h != [] {
      assert h[|h| - 1] == Event.Failure(LastFailure(h).value);
    }
  }

  // ------------------------------------------------------ half-open episodes

  /** What happens in an episode when only its own probes report, successfully. */
  datatype Probe = Ask(now: int) | Report

  /** Just after the call that turned the breaker half-open was admitted. */
  function Entered(lastFail: Option<int>): Breaker { Breaker(HalfOpen, 0, 0, 0, lastFail) }

  function Episode(s: Settings, lastFail: Option<int>, ps: seq<Probe>): Breaker {
    if ps == [] then Entered(lastFail)
    else
      var before := Episode(s, lastFail, ps[..|ps| - 1]);
      match ps[|ps| - 1]
      case Ask(now) => Allow(s, before, now).0
      case Report => Succeed(s, before)
  }

  function Reports(ps: seq<Probe>): nat {
    if ps == [] then 0 else Reports(ps[..|ps| - 1]) + if ps[|ps| - 1].Report? then 1 else 0
  }

  /** Calls admitted in the episode, with the one that opened it. */
  function Probes(s: Settings, lastFail: Option<int>, ps: seq<Probe>): nat {
    if ps == [] then 1
    else
      var last, before := ps[|ps| - 1], ps[..|ps| - 1];
      Probes(s, lastFail, before) + if last.Ask? && Allow(s, Episode(s, lastFail, before), last.now).1 == Admitted then 1 else 0
  }

  /** No more reports than admitted probes, at any time. */
  predicate OwnReportsOnly(s: Settings, lastFail: Option<int>, ps: seq<Probe>) {
    ps == [] || (OwnReportsOnly(s, lastFail, ps[..|ps| - 1]) && Reports(ps) <= Probes(s, lastFail, ps[..|ps| - 1]))
  }

  function Budget(s: Settings): nat { Max(0, s.halfOpenMaxRequests) + 1 }

  /** The breaker closes with the SuccessThreshold-th report, never before, and
      no half-open episode admits more than its budget of calls. */
  lemma {:induction false} EpisodeClosesOnReports(s: Settings, lastFail: Option<int>, ps: seq<Probe>)
    ensures var b := Episode(s, lastFail, ps);
      && b.state != Open
      && (b.state == Closed <==> Reports(ps) >= Max(1, s.successThreshold))
      && (b.state == HalfOpen ==> b.successes == Reports(ps) && b.halfOpenReq + 1 == Probes(s, lastFail, ps) <= Budget(s))
  {
    if ps != [] {
      EpisodeClosesOnReports(s, lastFail, ps[..|ps| - 1]);
    }
  }

  predicate Recoverable(s: Settings) { s.successThreshold <= Budget(s) }

  /** With a threshold above the budget, an episode never closes: it admits no
      call beyond its budget and stays half-open whatever is asked later. */
  lemma {:induction false} UnrecoverableEpisodesNeverClose(s: Settings, lastFail: Option<int>, ps: seq<Probe>)
    requires !Recoverable(s) && OwnReportsOnly(s, lastFail, ps)
    ensures Episode(s, lastFail, ps).state == HalfOpen && Reports(ps) <= Probes(s, lastFail, ps) <= Budget(s)
  {
    EpisodeClosesOnReports(s, lastFail, ps);
    if ps != [] {
      UnrecoverableEpisodesNeverClose(s, lastFail, ps[..|ps| - 1]);
    }
  }

  /** Once an unrecoverable episode has spent its budget, every call is refused,
      at any time and after any further reports of its probes. */
  lemma RefusedForever(s: Settings, lastFail: Option<int>, ps: seq<Probe>, more: seq<Probe>, now: int)
    requires !Recoverable(s) && OwnReportsOnly(s, lastFail, ps + more)
    requires Probes(s, lastFail, ps) == Budget(s)
    ensures Allow(s, Episode(s, lastFail, ps + more), now).1 == TooManyRequests
  {
    UnrecoverableEpisodesNeverClose(s, lastFail, ps + more);
    EpisodeClosesOnReports(s, lastFail, ps + more);
    ProbesOnlyGrow(s, lastFail, ps, more);
  }

  lemma {:induction false} ProbesOnlyGrow(s: Settings, lastFail: Option<int>, ps: seq<Probe>, more: seq<Probe>)
    ensures Probes(s, lastFail, ps) <= Probes(s, lastFail, ps + more)
  {
    if more == [] {
      assert ps + more == ps;
    } else {
      assert (ps + more)[..|ps + more| - 1] == ps + more[..|more| - 1];
      ProbesOnlyGrow(s, lastFail, ps, more[..|more| - 1]);
    }
  }

  /** `asks` calls followed by `reports` successes. */
  function FullEpisode(asks: nat, reports: nat): seq<Probe> {
    if reports > 0 then FullEpisode(asks, reports - 1) + [Report]
    else if asks > 0 then FullEpisode(asks - 1, 0) + [Ask(0)]
    else []
  }

  lemma {:induction false} FullEpisodeReports(s: Settings, lastFail: Option<int>, asks: nat, reports: nat)
    requires asks <= Max(0, s.halfOpenMaxRequests) && reports <= asks + 1
    ensures var ps := FullEpisode(asks, reports);
      Reports(ps) == reports && Probes(s, lastFail, ps) == asks + 1 && OwnReportsOnly(s, lastFail, ps)
    decreases asks, reports
  {
    if reports > 0 {
      FullEpisodeReports(s, lastFail, asks, reports - 1);
      OneMore(s, lastFail, FullEpisode(asks, reports - 1), Report);
    } else if asks > 0 {
      var before := FullEpisode(asks - 1, 0);
      FullEpisodeReports(s, lastFail, asks - 1, 0);
      EpisodeClosesOnReports(s, lastFail, before);
      OneMore(s, lastFail, before, Ask(0));
    }
  }

  lemma OneMore(s: Settings, lastFail: Option<int>, ps: seq<Probe>, p: Probe)
    ensures var admitted := p.Ask? && Allow(s, Episode(s, lastFail, ps), p.now).1 == Admitted;
      && Reports(ps + [p]) == Reports(ps) + (if p.Report? then 1 else 0)
      && Probes(s, lastFail, ps + [p]) == Probes(s, lastFail, ps) + (if admitted then 1 else 0)
      && (OwnReportsOnly(s, lastFail, ps + [p]) <==>
            OwnReportsOnly(s, lastFail, ps) && Reports(ps + [p]) <= Probes(s, lastFail, ps))
  {
    assert (ps + [p])[..|ps|] == ps;
  }

  /** An episode can close from its own probes if and only if SuccessThreshold is
      at most HalfOpenMaxRequests + 1. */
  lemma RecoversExactlyWithinBudget(s: Settings, lastFail: Option<int>)
    ensures Recoverable(s) <==> exists ps :: OwnReportsOnly(s, lastFail, ps) && Episode(s, lastFail, ps).state == Closed
  {
    if Recoverable(s) {
      var ps := FullEpisode(Budget(s) - 1, Budget(s));
      FullEpisodeReports(s, lastFail, Budget(s) - 1, Budget(s));
      EpisodeClosesOnReports(s, lastFail, ps);
    } else {
      forall ps | OwnReportsOnly(s, lastFail, ps)
        ensures Episode(s, lastFail, ps).state != Closed
      {
        UnrecoverableEpisodesNeverClose(s, lastFail, ps);
      }
    }
  }
}
