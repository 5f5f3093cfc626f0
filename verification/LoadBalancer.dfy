/** Account selection over mutable per-account statistics. */
module LoadBalancer {
  import opened Common
  import opened Sums

  datatype AccountStatus = Active | Limited | OtherStatus(name: string)

  datatype Account = Account(
    id: Id,
    status: AccountStatus,
    monthlyLimit: Option<Money>,
    usedThisMonth: Money,
    errorCount: int,
    lastErrorAt: Option<int>)

  /** A floating-point quotient whose divisor may be zero. */
  datatype Quotient = Finite(value: real) | Infinite
  {
    predicate Below(other: Quotient) { Finite? && (other.Infinite? || value < other.value) }
  }

  datatype AccountStats = AccountStats(
    activeConns: int,
    totalRequests: int,
    successCount: int,
    failureCount: int,
    totalLatency: int,
    avgLatencyMs: real,
    healthScore: int,
    weight: int,
    successRate: Quotient)

  datatype Strategy =
    | Priority | RoundRobin | WeightedRoundRobin | LeastConnections
    | LeastResponseTime | HealthScore | Random | Adaptive | UnknownStrategy

  const NEW_STATS := AccountStats(0, 0, 0, 0, 0, 0.0, 100, 1, Finite(1.0))

  const RECENT_ERROR_SECONDS := 300

  /** Statistics are created with default values on first use. */
  function StatsOf(stats: map<Id, AccountStats>, id: Id): AccountStats {
    if id in stats then stats[id] else NEW_STATS
  }

  ghost predicate SameStats(a: map<Id, AccountStats>, b: map<Id, AccountStats>) {
    forall id :: StatsOf(a, id) == StatsOf(b, id)
  }

  // --------------------------------------------------------------- usability

  predicate IsUsable(a: Account, cooldown: int, now: int) {
    && (a.status == Active || a.status == Limited)
    && !(a.monthlyLimit.Some? && a.usedThisMonth >= a.monthlyLimit.value)
    && a.errorCount < 5
    && !(a.lastErrorAt.Some? && now - a.lastErrorAt.value < cooldown)
  }

  /** The usable accounts, in order. */
  function Usable(accounts: seq<Account>, cooldown: int, now: int): (us: seq<Account>)
    ensures forall a :: a in us <==> a in accounts && IsUsable(a, cooldown, now)
  {
    if accounts == [] then []
    else
      var n := |accounts| - 1;
      Usable(accounts[..n], cooldown, now) + if IsUsable(accounts[n], cooldown, now) then [accounts[n]] else []
  }

  // ------------------------------------------------------------------ scores

  /** Share of the monthly limit already used, if there is one to divide by. */
  function UsageRate(a: Account): Option<real> {
    if a.monthlyLimit.Some? && a.monthlyLimit.value != 0 then Some(a.usedThisMonth as real / a.monthlyLimit.value as real) else None
  }

  function HealthScoreOf(a: Account, s: AccountStats, now: int): int {
    var rate := UsageRate(a);
    var usage := if rate.Some? && rate.value > 0.8 then 30 else if rate.Some? && rate.value > 0.5 then 10 else 0;
    var recent := if a.lastErrorAt.Some? && now - a.lastErrorAt.value < RECENT_ERROR_SECONDS then 20 else 0;
    var success := if s.successRate.Below(Finite(0.5)) then 20 else if s.successRate.Below(Finite(0.8)) then 10 else 0;
    Max(0, 100 - a.errorCount * 10 - usage - recent - success)
  }

  function Clip(x: real): real { if x < 0.0 then 0.0 else x }

  /** An infinite success rate makes the whole composite infinite. */
  function AdaptiveScoreOf(a: Account, s: AccountStats): Quotient {
    var health := s.healthScore as real / 100.0;
    var latency := Clip(1.0 - s.avgLatencyMs / 5000.0);
    var connections := Clip(1.0 - s.activeConns as real / 100.0);
    var rate := UsageRate(a);
    var load := if rate.Some? then Clip(1.0 - rate.value) else 1.0;
    if s.successRate.Infinite? then Infinite
    else Finite(health * 0.3 + latency * 0.25 + s.successRate.value * 0.25 + connections * 0.15 + load * 0.05)
  }

  function WeightOf(s: AccountStats): int {
    var base := if s.weight <= 0 then 1 else s.weight;
    if s.healthScore > 0 then Max(1, base * s.healthScore / 100) else base
  }

  function Weights(us: seq<Account>, stats: map<Id, AccountStats>): (ws: seq<int>)
    ensures |ws| == |us|
    ensures forall i | 0 <= i < |us| :: ws[i] == WeightOf(StatsOf(stats, us[i].id))
  {
    seq(|us|, i requires 0 <= i < |us| => WeightOf(StatsOf(stats, us[i].id)))
  }

  // ---------------------------------------------------------- what is chosen

  predicate IsFirstMin(xs: seq<real>, k: int) {
    && 0 <= k < |xs|
    && (forall j | 0 <= j < |xs| :: xs[k] <= xs[j])
    && (forall j | 0 <= j < k :: xs[k] < xs[j])
  }

  predicate IsFirstMax(xs: seq<Quotient>, k: int) {
    && 0 <= k < |xs|
    && (forall j | 0 <= j < |xs| :: !xs[k].Below(xs[j]))
    && (forall j | 0 <= j < k :: xs[j].Below(xs[k]))
  }

  /** The scans for a minimum keep -1 for "nothing seen yet", so a minimum of -1
      is forgotten as soon as one more element follows. */
  predicate LosesMinimum(xs: seq<real>) {
    exists m :: 0 <= m < |xs| - 1 && xs[m] == -1.0 && IsFirstMin(xs, m)
  }

  /** The rest of a scan that starts afresh after a minimum of -1 at `j`. */
  predicate RestartsAfter(xs: seq<real>, j: int, k: int) {
    && 0 <= j < k < |xs| && xs[j] == -1.0
    && IsFirstMin(xs[j + 1..], k - j - 1) && !LosesMinimum(xs[j + 1..])
  }

  /** A scan returns the first minimum, unless it loses it; then it returns the
      first minimum of what follows some -1. */
  predicate IsMinScan(xs: seq<real>, k: int) {
    && 0 <= k < |xs|
    && if LosesMinimum(xs) then exists j :: 0 <= j < k && RestartsAfter(xs, j, k) else IsFirstMin(xs, k)
  }

  lemma LostMinimumIsNotReturned(xs: seq<real>, k: int)
    requires IsMinScan(xs, k)
    ensures IsFirstMin(xs, k) <==> !LosesMinimum(xs)
  {
  }

  /** One more element in a scan for the minimum. */
  lemma MinScanStep(xs: seq<real>, k: int, x: real)
    requires IsMinScan(xs, k)
    ensures IsMinScan(xs + [x], if xs[k] == -1.0 || x < xs[k] then |xs| else k)
  {
    var ys, n := xs + [x], |xs|;
    if xs[k] == -1.0 && x >= -1.0 {
      LastIsMinusOne(xs, k);
      assert ys[n - 1] == -1.0 && ys[n - 1 + 1..] == [x];
      assert RestartsAfter(ys, n - 1, n);
      MinusOneIsLost(xs, k, x);
    } else if LosesMinimum(xs) {
      var j :| 0 <= j < k && RestartsAfter(xs, j, k);
      var m :| 0 <= m < n - 1 && xs[m] == -1.0 && IsFirstMin(xs, m);
      if x < -1.0 {
        assert IsFirstMin(ys, n);
      } else {
        assert IsFirstMin(ys, m);
        RestartGoesOn(xs, j, k, x);
      }
    } else {
      assert IsFirstMin(ys, if xs[k] == -1.0 || x < xs[k] then n else k);
    }
  }

  lemma RestartGoesOn(xs: seq<real>, j: int, k: int, x: real)
    requires RestartsAfter(xs, j, k) && xs[k] != -1.0
    ensures RestartsAfter(xs + [x], j, if x < xs[k] then |xs| else k)
  {
    var rest, i := xs[j + 1..], k - j - 1;
    assert (xs + [x])[j + 1..] == rest + [x];
    assert rest[i] == xs[k];
    assert IsFirstMin(rest + [x], if x < rest[i] then |rest| else i);
  }

  lemma LastIsMinusOne(xs: seq<real>, k: int)
    requires IsMinScan(xs, k) && xs[k] == -1.0
    ensures k == |xs| - 1
  {
    if LosesMinimum(xs) {
      var j :| 0 <= j < k && RestartsAfter(xs, j, k);
      assert xs[j + 1..][k - j - 1] == -1.0;
    }
  }

  lemma MinusOneIsLost(xs: seq<real>, k: int, x: real)
    requires IsMinScan(xs, k) && xs[k] == -1.0 && x >= -1.0
    ensures LosesMinimum(xs + [x])
  {
    if LosesMinimum(xs) {
      var m :| 0 <= m < |xs| - 1 && xs[m] == -1.0 && IsFirstMin(xs, m);
      assert IsFirstMin(xs + [x], m);
    } else {
      assert IsFirstMin(xs + [x], k);
    }
  }

  predicate SomeAboveStart(xs: seq<Quotient>) {
    exists j :: 0 <= j < |xs| && Finite(-1.0).Below(xs[j])
  }

  /** The scans for a maximum start from -1 and the first account. */
  predicate IsMaxScan(xs: seq<Quotient>, k: int) {
    && 0 <= k < |xs|
    && if SomeAboveStart(xs) then IsFirstMax(xs, k) else k == 0
  }

  /** A scan for the maximum after `xs`, with its best score so far. */
  predicate MaxScanState(xs: seq<Quotient>, k: int, best: Quotient) {
    && (xs == [] ==> k == 0)
    && (xs != [] ==> IsMaxScan(xs, k))
    && best == if SomeAboveStart(xs) && 0 <= k < |xs| then xs[k] else Finite(-1.0)
  }

  lemma MaxScanStep(xs: seq<Quotient>, k: int, best: Quotient, x: Quotient)
    requires MaxScanState(xs, k, best)
    ensures MaxScanState(xs + [x], if best.Below(x) then |xs| else k, if best.Below(x) then x else best)
  {
    var ys, n := xs + [x], |xs|;
    if SomeAboveStart(xs) {
      var j :| 0 <= j < n && Finite(-1.0).Below(xs[j]);
      assert ys[j] == xs[j];
      assert SomeAboveStart(ys);
      if best.Below(x) {
        assert forall i | 0 <= i < n :: !xs[k].Below(xs[i]) && ys[i] == xs[i];
        assert IsFirstMax(ys, n);
      } else {
        assert IsFirstMax(ys, k);
      }
    } else if best.Below(x) {
      assert ys[n] == x;
      assert IsFirstMax(ys, n);
    }
  }

  /** Scores that are never negative always have a first maximum to find. */
  lemma MaxScanOfScores(xs: seq<Quotient>, k: int, best: Quotient)
    requires MaxScanState(xs, k, best) && xs != [] && Finite(-1.0).Below(xs[0])
    ensures IsFirstMax(xs, k)
  {
  }

  function Connections(us: seq<Account>, stats: map<Id, AccountStats>): seq<real> {
    seq(|us|, i requires 0 <= i < |us| => StatsOf(stats, us[i].id).activeConns as real)
  }

  function Latencies(us: seq<Account>, stats: map<Id, AccountStats>): seq<real> {
    seq(|us|, i requires 0 <= i < |us| => StatsOf(stats, us[i].id).avgLatencyMs)
  }

  function HealthScores(us: seq<Account>, stats: map<Id, AccountStats>, now: int): seq<Quotient> {
    seq(|us|, i requires 0 <= i < |us| => Finite(HealthScoreOf(us[i], StatsOf(stats, us[i].id), now) as real))
  }

  function AdaptiveScores(us: seq<Account>, stats: map<Id, AccountStats>): seq<Quotient> {
    seq(|us|, i requires 0 <= i < |us| => AdaptiveScoreOf(us[i], StatsOf(stats, us[i].id)))
  }

  predicate Unused(us: seq<Account>, stats: map<Id, AccountStats>, i: int)
    requires 0 <= i < |us|
  {
    StatsOf(stats, us[i].id).totalRequests == 0
  }

  predicate SomeUnused(us: seq<Account>, stats: map<Id, AccountStats>) {
    exists i :: 0 <= i < |us| && Unused(us, stats, i)
  }

  /** The first account without requests; without one, the scan for the fastest. */
  predicate IsFastestScan(us: seq<Account>, stats: map<Id, AccountStats>, k: int) {
    && 0 <= k < |us|
    && if SomeUnused(us, stats)
       then Unused(us, stats, k) && forall i | 0 <= i < k :: !Unused(us, stats, i)
       else IsMinScan(Latencies(us, stats), k)
  }

  /** Index of the weight interval that a draw below the total falls into. */
  function Chosen(ws: seq<int>, r: int): int {
    if ws == [] then 0 else if r < ws[0] then 0 else 1 + Chosen(ws[1..], r - ws[0])
  }

  /** What each strategy may return from the usable accounts. */
  predicate IsPick(strategy: Strategy, us: seq<Account>, stats: map<Id, AccountStats>, index: int, entropy: nat, now: int, k: int) {
    && 0 <= k < |us|
    && match strategy
       case RoundRobin => k == RoundRobinPick(index, |us|)
       case WeightedRoundRobin => Sum(Weights(us, stats)) > 0 && k == Chosen(Weights(us, stats), entropy % Sum(Weights(us, stats)))
       case LeastConnections => IsMinScan(Connections(us, stats), k)
       case LeastResponseTime => IsFastestScan(us, stats, k)
       case HealthScore => IsFirstMax(HealthScores(us, stats, now), k)
       case Random => k == entropy % |us|
       case Adaptive => IsMaxScan(AdaptiveScores(us, stats), k)
       case _ => k == 0
  }

  /** The shared index counts picks; the one it is about to make is the next. */
  function RoundRobinPick(index: int, n: int): int
    requires n > 0
  {
    (index + 1) % n
  }

  function IndexOf(indices: map<string, int>, provider: string): int {
    if provider in indices then indices[provider] else 0
  }

  // ------------------------------------------------------------- the balancer

  class LoadBalancer {
    var strategy: Strategy
    var stats: map<Id, AccountStats>
    var roundRobinIndex: map<string, int>
    var cooldown: int

    method GetAccountStats(id: Id) returns (s: AccountStats)
      modifies this`stats
      ensures SameStats(old(stats), stats) && s == StatsOf(old(stats), id)
      ensures stats == if id in old(stats) then old(stats) else old(stats)[id := NEW_STATS]
    {
      if id !in stats {
        stats := stats[id := NEW_STATS];
      }
      s := stats[id];
    }

    /** `entropy` stands for the random source; rand.Intn(n) is `entropy % n`. */
    method SelectAccount(accounts: seq<Account>, provider: string, entropy: nat, now: int) returns (r: Option<Account>)
      modifies this`stats, this`roundRobinIndex
      ensures SameStats(old(stats), stats)
      ensures var us := Usable(accounts, cooldown, now);
        if us == [] then r == None && roundRobinIndex == old(roundRobinIndex)
        else exists k :: 0 <= k < |us| && r == Some(us[k]) && IsPick(strategy, us, old(stats), IndexOf(old(roundRobinIndex), provider), entropy, now, k)
      ensures roundRobinIndex == if strategy == RoundRobin && Usable(accounts, cooldown, now) != []
                                 then old(roundRobinIndex)[provider := IndexOf(old(roundRobinIndex), provider) + 1]
                                 else old(roundRobinIndex)
    {
      if |accounts| == 0 {
        return None;
      }
      var us := FilterUsableAccounts(accounts, now);
      if |us| == 0 {
        return None;
      }
      var k := 0;
      match strategy {
        case RoundRobin => k := SelectByRoundRobin(us, provider);
        case WeightedRoundRobin => k := SelectByWeightedRoundRobin(us, entropy);
        case LeastConnections => k := SelectByLeastConnections(us);
        case LeastResponseTime => k := SelectByLeastResponseTime(us);
        case HealthScore => k := SelectByHealthScore(us, now);
        case Random => k := if |us| == 1 then 0 else entropy % |us|;
        case Adaptive => k := SelectByAdaptive(us);
        case _ =>
      }
      assert IsPick(strategy, us, old(stats), IndexOf(old(roundRobinIndex), provider), entropy, now, k);
      r := Some(us[k]);
    }

    method FilterUsableAccounts(accounts: seq<Account>, now: int) returns (us: seq<Account>)
      ensures us == Usable(accounts, cooldown, now)
    {
      us := [];
      for i := 0 to |accounts|
        invariant us == Usable(accounts[..i], cooldown, now)
      {
        assert accounts[..i + 1][..i] == accounts[..i];
        var usable := IsAccountUsable(accounts[i], now);
        if usable {
          us := us + [accounts[i]];
        }
      }
      assert accounts[..|accounts|] == accounts;
    }

    method IsAccountUsable(a: Account, now: int) returns (usable: bool)
      ensures usable == IsUsable(a, cooldown, now)
    {
      if a.status != Active && a.status != Limited {
        return false;
      }
      if a.monthlyLimit.Some? && a.usedThisMonth >= a.monthlyLimit.value {
        return false;
      }
      if a.errorCount >= 5 {
        return false;
      }
      if a.lastErrorAt.Some? && now - a.lastErrorAt.value < cooldown {
        return false;
      }
      usable := true;
    }

    method SelectByRoundRobin(us: seq<Account>, provider: string) returns (k: int)
      requires us != []
      modifies this`roundRobinIndex
      ensures k == RoundRobinPick(IndexOf(old(roundRobinIndex), provider), |us|)
      ensures roundRobinIndex == old(roundRobinIndex)[provider := IndexOf(old(roundRobinIndex), provider) + 1]
    {
      var index := (if provider in roundRobinIndex then roundRobinIndex[provider] else 0) + 1;
      roundRobinIndex := roundRobinIndex[provider := index];
      k := index % |us|;
    }

    method SelectByWeightedRoundRobin(us: seq<Account>, entropy: nat) returns (k: int)
      requires us != []
      modifies this`stats
      ensures SameStats(old(stats), stats)
      ensures Sum(Weights(us, old(stats))) > 0
      ensures 0 <= k < |us| && k == Chosen(Weights(us, old(stats)), entropy % Sum(Weights(us, old(stats))))
    {
      var weights, totalWeight := CollectWeights(us);
      SumAtLeastLength(weights);
      k := DrawByWeight(weights, entropy % totalWeight);
    }

    /** The first half of the selection: effective weights and their total. */
    method CollectWeights(us: seq<Account>) returns (weights: seq<int>, totalWeight: int)
      modifies this`stats
      ensures SameStats(old(stats), stats)
      ensures weights == Weights(us, old(stats)) && totalWeight == Sum(weights)
    {
      totalWeight := 0;
      weights := [];
      for i := 0 to |us|
        invariant SameStats(old(stats), stats)
        invariant |weights| == i && totalWeight == Sum(weights)
        invariant forall j | 0 <= j < i :: weights[j] == WeightOf(StatsOf(old(stats), us[j].id))
      {
        var s := GetAccountStats(us[i].id);
        var weight := s.weight;
        if weight <= 0 {
          weight := 1;
        }
        if s.healthScore > 0 {
          weight := weight * s.healthScore / 100;
          if weight < 1 {
            weight := 1;
          }
        }
        assert (weights + [weight])[..i] == weights;
        weights := weights + [weight];
        totalWeight := totalWeight + weight;
      }
    }

    /** The second half: the loop always returns before it ends. */
    method DrawByWeight(weights: seq<int>, r: int) returns (k: int)
      requires 0 <= r < Sum(weights)
      ensures 0 <= k < |weights| && k == Chosen(weights, r)
    {
      var currentWeight := 0;
      assert weights[..|weights|] == weights;
      for i := 0 to |weights|
        invariant currentWeight == Sum(weights[..i]) <= r
        invariant Chosen(weights, r) == i + Chosen(weights[i..], r - currentWeight)
      {
        assert weights[..i + 1][..i] == weights[..i];
        assert weights[i..][1..] == weights[i + 1..];
        currentWeight := currentWeight + weights[i];
        if r < currentWeight {
          return i;
        }
      }
      assert false;
    }

    method SelectByLeastConnections(us: seq<Account>) returns (k: int)
      requires us != []
      modifies this`stats
      ensures SameStats(old(stats), stats)
      ensures IsMinScan(Connections(us, old(stats)), k)
    {
      var minConns := -1;
      k := 0;
      ghost var xs := Connections(us, stats);
      for i := 0 to |us|
        invariant SameStats(old(stats), stats)
        invariant i == 0 ==> minConns == -1
        invariant i > 0 ==> IsMinScan(xs[..i], k) && minConns as real == xs[k]
      {
        var s := GetAccountStats(us[i].id);
        assert xs[..i + 1] == xs[..i] + [xs[i]];
        if i > 0 {
          MinScanStep(xs[..i], k, xs[i]);
        }
        if minConns == -1 || s.activeConns < minConns {
          minConns := s.activeConns;
          k := i;
        }
      }
      assert xs[..|us|] == xs;
    }

    method SelectByLeastResponseTime(us: seq<Account>) returns (k: int)
      requires us != []
      modifies this`stats
      ensures SameStats(old(stats), stats)
      ensures IsFastestScan(us, old(stats), k)
    {
      var minLatency := -1.0;
      k := 0;
      ghost var xs := Latencies(us, stats);
      for i := 0 to |us|
        invariant SameStats(old(stats), stats)
        invariant forall j | 0 <= j < i :: !Unused(us, old(stats), j)
        invariant i == 0 ==> minLatency == -1.0
        invariant i > 0 ==> IsMinScan(xs[..i], k) && minLatency == xs[k]
      {
        var s := GetAccountStats(us[i].id);
        if s.totalRequests == 0 {
          assert Unused(us, old(stats), i);
          return i;
        }
        assert xs[..i + 1] == xs[..i] + [xs[i]];
        if i > 0 {
          MinScanStep(xs[..i], k, xs[i]);
        }
        if minLatency == -1.0 || s.avgLatencyMs < minLatency {
          minLatency := s.avgLatencyMs;
          k := i;
        }
      }
      assert xs[..|us|] == xs;
    }

    method SelectByHealthScore(us: seq<Account>, now: int) returns (k: int)
      requires us != []
      modifies this`stats
      ensures SameStats(old(stats), stats)
      ensures IsFirstMax(HealthScores(us, old(stats), now), k)
    {
      var maxScore := -1;
      k := 0;
      ghost var xs := HealthScores(us, stats, now);
      for i := 0 to |us|
        invariant SameStats(old(stats), stats)
        invariant MaxScanState(xs[..i], k, Finite(maxScore as real))
      {
        var s := GetAccountStats(us[i].id);
        var score := CalculateHealthScore(us[i], s, now);
        assert xs[..i + 1] == xs[..i] + [Finite(score as real)];
        MaxScanStep(xs[..i], k, Finite(maxScore as real), Finite(score as real));
        if score > maxScore {
          maxScore := score;
          k := i;
        }
      }
      assert xs[..|us|] == xs;
      MaxScanOfScores(xs, k, Finite(maxScore as real));
    }

    method CalculateHealthScore(a: Account, s: AccountStats, now: int) returns (score: int)
      ensures score == HealthScoreOf(a, s, now)
    {
      score := 100;
      score := score - a.errorCount * 10;
      if a.monthlyLimit.Some? && a.monthlyLimit.value != 0 {
        var usageRate := a.usedThisMonth as real / a.monthlyLimit.value as real;
        if usageRate > 0.8 {
          score := score - 30;
        } else if usageRate > 0.5 {
          score := score - 10;
        }
      }
      if a.lastErrorAt.Some? && now - a.lastErrorAt.value < RECENT_ERROR_SECONDS {
        score := score - 20;
      }
      if s.successRate.Below(Finite(0.5)) {
        score := score - 20;
      } else if s.successRate.Below(Finite(0.8)) {
        score := score - 10;
      }
      if score < 0 {
        score := 0;
      }
    }

    method SelectByAdaptive(us: seq<Account>) returns (k: int)
      requires us != []
      modifies this`stats
      ensures SameStats(old(stats), stats)
      ensures IsMaxScan(AdaptiveScores(us, old(stats)), k)
    {
      var bestScore := Finite(-1.0);
      k := 0;
      ghost var xs := AdaptiveScores(us, stats);
      for i := 0 to |us|
        invariant SameStats(old(stats), stats)
        invariant MaxScanState(xs[..i], k, bestScore)
      {
        var s := GetAccountStats(us[i].id);
        var score := CalculateAdaptiveScore(us[i], s);
        assert xs[..i + 1] == xs[..i] + [xs[i]];
        MaxScanStep(xs[..i], k, bestScore, xs[i]);
        if bestScore.Below(score) {
          bestScore := score;
          k := i;
        }
      }
      assert xs[..|us|] == xs;
    }

    method CalculateAdaptiveScore(a: Account, s: AccountStats) returns (composite: Quotient)
      ensures composite == AdaptiveScoreOf(a, s)
    {
      var healthScore := s.healthScore as real / 100.0;
      var latencyScore := 1.0 - s.avgLatencyMs / 5000.0;
      if latencyScore < 0.0 {
        latencyScore := 0.0;
      }
      var connScore := 1.0 - s.activeConns as real / 100.0;
      if connScore < 0.0 {
        connScore := 0.0;
      }
      var loadScore := 1.0;
      if a.monthlyLimit.Some? && a.monthlyLimit.value != 0 {
        var usageRate := a.usedThisMonth as real / a.monthlyLimit.value as real;
        loadScore := 1.0 - usageRate;
        if loadScore < 0.0 {
          loadScore := 0.0;
        }
      }
      composite := match s.successRate
        case Finite(rate) =>
          Finite(healthScore * 0.3 + latencyScore * 0.25 + rate * 0.25 + connScore * 0.15 + loadScore * 0.05)
        case Infinite => Infinite;
    }

    // ----------------------------------------------------------- statistics

    method SetAccountWeight(id: Id, weight: int)
      modifies this`stats
      ensures stats == old(stats)[id := StatsOf(old(stats), id).(weight := weight)]
    {
      var s := GetAccountStats(id);
      stats := stats[id := s.(weight := weight)];
      assert stats == old(stats)[id := s.(weight := weight)];
    }

    method ResetStats(id: Id)
      modifies this`stats
      ensures stats == old(stats)[id := NEW_STATS]
    {
      stats := stats[id := NEW_STATS];
    }

    method RecordRequestStart(id: Id)
      modifies this`stats
      ensures stats == old(stats)[id := Started(StatsOf(old(stats), id))]
    {
      var s := GetAccountStats(id);
      s := s.(activeConns := s.activeConns + 1);
      s := s.(totalRequests := s.totalRequests + 1);
      stats := stats[id := s];
      assert stats == old(stats)[id := s];
    }

    method RecordRequestSuccess(id: Id, latencyMs: int)
      modifies this`stats
      ensures stats == old(stats)[id := Succeeded(StatsOf(old(stats), id), latencyMs)]
    {
      var s := GetAccountStats(id);
      s := s.(successCount := s.successCount + 1);
      s := s.(totalLatency := s.totalLatency + latencyMs);
      var totalReq := s.totalRequests;
      if totalReq > 0 {
        s := s.(avgLatencyMs := s.totalLatency as real / totalReq as real);
      }
      s := s.(successRate := Divide(s.successCount, totalReq));
      if Finite(0.9).Below(s.successRate) {
        s := s.(healthScore := Min(100, s.healthScore + 1));
      }
      stats := stats[id := s];
      assert stats == old(stats)[id := s];
    }

    method RecordRequestFailure(id: Id)
      modifies this`stats
      ensures stats == old(stats)[id := Failed(StatsOf(old(stats), id))]
    {
      var s := GetAccountStats(id);
      s := s.(failureCount := s.failureCount + 1);
      var totalReq := s.totalRequests;
      if totalReq > 0 {
        s := s.(successRate := Divide(s.successCount, totalReq));
      }
      s := s.(healthScore := Max(0, s.healthScore - 5));
      stats := stats[id := s];
      assert stats == old(stats)[id := s];
    }

    method RecordRequestEnd(id: Id)
      modifies this`stats
      ensures stats == old(stats)[id := Ended(StatsOf(old(stats), id))]
    {
      var s := GetAccountStats(id);
      s := s.(activeConns := s.activeConns - 1);
      stats := stats[id := s];
      assert stats == old(stats)[id := s];
    }
  }

  lemma {:induction false} SumAtLeastLength(ws: seq<int>)
    requires forall i | 0 <= i < |ws| :: ws[i] >= 1
    ensures Sum(ws) >= |ws|
  {
    if ws != [] {
      SumAtLeastLength(ws[..|ws| - 1]);
    }
  }

  // ------------------------------------------------------ statistics updates

  function Started(s: AccountStats): AccountStats {
    s.(activeConns := s.activeConns + 1, totalRequests := s.totalRequests + 1)
  }

  /** Dividing a positive number by zero gives infinity; the counters never
      divide anything else by zero. */
  function Divide(a: int, b: int): Quotient {
    if b == 0 then Infinite else Finite(a as real / b as real)
  }

  function Succeeded(s: AccountStats, latencyMs: int): AccountStats {
    var rate := Divide(s.successCount + 1, s.totalRequests);
    s.(successCount := s.successCount + 1,
       totalLatency := s.totalLatency + latencyMs,
       avgLatencyMs := if s.totalRequests > 0 then (s.totalLatency + latencyMs) as real / s.totalRequests as real else s.avgLatencyMs,
       successRate := rate,
       healthScore := if Finite(0.9).Below(rate) then Min(100, s.healthScore + 1) else s.healthScore)
  }

  function Failed(s: AccountStats): AccountStats {
    s.(failureCount := s.failureCount + 1,
       successRate := if s.totalRequests > 0 then Divide(s.successCount, s.totalRequests) else s.successRate,
       healthScore := Max(0, s.healthScore - 5))
  }

  function Ended(s: AccountStats): AccountStats { s.(activeConns := s.activeConns - 1) }
}
