/** Why the selections are exact, fair and optimal. */
module LoadBalancerLaws {
  import opened Common
  import opened LoadBalancer
  import opened Division
  import opened Sums

  // ------------------------------------------------------ weighted selection

  function Interval(lo: int, hi: int): (s: set<int>)
    requires lo <= hi
    ensures forall r :: r in s <==> lo <= r < hi
    ensures |s| == hi - lo
    decreases hi - lo
  {
    if lo == hi then {} else Interval(lo, hi - 1) + {hi - 1}
  }

  lemma {:induction false} SumFromFront(ws: seq<int>)
    requires ws != []
    ensures Sum(ws) == ws[0] + Sum(ws[1..])
  {
    if |ws| > 1 {
      var n := |ws| - 1;
      SumFromFront(ws[..n]);
      assert ws[..n][1..] == ws[1..][..n - 1];
    } else {
      assert ws[..0] == ws[1..];
    }
  }

  /** A draw selects index i exactly when it falls into the i-th interval. */
  lemma {:induction false} ChosenIsItsInterval(ws: seq<int>, r: int, i: nat)
    requires i < |ws| && 0 <= r < Sum(ws)
    requires forall j | 0 <= j < |ws| :: ws[j] >= 1
    ensures 0 <= Chosen(ws, r) < |ws|
    ensures Chosen(ws, r) == i <==> Sum(ws[..i]) <= r < Sum(ws[..i]) + ws[i]
  {
    SumFromFront(ws);
    if i > 0 {
      SumFromFront(ws[..i]);
      assert ws[..i][1..] == ws[1..][..i - 1];
      SumIsPositive(ws[1..][..i - 1]);
    }
    if r >= ws[0] {
      ChosenIsItsInterval(ws[1..], r - ws[0], if i > 0 then i - 1 else 0);
    }
  }

  lemma {:induction false} SumIsPositive(ws: seq<int>)
    requires forall j | 0 <= j < |ws| :: ws[j] >= 1
    ensures Sum(ws) >= 0
  {
    SumAtLeastLength(ws);
  }

  lemma {:induction false} PrefixSums(ws: seq<int>, i: nat)
    requires i < |ws| && forall j | 0 <= j < |ws| :: ws[j] >= 1
    ensures 0 <= Sum(ws[..i]) && Sum(ws[..i]) + ws[i] <= Sum(ws)
    decreases |ws| - i
  {
    SumIsPositive(ws[..i]);
    assert ws[..i + 1][..i] == ws[..i];
    if i + 1 < |ws| {
      PrefixSums(ws, i + 1);
    } else {
      assert ws[..i + 1] == ws;
    }
  }

  /** The draws that select index i. */
  function Draws(ws: seq<int>, i: int): set<int> {
    set r | 0 <= r < Sum(ws) && Chosen(ws, r) == i
  }

  lemma DrawsAreAnInterval(ws: seq<int>, i: nat)
    requires i < |ws| && forall j | 0 <= j < |ws| :: ws[j] >= 1
    ensures |Draws(ws, i)| == ws[i]
  {
    var lo := Sum(ws[..i]);
    PrefixSums(ws, i);
    var interval := Interval(lo, lo + ws[i]);
    forall r
      ensures r in Draws(ws, i) <==> r in interval
    {
      if 0 <= r < Sum(ws) {
        ChosenIsItsInterval(ws, r, i);
      }
    }
    assert Draws(ws, i) == interval;
  }

  /** Weighted selection is exact: of all draws below the total weight, exactly
      the effective weight of account i select it, and every account has some. */
  lemma WeightedSelectionIsExact(us: seq<Account>, stats: map<Id, AccountStats>, i: nat)
    requires i < |us|
    ensures Weights(us, stats)[i] >= 1
    ensures |Draws(Weights(us, stats), i)| == Weights(us, stats)[i]
  {
    DrawsAreAnInterval(Weights(us, stats), i);
  }

  // ------------------------------------------------------------- round robin

  /** How often m picks in a row, from a shared index of `start`, out of n accounts
      give j. */
  function Picks(start: nat, m: nat, n: nat, j: int): nat
    requires n > 0
  {
    if m == 0 then 0 else Picks(start, m - 1, n, j) + if RoundRobinPick(start + m - 1, n) == j then 1 else 0
  }

  lemma {:induction false} PicksSplit(start: nat, a: nat, b: nat, n: nat, j: int)
    requires n > 0
    ensures Picks(start, a + b, n, j) == Picks(start, a, n, j) + Picks(start + a, b, n, j)
  {
    if b > 0 {
      PicksSplit(start, a, b - 1, n, j);
      assert start + (a + b) == (start + a) + b;
    }
  }

  /** Fewer picks than accounts from the start of a round: each at most once. */
  lemma {:induction false} PartialRound(n: nat, m: nat, j: int)
    requires 0 < n && m <= n && 0 <= j < n
    ensures Picks(0, m, n, j) == if (1 <= j <= m) || (j == 0 && m == n) then 1 else 0
  {
    if m > 0 {
      PartialRound(n, m - 1, j);
      if m < n {
        DivModOf(m, 0, n, m);
      } else {
        DivModOf(m, 1, n, 0);
      }
    }
  }

  lemma OneRoundMore(a: int, n: int)
    requires n > 0
    ensures (a + n) % n == a % n && (a + n) / n == a / n + 1
  {
    DivModOf(a + n, a / n + 1, n, a % n);
  }

  /** Any n picks in a row choose every account once. */
  lemma {:induction false} FullRound(start: nat, n: nat, j: int)
    requires 0 < n && 0 <= j < n
    ensures Picks(start, n, n, j) == 1
  {
    if start == 0 {
      PartialRound(n, n, j);
    } else {
      FullRound(start - 1, n, j);
      PicksSplit(start - 1, 1, n, n, j);
      PicksSplit(start - 1, n, 1, n, j);
      OneRoundMore(start, n);
      assert Picks(start - 1, 1, n, j) == (if start % n == j then 1 else 0) by {
        assert Picks(start - 1, 0, n, j) == 0;
      }
      assert Picks(start - 1 + n, 1, n, j) == (if (start + n) % n == j then 1 else 0) by {
        assert Picks(start - 1 + n, 0, n, j) == 0;
      }
    }
  }

  lemma {:induction false} PicksGrow(start: nat, m: nat, k: nat, n: nat, j: int)
    requires n > 0 && m <= k
    ensures Picks(start, m, n, j) <= Picks(start, k, n, j)
  {
    PicksSplit(start, m, k - m, n, j);
  }

  /** `q` rounds, that is `m` picks, choose every account `q` times. */
  lemma {:induction false} FullRounds(start: nat, q: nat, m: nat, n: nat, j: int)
    requires 0 < n && 0 <= j < n && m == q * n
    ensures Picks(start, m, n, j) == q
  {
    if q > 0 {
      assert m - n == (q - 1) * n;
      MulMono(0, q - 1, n);
      FullRounds(start, q - 1, m - n, n, j);
      PicksSplit(start, m - n, n, n, j);
      FullRound(start + (m - n), n, j);
    }
  }

  lemma RoundsAndRest(start: nat, q: nat, whole: nat, r: nat, n: nat, j: int)
    requires 0 < n && 0 <= j < n && whole == q * n && r < n
    ensures q <= Picks(start, whole + r, n, j) <= q + 1
    ensures r == 0 ==> Picks(start, whole + r, n, j) == q
  {
    FullRounds(start, q, whole, n, j);
    PicksSplit(start, whole, r, n, j);
    PicksGrow(start + whole, r, n, n, j);
    FullRound(start + whole, n, j);
  }

  /** Round robin is fair from any position of the shared index: m picks in a row
      give every account q or q + 1 of them, where q is m / n, and exactly q when
      n divides m. */
  lemma RoundRobinIsFair(start: nat, m: nat, n: nat, j: int)
    requires 0 < n && 0 <= j < n
    ensures m / n <= Picks(start, m, n, j) <= m / n + 1
    ensures m % n == 0 ==> Picks(start, m, n, j) == m / n
  {
    RoundsAndRest(start, m / n, m - m % n, m % n, n, j);
  }

  /** A provider's first pick is its second account, if it has one. */
  lemma RoundRobinStartsAtTheSecond(provider: string, n: int)
    requires n > 0
    ensures RoundRobinPick(IndexOf(map[], provider), n) == if n > 1 then 1 else 0
  {
  }

  // ------------------------------------------- which accounts can be selected

  /** The random strategy gives each of the n lowest draws to a different account,
      and equal shares to all accounts over any whole number of rounds. */
  lemma RandomIsUniform(us: seq<Account>, stats: map<Id, AccountStats>, index: int, entropy: nat, now: int, k: int)
    requires us != [] && entropy < |us|
    ensures IsPick(Random, us, stats, index, entropy, now, k) <==> k == entropy
    ensures IsPick(Random, us, stats, index, entropy + |us|, now, k) <==> IsPick(Random, us, stats, index, entropy, now, k)
  {
    OneRoundMore(entropy, |us|);
  }

  /** Filtering works on each account by itself and keeps the order. */
  lemma {:induction false} UsableConcat(a: seq<Account>, b: seq<Account>, cooldown: int, now: int)
    ensures Usable(a + b, cooldown, now) == Usable(a, cooldown, now) + Usable(b, cooldown, now)
  {
    if b == [] {
      assert a + b == a;
    } else {
      var n := |b| - 1;
      assert (a + b)[..|a + b| - 1] == a + b[..n];
      UsableConcat(a, b[..n], cooldown, now);
    }
  }

  lemma {:induction false} NoneUsable(accounts: seq<Account>, cooldown: int, now: int)
    requires forall a | a in accounts :: !IsUsable(a, cooldown, now)
    ensures Usable(accounts, cooldown, now) == []
  {
    if accounts != [] {
      NoneUsable(accounts[..|accounts| - 1], cooldown, now);
    }
  }

  /** The default strategies take the first usable account of the list. */
  lemma PriorityPicksFirstUsable(strategy: Strategy, before: seq<Account>, a: Account, after: seq<Account>, cooldown: int,
                                 stats: map<Id, AccountStats>, index: int, entropy: nat, now: int, k: int)
    requires strategy in {Priority, UnknownStrategy}
    requires IsUsable(a, cooldown, now) && forall b | b in before :: !IsUsable(b, cooldown, now)
    ensures var us := Usable(before + [a] + after, cooldown, now);
      us != [] && (IsPick(strategy, us, stats, index, entropy, now, k) <==> k == 0) && us[0] == a
  {
    UsableConcat(before + [a], after, cooldown, now);
    UsableConcat(before, [a], cooldown, now);
    assert [a][..0] == [];
    assert Usable([a], cooldown, now) == [a];
    NoneUsable(before, cooldown, now);
  }

  /** When an account can be selected: never while its status, its monthly limit or
      five errors forbid it, and otherwise from `cooldown` after its last error
      on. */
  lemma UsableAgainExactly(a: Account, cooldown: int)
    ensures (exists now :: IsUsable(a, cooldown, now)) <==>
            && a.status in {Active, Limited} && a.errorCount <= 4
            && (a.monthlyLimit == None || a.usedThisMonth < a.monthlyLimit.value)
    ensures forall now, once | IsUsable(a, cooldown, once) ::
            IsUsable(a, cooldown, now) <==> a.lastErrorAt == None || now >= a.lastErrorAt.value + cooldown
  {
    if a.status in {Active, Limited} && a.errorCount <= 4 && (a.monthlyLimit == None || a.usedThisMonth < a.monthlyLimit.value) {
      assert IsUsable(a, cooldown, if a.lastErrorAt.Some? then a.lastErrorAt.value + cooldown else 0);
    }
  }

  // ------------------------------------------------------- scores and weights

  /** An account's usage as a fraction, without division. */
  predicate UsedMoreThan(a: Account, share: int, of: int) {
    a.monthlyLimit.Some? && a.monthlyLimit.value > 0 && of * a.usedThisMonth > share * a.monthlyLimit.value
  }

  lemma RatioCompares(a: int, b: int, share: int, of: int)
    requires b > 0 && of > 0
    ensures a as real / b as real > share as real / of as real <==> of * a > share * b
  {
    var x, y := a as real / b as real, share as real / of as real;
    assert x * b as real == a as real && y * of as real == share as real;
    assert x > y <==> x * (b as real * of as real) > y * (b as real * of as real);
    assert x * (b as real * of as real) == (of * a) as real;
    assert y * (b as real * of as real) == (share * b) as real;
  }

  /** The health score in whole numbers: ten points per error, thirty or ten for
      more than four fifths or half of the monthly limit, twenty for an error in
      the last 300 seconds, and twenty or ten for a success rate of `won` in
      `total` below a half or four fifths; never below zero. */
  lemma HealthScoreInIntegers(a: Account, s: AccountStats, now: int, won: nat, total: int)
    requires total > 0 && s.successRate == Finite(won as real / total as real)
    requires a.monthlyLimit.Some? ==> a.monthlyLimit.value >= 0
    ensures var points := 10 * a.errorCount
        + (if UsedMoreThan(a, 4, 5) then 30 else if UsedMoreThan(a, 1, 2) then 10 else 0)
        + (if a.lastErrorAt.Some? && now < a.lastErrorAt.value + 300 then 20 else 0)
        + (if 2 * won < total then 20 else if 5 * won < 4 * total then 10 else 0);
      HealthScoreOf(a, s, now) == if points <= 100 then 100 - points else 0
  {
    if a.monthlyLimit.Some? && a.monthlyLimit.value > 0 {
      RatioCompares(a.usedThisMonth, a.monthlyLimit.value, 4, 5);
      RatioCompares(a.usedThisMonth, a.monthlyLimit.value, 1, 2);
    }
    RatioBelow(won, total, 1, 2);
    RatioBelow(won, total, 4, 5);
  }

  lemma RatioBelow(a: int, b: int, share: int, of: int)
    requires b > 0 && of > 0
    ensures a as real / b as real < share as real / of as real <==> of * a < share * b
  {
    var x, y := a as real / b as real, share as real / of as real;
    assert x * b as real == a as real && y * of as real == share as real;
    assert x < y <==> x * (b as real * of as real) < y * (b as real * of as real);
    assert x * (b as real * of as real) == (of * a) as real;
    assert y * (b as real * of as real) == (share * b) as real;
  }

  function AtMost(x: real, bound: real): real { if x < bound then x else bound }

  /** What the composite score falls short of 1 by: lost health, latency up to five
      seconds, lost success, up to a hundred connections, and use of the limit, at
      30, 25, 25, 15 and 5 percent. A fresh account without a limit scores 1. */
  lemma AdaptiveScoreLosses(a: Account, s: AccountStats)
    requires s.successRate.Finite?
    ensures var used := if UsageRate(a).Some? then UsageRate(a).value else 0.0;
      AdaptiveScoreOf(a, s) == Finite(1.0
        - 0.003 * (100 - s.healthScore) as real
        - 0.00005 * AtMost(s.avgLatencyMs, 5000.0)
        - 0.25 * (1.0 - s.successRate.value)
        - 0.0015 * AtMost(s.activeConns as real, 100.0)
        - 0.05 * AtMost(used, 1.0))
    ensures a.monthlyLimit == None ==> AdaptiveScoreOf(a, NEW_STATS) == Finite(1.0)
    ensures UsageRate(a).Some? <==> a.monthlyLimit.Some? && a.monthlyLimit.value != 0
    ensures UsageRate(a).Some? ==> UsageRate(a).value * a.monthlyLimit.value as real == a.usedThisMonth as real
  {
  }

  /** The weight that counts: the configured one, at least one, scaled by health
      and rounded down, but at least one. An account without health keeps its
      weight. */
  lemma EffectiveWeight(s: AccountStats)
    ensures var base, w := Max(1, s.weight), WeightOf(s);
      && (s.healthScore <= 0 ==> w == base)
      && (s.healthScore > 0 && base * s.healthScore < 200 ==> w == 1)
      && (s.healthScore > 0 && base * s.healthScore >= 100 ==> 100 * w <= base * s.healthScore < 100 * w + 100)
      && (s.healthScore == 100 ==> w == base)
  {
    if s.healthScore > 0 {
      MulMono(1, Max(1, s.weight), s.healthScore);
      var p := Max(1, s.weight) * s.healthScore;
      DivMod(p, 100);
    }
  }

  // ---------------------------------------------------- statistics in traces

  datatype Event = Start | Success(latencyMs: nat) | Failure | End | SetWeight(weight: int) | Reset

  function Starts(h: seq<Event>): nat {
    if h == [] then 0 else Starts(h[..|h| - 1]) + if h[|h| - 1].Start? then 1 else 0
  }

  function Outcomes(h: seq<Event>): nat {
    if h == [] then 0 else Outcomes(h[..|h| - 1]) + if h[|h| - 1].Success? || h[|h| - 1].Failure? then 1 else 0
  }

  function Ends(h: seq<Event>): nat {
    if h == [] then 0 else Ends(h[..|h| - 1]) + if h[|h| - 1].End? then 1 else 0
  }

  /** Every outcome and every end belongs to a request that started before it. */
  predicate Matched(h: seq<Event>) {
    h == [] || (Matched(h[..|h| - 1]) && Outcomes(h) <= Starts(h) && Ends(h) <= Starts(h))
  }

  /** Every request that started has reported its outcome and ended. */
  predicate Quiet(h: seq<Event>) {
    Outcomes(h) == Starts(h) == Ends(h)
  }

  /** The last reset of the statistics, if any, came when no request was open. */
  predicate LastResetQuiet(h: seq<Event>) {
    h != [] ==> if h[|h| - 1].Reset? then Quiet(h[..|h| - 1]) else LastResetQuiet(h[..|h| - 1])
  }

  function Update(s: AccountStats, e: Event): AccountStats {
    match e
    case Start => Started(s)
    case Success(latencyMs) => Succeeded(s, latencyMs)
    case Failure => Failed(s)
    case End => Ended(s)
    case SetWeight(w) => s.(weight := w)
    case Reset => NEW_STATS
  }

  function StatsAfter(h: seq<Event>): AccountStats {
    if h == [] then NEW_STATS else Update(StatsAfter(h[..|h| - 1]), h[|h| - 1])
  }

  predicate InUnit(q: Quotient) {
    q.Finite? && 0.0 <= q.value <= 1.0
  }

  predicate InRange(s: AccountStats) {
    && s.activeConns >= 0
    && 0 <= s.successCount <= s.totalRequests
    && s.totalLatency >= 0
    && s.avgLatencyMs >= 0.0
    && 0 <= s.healthScore <= 100
    && InUnit(s.successRate)
  }

  lemma RatioInRange(a: int, b: int)
    requires 0 <= a && 0 < b
    ensures a as real / b as real >= 0.0
    ensures a <= b ==> a as real / b as real <= 1.0
  {
  }

  /** Over every matched trace whose last reset was quiet, ActiveConns is the
      number of open requests, the requests without an outcome are those the
      counters have not seen, and all statistics stay in range. */
  lemma {:induction false} StatisticsStayInRange(h: seq<Event>)
    requires Matched(h) && LastResetQuiet(h)
    ensures var s := StatsAfter(h);
      && InRange(s)
      && s.activeConns == Starts(h) - Ends(h)
      && s.failureCount >= 0
      && s.totalRequests - (s.successCount + s.failureCount) == Starts(h) - Outcomes(h)
  {
    if h != [] && !h[|h| - 1].Reset? {
      var before := h[..|h| - 1];
      StatisticsStayInRange(before);
      var s := StatsAfter(before);
      match h[|h| - 1]
      case Success(latencyMs) =>
        RatioInRange(s.successCount + 1, s.totalRequests);
        RatioInRange(s.totalLatency + latencyMs, s.totalRequests);
      case Failure =>
        RatioInRange(s.successCount, s.totalRequests);
      case _ =>
    }
  }

  // ----------------------------------------------- what the counters count

  /** The part of a trace after its last reset. */
  function SinceReset(h: seq<Event>): (r: seq<Event>)
    ensures |r| <= |h|
  {
    if h == [] || h[|h| - 1].Reset? then [] else SinceReset(h[..|h| - 1]) + [h[|h| - 1]]
  }

  function Successes(h: seq<Event>): nat {
    if h == [] then 0 else Successes(h[..|h| - 1]) + if h[|h| - 1].Success? then 1 else 0
  }

  function LatencySum(h: seq<Event>): nat {
    if h == [] then 0 else LatencySum(h[..|h| - 1]) + if h[|h| - 1].Success? then h[|h| - 1].latencyMs else 0
  }

  lemma CountStep(r: seq<Event>, e: Event)
    ensures Starts(r + [e]) == Starts(r) + (if e.Start? then 1 else 0)
    ensures Ends(r + [e]) == Ends(r) + (if e.End? then 1 else 0)
    ensures Outcomes(r + [e]) == Outcomes(r) + (if e.Success? || e.Failure? then 1 else 0)
    ensures Successes(r + [e]) == Successes(r) + (if e.Success? then 1 else 0)
    ensures LatencySum(r + [e]) == LatencySum(r) + (if e.Success? then e.latencyMs else 0)
  {
    assert (r + [e])[..|r|] == r;
  }

  ghost predicate Counts(s: AccountStats, r: seq<Event>) {
    && s.totalRequests == Starts(r)
    && s.successCount == Successes(r)
    && s.successCount + s.failureCount == Outcomes(r)
    && s.totalLatency == LatencySum(r)
    && s.activeConns == Starts(r) - Ends(r)
  }

  lemma UpdateCounts(s: AccountStats, r: seq<Event>, e: Event)
    requires Counts(s, r)
    ensures Counts(Update(s, e), if e.Reset? then [] else r + [e])
  {
    CountStep(r, e);
  }

  /** In every trace the counters count what happened since the last reset. */
  lemma {:induction false} CountersCount(h: seq<Event>)
    ensures Counts(StatsAfter(h), SinceReset(h))
  {
    if h != [] {
      CountersCount(h[..|h| - 1]);
      UpdateCounts(StatsAfter(h[..|h| - 1]), SinceReset(h[..|h| - 1]), h[|h| - 1]);
    }
  }

  /** `x` is `a` divided by `b`. */
  predicate IsQuotient(x: real, a: int, b: int) { x * b as real == a as real }

  lemma QuotientTimes(a: int, b: int)
    requires b > 0
    ensures IsQuotient(a as real / b as real, a, b)
  {
  }

  /** What a success makes of the averages and the health score: the latency over
      all requests, the success rate, and a point above nine in ten. Without a
      request the rate is infinite. */
  lemma SuccessIsExplained(s: AccountStats, latencyMs: nat)
    requires s.totalRequests >= 0
    ensures var t, n, won := Update(s, Event.Success(latencyMs)), s.totalRequests, s.successCount + 1;
      if n > 0 then
        && IsQuotient(t.avgLatencyMs, s.totalLatency + latencyMs, n)
        && t.successRate.Finite? && IsQuotient(t.successRate.value, won, n)
        && t.healthScore == (if 10 * won > 9 * n then Min(100, s.healthScore + 1) else s.healthScore)
      else
        t.avgLatencyMs == s.avgLatencyMs && t.successRate == Infinite && t.healthScore == Min(100, s.healthScore + 1)
  {
    var n, won := s.totalRequests, s.successCount + 1;
    if n > 0 {
      QuotientTimes(s.totalLatency + latencyMs, n);
      QuotientTimes(won, n);
      RatioCompares(won, n, 9, 10);
    }
  }

  /** A failure updates the rate and costs five points. */
  lemma FailureIsExplained(s: AccountStats)
    ensures var t, n := Update(s, Event.Failure), s.totalRequests;
      && t.avgLatencyMs == s.avgLatencyMs && t.healthScore == Max(0, s.healthScore - 5) && t.weight == s.weight
      && if n > 0 then t.successRate.Finite? && IsQuotient(t.successRate.value, s.successCount, n)
         else t.successRate == s.successRate
  {
    if s.totalRequests > 0 {
      QuotientTimes(s.successCount, s.totalRequests);
    }
  }

  /** Nothing but a success, a failure and a reset moves averages and health; a
      reset restores the first values. */
  lemma OtherEventsKeepAverages(s: AccountStats, e: Event)
    ensures e.Start? || e.End? || e.SetWeight? ==>
      var t := Update(s, e);
      t.avgLatencyMs == s.avgLatencyMs && t.successRate == s.successRate && t.healthScore == s.healthScore
    ensures !e.Reset? ==> Update(s, e).weight == if e.SetWeight? then e.weight else s.weight
    ensures e.Reset? ==>
      var t := Update(s, e);
      t.avgLatencyMs == 0.0 && t.successRate == Finite(1.0) && t.healthScore == 100 && t.weight == 1
  {
  }

  // ------------------------------------------------- resets with open requests

  /** `more` after resetting the statistics at the end of `h`. */
  function Continued(h: seq<Event>, more: seq<Event>): seq<Event> { h + [Reset] + more }

  predicate NoReset(h: seq<Event>) {
    forall e | e in h :: !e.Reset?
  }

  lemma ContinuedStep(h: seq<Event>, more: seq<Event>)
    requires more != []
    ensures Continued(h, more)[..|Continued(h, more)| - 1] == Continued(h, more[..|more| - 1])
    ensures Continued(h, more)[|Continued(h, more)| - 1] == more[|more| - 1]
  {
  }

  lemma ContinuedStart(h: seq<Event>)
    ensures Continued(h, [])[..|h|] == h && Continued(h, [])[|h|] == Reset && |Continued(h, [])| == |h| + 1
    ensures StatsAfter(Continued(h, [])) == NEW_STATS
    ensures Starts(Continued(h, [])) == Starts(h) && Outcomes(Continued(h, [])) == Outcomes(h) && Ends(Continued(h, [])) == Ends(h)
    ensures Matched(h) ==> Matched(Continued(h, []))
  {
    assert Continued(h, [])[..|h|] == h;
  }

  /** A reset forgets exactly the requests that are open: from then on
      ActiveConns is below the number of open requests by theirs. */
  lemma {:induction false} ResetMiscountsOpenRequests(h: seq<Event>, more: seq<Event>)
    requires NoReset(more)
    ensures var all := Continued(h, more);
      StatsAfter(all).activeConns == (Starts(all) - Ends(all)) - (Starts(h) - Ends(h))
  {
    if more == [] {
      ContinuedStart(h);
    } else {
      ContinuedStep(h, more);
      ResetMiscountsOpenRequests(h, more[..|more| - 1]);
    }
  }

  lemma {:induction false} QuietResetStaysLast(h: seq<Event>, more: seq<Event>)
    requires Quiet(h) && NoReset(more)
    ensures LastResetQuiet(Continued(h, more))
  {
    if more == [] {
      ContinuedStart(h);
    } else {
      ContinuedStep(h, more);
      QuietResetStaysLast(h, more[..|more| - 1]);
    }
  }

  ghost predicate StaysInRange(h: seq<Event>) {
    forall more | NoReset(more) && Matched(Continued(h, more)) :: InRange(StatsAfter(Continued(h, more)))
  }

  /** Resetting is safe if and only if no request is open, neither its end nor
      its outcome: then every continuation stays in range. Otherwise some
      continuation does not, with a negative connection count or an infinite
      success rate. */
  lemma ResetIsSafeExactly(h: seq<Event>)
    requires Matched(h)
    ensures StaysInRange(h) <==> Quiet(h)
  {
    if Quiet(h) {
      forall more | NoReset(more) && Matched(Continued(h, more))
        ensures InRange(StatsAfter(Continued(h, more)))
      {
        QuietResetStaysLast(h, more);
        StatisticsStayInRange(Continued(h, more));
      }
    } else {
      var more := if Ends(h) < Starts(h) then [End] else [Event.Success(0)];
      ContinuedStart(h);
      ContinuedStep(h, more);
      MatchedCounts(h);
      assert more[..|more| - 1] == [];
      assert Matched(Continued(h, more)) && !InRange(StatsAfter(Continued(h, more)));
    }
  }

  lemma MatchedCounts(h: seq<Event>)
    requires Matched(h)
    ensures Outcomes(h) <= Starts(h) && Ends(h) <= Starts(h)
  {
  }

  /** The first success after a reset that no start follows stores an infinite
      success rate, which raises the composite score above every finite one. */
  lemma SuccessAfterResetIsInfinite(was: AccountStats, latencyMs: nat, a: Account, b: Account, t: AccountStats)
    requires t.successRate.Finite?
    ensures var s := Update(Update(was, Reset), Event.Success(latencyMs));
      && s.successRate == Infinite
      && AdaptiveScoreOf(b, t).Below(AdaptiveScoreOf(a, s))
  {
  }

  /** One request that was open at a reset makes an account report -1
      connections, and of two accounts the scan then takes the other one, however
      busy it is. */
  lemma ResetMisleadsLeastConnections(us: seq<Account>, stats: map<Id, AccountStats>, k: int)
    requires |us| == 2 && StatsOf(stats, us[0].id).activeConns == -1 && StatsOf(stats, us[1].id).activeConns >= 0
    requires IsMinScan(Connections(us, stats), k)
    ensures k == 1 && Connections(us, stats)[0] < Connections(us, stats)[k]
  {
    assert IsFirstMin(Connections(us, stats), 0);
  }

  // ------------------------------------------------------- optimal selection

  lemma LoadInRange(a: Account, cooldown: int, now: int)
    requires IsUsable(a, cooldown, now) && a.usedThisMonth >= 0
    ensures UsageRate(a).Some? ==> 0.0 <= UsageRate(a).value < 1.0
  {
    if UsageRate(a).Some? {
      RatioInRange(a.usedThisMonth, a.monthlyLimit.value);
    }
  }

  /** The composite score of a usable account lies between 0 and 1. */
  lemma AdaptiveScoreInRange(a: Account, s: AccountStats, cooldown: int, now: int)
    requires IsUsable(a, cooldown, now) && a.usedThisMonth >= 0 && InRange(s)
    ensures InUnit(AdaptiveScoreOf(a, s))
  {
    LoadInRange(a, cooldown, now);
  }

  /** An account that is at least as good in health, latency, success rate,
      connections and load never scores lower, and more health, a higher success
      rate or fewer than 100 connections instead of more score strictly higher. */
  lemma AdaptiveScoreIsMonotone(a: Account, s: AccountStats, b: Account, t: AccountStats)
    requires s.healthScore >= t.healthScore && s.avgLatencyMs <= t.avgLatencyMs && !s.successRate.Below(t.successRate)
    requires s.activeConns <= t.activeConns
    requires UsageRate(b) == None ==> UsageRate(a) == None || UsageRate(a).value <= 0.0
    requires UsageRate(a).Some? && UsageRate(b).Some? ==> UsageRate(a).value <= UsageRate(b).value
    requires UsageRate(a) == None && UsageRate(b).Some? ==> UsageRate(b).value >= 0.0
    ensures !AdaptiveScoreOf(a, s).Below(AdaptiveScoreOf(b, t))
    ensures t.successRate.Finite? &&
            (s.healthScore > t.healthScore || t.successRate.Below(s.successRate) || s.activeConns < Min(t.activeConns, 100))
            ==> AdaptiveScoreOf(b, t).Below(AdaptiveScoreOf(a, s))
  {
  }

  ghost predicate StatsInRange(us: seq<Account>, stats: map<Id, AccountStats>) {
    forall i | 0 <= i < |us| :: InRange(StatsOf(stats, us[i].id))
  }

  /** With statistics from matched traces, each scan returns the first optimum of
      its measure among the usable accounts: the start value -1 of the scans is
      never mistaken for a measurement. */
  lemma ScansAreOptimal(strategy: Strategy, accounts: seq<Account>, cooldown: int, stats: map<Id, AccountStats>,
                        index: int, entropy: nat, now: int, k: int)
    requires var us := Usable(accounts, cooldown, now);
      StatsInRange(us, stats) && IsPick(strategy, us, stats, index, entropy, now, k)
    requires forall a | a in accounts :: a.usedThisMonth >= 0
    ensures var us := Usable(accounts, cooldown, now);
      && us[k] in accounts && IsUsable(us[k], cooldown, now)
      && (strategy == LeastConnections ==> IsFirstMin(Connections(us, stats), k))
      && (strategy == LeastResponseTime && !SomeUnused(us, stats) ==> IsFirstMin(Latencies(us, stats), k))
      && (strategy == HealthScore ==> IsFirstMax(HealthScores(us, stats, now), k))
      && (strategy == Adaptive ==> IsFirstMax(AdaptiveScores(us, stats), k))
  {
    var us := Usable(accounts, cooldown, now);
    assert us[k] in us;
    if strategy == Adaptive {
      assert us[0] in us;
      AdaptiveScoreInRange(us[0], StatsOf(stats, us[0].id), cooldown, now);
      assert Finite(-1.0).Below(AdaptiveScores(us, stats)[0]);
    }
  }
}
