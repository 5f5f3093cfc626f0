/** The Redis counters behind rate limiting and automatic IP blocking. Each Lua
    script is one atomic step at a given time. */
module RateLimit {
  import opened Common

  datatype Key =
    | RateKey(name: string)
    | IpRate(ip: string)
    | AuthFail(ip: string)
    | RateViolation(ip: string)
    | Blocked(ip: string)

  /** A counter and the time it disappears, if one is set. */
  datatype Entry = Entry(count: int, expireAt: Option<int>)

  predicate Live(e: Option<Entry>, now: int) {
    e.Some? && (e.value.expireAt.Some? ==> now < e.value.expireAt.value)
  }

  /** INCR, then EXPIRE if that made the counter 1. */
  function Hit(e: Option<Entry>, window: int, now: int): Entry {
    var incremented := if Live(e, now) then e.value.(count := e.value.count + 1) else Entry(1, None);
    if incremented.count == 1 then incremented.(expireAt := Some(now + window)) else incremented
  }

  function Lookup(keys: map<Key, Entry>, k: Key): Option<Entry> {
    if k in keys then Some(keys[k]) else None
  }

  /** The blocking script: one hit, and at the threshold the counter is traded
      for a block. */
  function Strike(keys: map<Key, Entry>, counter: Key, blocked: Key, window: int, threshold: int, duration: int, now: int)
    : (map<Key, Entry>, bool)
  {
    var e := Hit(Lookup(keys, counter), window, now);
    if e.count >= threshold then (keys[blocked := Entry(1, Some(now + duration))] - {counter}, true)
    else (keys[counter := e], false)
  }

  /** Blacklisted for ever, or blocked for now. */
  predicate IsBlocked(keys: map<Key, Entry>, blacklist: set<string>, ip: string, now: int) {
    ip in blacklist || Live(Lookup(keys, Blocked(ip)), now)
  }

  // ------------------------------------------------------------- the service

  class RedisCounters {
    const blacklist: set<string>
    var keys: map<Key, Entry>

    method IncrementWithExpiry(k: Key, window: int, now: int) returns (current: int)
      modifies this
      ensures keys == old(keys)[k := Hit(Lookup(old(keys), k), window, now)]
      ensures current == keys[k].count
    {
      if k in keys && (keys[k].expireAt.Some? ==> now < keys[k].expireAt.value) {
        current := keys[k].count + 1;
        keys := keys[k := keys[k].(count := current)];
      } else {
        current := 1;
        keys := keys[k := Entry(current, None)];
      }
      if current == 1 {
        keys := keys[k := keys[k].(expireAt := Some(now + window))];
      }
    }

    method CheckDistributedLimit(name: string, limit: int, windowSeconds: int, now: int) returns (ok: bool)
      modifies this
      ensures keys == old(keys)[RateKey(name) := Hit(Lookup(old(keys), RateKey(name)), windowSeconds, now)]
      ensures ok <==> keys[RateKey(name)].count <= limit
    {
      var result := IncrementWithExpiry(RateKey(name), windowSeconds, now);
      ok := !(result > limit);
    }

    method CheckDistributedIPLimit(ip: string, limit: int, now: int) returns (ok: bool)
      modifies this
      ensures keys == old(keys)[IpRate(ip) := Hit(Lookup(old(keys), IpRate(ip)), 1, now)]
      ensures ok <==> keys[IpRate(ip)].count <= limit
    {
      var result := IncrementWithExpiry(IpRate(ip), 1, now);
      ok := !(result > limit);
    }

    method StrikeScript(counter: Key, blocked: Key, windowS: int, threshold: int, blockDurationS: int, now: int) returns (wasBlocked: bool)
      requires counter != blocked
      modifies this
      ensures (keys, wasBlocked) == Strike(old(keys), counter, blocked, windowS, threshold, blockDurationS, now)
    {
      var current := IncrementWithExpiry(counter, windowS, now);
      if current >= threshold {
        keys := keys[blocked := Entry(1, Some(now + blockDurationS))];
        keys := keys - {counter};
        assert keys == Strike(old(keys), counter, blocked, windowS, threshold, blockDurationS, now).0;
        return true;
      }
      wasBlocked := false;
    }

    method RecordAuthFailure(ip: string, windowS: int, maxAttempts: int, blockDurationS: int, now: int) returns (wasBlocked: bool)
      modifies this
      ensures (keys, wasBlocked) == Strike(old(keys), AuthFail(ip), Blocked(ip), windowS, maxAttempts, blockDurationS, now)
    {
      wasBlocked := StrikeScript(AuthFail(ip), Blocked(ip), windowS, maxAttempts, blockDurationS, now);
    }

    method RecordRateViolation(ip: string, windowS: int, maxViolations: int, blockDurationS: int, now: int) returns (wasBlocked: bool)
      modifies this
      ensures (keys, wasBlocked) == Strike(old(keys), RateViolation(ip), Blocked(ip), windowS, maxViolations, blockDurationS, now)
    {
      wasBlocked := StrikeScript(RateViolation(ip), Blocked(ip), windowS, maxViolations, blockDurationS, now);
    }

    method CheckBlocked(ip: string, now: int) returns (blocked: bool)
      ensures blocked <==> IsBlocked(keys, blacklist, ip, now)
    {
      if ip in blacklist {
        return true;
      }
      var k := Blocked(ip);
      blocked := k in keys && (keys[k].expireAt.Some? ==> now < keys[k].expireAt.value);
    }
  }

  // ------------------------------------------------------------------ traces

  /** The counter after hits at the given times. */
  function CounterAfter(window: int, times: seq<int>): Option<Entry> {
    if times == [] then None
    else Some(Hit(CounterAfter(window, times[..|times| - 1]), window, times[|times| - 1]))
  }

  predicate Ascending(times: seq<int>) {
    forall i, j | 0 <= i < j < |times| :: times[i] <= times[j]
  }

  /** Hits with time in [from, from + window) whose count was within `limit`. */
  function AdmittedIn(limit: int, window: int, times: seq<int>, from: int): nat {
    if times == [] then 0
    else
      var last := times[|times| - 1];
      var counts := from <= last < from + window && CounterAfter(window, times).value.count <= limit;
      AdmittedIn(limit, window, times[..|times| - 1], from) + if counts then 1 else 0
  }

  /** What the interval [from, from + window) can have admitted, given where the
      current window starts and how many hits it has seen. */
  function Allowance(limit: nat, window: int, from: int, start: int, count: int): int {
    if start < from then Min(count, limit) - 1
    else if start < from + window then limit - 1 + Min(count, limit)
    else 2 * limit - 1
  }

  ghost predicate IntervalInv(limit: nat, window: int, times: seq<int>, from: int) {
    times != [] ==>
      var e := CounterAfter(window, times).value;
      var last, admitted := times[|times| - 1], AdmittedIn(limit, window, times, from);
      && e.count >= 1 && e.expireAt.Some?
      && e.expireAt.value - window <= last < e.expireAt.value
      && (last < from ==> admitted == 0)
      && admitted <= Allowance(limit, window, from, e.expireAt.value - window, e.count)
  }

  lemma {:induction false} IntervalInvHolds(limit: nat, window: int, times: seq<int>, from: int)
    requires limit >= 1 && window > 0 && Ascending(times)
    ensures IntervalInv(limit, window, times, from)
  {
    if times != [] {
      IntervalInvHolds(limit, window, times[..|times| - 1], from);
    }
  }

  /** Any interval of one window length, aligned with the windows or not, admits
      at most 2 * limit - 1 hits. */
  lemma AnyIntervalIsBounded(limit: int, window: int, times: seq<int>, from: int)
    requires window > 0 && Ascending(times)
    ensures AdmittedIn(limit, window, times, from) <= Max(0, 2 * limit - 1)
  {
    if limit >= 1 {
      IntervalInvHolds(limit, window, times, from);
    } else {
      NothingWithoutLimit(limit, window, times, from);
    }
  }

  lemma {:induction false} NothingWithoutLimit(limit: int, window: int, times: seq<int>, from: int)
    requires limit <= 0 && window > 0 && Ascending(times)
    ensures AdmittedIn(limit, window, times, from) == 0
  {
    if times != [] {
      IntervalInvHolds(1, window, times, from);
      NothingWithoutLimit(limit, window, times[..|times| - 1], from);
    }
  }

  /** The current window has admitted exactly its hits up to the limit. */
  lemma {:induction false} EachWindowAdmitsUpToLimit(limit: nat, window: int, times: seq<int>, from: int)
    requires window > 0 && Ascending(times) && times != []
    requires CounterAfter(window, times).value.expireAt == Some(from + window)
    ensures AdmittedIn(limit, window, times, from) == Min(CounterAfter(window, times).value.count, limit)
  {
    var n := |times| - 1;
    var before := times[..n];
    IntervalInvHolds(1, window, times, from);
    if before != [] {
      IntervalInvHolds(1, window, before, from);
      var e := CounterAfter(window, before);
      if Live(e, times[n]) {
        EachWindowAdmitsUpToLimit(limit, window, before, from);
      } else {
        NothingBefore(limit, window, before, from);
      }
    }
  }

  lemma {:induction false} NothingBefore(limit: int, window: int, times: seq<int>, from: int)
    requires Ascending(times) && (times != [] ==> times[|times| - 1] < from)
    ensures AdmittedIn(limit, window, times, from) == 0
  {
    if times != [] {
      NothingBefore(limit, window, times[..|times| - 1], from);
    }
  }

  // ----------------------------------------------------- the bound is reached

  function Times(t: int, n: nat): (ts: seq<int>)
    ensures |ts| == n && forall i | 0 <= i < n :: ts[i] == t
  {
    seq(n, _ => t)
  }

  lemma AppendHit(limit: int, window: int, times: seq<int>, from: int, t: int)
    ensures CounterAfter(window, times + [t]) == Some(Hit(CounterAfter(window, times), window, t))
    ensures AdmittedIn(limit, window, times + [t], from) == AdmittedIn(limit, window, times, from) +
            if from <= t < from + window && Hit(CounterAfter(window, times), window, t).count <= limit then 1 else 0
  {
    assert (times + [t])[..|times|] == times;
  }

  /** `n` more hits at one time in a live window with `c` hits. */
  lemma {:induction false} RepeatedHits(limit: int, window: int, times: seq<int>, from: int, t: int, c: nat, ends: int, n: nat)
    requires CounterAfter(window, times) == Some(Entry(c, Some(ends)))
    requires c >= 1 && c + n <= limit && from <= t < from + window && t < ends
    ensures CounterAfter(window, times + Times(t, n)) == Some(Entry(c + n, Some(ends)))
    ensures AdmittedIn(limit, window, times + Times(t, n), from) == AdmittedIn(limit, window, times, from) + n
    decreases n
  {
    if n == 0 {
      assert times + Times(t, n) == times;
    } else {
      AppendHit(limit, window, times, from, t);
      RepeatedHits(limit, window, times + [t], from, t, c + 1, ends, n - 1);
      assert times + [t] + Times(t, n - 1) == times + Times(t, n);
    }
  }

  /** One hit opens a window, the rest of the limit comes at its end, and a full
      limit follows at the start of the next window. */
  function Burst(limit: nat, window: int): seq<int>
    requires limit >= 1
  {
    [0] + Times(window - 1, limit - 1) + [window] + Times(window, limit - 1)
  }

  lemma FirstHit(limit: int, window: int, times: seq<int>, from: int)
    requires |times| == 1 && times[0] < from
    ensures CounterAfter(window, times) == Some(Entry(1, Some(times[0] + window)))
    ensures AdmittedIn(limit, window, times, from) == 0
  {
    assert times[..0] == [];
  }

  lemma FirstWindowFills(limit: nat, window: int, first: seq<int>)
    requires limit >= 1 && window >= 2 && first == [0]
    ensures CounterAfter(window, first + Times(window - 1, limit - 1)) == Some(Entry(limit, Some(window)))
    ensures AdmittedIn(limit, window, first + Times(window - 1, limit - 1), 1) == limit - 1
  {
    FirstHit(limit, window, first, 1);
    RepeatedHits(limit, window, first, 1, window - 1, 1, window, limit - 1);
  }

  lemma BoundIsReached(limit: nat, window: int)
    requires limit >= 1 && window >= 2
    ensures AdmittedIn(limit, window, Burst(limit, window), 1) == 2 * limit - 1
  {
    var filled := [0] + Times(window - 1, limit - 1);
    FirstWindowFills(limit, window, [0]);
    AppendHit(limit, window, filled, 1, window);
    RepeatedHits(limit, window, filled + [window], 1, window, 1, 2 * window, limit - 1);
  }

  // -------------------------------------------------------- blocking scripts

  /** Whether the script has ever answered "blocked" for hits at these times. */
  predicate EverBlocked(threshold: int, window: int, times: seq<int>) {
    times != [] &&
    (EverBlocked(threshold, window, times[..|times| - 1]) || CounterAfter(window, times).value.count >= threshold)
  }

  function HitsIn(window: int, times: seq<int>, from: int): nat {
    if times == [] then 0
    else
      var last := times[|times| - 1];
      HitsIn(window, times[..|times| - 1], from) + if from <= last < from + window then 1 else 0
  }

  /** The counter key over a run of failures of one IP, as the script keeps it. */
  function StrikesAfter(keys: map<Key, Entry>, counter: Key, blocked: Key, window: int, threshold: int, duration: int, times: seq<int>)
    : map<Key, Entry>
  {
    if times == [] then keys
    else Strike(StrikesAfter(keys, counter, blocked, window, threshold, duration, times[..|times| - 1]),
                counter, blocked, window, threshold, duration, times[|times| - 1]).0
  }

  /** Until the first block, the script's counter is the plain counter. */
  lemma {:induction false} ScriptCountsUntilBlocked(keys: map<Key, Entry>, counter: Key, blocked: Key,
                                                    window: int, threshold: int, duration: int, times: seq<int>)
    requires counter != blocked && counter !in keys && !EverBlocked(threshold, window, times)
    ensures var after := StrikesAfter(keys, counter, blocked, window, threshold, duration, times);
      Lookup(after, counter) == CounterAfter(window, times) && Lookup(after, blocked) == Lookup(keys, blocked)
  {
    if times != [] {
      ScriptCountsUntilBlocked(keys, counter, blocked, window, threshold, duration, times[..|times| - 1]);
    }
  }

  /** While the script has not blocked yet, its answer to the next failure is
      "blocked" exactly if that failure makes the plain counter reach the
      threshold. */
  lemma ScriptBlocksExactly(keys: map<Key, Entry>, counter: Key, blocked: Key,
                            window: int, threshold: int, duration: int, times: seq<int>)
    requires counter != blocked && counter !in keys && times != []
    requires !EverBlocked(threshold, window, times[..|times| - 1])
    ensures var n := |times| - 1;
      Strike(StrikesAfter(keys, counter, blocked, window, threshold, duration, times[..n]),
             counter, blocked, window, threshold, duration, times[n]).1 <==>
      CounterAfter(window, times).value.count >= threshold
  {
    ScriptCountsUntilBlocked(keys, counter, blocked, window, threshold, duration, times[..|times| - 1]);
  }

  lemma {:induction false} UnblockedHitsAreAdmitted(threshold: int, window: int, times: seq<int>, from: int)
    requires !EverBlocked(threshold, window, times)
    ensures HitsIn(window, times, from) == AdmittedIn(threshold - 1, window, times, from)
  {
    if times != [] {
      UnblockedHitsAreAdmitted(threshold, window, times[..|times| - 1], from);
    }
  }

  /** An IP that is never blocked and never reset has at most 2 * max - 3
      failures in any interval of one window length. */
  lemma UnblockedIpIsSlow(maxAttempts: int, window: int, times: seq<int>, from: int)
    requires window > 0 && Ascending(times) && !EverBlocked(maxAttempts, window, times)
    ensures HitsIn(window, times, from) <= Max(0, 2 * (maxAttempts - 1) - 1)
  {
    UnblockedHitsAreAdmitted(maxAttempts, window, times, from);
    AnyIntervalIsBounded(maxAttempts - 1, window, times, from);
  }

  /** Failures packed into one window are counted one by one, so the first block
      comes exactly with failure number `threshold`. */
  lemma {:induction false} PackedFailuresBlock(threshold: int, window: int, times: seq<int>)
    requires Ascending(times) && times != [] && times[|times| - 1] < times[0] + window
    ensures CounterAfter(window, times) == Some(Entry(|times|, Some(times[0] + window)))
    ensures EverBlocked(threshold, window, times) <==> |times| >= threshold
  {
    var n := |times| - 1;
    if n > 0 {
      PackedFailuresBlock(threshold, window, times[..n]);
    } else {
      assert CounterAfter(window, times[..n]) == None;
    }
  }

  /** Failures of an IP packed into one window, for blocks that last at least as
      long: the IP is refused from failure number max(1, threshold) on, and after
      none of the earlier ones. */
  lemma {:induction false} PackedFailuresAreRefused(keys: map<Key, Entry>, ip: string, counter: Key,
                                                    window: int, threshold: int, duration: int, times: seq<int>)
    requires counter in {AuthFail(ip), RateViolation(ip)} && counter !in keys && Blocked(ip) !in keys
    requires 0 < window <= duration && Ascending(times) && times != [] && times[|times| - 1] < times[0] + window
    ensures var after := StrikesAfter(keys, counter, Blocked(ip), window, threshold, duration, times);
      && (|times| < Max(1, threshold) ==> Blocked(ip) !in after)
      && (|times| >= Max(1, threshold) ==> Blocked(ip) in after && after[Blocked(ip)].expireAt.Some?
                                           && after[Blocked(ip)].expireAt.value >= times[0] + duration)
      && (IsBlocked(after, {}, ip, times[|times| - 1]) <==> |times| >= Max(1, threshold))
  {
    var n := |times| - 1;
    PackedFailuresBlock(threshold, window, times);
    if n > 0 {
      PackedFailuresAreRefused(keys, ip, counter, window, threshold, duration, times[..n]);
      PackedFailuresBlock(threshold, window, times[..n]);
    }
    if n < Max(1, threshold) {
      ScriptCountsUntilBlocked(keys, counter, Blocked(ip), window, threshold, duration, times[..n]);
      ScriptBlocksExactly(keys, counter, Blocked(ip), window, threshold, duration, times);
    }
  }

  /** A block trades the counter for a block key that lasts the whole duration
      and touches nothing else: the IP is refused exactly until it runs out, or
      for ever if it is blacklisted, and no other IP is. */
  lemma BlockingEffects(keys: map<Key, Entry>, blacklist: set<string>, ip: string, counter: Key,
                        window: int, threshold: int, duration: int, now: int, other: Key)
    requires counter in {AuthFail(ip), RateViolation(ip)}
    requires Strike(keys, counter, Blocked(ip), window, threshold, duration, now).1
    ensures var after := Strike(keys, counter, Blocked(ip), window, threshold, duration, now).0;
      && Lookup(after, counter) == None
      && (forall t :: IsBlocked(after, blacklist, ip, t) <==> ip in blacklist || t < now + duration)
      && (forall ip', t | ip' != ip :: IsBlocked(after, blacklist, ip', t) <==> IsBlocked(keys, blacklist, ip', t))
      && (other != counter && other != Blocked(ip) ==> Lookup(after, other) == Lookup(keys, other))
  {
  }
}
