/**
 * The token bucket per key (packages/security/src/rate-limit.ts), over exact reals.
 * The clock is a parameter of every call.
 */
module RateLimit {
  import opened Wrappers

  datatype Rule = Rule(limit: real, intervalMs: real, burst: Option<real>) {
    function Capacity(): real {
      if burst.Some? then burst.value else limit
    }

    /** A rule that limits at all. */
    predicate Limits() {
      limit > 0.0 && intervalMs > 0.0
    }

    /** Tokens that flow in per millisecond. */
    function Rate(): real
      requires intervalMs > 0.0
    {
      limit / intervalMs
    }
  }

  datatype Bucket = Bucket(tokens: real, updatedAt: real)

  type Buckets = map<string, Bucket>

  /** `remaining` is None for the unlimited answer of a rule that is switched off. */
  datatype Decision = Decision(allowed: bool, retryAfterSeconds: int, remaining: Option<int>)

  function Ceil(x: real): int {
    -((-x).Floor)
  }

  function Refill(rule: Rule, bucket: Bucket, now: real): real
    requires rule.intervalMs > 0.0
  {
    ((now - bucket.updatedAt) / rule.intervalMs) * rule.limit
  }

  function Level(rule: Rule, bucket: Bucket, now: real): real
    requires rule.intervalMs > 0.0
  {
    var refill := Refill(rule, bucket, now);
    var tokens := bucket.tokens + if refill < 0.0 then 0.0 else refill;
    if rule.Capacity() < tokens then rule.Capacity() else tokens
  }

  function BucketOf(rule: Rule, buckets: Buckets, key: string, now: real): Bucket {
    if key in buckets then buckets[key] else Bucket(rule.Capacity(), now)
  }

  /** The tokens a check of `key` would find. */
  function LevelOf(rule: Rule, buckets: Buckets, key: string, now: real): real
    requires rule.intervalMs > 0.0
  {
    Level(rule, BucketOf(rule, buckets, key, now), now)
  }

  /** The wait for one whole token, rounded up, and at least a second. */
  function WaitSeconds(rule: Rule, tokens: real): (seconds: int)
    requires rule.limit > 0.0
    ensures seconds >= 1
  {
    var waitMs := ((1.0 - tokens) / rule.limit) * rule.intervalMs;
    var seconds := Ceil(waitMs / 1000.0);
    if seconds < 1 then 1 else seconds
  }

  function DecisionFor(rule: Rule, tokens: real): Decision
    requires rule.limit > 0.0
  {
    if tokens < 1.0 then Decision(false, WaitSeconds(rule, tokens), Some(0))
    else Decision(true, 0, Some((tokens - 1.0).Floor))
  }

  function Checked(rule: Rule, buckets: Buckets, key: string, now: real): Buckets
    requires rule.intervalMs > 0.0
  {
    var tokens := LevelOf(rule, buckets, key, now);
    buckets[key := Bucket(if tokens < 1.0 then tokens else tokens - 1.0, now)]
  }

  /** A bucket that is full again says nothing a fresh one would not say. */
  predicate Refilled(rule: Rule, bucket: Bucket, now: real)
    requires rule.intervalMs > 0.0
  {
    bucket.tokens + Refill(rule, bucket, now) >= rule.Capacity()
  }

  function Swept(rule: Rule, buckets: Buckets, now: real): (r: Buckets)
    requires rule.intervalMs > 0.0
  {
    map k | k in buckets && !Refilled(rule, buckets[k], now) :: buckets[k]
  }

  class RateLimiter {
    const rule: Rule
    var buckets: Buckets

    constructor (rule: Rule)
      ensures this.rule == rule && buckets == map[]
    {
      this.rule := rule;
      buckets := map[];
    }

    method Check(key: string, now: real) returns (decision: Decision)
      requires rule.intervalMs > 0.0
      modifies this
      ensures rule.limit <= 0.0 ==> decision == Decision(true, 0, None) && buckets == old(buckets)
      ensures rule.limit > 0.0 ==>
        && decision == DecisionFor(rule, LevelOf(rule, old(buckets), key, now))
        && buckets == Checked(rule, old(buckets), key, now)
      ensures rule.limit > 0.0 ==>
        && key in buckets && buckets[key].updatedAt == now && decision.remaining.Some?
        && (decision.allowed <==> LevelOf(rule, old(buckets), key, now) >= 1.0)
        && buckets[key].tokens == LevelOf(rule, old(buckets), key, now) - (if decision.allowed then 1.0 else 0.0)
        && (decision.allowed ==> decision.retryAfterSeconds == 0)
        && (decision.allowed ==>
              decision.remaining.value as real <= buckets[key].tokens < decision.remaining.value as real + 1.0)
        && (!decision.allowed ==> decision.retryAfterSeconds >= 1 && decision.remaining.value == 0)
        && forall k :: k != key ==> (k in buckets <==> k in old(buckets)) && (k in buckets ==> buckets[k] == old(buckets)[k])
    {
      hide Refill, WaitSeconds;
      if rule.limit <= 0.0 {
        return Decision(true, 0, None);
      }
      var bucket := if key in buckets then buckets[key] else Bucket(rule.Capacity(), now);
      var refill := Refill(rule, bucket, now);
      var tokens := bucket.tokens + if refill < 0.0 then 0.0 else refill;
      if rule.Capacity() < tokens {
        tokens := rule.Capacity();
      }
      if tokens < 1.0 {
        buckets := buckets[key := Bucket(tokens, now)];
        return Decision(false, WaitSeconds(rule, tokens), Some(0));
      }
      buckets := buckets[key := Bucket(tokens - 1.0, now)];
      decision := Decision(true, 0, Some((tokens - 1.0).Floor));
    }

    method Sweep(now: real) returns (removed: nat)
      requires rule.intervalMs > 0.0
      modifies this
      ensures buckets == Swept(rule, old(buckets), now)
      ensures removed == |old(buckets)| - |buckets|
    {
      hide Refilled;
      removed := 0;
      var copy := buckets;
      var rest := copy.Keys;
      while rest != {}
        invariant rest <= copy.Keys && buckets.Keys <= copy.Keys
        invariant forall k :: k in copy ==> (k in buckets <==> k in rest || !Refilled(rule, copy[k], now))
        invariant forall k :: k in buckets ==> buckets[k] == copy[k]
        invariant removed == |copy| - |buckets|
        decreases |rest|
      {
        var key :| key in rest;
        rest := rest - {key};
        if Refilled(rule, copy[key], now) {
          assert key in buckets;
          ghost var before := buckets;
          buckets := buckets - {key};
          OneFewer(before, key);
          removed := removed + 1;
        }
      }
      assert buckets == Swept(rule, copy, now);
    }
  }

  lemma OneFewer(buckets: Buckets, key: string)
    requires key in buckets
    ensures |buckets - {key}| == |buckets| - 1
  {
    assert (buckets - {key}).Keys == buckets.Keys - {key};
    assert |buckets.Keys| == |buckets|;
    assert |(buckets - {key}).Keys| == |buckets - {key}|;
  }

  // ----- runs ------------------------------------------------------------------------

  datatype Event = Check(key: string, now: real) | Sweep(now: real)

  /** The clock never runs backwards. */
  ghost predicate InOrder(events: seq<Event>) {
    forall m, n :: 0 <= m <= n < |events| ==> events[m].now <= events[n].now
  }

  /** The buckets before event `n`; a limiter that does not sweep ignores the sweeps. */
  function After(rule: Rule, events: seq<Event>, n: nat, sweeps: bool): Buckets
    requires rule.intervalMs > 0.0 && n <= |events|
  {
    if n == 0 then map[]
    else
      var buckets := After(rule, events, n - 1, sweeps);
      match events[n - 1]
      case Check(key, now) => Checked(rule, buckets, key, now)
      case Sweep(now) => if sweeps then Swept(rule, buckets, now) else buckets
  }

  function DecisionAt(rule: Rule, events: seq<Event>, n: nat, sweeps: bool): Decision
    requires rule.Limits() && n < |events| && events[n].Check?
  {
    DecisionFor(rule, LevelOf(rule, After(rule, events, n, sweeps), events[n].key, events[n].now))
  }

  // ----- the level over time ---------------------------------------------------------

  /** The tokens that flow in during `ms` milliseconds. */
  function Inflow(rule: Rule, ms: real): real
    requires rule.intervalMs > 0.0
  {
    ms * rule.Rate()
  }

  lemma InflowAdds(rule: Rule, a: real, b: real)
    requires rule.Limits()
    ensures Inflow(rule, a + b) == Inflow(rule, a) + Inflow(rule, b)
    ensures Inflow(rule, 0.0) == 0.0 && (a >= 0.0 ==> Inflow(rule, a) >= 0.0)
  {
  }

  lemma InflowGrows(rule: Rule, a: real, b: real)
    requires rule.Limits() && a <= b
    ensures Inflow(rule, a) <= Inflow(rule, b)
  {
    InflowAdds(rule, b - a, a);
  }

  lemma RefillIsInflow(rule: Rule, bucket: Bucket, now: real)
    requires rule.Limits()
    ensures Refill(rule, bucket, now) == Inflow(rule, now - bucket.updatedAt)
  {
    var d, i, l := now - bucket.updatedAt, rule.intervalMs, rule.limit;
    assert (d / i) * l == d * (l / i);
  }

  /** A level only grows while time passes, and no faster than the rate. */
  lemma LevelGrows(rule: Rule, bucket: Bucket, now: real, later: real)
    requires rule.Limits() && now <= later
    ensures Level(rule, bucket, now) <= Level(rule, bucket, later)
    ensures Level(rule, bucket, later) <= Level(rule, bucket, now) + Inflow(rule, later - now)
  {
    RefillIsInflow(rule, bucket, now);
    RefillIsInflow(rule, bucket, later);
    InflowAdds(rule, later - now, now - bucket.updatedAt);
    hide Refill, Inflow;
    assert later - now + (now - bucket.updatedAt) == later - bucket.updatedAt;
  }

  lemma LevelsGrow(rule: Rule, buckets: Buckets, key: string, now: real, later: real)
    requires rule.Limits() && now <= later
    ensures LevelOf(rule, buckets, key, now) <= LevelOf(rule, buckets, key, later)
    ensures LevelOf(rule, buckets, key, later) <= LevelOf(rule, buckets, key, now) + Inflow(rule, later - now)
  {
    hide Level, Inflow;
    if key in buckets {
      LevelGrows(rule, buckets[key], now, later);
    } else {
      FreshIsFull(rule, now);
      FreshIsFull(rule, later);
      InflowAdds(rule, later - now, 0.0);
    }
  }

  lemma FreshIsFull(rule: Rule, now: real)
    requires rule.Limits()
    ensures Level(rule, Bucket(rule.Capacity(), now), now) == rule.Capacity()
  {
    RefillIsInflow(rule, Bucket(rule.Capacity(), now), now);
  }

  lemma FullStaysFull(rule: Rule, buckets: Buckets, key: string, now: real, later: real)
    requires rule.Limits() && now <= later && LevelOf(rule, buckets, key, now) == rule.Capacity()
    ensures LevelOf(rule, buckets, key, later) == rule.Capacity()
  {
    LevelsGrow(rule, buckets, key, now, later);
  }

  /** A check takes one token if it is allowed, and touches no other key. */
  lemma CheckTakesOne(rule: Rule, buckets: Buckets, key: string, now: real, other: string)
    requires rule.Limits()
    ensures var level := LevelOf(rule, buckets, key, now);
            LevelOf(rule, Checked(rule, buckets, key, now), key, now) == if level < 1.0 then level else level - 1.0
    ensures other != key ==> LevelOf(rule, Checked(rule, buckets, key, now), other, now) == LevelOf(rule, buckets, other, now)
  {
    var bucket := Checked(rule, buckets, key, now)[key];
    RefillIsInflow(rule, bucket, now);
    InflowAdds(rule, 0.0, 0.0);
    assert LevelOf(rule, buckets, key, now) <= rule.Capacity();
    hide Refill, Inflow;
  }

  // ----- sweeping --------------------------------------------------------------------

  /** What the two limiters hold differs only in buckets that are full again. */
  ghost predicate SameButFull(rule: Rule, swept: Buckets, kept: Buckets, now: real)
    requires rule.intervalMs > 0.0
  {
    forall k :: (k in swept ==> k in kept && swept[k] == kept[k])
             && (k !in swept ==> LevelOf(rule, kept, k, now) == rule.Capacity())
  }

  lemma SameLevels(rule: Rule, swept: Buckets, kept: Buckets, now: real, later: real, key: string)
    requires rule.Limits() && now <= later && SameButFull(rule, swept, kept, now)
    ensures LevelOf(rule, swept, key, later) == LevelOf(rule, kept, key, later)
  {
    hide Level;
    if key !in swept {
      FullStaysFull(rule, kept, key, now, later);
      FreshIsFull(rule, later);
    }
  }

  lemma CheckKeepsSame(rule: Rule, swept: Buckets, kept: Buckets, now: real, key: string, later: real)
    requires rule.Limits() && now <= later && SameButFull(rule, swept, kept, now)
    ensures SameButFull(rule, Checked(rule, swept, key, later), Checked(rule, kept, key, later), later)
  {
    SameLevels(rule, swept, kept, now, later, key);
    var a, b := Checked(rule, swept, key, later), Checked(rule, kept, key, later);
    forall k | k !in a ensures LevelOf(rule, b, k, later) == rule.Capacity() {
      CheckTakesOne(rule, kept, key, later, k);
      FullStaysFull(rule, kept, k, now, later);
    }
    hide Level;
  }

  lemma SweepKeepsSame(rule: Rule, swept: Buckets, kept: Buckets, now: real, later: real)
    requires rule.Limits() && now <= later && SameButFull(rule, swept, kept, now)
    ensures SameButFull(rule, Swept(rule, swept, later), kept, later)
  {
    var a := Swept(rule, swept, later);
    forall k | k !in a ensures LevelOf(rule, kept, k, later) == rule.Capacity() {
      if k in swept {
        RefilledIsFull(rule, swept[k], later);
      } else {
        FullStaysFull(rule, kept, k, now, later);
      }
    }
    hide Level, Refilled;
  }

  lemma RefilledIsFull(rule: Rule, bucket: Bucket, now: real)
    requires rule.intervalMs > 0.0 && Refilled(rule, bucket, now)
    ensures Level(rule, bucket, now) == rule.Capacity()
  {
    hide Refill;
  }

  lemma {:induction false} SweepsDoNotShow(rule: Rule, events: seq<Event>, n: nat, now: real)
    requires rule.Limits() && InOrder(events) && n <= |events| && (n > 0 ==> events[n - 1].now <= now)
    ensures SameButFull(rule, After(rule, events, n, true), After(rule, events, n, false), now)
    decreases n
  {
    hide LevelOf, Checked, Swept;
    if n == 0 {
      forall k: string ensures LevelOf(rule, map[], k, now) == rule.Capacity() { EmptyIsFull(rule, k, now); }
    } else {
      var before, at := if n > 1 then events[n - 2].now else events[n - 1].now, events[n - 1].now;
      SweepsDoNotShow(rule, events, n - 1, before);
      var swept, kept := After(rule, events, n - 1, true), After(rule, events, n - 1, false);
      if events[n - 1].Check? {
        CheckKeepsSame(rule, swept, kept, before, events[n - 1].key, at);
      } else {
        SweepKeepsSame(rule, swept, kept, before, at);
      }
      LaterStillSame(rule, After(rule, events, n, true), After(rule, events, n, false), at, now);
    }
  }

  lemma EmptyIsFull(rule: Rule, key: string, now: real)
    requires rule.Limits()
    ensures LevelOf(rule, map[], key, now) == rule.Capacity()
  {
    FreshIsFull(rule, now);
  }

  lemma LaterStillSame(rule: Rule, swept: Buckets, kept: Buckets, now: real, later: real)
    requires rule.Limits() && now <= later && SameButFull(rule, swept, kept, now)
    ensures SameButFull(rule, swept, kept, later)
  {
    forall k | k !in swept ensures LevelOf(rule, kept, k, later) == rule.Capacity() {
      FullStaysFull(rule, kept, k, now, later);
    }
    hide LevelOf;
  }

  /** A limiter that sweeps at any times decides every check as one that never sweeps. */
  lemma SweepingDecidesAlike(rule: Rule, events: seq<Event>, n: nat)
    requires rule.Limits() && InOrder(events) && n < |events| && events[n].Check?
    ensures DecisionAt(rule, events, n, true) == DecisionAt(rule, events, n, false)
  {
    SweepsDoNotShow(rule, events, n, events[n].now);
    SameLevels(rule, After(rule, events, n, true), After(rule, events, n, false), events[n].now, events[n].now, events[n].key);
  }

  // ----- the window bound ------------------------------------------------------------

  /** How many checks of `key` among events `i` up to, and without, `j` are allowed. */
  function Allowed(rule: Rule, events: seq<Event>, key: string, i: nat, j: nat): nat
    requires rule.Limits() && i <= j <= |events|
    decreases j
  {
    if j == i then 0
    else
      Allowed(rule, events, key, i, j - 1) +
      if events[j - 1].Check? && events[j - 1].key == key && DecisionAt(rule, events, j - 1, true).allowed then 1 else 0
  }

  ghost predicate Sane(rule: Rule, buckets: Buckets) {
    forall k :: k in buckets ==> 0.0 <= buckets[k].tokens <= rule.Capacity()
  }

  lemma LevelInRange(rule: Rule, buckets: Buckets, key: string, now: real)
    requires rule.Limits() && rule.Capacity() >= 0.0 && Sane(rule, buckets)
    ensures 0.0 <= LevelOf(rule, buckets, key, now) <= rule.Capacity()
  {
    hide Refill;
  }

  lemma {:induction false} BucketsAreSane(rule: Rule, events: seq<Event>, n: nat)
    requires rule.Limits() && rule.Capacity() >= 0.0 && n <= |events|
    ensures Sane(rule, After(rule, events, n, false))
    decreases n
  {
    hide LevelOf;
    if n > 0 {
      BucketsAreSane(rule, events, n - 1);
      if events[n - 1].Check? {
        LevelInRange(rule, After(rule, events, n - 1, false), events[n - 1].key, events[n - 1].now);
      }
    }
  }

  /** What was allowed and what is left was there before, or has flowed in since. */
  lemma {:induction false} TokensAreConserved(rule: Rule, events: seq<Event>, key: string, i: nat, j: nat)
    requires rule.Limits() && InOrder(events) && i < j <= |events|
    ensures Allowed(rule, events, key, i, j) as real + LevelOf(rule, After(rule, events, j, false), key, events[j - 1].now)
         <= LevelOf(rule, After(rule, events, i, false), key, events[i].now) + Inflow(rule, events[j - 1].now - events[i].now)
    decreases j
  {
    hide LevelOf, Checked, Inflow, DecisionAt;
    var first, last := events[i].now, events[j - 1].now;
    EventTakes(rule, events, key, j - 1);
    if j - 1 > i {
      var previous := events[j - 2].now;
      TokensAreConserved(rule, events, key, i, j - 1);
      LevelsGrow(rule, After(rule, events, j - 1, false), key, previous, last);
      InflowAdds(rule, last - previous, previous - first);
      assert last - previous + (previous - first) == last - first;
    } else {
      InflowAdds(rule, 0.0, 0.0);
      assert Allowed(rule, events, key, i, i) == 0;
    }
  }

  /** One event takes one token of `key` if it is an allowed check of it, and none otherwise. */
  lemma EventTakes(rule: Rule, events: seq<Event>, key: string, n: nat)
    requires rule.Limits() && InOrder(events) && n < |events|
    ensures var now := events[n].now;
            LevelOf(rule, After(rule, events, n + 1, false), key, now) == LevelOf(rule, After(rule, events, n, false), key, now)
              - if events[n].Check? && events[n].key == key && DecisionAt(rule, events, n, true).allowed then 1.0 else 0.0
  {
    hide LevelOf, Checked;
    if events[n].Check? {
      CheckTakesOne(rule, After(rule, events, n, false), events[n].key, events[n].now, key);
      SweepingDecidesAlike(rule, events, n);
    }
  }

  /**
   * In any stretch of a run that spans at most `window` milliseconds a key is allowed
   * at most the capacity plus what flows in during the window.
   */
  lemma WindowIsBounded(rule: Rule, events: seq<Event>, key: string, i: nat, j: nat, window: real)
    requires rule.Limits() && rule.Capacity() >= 0.0 && InOrder(events)
    requires i < j <= |events| && events[j - 1].now - events[i].now <= window
    ensures Allowed(rule, events, key, i, j) as real <= rule.Capacity() + rule.limit * window / rule.intervalMs
  {
    InflowOver(rule, window);
    hide LevelOf, After, Inflow, Allowed;
    TokensAreConserved(rule, events, key, i, j);
    BucketsAreSane(rule, events, i);
    BucketsAreSane(rule, events, j);
    LevelInRange(rule, After(rule, events, i, false), key, events[i].now);
    LevelInRange(rule, After(rule, events, j, false), key, events[j - 1].now);
    InflowGrows(rule, events[j - 1].now - events[i].now, window);
  }

  lemma InflowOver(rule: Rule, window: real)
    requires rule.Limits()
    ensures Inflow(rule, window) == rule.limit * window / rule.intervalMs
  {
  }

  /** The level is what is left plus what has flowed in, at most the burst if one is given, else the limit. */
  lemma LevelIsCapped(rule: Rule, buckets: Buckets, key: string, now: real)
    requires rule.Limits() && key in buckets
    ensures var most := if rule.burst.Some? then rule.burst.value else rule.limit;
      var flowed := (now - buckets[key].updatedAt) * rule.limit / rule.intervalMs;
      LevelOf(rule, buckets, key, now) ==
        if buckets[key].tokens + (if flowed < 0.0 then 0.0 else flowed) > most then most
        else buckets[key].tokens + if flowed < 0.0 then 0.0 else flowed
  {
    var l, i, d := rule.limit, rule.intervalMs, now - buckets[key].updatedAt;
    assert (d / i) * l == d * l / i;
  }

  /** A sweep takes out exactly the buckets that hold the whole burst again. */
  lemma SweepTakesFullBuckets(rule: Rule, buckets: Buckets, key: string, now: real)
    requires rule.Limits() && key in buckets
    ensures var most := if rule.burst.Some? then rule.burst.value else rule.limit;
      key !in Swept(rule, buckets, now) <==>
        buckets[key].tokens + (now - buckets[key].updatedAt) * rule.limit / rule.intervalMs >= most
    ensures forall k :: k in Swept(rule, buckets, now) ==> k in buckets && Swept(rule, buckets, now)[k] == buckets[k]
  {
    var l, i, d := rule.limit, rule.intervalMs, now - buckets[key].updatedAt;
    assert (d / i) * l == d * l / i;
  }

  /** A key that has not been checked yet may use the whole burst. */
  lemma NewKeyIsFull(rule: Rule, buckets: Buckets, key: string, now: real)
    requires rule.Limits() && key !in buckets
    ensures LevelOf(rule, buckets, key, now) == if rule.burst.Some? then rule.burst.value else rule.limit
  {
    FreshIsFull(rule, now);
  }

  // ----- waiting ---------------------------------------------------------------------

  lemma CeilReaches(x: real)
    ensures Ceil(x) as real >= x
  {
  }

  /** The tokens that flow in during the wait a refusal reports make up what was missing. */
  lemma WaitSuffices(rule: Rule, tokens: real)
    requires rule.Limits() && tokens < 1.0
    ensures tokens + Inflow(rule, DecisionFor(rule, tokens).retryAfterSeconds as real * 1000.0) >= 1.0
  {
    var waitMs := ((1.0 - tokens) / rule.limit) * rule.intervalMs;
    CeilReaches(waitMs / 1000.0);
    var wait := DecisionFor(rule, tokens).retryAfterSeconds as real * 1000.0;
    assert wait >= waitMs;
    InflowGrows(rule, waitMs, wait);
    FlowsBack(rule, 1.0 - tokens);
  }

  /** The wait is not longer than it has to be: a second less would leave less than a token, unless the least wait is given. */
  lemma WaitIsShortest(rule: Rule, tokens: real)
    requires rule.Limits() && tokens < 1.0
    ensures DecisionFor(rule, tokens).retryAfterSeconds >= 1
    ensures DecisionFor(rule, tokens).retryAfterSeconds > 1 ==>
      tokens + Inflow(rule, (DecisionFor(rule, tokens).retryAfterSeconds - 1) as real * 1000.0) < 1.0
  {
    var waitMs := ((1.0 - tokens) / rule.limit) * rule.intervalMs;
    var wait := DecisionFor(rule, tokens).retryAfterSeconds;
    if wait > 1 {
      CeilIsLeast(waitMs / 1000.0);
      var shorter := (wait - 1) as real * 1000.0;
      assert shorter < waitMs;
      FlowsBack(rule, 1.0 - tokens);
      InflowIsStrict(rule, shorter, waitMs);
    }
  }

  lemma CeilIsLeast(x: real)
    ensures (Ceil(x) - 1) as real < x <= Ceil(x) as real
  {
  }

  lemma InflowIsStrict(rule: Rule, a: real, b: real)
    requires rule.Limits() && a < b
    ensures Inflow(rule, a) < Inflow(rule, b)
  {
    InflowAdds(rule, b - a, a);
    assert (b - a) * rule.Rate() > 0.0;
  }

  lemma FlowsBack(rule: Rule, missing: real)
    requires rule.Limits()
    ensures Inflow(rule, (missing / rule.limit) * rule.intervalMs) == missing
  {
    var l, i := rule.limit, rule.intervalMs;
    assert ((missing / l) * i) * (l / i) == (missing / l) * (i * (l / i));
    assert i * (l / i) == l;
  }

  lemma {:induction false} UncheckedBucketStays(rule: Rule, events: seq<Event>, key: string, i: nat, j: nat)
    requires rule.intervalMs > 0.0 && i <= j <= |events|
    requires forall n :: i <= n < j && events[n].Check? ==> events[n].key != key
    ensures var a, b := After(rule, events, i, false), After(rule, events, j, false);
            (key in a <==> key in b) && (key in a ==> a[key] == b[key])
    decreases j
  {
    hide LevelOf;
    if i < j { UncheckedBucketStays(rule, events, key, i, j - 1); }
  }

  /**
   * A caller refused by event `i` who waits as long as it was told, and whose key
   * nobody else checks meanwhile, is allowed exactly when the bucket can ever hold a
   * token; sweeps and other keys in between make no difference.
   */
  lemma WaitingIsEnough(rule: Rule, events: seq<Event>, key: string, i: nat, j: nat)
    requires rule.Limits() && InOrder(events) && i < j < |events|
    requires events[i].Check? && events[i].key == key && events[j].Check? && events[j].key == key
    requires forall n :: i < n < j && events[n].Check? ==> events[n].key != key
    requires !DecisionAt(rule, events, i, true).allowed
    requires events[j].now >= events[i].now + DecisionAt(rule, events, i, true).retryAfterSeconds as real * 1000.0
    ensures DecisionAt(rule, events, j, true).allowed <==> rule.Capacity() >= 1.0
  {
    hide LevelOf, After, Inflow;
    SweepingDecidesAlike(rule, events, i);
    SweepingDecidesAlike(rule, events, j);
    var now, later := events[i].now, events[j].now;
    var before, between := After(rule, events, i, false), After(rule, events, i + 1, false);
    var tokens := LevelOf(rule, before, key, now);
    RefusedBucket(rule, events, i);
    UncheckedBucketStays(rule, events, key, i + 1, j);
    WaitSuffices(rule, tokens);
    InflowGrows(rule, DecisionFor(rule, tokens).retryAfterSeconds as real * 1000.0, later - now);
    LevelAfterWait(rule, After(rule, events, j, false), key, tokens, now, later);
  }

  lemma RefusedBucket(rule: Rule, events: seq<Event>, i: nat)
    requires rule.Limits() && i < |events| && events[i].Check?
    requires LevelOf(rule, After(rule, events, i, false), events[i].key, events[i].now) < 1.0
    ensures var after := After(rule, events, i + 1, false);
            events[i].key in after
            && after[events[i].key] == Bucket(LevelOf(rule, After(rule, events, i, false), events[i].key, events[i].now), events[i].now)
  {
    hide LevelOf;
  }

  lemma LevelAfterWait(rule: Rule, buckets: Buckets, key: string, tokens: real, now: real, later: real)
    requires rule.Limits() && key in buckets && buckets[key] == Bucket(tokens, now) && now <= later
    requires tokens + Inflow(rule, later - now) >= 1.0
    ensures LevelOf(rule, buckets, key, later) >= 1.0 <==> rule.Capacity() >= 1.0
  {
    RefillIsInflow(rule, buckets[key], later);
    InflowAdds(rule, later - now, 0.0);
    hide Refill, Inflow;
  }
}
