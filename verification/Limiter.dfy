/** The rate limiter object: one check over several limits, and the second evaluator that only reads. */
module Limiter {
  import opened Prelude
  import opened RedisStore
  import opened Limits
  import opened Scripts

  /** How Redis answers one script call: normally, without the cached script, or not at all. */
  datatype Reply = Fine | ScriptMissing | Unavailable

  datatype Outcome = Accepted | Denied(at: nat, usage: int) | Failed(at: nat)

  /** Limits from position `i` on, checked in order: charge and go on, or stop at the first denial or fault. */
  function CheckFrom(db: Database, sender: string, limits: seq<RateLimit>, clock: seq<nat>, replies: seq<Reply>, i: nat)
    : (Database, Outcome)
    requires i <= |limits| == |clock| == |replies|
    requires forall l | l in limits :: Countable(l)
    decreases |limits| - i
  {
    if i == |limits| then (db, Accepted)
    else if limits[i].unlimited then CheckFrom(db, sender, limits, clock, replies, i + 1)
    else if replies[i].Unavailable? then (db, Failed(i))
    else
      var key := KeyForLimit(sender, limits[i]);
      var v := VerdictFor(limits[i], Visible(Lookup(db, key), clock[i]), clock[i]);
      if v.allowed
      then CheckFrom(Stored(db, key, v, TtlSeconds(limits[i]), clock[i]), sender, limits, clock, replies, i + 1)
      else (db, Denied(i, Max(v.usage, 0)))
  }

  function SlidingUsageOf(f: Hash, duration: nat, now: int): int {
    var start := Get(f, WindowStart, 0);
    if start <= 0 || duration <= 0 then 0
    else
      var elapsed := now - start;
      var pair := Rolling(Get(f, PreviousCount, 0), Get(f, CurrentCount, 0), start);
      if elapsed < duration then Max(0, Ceil(Effective(pair, duration, now)))
      else if elapsed / duration == 1 then
        Max(0, Ceil(Effective(Rolling(pair.current, 0, start + duration), duration, now)))
      else 0
  }

  /** What the read-only evaluator reports for a visible hash. */
  function UsageOf(f: Hash, l: RateLimit, nowMs: int): int {
    if f == map[] then 0
    else
      match l.algorithm
      case FixedWindow =>
        if nowMs / 1000 - Get(f, WindowStart, 0) >= l.duration then 0 else Get(f, Count, 0)
      case SlidingWindowCounter =>
        SlidingUsageOf(f, l.duration, nowMs / 1000)
      case TokenBucket =>
        var tokens := if Tokens in f then f[Tokens] as real / MICRO else l.count as real;
        var refill := Refill(l.refillRate, nowMs - Get(f, LastRefillMs, nowMs));
        Max(0, (l.count as real - Min(l.count as real, tokens + refill)).Floor)
  }

  class RateLimiter {
    const redis: Redis
    var scriptsLoaded: bool

    constructor (redis: Redis, scriptsLoaded: bool)
      ensures this.redis == redis && this.scriptsLoaded == scriptsLoaded
    {
      this.redis := redis;
      this.scriptsLoaded := scriptsLoaded;
    }

    method RunScript(key: string, l: RateLimit, nowMs: int) returns (allowed: bool, usage: int)
      requires Countable(l)
      modifies redis
      ensures var v := VerdictFor(l, Visible(Lookup(old(redis.db), key), nowMs), nowMs);
              allowed == v.allowed && usage == v.usage
              && redis.db == Stored(old(redis.db), key, v, TtlSeconds(l), nowMs)
    {
      if l.algorithm == FixedWindow {
        allowed, usage := FixedWindowScript(redis, key, l.count, l.duration, l.duration + 60, nowMs);
      } else if l.algorithm == SlidingWindowCounter {
        allowed, usage := SlidingWindowScript(redis, key, l.count, l.duration, l.duration * 2 + 60, nowMs);
      } else {
        allowed, usage := TokenBucketScript(redis, key, l.count, l.refillRate, l.duration + 60, nowMs);
      }
    }

    /** The cached script first, the full script if that fails; an error only when both fail. */
    method CheckSingleLimit(sender: string, l: RateLimit, nowMs: int, reply: Reply)
      returns (failed: bool, allowed: bool, usage: int)
      requires Countable(l)
      modifies redis
      ensures failed <==> reply.Unavailable?
      ensures failed ==> redis.db == old(redis.db)
      ensures var key := KeyForLimit(sender, l);
              var v := VerdictFor(l, Visible(Lookup(old(redis.db), key), nowMs), nowMs);
              !failed ==> allowed == v.allowed && usage == Max(v.usage, 0)
                          && redis.db == Stored(old(redis.db), key, v, TtlSeconds(l), nowMs)
    {
      failed, allowed, usage := false, false, 0;
      var key := KeyForLimit(sender, l);
      if scriptsLoaded && reply.Fine? {
        allowed, usage := RunScript(key, l, nowMs);
      } else if reply.Unavailable? {
        failed := true;
      } else {
        allowed, usage := RunScript(key, l, nowMs);
      }
      usage := Max(usage, 0);
    }

    method CheckLimit(sender: string, limits: seq<RateLimit>, clock: seq<nat>, replies: seq<Reply>)
      returns (outcome: Outcome)
      requires |limits| == |clock| == |replies|
      requires forall l | l in limits :: Countable(l)
      modifies redis
      ensures (redis.db, outcome) == CheckFrom(old(redis.db), sender, limits, clock, replies, 0)
    {
      for i := 0 to |limits|
        invariant CheckFrom(redis.db, sender, limits, clock, replies, i)
                  == CheckFrom(old(redis.db), sender, limits, clock, replies, 0)
      {
        if !limits[i].unlimited {
          var failed, allowed, usage := CheckSingleLimit(sender, limits[i], clock[i], replies[i]);
          if failed {
            return Failed(i);
          }
          if !allowed {
            return Denied(i, usage);
          }
        }
      }
      return Accepted;
    }

    method SlidingUsage(data: Hash, l: RateLimit, now: int) returns (usage: int)
      requires l.algorithm.SlidingWindowCounter? && data != map[]
      ensures usage == SlidingUsageOf(data, l.duration, now)
    {
      var previous, current := Get(data, PreviousCount, 0), Get(data, CurrentCount, 0);
      var start := Get(data, WindowStart, 0);
      if start <= 0 || l.duration <= 0 {
        return 0;
      }
      var elapsed := now - start;
      if elapsed >= l.duration {
        if elapsed / l.duration == 1 {
          previous := current;
          current := 0;
          start := start + l.duration;
          elapsed := now - start;
        } else {
          return 0;
        }
      }
      var weight := ComputeWeight(l.duration, elapsed);
      var effective := Blend(Rolling(previous, current, start), weight);
      return Max(0, Ceil(effective));
    }

    method GetUsage(sender: string, l: RateLimit, nowMs: int) returns (usage: int)
      ensures usage == UsageOf(Visible(Lookup(redis.db, KeyForLimit(sender, l)), nowMs), l, nowMs)
    {
      var data := redis.HGetAll(KeyForLimit(sender, l), nowMs);
      if data == map[] {
        return 0;
      }
      var now := nowMs / 1000;
      if l.algorithm == FixedWindow {
        if now - Get(data, WindowStart, 0) >= l.duration {
          return 0;
        }
        return Get(data, Count, 0);
      }
      if l.algorithm == SlidingWindowCounter {
        usage := SlidingUsage(data, l, now);
        return;
      }
      var tokens := if Tokens in data then data[Tokens] as real / MICRO else l.count as real;
      var elapsed := nowMs - Get(data, LastRefillMs, nowMs);
      var refill := elapsed as real / 1000.0 * l.refillRate;
      tokens := Min(l.count as real, tokens + refill);
      return Max(0, (l.count as real - tokens).Floor);
    }

    method ResetLimit(sender: string, l: RateLimit)
      modifies redis
      ensures redis.db == old(redis.db) - {KeyForLimit(sender, l)}
    {
      redis.Delete(KeyForLimit(sender, l));
    }
  }

  // ---------- what one check leaves behind ----------

  ghost predicate DistinctKeys(sender: string, limits: seq<RateLimit>) {
    forall i, j | 0 <= i < j < |limits| && !limits[i].unlimited && !limits[j].unlimited ::
      KeyForLimit(sender, limits[i]) != KeyForLimit(sender, limits[j])
  }

  /** Where a check stopped: every limit before this position was passed. */
  function StoppedAt(o: Outcome, limits: seq<RateLimit>): nat {
    match o
    case Accepted => |limits|
    case Denied(at, _) => at
    case Failed(at) => at
  }

  predicate ChargedOnce(before: Option<Entry>, after: Option<Entry>, l: RateLimit, nowMs: nat)
    requires Countable(l)
  {
    var v := VerdictFor(l, Visible(before, nowMs), nowMs);
    v.allowed && after == Some(Entry(v.fields, Some(nowMs + 1000 * TtlSeconds(l))))
  }

  predicate Denies(db: Database, sender: string, l: RateLimit, nowMs: nat)
    requires Countable(l)
  {
    !VerdictFor(l, Visible(Lookup(db, KeyForLimit(sender, l)), nowMs), nowMs).allowed
  }

  ghost predicate KeyAmong(sender: string, limits: seq<RateLimit>, from: nat, to: nat, key: string) {
    exists i :: from <= i < to && i < |limits| && !limits[i].unlimited && KeyForLimit(sender, limits[i]) == key
  }

  /**
   * Exactly the bounded limits at positions from .. to - 1 were charged, once each; every other counter is as before.
   */
  ghost predicate ChargesExactly(before: Database, after: Database, sender: string, limits: seq<RateLimit>,
                                 clock: seq<nat>,
                                 from: nat, to: nat)
    requires |limits| == |clock| && forall l | l in limits :: Countable(l)
  {
    && AllCharged(before, after, sender, limits, clock, from, to)
    && (forall k: string | !KeyAmong(sender, limits, from, to, k) :: Lookup(before, k) == Lookup(after, k))
  }

  /**
   * A check over limits with distinct keys charges each bounded limit before the stopping point exactly once and
   * touches nothing else: a denial leaves the denying counter and all later ones unchanged.
   */
  lemma CheckCharges(db: Database, sender: string, limits: seq<RateLimit>, clock: seq<nat>, replies: seq<Reply>, i: nat)
    requires i <= |limits| == |clock| == |replies|
    requires forall l | l in limits :: Countable(l)
    requires DistinctKeys(sender, limits)
    ensures var (after, outcome) := CheckFrom(db, sender, limits, clock, replies, i);
            var stop := StoppedAt(outcome, limits);
            && i <= stop <= |limits|
            && ChargesExactly(db, after, sender, limits, clock, i, stop)
            && (!outcome.Accepted? ==> stop < |limits| && !limits[stop].unlimited)
            && (outcome.Denied? ==> Denies(db, sender, limits[stop], clock[stop]))
            && (outcome.Failed? ==> replies[stop].Unavailable?)
    decreases |limits| - i
  {
    var (after, outcome) := CheckFrom(db, sender, limits, clock, replies, i);
    var stop := StoppedAt(outcome, limits);
    if i == |limits| || (!limits[i].unlimited && replies[i].Unavailable?) {
    } else if limits[i].unlimited {
      CheckCharges(db, sender, limits, clock, replies, i + 1);
      forall k: string | !KeyAmong(sender, limits, i, stop, k) ensures Lookup(db, k) == Lookup(after, k) {
        assert !KeyAmong(sender, limits, i + 1, stop, k);
      }
    } else {
      var key := KeyForLimit(sender, limits[i]);
      var v := VerdictFor(limits[i], Visible(Lookup(db, key), clock[i]), clock[i]);
      if v.allowed {
        var next := Stored(db, key, v, TtlSeconds(limits[i]), clock[i]);
        CheckCharges(next, sender, limits, clock, replies, i + 1);
        ChargeThenRest(db, next, after, sender, limits, clock, i, stop);
      }
    }
  }

  ghost predicate AllCharged(before: Database, after: Database, sender: string, limits: seq<RateLimit>, clock: seq<nat>,
                             from: nat, to: nat)
    requires |limits| == |clock| && forall l | l in limits :: Countable(l)
  {
    forall i | from <= i < to && i < |limits| && !limits[i].unlimited ::
      var key := KeyForLimit(sender, limits[i]);
      ChargedOnce(Lookup(before, key), Lookup(after, key), limits[i], clock[i])
  }

  lemma ChargesFromFirst(db: Database, next: Database, after: Database, sender: string, limits: seq<RateLimit>,
                         clock: seq<nat>,
                         i: nat, stop: nat)
    requires i < stop <= |limits| == |clock| && forall l | l in limits :: Countable(l)
    requires DistinctKeys(sender, limits) && !limits[i].unlimited
    requires var key := KeyForLimit(sender, limits[i]);
             ChargedOnce(Lookup(db, key), Lookup(next, key), limits[i], clock[i])
    requires forall k: string | k != KeyForLimit(sender, limits[i]) :: Lookup(db, k) == Lookup(next, k)
    requires ChargesExactly(next, after, sender, limits, clock, i + 1, stop)
    ensures AllCharged(db, after, sender, limits, clock, i, stop)
  {
    var key := KeyForLimit(sender, limits[i]);
    assert !KeyAmong(sender, limits, i + 1, stop, key);
    assert Lookup(next, key) == Lookup(after, key);
    forall j | i < j < stop && !limits[j].unlimited
      ensures var k := KeyForLimit(sender, limits[j]); ChargedOnce(Lookup(db, k), Lookup(after, k), limits[j], clock[j])
    {
      var k := KeyForLimit(sender, limits[j]);
      assert Lookup(db, k) == Lookup(next, k);
    }
  }

  lemma ChargeThenRest(db: Database, next: Database, after: Database, sender: string, limits: seq<RateLimit>,
                       clock: seq<nat>,
                       i: nat, stop: nat)
    requires i < stop <= |limits| == |clock| && forall l | l in limits :: Countable(l)
    requires DistinctKeys(sender, limits) && !limits[i].unlimited
    requires var key := KeyForLimit(sender, limits[i]);
             ChargedOnce(Lookup(db, key), Lookup(next, key), limits[i], clock[i])
    requires forall k: string | k != KeyForLimit(sender, limits[i]) :: Lookup(db, k) == Lookup(next, k)
    requires ChargesExactly(next, after, sender, limits, clock, i + 1, stop)
    ensures ChargesExactly(db, after, sender, limits, clock, i, stop)
  {
    ChargesFromFirst(db, next, after, sender, limits, clock, i, stop);
    forall k: string | !KeyAmong(sender, limits, i, stop, k) ensures Lookup(db, k) == Lookup(after, k) {
      assert KeyForLimit(sender, limits[i]) != k;
      assert !KeyAmong(sender, limits, i + 1, stop, k);
    }
  }

  /** With distinct keys and Redis answering, a check is denied exactly when one of its limits alone would deny it. */
  lemma DeniedExactlyWhenOneDenies(db: Database, sender: string, limits: seq<RateLimit>, clock: seq<nat>,
                                   replies: seq<Reply>)
    requires |limits| == |clock| == |replies|
    requires forall l | l in limits :: Countable(l)
    requires forall r | r in replies :: !r.Unavailable?
    requires DistinctKeys(sender, limits)
    ensures CheckFrom(db, sender, limits, clock, replies, 0).1.Denied?
            <==> exists i :: 0 <= i < |limits| && !limits[i].unlimited && Denies(db, sender, limits[i], clock[i])
  {
    CheckCharges(db, sender, limits, clock, replies, 0);
  }
}
