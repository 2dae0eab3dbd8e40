/**
 * The three Lua scripts. Each is a method that reads and writes the hash field by field, proved against a
 * function from the visible hash to a verdict; each runs atomically, so the verdict is the whole effect.
 */
module Scripts {
  import opened Prelude
  import opened RedisStore
  import opened Limits

  /** `fields` is the hash after the script; a denial writes nothing. */
  datatype Verdict = Verdict(allowed: bool, usage: int, fields: Hash)

  /** The script writes its fields and renews the expiry on admission, and leaves the database alone on denial. */
  function Stored(db: Database, key: string, v: Verdict, ttl: nat, nowMs: int): Database {
    if v.allowed then db[key := Entry(v.fields, Some(nowMs + 1000 * ttl))] else db
  }

  // ---------- fixed window ----------

  datatype Window = Window(count: int, start: int)

  function CurrentWindow(f: Hash, duration: nat, now: int): Window {
    if Count in f && now - Get(f, WindowStart, now) < duration
    then Window(f[Count], Get(f, WindowStart, now))
    else Window(0, now)
  }

  function FixedWindowVerdict(f: Hash, limit: nat, duration: nat, nowMs: int): Verdict {
    var w := CurrentWindow(f, duration, nowMs / 1000);
    if w.count >= limit then Verdict(false, w.count, f)
    else Verdict(true, w.count + 1, f[Count := w.count + 1][WindowStart := w.start])
  }

  method FixedWindowScript(redis: Redis, key: string, limit: nat, duration: nat, ttl: nat, nowMs: int)
    returns (allowed: bool, usage: int)
    modifies redis
    ensures var v := FixedWindowVerdict(Visible(Lookup(old(redis.db), key), nowMs), limit, duration, nowMs);
            allowed == v.allowed && usage == v.usage && redis.db == Stored(old(redis.db), key, v, ttl, nowMs)
  {
    var now := nowMs / 1000;
    var stored := redis.HGet(key, Count, nowMs);
    var start := redis.HGet(key, WindowStart, nowMs);
    var count, windowStart := 0, now;
    if stored.Some? {
      count, windowStart := stored.value, if start.Some? then start.value else now;
      if now - windowStart >= duration {
        count, windowStart := 0, now;
      }
    }
    if count >= limit {
      return false, count;
    }
    count := count + 1;
    redis.HSet(key, Count, count, nowMs);
    redis.HSet(key, WindowStart, windowStart, nowMs);
    redis.Expire(key, ttl, nowMs);
    return true, count;
  }

  // ---------- sliding window counter ----------

  datatype Rolling = Rolling(previous: int, current: int, start: int)

  function Align(now: int, duration: nat): int
    requires duration > 0
  {
    now - now % duration
  }

  /** The stored pair, rolled forward to the window that contains `now`. */
  function Rolled(f: Hash, duration: nat, now: int): Rolling
    requires duration > 0
  {
    var start := Align(now, duration);
    var previous, current := Get(f, PreviousCount, 0), Get(f, CurrentCount, 0);
    if WindowStart !in f then Rolling(previous, current, start)
    else if start > f[WindowStart] then
      Rolling(if (start - f[WindowStart]) / duration == 1 then current else 0, 0, start)
    else Rolling(previous, current, f[WindowStart])
  }

  function Weight(duration: nat, elapsed: int): real
    requires duration > 0
  {
    if elapsed > duration then 0.0 else (duration - elapsed) as real / duration as real
  }

  function Blend(r: Rolling, weight: real): real {
    r.current as real + r.previous as real * weight
  }

  /** The estimate that is compared with the limit: the previous window counts in part. */
  function Effective(r: Rolling, duration: nat, now: int): real
    requires duration > 0
  {
    Blend(r, Weight(duration, now - r.start))
  }

  function SlidingWindowVerdict(f: Hash, limit: nat, duration: nat, nowMs: int): Verdict
    requires duration > 0
  {
    var now := nowMs / 1000;
    var r := Rolled(f, duration, now);
    var effective := Effective(r, duration, now);
    if effective >= limit as real then Verdict(false, Ceil(effective), f)
    else Verdict(true, Ceil(Effective(r.(current := r.current + 1), duration, now)),
                 f[PreviousCount := r.previous][CurrentCount := r.current + 1][WindowStart := r.start])
  }

  method WriteRolling(redis: Redis, key: string, r: Rolling, ttl: nat, nowMs: int)
    modifies redis
    ensures redis.db == old(redis.db)[key := Entry(
        Visible(Lookup(old(redis.db), key),
                   nowMs)[PreviousCount := r.previous][CurrentCount := r.current][WindowStart := r.start],
        Some(nowMs + 1000 * ttl))]
  {
    redis.HSet(key, PreviousCount, r.previous, nowMs);
    redis.HSet(key, CurrentCount, r.current, nowMs);
    redis.HSet(key, WindowStart, r.start, nowMs);
    redis.Expire(key, ttl, nowMs);
  }

  method ReadRolling(redis: Redis, key: string, duration: nat, nowMs: int) returns (r: Rolling)
    requires duration > 0
    ensures r == Rolled(Visible(Lookup(redis.db, key), nowMs), duration, nowMs / 1000)
  {
    var now := nowMs / 1000;
    var currentWindowStart := now - now % duration;
    var previousField := redis.HGet(key, PreviousCount, nowMs);
    var currentField := redis.HGet(key, CurrentCount, nowMs);
    var startField := redis.HGet(key, WindowStart, nowMs);
    var previous := if previousField.Some? then previousField.value else 0;
    var current := if currentField.Some? then currentField.value else 0;
    var windowStart := if startField.Some? then startField.value else currentWindowStart;
    if startField.Some? && currentWindowStart > windowStart {
      var elapsedWindows := (currentWindowStart - windowStart) / duration;
      if elapsedWindows == 1 {
        previous := current;
      } else {
        previous := 0;
      }
      current := 0;
      windowStart := currentWindowStart;
    }
    return Rolling(previous, current, windowStart);
  }

  method ComputeWeight(duration: nat, elapsed: int) returns (weight: real)
    requires duration > 0
    ensures weight == Weight(duration, elapsed)
  {
    weight := (duration - elapsed) as real / duration as real;
    if weight < 0.0 {
      weight := 0.0;
    }
  }

  method SlidingWindowScript(redis: Redis, key: string, limit: nat, duration: nat, ttl: nat, nowMs: int)
    returns (allowed: bool, usage: int)
    requires duration > 0
    modifies redis
    ensures var v := SlidingWindowVerdict(Visible(Lookup(old(redis.db), key), nowMs), limit, duration, nowMs);
            allowed == v.allowed && usage == v.usage && redis.db == Stored(old(redis.db), key, v, ttl, nowMs)
  {
    var r := ReadRolling(redis, key, duration, nowMs);
    var weight := ComputeWeight(duration, nowMs / 1000 - r.start);
    var effective := Blend(r, weight);
    if effective >= limit as real {
      return false, Ceil(effective);
    }
    r := r.(current := r.current + 1);
    WriteRolling(redis, key, r, ttl, nowMs);
    return true, Ceil(Blend(r, weight));
  }

  // ---------- token bucket ----------

  const MICRO: real := 1000000.0

  function Refill(rate: real, elapsedMs: int): real {
    elapsedMs as real / 1000.0 * rate
  }

  function Available(f: Hash, capacity: nat, rate: real, nowMs: int): real {
    if Tokens !in f then capacity as real
    else Min(f[Tokens] as real / MICRO + Refill(rate, nowMs - Get(f, LastRefillMs, nowMs)), capacity as real)
  }

  function TokenBucketVerdict(f: Hash, capacity: nat, rate: real, nowMs: int): Verdict {
    var tokens := Available(f, capacity, rate, nowMs);
    if tokens < 1.0 then Verdict(false, Max(Ceil(capacity as real - tokens), 0), f)
    else Verdict(true, Max(Ceil(capacity as real - (tokens - 1.0)), 0),
                 f[Tokens := RoundHalfEven((tokens - 1.0) * MICRO)][LastRefillMs := nowMs])
  }

  method WriteTokens(redis: Redis, key: string, micros: int, ttl: nat, nowMs: int)
    modifies redis
    ensures redis.db == old(redis.db)[key := Entry(
        Visible(Lookup(old(redis.db), key), nowMs)[Tokens := micros][LastRefillMs := nowMs], Some(nowMs + 1000 * ttl))]
  {
    redis.HSet(key, Tokens, micros, nowMs);
    redis.HSet(key, LastRefillMs, nowMs, nowMs);
    redis.Expire(key, ttl, nowMs);
  }

  method ReadTokens(redis: Redis, key: string, capacity: nat, rate: real, nowMs: int) returns (tokens: real)
    ensures tokens == Available(Visible(Lookup(redis.db, key), nowMs), capacity, rate, nowMs)
  {
    var stored := redis.HGet(key, Tokens, nowMs);
    var last := redis.HGet(key, LastRefillMs, nowMs);
    tokens := capacity as real;
    if stored.Some? {
      var elapsedMs := nowMs - (if last.Some? then last.value else nowMs);
      var elapsedSec := elapsedMs as real / 1000.0;
      var refillAmount := elapsedSec * rate;
      tokens := stored.value as real / MICRO + refillAmount;
      if tokens > capacity as real {
        tokens := capacity as real;
      }
    }
  }

  method TokenBucketScript(redis: Redis, key: string, capacity: nat, rate: real, ttl: nat, nowMs: int)
    returns (allowed: bool, usage: int)
    modifies redis
    ensures var v := TokenBucketVerdict(Visible(Lookup(old(redis.db), key), nowMs), capacity, rate, nowMs);
            allowed == v.allowed && usage == v.usage && redis.db == Stored(old(redis.db), key, v, ttl, nowMs)
  {
    var tokens := ReadTokens(redis, key, capacity, rate, nowMs);
    if tokens < 1.0 {
      usage := Ceil(capacity as real - tokens);
      if usage < 0 {
        usage := 0;
      }
      return false, usage;
    }
    tokens := tokens - 1.0;
    WriteTokens(redis, key, RoundHalfEven(tokens * MICRO), ttl, nowMs);
    usage := Ceil(capacity as real - tokens);
    if usage < 0 {
      usage := 0;
    }
    return true, usage;
  }

  // ---------- dispatch ----------

  /** A limit whose script is defined on numbers: a sliding window needs a positive duration. */
  predicate Countable(l: RateLimit) {
    l.algorithm.SlidingWindowCounter? ==> l.duration > 0
  }

  function VerdictFor(l: RateLimit, f: Hash, nowMs: int): Verdict
    requires Countable(l)
  {
    match l.algorithm
    case FixedWindow => FixedWindowVerdict(f, l.count, l.duration, nowMs)
    case SlidingWindowCounter => SlidingWindowVerdict(f, l.count, l.duration, nowMs)
    case TokenBucket => TokenBucketVerdict(f, l.count, l.refillRate, nowMs)
  }
}
