/**
 * The read-only usage against the decision the scripts would take on the same state at the same moment, and the
 * recheck that decides whether a due unlock is put off.
 */
module Recheck {
  import opened Prelude
  import opened RedisStore
  import opened Limits
  import opened Scripts
  import opened KeyRuns
  import opened Limiter
  import S = SlidingWindowRuns
  import F = FixedWindowRuns

  predicate Exceeding(f: Hash, l: RateLimit, nowMs: int) {
    UsageOf(f, l, nowMs) >= l.count
  }

  /** A fixed window is reported as used up exactly when the next call would be denied. */
  lemma FixedWindowAgrees(f: Hash, l: RateLimit, nowMs: int)
    requires l.algorithm.FixedWindow? && (f == map[] || f.Keys == {Count, WindowStart})
    ensures Exceeding(f, l, nowMs) <==> !VerdictFor(l, f, nowMs).allowed
  {
    assert f != map[] ==> Count in f && WindowStart in f;
  }

  /** A bucket is reported as used up only when it holds nothing at all; a call is denied below one token. */
  lemma TokenBucketGap(f: Hash, l: RateLimit, nowMs: int)
    requires l.algorithm.TokenBucket? && (f == map[] || f.Keys == {Tokens, LastRefillMs})
    ensures var tokens := Available(f, l.count, l.refillRate, nowMs);
            && (Exceeding(f, l, nowMs) <==> tokens <= 0.0)
            && (!VerdictFor(l, f, nowMs).allowed <==> tokens < 1.0)
            && (tokens >= 0.0
               ==> UsageOf(f, l, nowMs) as real <= l.count as real - tokens < UsageOf(f, l, nowMs) as real + 1.0)
  {
    assert f != map[] ==> Tokens in f && LastRefillMs in f;
  }

  lemma SlidingUsageFrom(f: Hash, l: RateLimit, nowMs: nat)
    requires l.algorithm.SlidingWindowCounter? && l.duration > 0
    requires f.Keys == {PreviousCount, CurrentCount, WindowStart}
    requires 0 < f[WindowStart] <= nowMs / 1000 && S.Aligned(f[WindowStart], l.duration)
    requires f[PreviousCount] >= 0 && f[CurrentCount] >= 0
    ensures UsageOf(f, l, nowMs) == Ceil(Effective(Rolled(f, l.duration, nowMs / 1000), l.duration, nowMs / 1000))
  {
    var d, now, start := l.duration, nowMs / 1000, f[WindowStart];
    var next := Align(now, d);
    assert WindowStart in f && f != map[];
    S.AlignFacts(now, d);
    S.AlignedGap(start, next, d);
    S.AlignedGap(next, start, d);
    ElapsedWindows(now - start, d);
    var pair := Rolled(f, d, now);
    S.EffectiveIsEstimate(pair, d, now);
    NonNegativeEffective(pair, d, now);
  }

  lemma ElapsedWindows(elapsed: nat, d: nat)
    requires d > 0
    ensures elapsed < d <==> elapsed / d == 0
    ensures elapsed / d == 1 <==> d <= elapsed < 2 * d
  {
    assert elapsed == elapsed / d * d + elapsed % d;
    if elapsed / d >= 2 {
      MulMonotone(2, elapsed / d, d);
    }
  }

  lemma NonNegativeEffective(r: Rolling, d: nat, now: int)
    requires d > 0 && r.previous >= 0 && r.current >= 0 && r.start <= now < r.start + d
    ensures Effective(r, d, now) >= 0.0
    ensures r.previous == 0 && r.current == 0 ==> Effective(r, d, now) == 0.0
  {
    assert Weight(d, now - r.start) >= 0.0;
    assert r.previous as real * Weight(d, now - r.start) >= 0.0;
  }

  /** The counter was last charged within the first `duration` seconds of the epoch, so its window starts at zero. */
  predicate StartsAtZero(s: KeyState, duration: nat) {
    s.log != [] && s.log[|s.log| - 1] / 1000 < duration
  }

  /**
   * On every reachable counter the reported usage is the rounded-up estimate that the script compares with the limit,
   * except that a window starting at zero is reported as empty.
   */
  lemma SlidingWindowGap(run: seq<Attempt>, l: RateLimit, nowMs: nat)
    requires l.algorithm.SlidingWindowCounter? && S.SlidingRun(run, l.duration) && UpTo(run, nowMs)
    ensures var f := Visible(Run(run).entry, nowMs);
            var effective := Effective(Rolled(f, l.duration, nowMs / 1000), l.duration, nowMs / 1000);
            && UsageOf(f, l, nowMs) == (if StartsAtZero(Run(run), l.duration) then 0 else Ceil(effective))
            && (!VerdictFor(l, f, nowMs).allowed <==> effective >= l.count as real)
            && (!StartsAtZero(Run(run), l.duration) ==> (Exceeding(f, l, nowMs) <==> effective > l.count as real - 1.0))
  {
    var s, d := Run(run), l.duration;
    var f := Visible(s.entry, nowMs);
    S.RunFaithful(run, d, nowMs);
    S.AlignFacts(nowMs / 1000, d);
    if f == map[] {
      NonNegativeEffective(Rolled(f, d, nowMs / 1000), d, nowMs / 1000);
    } else {
      var last := s.log[|s.log| - 1] / 1000;
      FirstWindow(last, d);
      S.AlignFacts(last, d);
      if Align(last, d) > 0 {
        SlidingUsageFrom(f, l, nowMs);
      }
    }
  }

  lemma FirstWindow(now: nat, d: nat)
    requires d > 0
    ensures Align(now, d) >= 0 && (Align(now, d) == 0 <==> now < d)
  {
    S.AlignFacts(now, d);
    S.AlignFacts(0, d);
    S.AlignMonotone(0, now, d);
    S.AlignedGap(0, Align(now, d), d);
  }

  // ---------- the recheck before an unlock ----------

  ghost predicate StillExceeding(db: Database, selector: string, limits: seq<RateLimit>, clock: seq<nat>)
    requires |limits| == |clock|
  {
    exists i :: 0 <= i < |limits| && !limits[i].unlimited
                && Over(db, selector, limits[i], clock[i])
  }

  predicate Over(db: Database, selector: string, l: RateLimit, nowMs: nat) {
    Exceeding(Visible(Lookup(db, KeyForLimit(selector, l)), nowMs), l, nowMs)
  }

  /** Falls back to the e-mail address and to the default quota, then looks for a limit that is used up. */
  method IsStillExceedingLimit(limiter: RateLimiter, email: string, selector: Option<string>, limits: seq<RateLimit>,
                               defaultQuota: seq<RateLimit>, clock: seq<nat>)
    returns (exceeding: bool)
    requires |clock| == if limits == [] then |defaultQuota| else |limits|
    ensures exceeding <==> StillExceeding(
              limiter.redis.db, if selector.Some? && selector.value != "" then selector.value else email,
              if limits == [] then defaultQuota else limits, clock)
  {
    var effectiveSelector := if selector.Some? && selector.value != "" then selector.value else email;
    var checked := if limits == [] then defaultQuota else limits;
    for i := 0 to |checked|
      invariant forall j | 0 <= j < i && !checked[j].unlimited ::
        !Over(limiter.redis.db, effectiveSelector, checked[j], clock[j])
    {
      if !checked[i].unlimited {
        var usage := limiter.GetUsage(effectiveSelector, checked[i], clock[i]);
        if usage >= checked[i].count {
          return true;
        }
      }
    }
    return false;
  }

  lemma {:induction false} BucketFields(run: seq<Attempt>, duration: nat)
    requires Ordered(run) && Uniform(run, TokenBucket, duration)
    ensures var s := Run(run); s.entry.Some? ==> s.entry.value.fields.Keys == {Tokens, LastRefillMs}
  {
    if run != [] {
      BucketFields(run[..|run| - 1], duration);
    }
  }

  /** The counter of `l` for this selector is where some run of calls on its key has left it. */
  ghost predicate ReachedBy(db: Database, selector: string, l: RateLimit, run: seq<Attempt>, nowMs: nat) {
    && Ordered(run) && Uniform(run, l.algorithm, l.duration) && UpTo(run, nowMs)
    && Lookup(db, KeyForLimit(selector, l)) == Run(run).entry
    && (l.algorithm.SlidingWindowCounter? ==> !StartsAtZero(Run(run), l.duration))
  }

  /** One limit: the recheck never misses a denial by a window, and never invents one for a bucket or a fixed window. */
  lemma OneLimit(db: Database, selector: string, l: RateLimit, run: seq<Attempt>, nowMs: nat)
    requires Countable(l) && ReachedBy(db, selector, l, run, nowMs)
    ensures !l.algorithm.TokenBucket? && Denies(db, selector, l, nowMs) ==> Over(db, selector, l, nowMs)
    ensures !l.algorithm.SlidingWindowCounter? && Over(db, selector, l, nowMs) ==> Denies(db, selector, l, nowMs)
  {
    var f := Visible(Lookup(db, KeyForLimit(selector, l)), nowMs);
    match l.algorithm {
      case FixedWindow =>
        F.StateDescribesLog(run, l.duration);
        FixedWindowAgrees(f, l, nowMs);
      case SlidingWindowCounter =>
        SlidingWindowGap(run, l, nowMs);
      case TokenBucket =>
        BucketFields(run, l.duration);
        TokenBucketGap(f, l, nowMs);
    }
  }

  /**
   * The recheck against the check itself, over a whole list of limits: without buckets every denial is seen,
   * without sliding windows every limit reported as used up would deny, and on fixed windows the two agree.
   */
  lemma RecheckDirections(db: Database, selector: string, limits: seq<RateLimit>, clock: seq<nat>, replies: seq<Reply>,
                          runs: seq<seq<Attempt>>)
    requires |limits| == |clock| == |replies| == |runs|
    requires forall l | l in limits :: Countable(l)
    requires forall r | r in replies :: !r.Unavailable?
    requires DistinctKeys(selector, limits)
    requires forall i | 0 <= i < |limits| :: ReachedBy(db, selector, limits[i], runs[i], clock[i])
    ensures var denied := CheckFrom(db, selector, limits, clock, replies, 0).1.Denied?;
            var exceeding := StillExceeding(db, selector, limits, clock);
            && ((forall l | l in limits :: !l.algorithm.TokenBucket?) ==> (denied ==> exceeding))
            && ((forall l | l in limits :: !l.algorithm.SlidingWindowCounter?) ==> (exceeding ==> denied))
            && ((forall l | l in limits :: l.algorithm.FixedWindow?) ==> (exceeding <==> denied))
  {
    DeniedExactlyWhenOneDenies(db, selector, limits, clock, replies);
    forall i | 0 <= i < |limits|
      ensures var l := limits[i];
              && (!l.algorithm.TokenBucket? && Denies(db, selector, l, clock[i]) ==> Over(db, selector, l, clock[i]))
              && (!l.algorithm.SlidingWindowCounter? && Over(db, selector, l, clock[i])
                 ==> Denies(db, selector, l, clock[i]))
    {
      OneLimit(db, selector, limits[i], runs[i], clock[i]);
    }
  }

  // ---------- the selector kept with a lock ----------

  predicate Ascii(s: string) {
    forall i | 0 <= i < |s| :: s[i] as int < 128
  }

  /**
   * Lock metadata keeps the selector in lower case while counters are charged under the selector as sent. The recheck
   * reads the counters that the check charged exactly when lowering leaves the selector alone; for a selector in ASCII,
   * when it has no upper-case letter. How other letters are lowered is up to `lower`.
   */
  lemma RecheckReadsTheSameCounter(lower: string -> string, selector: string, l: RateLimit)
    requires forall s | Ascii(s) :: lower(s) == Lower(s)
    ensures KeyForLimit(lower(selector), l) == KeyForLimit(selector, l) <==> lower(selector) == selector
    ensures Ascii(selector) ==>
              (lower(selector) == selector <==> forall i | 0 <= i < |selector| :: !('A' <= selector[i] <= 'Z'))
  {
    KeysAgree(lower(selector), l, selector, l);
    LowerKeepsExactly(selector);
  }

  lemma LowerKeepsExactly(s: string)
    ensures Lower(s) == s <==> forall i | 0 <= i < |s| :: !('A' <= s[i] <= 'Z')
  {
    if i :| 0 <= i < |s| && 'A' <= s[i] <= 'Z' {
      assert Lower(s)[i] != s[i];
    }
  }
}
