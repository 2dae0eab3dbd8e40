/**
 * What the scripts and the read-only evaluator report as usage, in terms of the admissions; and how long a key lasts.
 */
module ReportedUsage {
  import opened Prelude
  import opened RedisStore
  import opened Limits
  import opened Scripts
  import opened KeyRuns
  import opened Limiter
  import F = FixedWindowRuns
  import S = SlidingWindowRuns

  /** A fixed window reports the admissions since it opened, the one just made included. */
  lemma FixedWindowUsage(run: seq<Attempt>, duration: nat, a: Attempt)
    requires F.FixedRun(run, duration) && UpTo(run, a.at) && duration > 0
    requires a.limit.algorithm.FixedWindow? && a.limit.duration == duration
    ensures var s, v := Run(run), Decide(Run(run), a);
            var f := Visible(s.entry, a.at);
            var start := CurrentWindow(f, duration, a.at / 1000).start;
            && a.at / 1000 - duration < start <= a.at / 1000
            && v.usage == CountIn(s.log, 1000 * start, a.at + 1) + One(v.allowed)
            && UsageOf(f, a.limit, a.at) == CountIn(s.log, 1000 * start, a.at + 1)
  {
    F.CounterIsAdmissionsSinceStart(run, duration, a.at);
    F.StateDescribesLog(run, duration);
  }

  /** `n` is the quotient rounded up. */
  predicate RoundedUp(n: int, dividend: int, d: nat) {
    (n - 1) * d < dividend <= n * d
  }

  lemma CeilRoundsUp(x: real, dividend: int, d: nat)
    requires d > 0 && x * d as real == dividend as real
    ensures RoundedUp(Ceil(x), dividend, d)
  {
    var n := Ceil(x);
    S.ScaleComparison(-x, -n, d, -dividend);
    S.ScaleComparison(-x, -(n - 1), d, -dividend);
  }

  lemma EstimateRoundsUp(r: Rolling, duration: nat, now: int)
    requires duration > 0 && r.start <= now < r.start + duration
    ensures RoundedUp(Ceil(Effective(r, duration, now)), S.Estimate(r, duration, now), duration)
  {
    S.EffectiveIsEstimate(r, duration, now);
    CeilRoundsUp(Effective(r, duration, now), S.Estimate(r, duration, now), duration);
  }

  lemma SlidingVerdictUsage(l: RateLimit, f: Hash, nowMs: int)
    requires l.algorithm.SlidingWindowCounter? && l.duration > 0
    ensures var v, r := VerdictFor(l, f, nowMs), Rolled(f, l.duration, nowMs / 1000);
            v.usage == Ceil(Effective(if v.allowed then r.(current := r.current + 1) else r, l.duration, nowMs / 1000))
  {
  }

  /** A sliding window reports the estimate over the admissions, the one just made included, rounded up. */
  lemma SlidingWindowUsage(run: seq<Attempt>, duration: nat, a: Attempt)
    requires S.SlidingRun(run, duration) && UpTo(run, a.at)
    requires a.limit.algorithm.SlidingWindowCounter? && a.limit.duration == duration
    ensures var s, v := Run(run), Decide(Run(run), a);
            var r := S.LogPair(s.log, duration, a.at);
            RoundedUp(v.usage, S.Estimate(if v.allowed then r.(current := r.current + 1)
                else r, duration, a.at / 1000), duration)
  {
    var now, r := a.at / 1000, S.LogPair(Run(run).log, duration, a.at);
    S.PairRefinesLog(run, duration, a.at);
    S.AlignFacts(now, duration);
    SlidingVerdictUsage(a.limit, Visible(Run(run).entry, a.at), a.at);
    EstimateRoundsUp(r, duration, now);
    EstimateRoundsUp(r.(current := r.current + 1), duration, now);
  }

  /** A bucket reports its capacity less what is left, rounded up. */
  lemma TokenBucketUsage(l: RateLimit, f: Hash, nowMs: int)
    requires l.algorithm.TokenBucket?
    ensures var v, tokens := VerdictFor(l, f, nowMs), Available(f, l.count, l.refillRate, nowMs);
            var gone := l.count as real - (tokens - if v.allowed then 1.0 else 0.0);
            v.usage >= 0 && v.usage as real - 1.0 < gone <= v.usage as real
  {
  }

  /** An admission keeps the key for exactly the duration and a minute, or twice the duration and a minute. */
  lemma KeyLastsExactly(s: KeyState, a: Attempt, nowMs: int)
    requires Countable(a.limit) && Decide(s, a).allowed
    ensures Live(Advance(s, a).entry, nowMs)
            <==> nowMs - a.at <= if a.limit.algorithm == SlidingWindowCounter then 2000 * a.limit.duration + 60000
                                 else 1000 * a.limit.duration + 60000
  {
  }
}
