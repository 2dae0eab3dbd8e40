/**
 * Whole-run properties of the sliding-window counter: the lazily rolled pair always equals the two aligned
 * window counts of the admission log, and the estimate bounds what any window can admit.
 */
module SlidingWindowRuns {
  import opened Prelude
  import opened RedisStore
  import opened Limits
  import opened Scripts
  import opened KeyRuns

  ghost predicate SlidingRun(run: seq<Attempt>, duration: nat) {
    Ordered(run) && Uniform(run, SlidingWindowCounter, duration)
  }

  // ---------- aligned windows ----------

  ghost predicate Aligned(start: int, duration: nat)
    requires duration > 0
  {
    start == start / duration * duration
  }

  lemma MultipleDividesBack(k: int, d: nat)
    requires d > 0
    ensures k * d / d == k
  {
    DivAtLeast(k * d, d, k);
    if k * d / d > k {
      MulMonotone(k + 1, k * d / d, d);
    }
  }

  lemma AlignFacts(x: int, duration: nat)
    requires duration > 0
    ensures Aligned(Align(x, duration), duration)
    ensures Align(x, duration) <= x < Align(x, duration) + duration
  {
    assert x == x / duration * duration + x % duration;
    MultipleDividesBack(x / duration, duration);
  }

  /** Distinct aligned starts are whole windows apart, and the Lua quotient counts those windows. */
  lemma AlignedGap(a: int, b: int, duration: nat)
    requires duration > 0 && Aligned(a, duration) && Aligned(b, duration)
    ensures a < b ==> a + duration <= b
    ensures a < b ==> ((b - a) / duration == 1 <==> b == a + duration)
    ensures a + duration < b ==> a + 2 * duration <= b
  {
    var j, k := a / duration, b / duration;
    assert b - a == (k - j) * duration;
    MultipleDividesBack(k - j, duration);
    if k - j >= 2 {
      MulMonotone(2, k - j, duration);
    } else if k - j <= 0 {
      MulMonotone(k - j, 0, duration);
    }
  }

  lemma AlignMonotone(x: int, y: int, duration: nat)
    requires duration > 0 && x <= y
    ensures Align(x, duration) <= Align(y, duration)
  {
    AlignFacts(x, duration);
    AlignFacts(y, duration);
    AlignedGap(Align(y, duration), Align(x, duration), duration);
  }

  /** Admissions in the aligned window that starts at second `start`. */
  function InWindow(log: seq<int>, start: int, duration: nat): nat {
    CountIn(log, 1000 * start, 1000 * (start + duration))
  }

  // ---------- refinement ----------

  ghost predicate Matches(f: Hash, log: seq<int>, duration: nat)
    requires duration > 0 && log != []
  {
    var start := Align(log[|log| - 1] / 1000, duration);
    && f.Keys == {PreviousCount, CurrentCount, WindowStart}
    && f[WindowStart] == start
    && f[CurrentCount] == InWindow(log, start, duration)
    && f[PreviousCount] == InWindow(log, start - duration, duration)
  }

  ghost predicate Faithful(s: KeyState, nowMs: int, duration: nat)
    requires duration > 0
  {
    Consistent(s, nowMs, 2 * duration + 60) && (s.entry.Some? ==> Matches(s.entry.value.fields, s.log, duration))
  }

  /** The pair that a call at `nowMs` should work from, read off the log. */
  function LogPair(log: seq<int>, duration: nat, nowMs: int): Rolling
    requires duration > 0
  {
    var start := Align(nowMs / 1000, duration);
    Rolling(InWindow(log, start - duration, duration), InWindow(log, start, duration), start)
  }

  lemma RolledIsLogPair(s: KeyState, duration: nat, nowMs: nat)
    requires duration > 0 && Faithful(s, nowMs, duration)
    ensures Rolled(Visible(s.entry, nowMs), duration, nowMs / 1000) == LogPair(s.log, duration, nowMs)
    ensures Rolled(RawFields(s.entry), duration, nowMs / 1000) == LogPair(s.log, duration, nowMs)
  {
    var start := Align(nowMs / 1000, duration);
    if s.log == [] {
    } else {
      var last := s.log[|s.log| - 1];
      var prior := Align(last / 1000, duration);
      AlignFacts(nowMs / 1000, duration);
      AlignFacts(last / 1000, duration);
      AlignMonotone(last / 1000, nowMs / 1000, duration);
      AlignedGap(prior, start, duration);
      if prior < start {
        CountNone(s.log, 1000 * start, 1000 * (start + duration));
        if prior + duration < start {
          CountNone(s.log, 1000 * (start - duration), 1000 * start);
        }
      }
    }
  }

  function Bumped(f: Hash, r: Rolling): Hash {
    f[PreviousCount := r.previous][CurrentCount := r.current + 1][WindowStart := r.start]
  }

  lemma BumpedMatches(f: Hash, log: seq<int>, at: nat, duration: nat)
    requires duration > 0 && f.Keys <= {PreviousCount, CurrentCount, WindowStart}
    ensures Matches(Bumped(f, LogPair(log, duration, at)), log + [at], duration)
  {
    var start := Align(at / 1000, duration);
    AlignFacts(at / 1000, duration);
    CountAppend(log, at, 1000 * start, 1000 * (start + duration));
    CountAppend(log, at, 1000 * (start - duration), 1000 * start);
  }

  lemma AdmissionWrites(s: KeyState, a: Attempt)
    requires a.limit.algorithm.SlidingWindowCounter? && a.limit.duration > 0
    ensures var f := Visible(s.entry, a.at);
            var v := Decide(s, a);
            v.allowed ==> v.fields == Bumped(f, Rolled(f, a.limit.duration, a.at / 1000))
  {
  }

  lemma AdmissionFaithful(s: KeyState, a: Attempt, duration: nat, v: Verdict)
    requires duration > 0 && Faithful(s, a.at, duration)
    requires v.allowed ==> v.fields == Bumped(Visible(s.entry, a.at), LogPair(s.log, duration, a.at))
    ensures Faithful(Record(s, a.at, 2 * duration + 60, v), a.at, duration)
  {
    RecordConsistent(s, a.at, a.at, 2 * duration + 60, v);
    if v.allowed {
      BumpedMatches(Visible(s.entry, a.at), s.log, a.at, duration);
    }
  }

  lemma {:induction false} RunFaithful(run: seq<Attempt>, duration: nat, nowMs: nat)
    requires SlidingRun(run, duration) && UpTo(run, nowMs)
    ensures Faithful(Run(run), nowMs, duration)
  {
    if run != [] {
      var init, last := run[..|run| - 1], run[|run| - 1];
      RunFaithful(init, duration, last.at);
      StepFaithful(Run(init), last, duration);
      StaysFaithful(Run(run), last.at, nowMs, duration);
    }
  }

  lemma AdmissionBumpsLogPair(s: KeyState, a: Attempt, duration: nat)
    requires duration > 0 && a.limit.algorithm.SlidingWindowCounter? && a.limit.duration == duration
    requires Faithful(s, a.at, duration)
    ensures var v := Decide(s, a);
            v.allowed ==> v.fields == Bumped(Visible(s.entry, a.at), LogPair(s.log, duration, a.at))
  {
    AdmissionWrites(s, a);
    RolledIsLogPair(s, duration, a.at);
  }

  lemma StepFaithful(s: KeyState, a: Attempt, duration: nat)
    requires duration > 0 && a.limit.algorithm.SlidingWindowCounter? && a.limit.duration == duration
    requires Faithful(s, a.at, duration)
    ensures Faithful(Advance(s, a), a.at, duration)
  {
    AdmissionBumpsLogPair(s, a, duration);
    AdmissionFaithful(s, a, duration, Decide(s, a));
  }

  lemma StaysFaithful(s: KeyState, before: int, nowMs: int, duration: nat)
    requires duration > 0 && Faithful(s, before, duration) && before <= nowMs
    ensures Faithful(s, nowMs, duration)
  {
  }

  /**
   * Refinement: whatever the calls so far, a call at `nowMs` works from the exact admission counts of the
   * current and the preceding aligned window, although roll-over is lazy and a denial writes nothing.
   */
  lemma PairRefinesLog(run: seq<Attempt>, duration: nat, nowMs: nat)
    requires SlidingRun(run, duration) && UpTo(run, nowMs)
    ensures Rolled(Visible(Run(run).entry, nowMs), duration, nowMs / 1000) == LogPair(Run(run).log, duration, nowMs)
  {
    RunFaithful(run, duration, nowMs);
    RolledIsLogPair(Run(run), duration, nowMs);
  }

  // ---------- the decision, in whole numbers ----------

  /**
   * The estimate times the duration: current count in full, previous count for the share of its window still in
   * sight.
   */
  function Estimate(r: Rolling, duration: nat, now: int): int {
    r.current * duration + r.previous * (duration - (now - r.start))
  }

  lemma EffectiveIsEstimate(r: Rolling, duration: nat, now: int)
    requires duration > 0 && r.start <= now < r.start + duration
    ensures Effective(r, duration, now) * duration as real == Estimate(r, duration, now) as real
  {
    var rest := (duration - (now - r.start)) as real;
    var d, c, p := duration as real, r.current as real, r.previous as real;
    var w := Weight(duration, now - r.start);
    assert w == rest / d;
    assert w * d == rest;
    assert (c + p * w) * d == c * d + p * (w * d);
  }

  lemma ScaleComparison(x: real, n: int, d: nat, m: int)
    requires d > 0 && x * d as real == m as real
    ensures x >= n as real <==> m >= n * d
    ensures x > n as real <==> m > n * d
  {
    var k := d as real;
    assert (n * d) as real == n as real * k;
    if x >= n as real {
      assert (x - n as real) * k >= 0.0;
      assert (x - n as real) * k == x * k - n as real * k;
    } else {
      assert (n as real - x) * k > 0.0;
      assert (n as real - x) * k == n as real * k - x * k;
    }
    if x > n as real {
      assert (x - n as real) * k > 0.0;
      assert (x - n as real) * k == x * k - n as real * k;
    } else {
      assert (n as real - x) * k >= 0.0;
      assert (n as real - x) * k == n as real * k - x * k;
    }
  }

  lemma EstimateDecides(r: Rolling, duration: nat, now: int, limit: nat)
    requires duration > 0 && r.start <= now < r.start + duration
    ensures Effective(r, duration, now) >= limit as real <==> Estimate(r, duration, now) >= limit * duration
  {
    EffectiveIsEstimate(r, duration, now);
    ScaleComparison(Effective(r, duration, now), limit, duration, Estimate(r, duration, now));
  }

  /** A call is denied exactly when the estimate over the admission log has reached the limit. */
  lemma DeniedExactlyWhenFull(run: seq<Attempt>, duration: nat, a: Attempt)
    requires SlidingRun(run, duration) && UpTo(run, a.at)
    requires a.limit.algorithm.SlidingWindowCounter? && a.limit.duration == duration
    ensures var s := Run(run);
            !Decide(s, a).allowed
            <==> Estimate(LogPair(s.log, duration, a.at), duration, a.at / 1000) >= a.limit.count * duration
  {
    PairRefinesLog(run, duration, a.at);
    AlignFacts(a.at / 1000, duration);
    var r := LogPair(Run(run).log, duration, a.at);
    EstimateDecides(r, duration, a.at / 1000, a.limit.count);
  }

  // ---------- bounds over the whole run ----------

  /** With one admission taken back, the estimate lies below the largest limit. */
  ghost predicate Slack(log: seq<int>, duration: nat, bound: nat, nowMs: int)
    requires duration > 0
  {
    var r := LogPair(log, duration, nowMs);
    r.current >= 1 ==> Estimate(r.(current := r.current - 1), duration, nowMs / 1000) < bound * duration
  }

  /** Within a window the previous count weighs less and less. */
  lemma EstimateShrinks(r: Rolling, duration: nat, now: int, later: int)
    requires r.previous >= 0 && now <= later
    ensures Estimate(r, duration, later) <= Estimate(r, duration, now)
  {
    MulMonotone(duration - (later - r.start), duration - (now - r.start), r.previous);
  }

  lemma PairAfterAdmission(log: seq<int>, at: nat, duration: nat, nowMs: nat)
    requires duration > 0 && Align(at / 1000, duration) == Align(nowMs / 1000, duration)
    ensures var r := LogPair(log, duration, at);
            LogPair(log + [at], duration, nowMs) == r.(current := r.current + 1)
  {
    var start := Align(at / 1000, duration);
    AlignFacts(at / 1000, duration);
    CountAppend(log, at, 1000 * start, 1000 * (start + duration));
    CountAppend(log, at, 1000 * (start - duration), 1000 * start);
  }

  lemma NewWindowIsEmpty(log: seq<int>, at: nat, duration: nat, nowMs: nat)
    requires duration > 0 && at <= nowMs && Align(at / 1000, duration) != Align(nowMs / 1000, duration)
    requires forall i | 0 <= i < |log| :: log[i] <= at
    ensures LogPair(log, duration, nowMs).current == 0
  {
    var start, next := Align(at / 1000, duration), Align(nowMs / 1000, duration);
    AlignFacts(at / 1000, duration);
    AlignMonotone(at / 1000, nowMs / 1000, duration);
    AlignFacts(nowMs / 1000, duration);
    AlignedGap(start, next, duration);
    CountNone(log, 1000 * next, 1000 * (next + duration));
  }

  lemma SlackAfterAdmission(log: seq<int>, at: nat, duration: nat, bound: nat, nowMs: nat)
    requires duration > 0 && at <= nowMs
    requires forall i | 0 <= i < |log| :: log[i] <= at
    requires Estimate(LogPair(log, duration, at), duration, at / 1000) < bound * duration
    ensures Slack(log + [at], duration, bound, nowMs)
  {
    if Align(at / 1000, duration) == Align(nowMs / 1000, duration) {
      PairAfterAdmission(log, at, duration, nowMs);
      EstimateShrinks(LogPair(log, duration, at), duration, at / 1000, nowMs / 1000);
    } else {
      NewWindowIsEmpty(log + [at], at, duration, nowMs);
    }
  }

  /** In every reachable state the estimate exceeds the limit by less than one message. */
  lemma {:induction false} EstimateBound(run: seq<Attempt>, duration: nat, bound: nat, nowMs: nat)
    requires SlidingRun(run, duration) && UpTo(run, nowMs) && CountsAtMost(run, bound)
    ensures Slack(Run(run).log, duration, bound, nowMs)
  {
    if run != [] {
      var init, last := run[..|run| - 1], run[|run| - 1];
      var s := Run(init);
      if Decide(s, last).allowed {
        RunFaithful(init, duration, last.at);
        DeniedExactlyWhenFull(init, duration, last);
        MulMonotone(last.limit.count, bound, duration);
        SlackAfterAdmission(s.log, last.at, duration, bound, nowMs);
      } else {
        EstimateBound(init, duration, bound, nowMs);
      }
    }
  }

  lemma OpenWindowWithinBound(log: seq<int>, duration: nat, bound: nat, start: int, nowMs: nat)
    requires duration > 0 && Aligned(start, duration) && 1000 * start <= nowMs < 1000 * (start + duration)
    requires Slack(log, duration, bound, nowMs)
    ensures InWindow(log, start, duration) <= bound
  {
    AlignFacts(nowMs / 1000, duration);
    AlignedGap(start, Align(nowMs / 1000, duration), duration);
    AlignedGap(Align(nowMs / 1000, duration), start, duration);
    CurrentWithinBound(LogPair(log, duration, nowMs), duration, bound, nowMs / 1000);
  }

  lemma UnfinishedWindowBound(log: seq<int>, duration: nat, bound: nat, start: int, nowMs: nat)
    requires duration > 0 && Aligned(start, duration) && nowMs < 1000 * (start + duration)
    requires Slack(log, duration, bound, nowMs) && forall i | 0 <= i < |log| :: log[i] <= nowMs
    ensures InWindow(log, start, duration) <= bound
  {
    if nowMs < 1000 * start {
      CountNone(log, 1000 * start, 1000 * (start + duration));
    } else {
      OpenWindowWithinBound(log, duration, bound, start, nowMs);
    }
  }

  /** No aligned window, past or current, admits more than the largest limit in use. */
  lemma {:induction false} WindowBound(run: seq<Attempt>, duration: nat, bound: nat, start: int)
    requires SlidingRun(run, duration) && CountsAtMost(run, bound) && Aligned(start, duration)
    ensures InWindow(Run(run).log, start, duration) <= bound
  {
    if run != [] {
      var init, last := run[..|run| - 1], run[|run| - 1].at;
      if last >= 1000 * (start + duration) {
        WindowBound(init, duration, bound, start);
        LaterAttemptsDoNotCount(run, 1000 * start, 1000 * (start + duration));
      } else {
        EstimateBound(run, duration, bound, last);
        RunConsistent(run, SlidingWindowCounter, duration, last);
        UnfinishedWindowBound(Run(run).log, duration, bound, start, last);
      }
    }
  }

  lemma CurrentWithinBound(r: Rolling, duration: nat, bound: nat, now: int)
    requires duration > 0 && r.previous >= 0 && r.start <= now < r.start + duration
    requires r.current >= 1 ==> Estimate(r.(current := r.current - 1), duration, now) < bound * duration
    ensures r.current <= bound
  {
    MulMonotone(0, duration - (now - r.start), r.previous);
    if r.current > bound {
      MulMonotone(bound, r.current - 1, duration);
    }
  }

  lemma TwoWindowsCover(log: seq<int>, from: int, start: int, duration: nat)
    requires 1000 * start <= from < 1000 * (start + duration)
    ensures CountWithin(log, from, 1000 * duration)
            <= InWindow(log, start, duration) + InWindow(log, start + duration, duration)
  {
    CountSplit(log, 1000 * start, from, 1000 * (start + 2 * duration));
    CountSplit(log, from, from + 1000 * duration, 1000 * (start + 2 * duration));
    CountSplit(log, 1000 * start, 1000 * (start + duration), 1000 * (start + 2 * duration));
  }

  lemma NextAligned(start: int, duration: nat)
    requires duration > 0 && Aligned(start, duration)
    ensures Aligned(start + duration, duration)
  {
    var k := start / duration;
    assert start + duration == (k + 1) * duration;
    MultipleDividesBack(k + 1, duration);
  }

  /** Any stretch of `duration` seconds, wherever it starts, admits at most twice the largest limit. */
  lemma StretchBound(run: seq<Attempt>, duration: nat, bound: nat, from: int)
    requires SlidingRun(run, duration) && CountsAtMost(run, bound)
    ensures CountWithin(Run(run).log, from, 1000 * duration) <= 2 * bound
  {
    var start := Align(from / 1000, duration);
    AlignFacts(from / 1000, duration);
    NextAligned(start, duration);
    WindowBound(run, duration, bound, start);
    WindowBound(run, duration, bound, start + duration);
    TwoWindowsCover(Run(run).log, from, start, duration);
  }

  lemma RecentAtMostPair(log: seq<int>, duration: nat, nowMs: nat)
    requires duration > 0
    ensures var r := LogPair(log, duration, nowMs);
            CountIn(log, 1000 * (nowMs / 1000 - duration + 1), nowMs + 1) <= r.previous + r.current
  {
    var now := nowMs / 1000;
    var start := Align(now, duration);
    AlignFacts(now, duration);
    CountSplit(log, 1000 * (start - duration), 1000 * (now - duration + 1), nowMs + 1);
    CountSplit(log, 1000 * (start - duration), nowMs + 1, 1000 * (start + duration));
    CountSplit(log, 1000 * (start - duration), 1000 * start, 1000 * (start + duration));
  }

  lemma TrailingArithmetic(r: Rolling, recent: int, duration: nat, bound: nat, now: int)
    requires recent <= r.previous + r.current
    requires Estimate(r.(current := r.current - 1), duration, now) < bound * duration
    ensures (recent - 1) * duration < bound * duration + r.previous * (now - r.start)
  {
    MulMonotone(recent - 1, r.current - 1 + r.previous, duration);
    assert (r.current - 1 + r.previous) * duration == (r.current - 1) * duration + r.previous * duration;
    assert r.previous * (duration - (now - r.start)) == r.previous * duration - r.previous * (now - r.start);
  }

  /**
   * The same bound made precise: `elapsed` seconds into a window, the last `duration` seconds hold fewer than
   * bound + 1 + previous * elapsed / duration admissions.
   */
  lemma TrailingBound(run: seq<Attempt>, duration: nat, bound: nat, nowMs: nat)
    requires SlidingRun(run, duration) && UpTo(run, nowMs) && CountsAtMost(run, bound)
    ensures var log, r := Run(run).log, LogPair(Run(run).log, duration, nowMs);
            var recent := CountIn(log, 1000 * (nowMs / 1000 - duration + 1), nowMs + 1);
            r.current >= 1 ==> (recent - 1) * duration < bound * duration + r.previous * (nowMs / 1000 - r.start)
  {
    var log := Run(run).log;
    var r := LogPair(log, duration, nowMs);
    EstimateBound(run, duration, bound, nowMs);
    RecentAtMostPair(log, duration, nowMs);
    if r.current >= 1 {
      TrailingArithmetic(
        r, CountIn(log, 1000 * (nowMs / 1000 - duration + 1), nowMs + 1), duration, bound, nowMs / 1000);
    }
  }

  /**
   * After a window that used up the limit, at most ceil(limit * elapsed / duration) messages pass by `elapsed`
   * seconds.
   */
  lemma AfterSaturatedWindow(run: seq<Attempt>, duration: nat, limit: nat, nowMs: nat)
    requires SlidingRun(run, duration) && UpTo(run, nowMs) && CountsAtMost(run, limit)
    requires LogPair(Run(run).log, duration, nowMs).previous == limit
    ensures var r := LogPair(Run(run).log, duration, nowMs);
            r.current <= CeilDiv(limit * (nowMs / 1000 - r.start), duration)
  {
    var r := LogPair(Run(run).log, duration, nowMs);
    var elapsed := nowMs / 1000 - r.start;
    AlignFacts(nowMs / 1000, duration);
    EstimateBound(run, duration, limit, nowMs);
    var q := CeilDiv(limit * elapsed, duration);
    assert limit * (duration - elapsed) == limit * duration - limit * elapsed;
    MulMonotone(0, elapsed, limit);
    if r.current > q {
      if r.current >= 1 {
        MulMonotone(q, r.current - 1, duration);
      }
    }
  }

  // ---------- expiry ----------

  lemma ExpiredAnswer(s: KeyState, l: RateLimit, nowMs: nat)
    requires l.algorithm.SlidingWindowCounter? && l.duration > 0 && Faithful(s, nowMs, l.duration)
    ensures SameAnswer(VerdictFor(l, Visible(s.entry, nowMs), nowMs), VerdictFor(l, RawFields(s.entry), nowMs))
  {
    RolledIsLogPair(s, l.duration, nowMs);
    if s.entry.Some? && !Live(s.entry, nowMs) {
      var r := LogPair(s.log, l.duration, nowMs);
      assert Bumped(s.entry.value.fields, r) == Bumped(map[], r);
    }
  }

  /** Dropping the key one time to live after its last admission changes no decision and no reported usage. */
  lemma {:induction false} ExpiryInvisible(run: seq<Attempt>, duration: nat, next: Attempt)
    requires SlidingRun(run, duration) && UpTo(run, next.at)
    requires next.limit.algorithm.SlidingWindowCounter? && next.limit.duration == duration
    ensures Run(run) == Immortal(run)
    ensures SameAnswer(Decide(Run(run), next), VerdictFor(next.limit, RawFields(Immortal(run).entry), next.at))
  {
    if run != [] {
      ExpiryInvisible(run[..|run| - 1], duration, run[|run| - 1]);
    }
    RunFaithful(run, duration, next.at);
    ExpiredAnswer(Run(run), next.limit, next.at);
  }
}
