/** Whole-run properties of the fixed window. Limits may change from call to call, as adaptive scaling makes them. */
module FixedWindowRuns {
  import opened Prelude
  import opened RedisStore
  import opened Limits
  import opened Scripts
  import opened KeyRuns

  ghost predicate FixedRun(run: seq<Attempt>, duration: nat) {
    Ordered(run) && Uniform(run, FixedWindow, duration)
  }

  /**
   * The stored pair describes the tail of the log: the last `count` admissions, the first of which opened the window.
   */
  ghost predicate Describes(f: Hash, log: seq<int>, duration: nat) {
    && f.Keys == {Count, WindowStart}
    && 1 <= f[Count] <= |log|
    && log[|log| - f[Count]] / 1000 == f[WindowStart]
    && (forall i | |log| - f[Count] <= i < |log| :: 1000 * f[WindowStart] <= log[i])
    && (forall i | 0 <= i < |log| - f[Count] && duration > 0 :: log[i] < 1000 * f[WindowStart])
    && (f[Count] > 1 ==> log[|log| - 1] / 1000 - f[WindowStart] < duration)
  }

  lemma AdmissionDescribed(s: KeyState, a: Attempt, before: nat, duration: nat)
    requires a.limit.algorithm.FixedWindow? && a.limit.duration == duration
    requires before <= a.at && Consistent(s, before, duration + 60)
    requires s.entry.Some? ==> Describes(s.entry.value.fields, s.log, duration)
    ensures var s' := Advance(s, a); s'.entry.Some? ==> Describes(s'.entry.value.fields, s'.log, duration)
  {
  }

  lemma {:induction false} StateDescribesLog(run: seq<Attempt>, duration: nat)
    requires FixedRun(run, duration)
    ensures var s := Run(run); s.entry.Some? ==> Describes(s.entry.value.fields, s.log, duration)
  {
    if run != [] {
      var init, last := run[..|run| - 1], run[|run| - 1];
      StateDescribesLog(init, duration);
      RunConsistent(init, FixedWindow, duration, last.at);
      AdmissionDescribed(Run(init), last, last.at, duration);
    }
  }

  lemma {:induction false} CountTail(log: seq<int>, k: nat, lo: int, hi: int)
    requires k <= |log|
    requires forall i | |log| - k <= i < |log| :: lo <= log[i] < hi
    requires forall i | 0 <= i < |log| - k :: !(lo <= log[i] < hi)
    ensures CountIn(log, lo, hi) == k
  {
    if k == 0 {
      CountNone(log, lo, hi);
    } else {
      CountTail(log[..|log| - 1], k - 1, lo, hi);
    }
  }

  lemma OpenWindow(s: KeyState, duration: nat, nowMs: nat)
    requires duration > 0 && Consistent(s, nowMs, duration + 60)
    requires s.entry.Some? ==> Describes(s.entry.value.fields, s.log, duration)
    ensures var w := CurrentWindow(Visible(s.entry, nowMs), duration, nowMs / 1000);
            && nowMs / 1000 - duration < w.start <= nowMs / 1000
            && 0 <= w.count <= |s.log|
            && (forall i | |s.log| - w.count <= i < |s.log| :: 1000 * w.start <= s.log[i] < nowMs + 1)
            && (forall i | 0 <= i < |s.log| - w.count :: s.log[i] < 1000 * w.start)
  {
  }

  /**
   * What the next call compares with its limit is the number of admissions since the window opened,
   * and the window opened less than one duration ago.
   */
  lemma CounterIsAdmissionsSinceStart(run: seq<Attempt>, duration: nat, nowMs: nat)
    requires FixedRun(run, duration) && UpTo(run, nowMs) && duration > 0
    ensures var s := Run(run);
            var w := CurrentWindow(Visible(s.entry, nowMs), duration, nowMs / 1000);
            && nowMs / 1000 - duration < w.start <= nowMs / 1000
            && w.count == CountIn(s.log, 1000 * w.start, nowMs + 1)
  {
    StateDescribesLog(run, duration);
    RunConsistent(run, FixedWindow, duration, nowMs);
    OpenWindowCount(Run(run), duration, nowMs);
  }

  lemma OpenWindowCount(s: KeyState, duration: nat, nowMs: nat)
    requires duration > 0 && Consistent(s, nowMs, duration + 60)
    requires s.entry.Some? ==> Describes(s.entry.value.fields, s.log, duration)
    ensures var w := CurrentWindow(Visible(s.entry, nowMs), duration, nowMs / 1000);
            nowMs / 1000 - duration < w.start <= nowMs / 1000 && w.count == CountIn(s.log, 1000 * w.start, nowMs + 1)
  {
    OpenWindow(s, duration, nowMs);
    var w := CurrentWindow(Visible(s.entry, nowMs), duration, nowMs / 1000);
    CountTail(s.log, w.count, 1000 * w.start, nowMs + 1);
  }

  /**
   * A call is denied exactly when `limit` messages went through since the window opened, less than one duration ago.
   */
  lemma DenialIsJustified(run: seq<Attempt>, duration: nat, a: Attempt)
    requires FixedRun(run, duration) && UpTo(run, a.at) && duration > 0
    requires a.limit.algorithm.FixedWindow? && a.limit.duration == duration
    ensures var s := Run(run);
            var start := CurrentWindow(Visible(s.entry, a.at), duration, a.at / 1000).start;
            !Decide(s, a).allowed <==> CountIn(s.log, 1000 * start, a.at + 1) >= a.limit.count
    ensures !Decide(Run(run), a).allowed
            ==> CountIn(Run(run).log, 1000 * (a.at / 1000 - duration + 1), a.at + 1) >= a.limit.count
  {
    CounterIsAdmissionsSinceStart(run, duration, a.at);
    var s := Run(run);
    var start := CurrentWindow(Visible(s.entry, a.at), duration, a.at / 1000).start;
    CountSplit(s.log, 1000 * (a.at / 1000 - duration + 1), 1000 * start, a.at + 1);
  }

  // ---------- bounds over the whole run ----------

  /** No counter window admits more than the largest limit that any call used. */
  lemma {:induction false} WindowNeverExceeds(run: seq<Attempt>, duration: nat, bound: nat)
    requires FixedRun(run, duration) && CountsAtMost(run, bound)
    ensures var s := Run(run);
            s.entry.Some? ==> Describes(s.entry.value.fields, s.log, duration) && s.entry.value.fields[Count] <= bound
  {
    StateDescribesLog(run, duration);
    if run != [] {
      WindowNeverExceeds(run[..|run| - 1], duration, bound);
    }
  }

  /**
   * The most that the windows opened from `from` to `start` can have admitted. Here and below moments and lengths of
   * time are in milliseconds; a window opens on a whole second.
   */
  function OpenedSince(start: int, from: int, lengthMs: nat, bound: nat): nat
    requires lengthMs > 0
  {
    if start < from then 0 else bound * ((start - from) / lengthMs + 1)
  }

  lemma OpenedGrows(start: int, next: int, from: int, lengthMs: nat, bound: nat)
    requires lengthMs > 0 && next >= from && next >= start + lengthMs
    ensures OpenedSince(next, from, lengthMs, bound) >= OpenedSince(start, from, lengthMs, bound) + bound
  {
    var j := (next - from) / lengthMs;
    if start < from {
      DivAtLeast(next - from, lengthMs, 0);
      MulMonotone(1, j + 1, bound);
    } else {
      var k := (start - from) / lengthMs;
      assert start - from == k * lengthMs + (start - from) % lengthMs;
      DivAtLeast(next - from, lengthMs, k + 1);
      MulMonotone(k + 2, j + 1, bound);
    }
  }

  /** Admissions since `from`: those of the open window, and `bound` for each window before it. */
  ghost predicate Budgeted(s: KeyState, duration: nat, bound: nat, from: int, hi: int)
    requires duration > 0
    requires s.entry.Some? ==> Describes(s.entry.value.fields, s.log, duration)
  {
    s.entry.Some? ==>
      CountIn(s.log, from, hi)
      <= s.entry.value.fields[Count]
          + OpenedSince(1000 * s.entry.value.fields[WindowStart], from, 1000 * duration, bound)
  }

  lemma BudgetKept(s: KeyState, a: Attempt, duration: nat, bound: nat, from: int, hi: int)
    requires duration > 0 && a.limit.algorithm.FixedWindow? && a.limit.duration == duration
    requires Consistent(s, a.at, duration + 60)
    requires s.entry.Some? ==> Describes(s.entry.value.fields, s.log, duration)
    requires s.entry.Some? ==> s.entry.value.fields[Count] <= bound
    requires bound >= 1 && Budgeted(s, duration, bound, from, hi)
    requires Decide(s, a).allowed
    ensures var s' := Advance(s, a);
            Describes(s'.entry.value.fields, s'.log, duration) && Budgeted(s', duration, bound, from, hi)
  {
    AdmissionDescribed(s, a, a.at, duration);
    CountAppend(s.log, a.at, from, hi);
    var start := 1000 * (a.at / 1000);
    if s.entry.None? {
      CountNone(s.log, from, hi);
    } else if a.at / 1000 - s.entry.value.fields[WindowStart] >= duration {
      if start < from {
        CountNone(s.log, from, hi);
      } else {
        OpenedGrows(1000 * s.entry.value.fields[WindowStart], start, from, 1000 * duration, bound);
      }
    }
  }

  lemma {:induction false} RunBudget(run: seq<Attempt>, duration: nat, bound: nat, from: int, hi: int)
    requires FixedRun(run, duration) && CountsAtMost(run, bound) && duration > 0 && bound >= 1
    ensures var s := Run(run);
            (s.entry.Some? ==> Describes(s.entry.value.fields, s.log, duration))
            && Budgeted(s, duration, bound, from, hi)
  {
    if run != [] {
      var init, last := run[..|run| - 1], run[|run| - 1];
      RunBudget(init, duration, bound, from, hi);
      WindowNeverExceeds(init, duration, bound);
      RunConsistent(init, FixedWindow, duration, last.at);
      if Decide(Run(init), last).allowed {
        BudgetKept(Run(init), last, duration, bound, from, hi);
      }
    }
  }

  lemma SpanArithmetic(start: int, from: int, lengthMs: nat, bound: nat, q: nat)
    requires lengthMs > 0 && start - from < q * lengthMs
    ensures OpenedSince(start, from, lengthMs, bound) <= bound * q
  {
    if start >= from {
      var k := (start - from) / lengthMs;
      assert start - from == k * lengthMs + (start - from) % lengthMs;
      if k + 1 > q {
        MulMonotone(q, k, lengthMs);
      }
      MulMonotone(k + 1, q, bound);
    }
  }

  lemma {:induction false} NothingAdmitted(run: seq<Attempt>, duration: nat)
    requires FixedRun(run, duration) && CountsAtMost(run, 0)
    ensures Run(run).log == []
  {
    if run != [] {
      NothingAdmitted(run[..|run| - 1], duration);
      StateDescribesLog(run[..|run| - 1], duration);
    }
  }

  /** Admissions in the last stretch of a run, of at most `q` durations. */
  lemma SpanAtEnd(run: seq<Attempt>, duration: nat, bound: nat, from: int, hi: int, q: nat)
    requires FixedRun(run, duration) && CountsAtMost(run, bound) && duration > 0 && bound >= 1
    requires run != [] && run[|run| - 1].at < hi && hi - from <= q * (1000 * duration)
    ensures CountIn(Run(run).log, from, hi) <= bound * q + bound
  {
    var s := Run(run);
    RunBudget(run, duration, bound, from, hi);
    WindowNeverExceeds(run, duration, bound);
    RunConsistent(run, FixedWindow, duration, run[|run| - 1].at);
    if s.entry.Some? {
      SpanArithmetic(1000 * s.entry.value.fields[WindowStart], from, 1000 * duration, bound, q);
    } else {
      MulMonotone(0, q, bound);
    }
  }

  /**
   * A span that fits in `q` durations admits at most bound * (q + 1) messages, wherever it lies in any run and where
   * `bound` is the largest limit in use.
   */
  lemma {:induction false} SpanBound(run: seq<Attempt>, duration: nat, bound: nat, from: int, hi: int, q: nat)
    requires FixedRun(run, duration) && CountsAtMost(run, bound) && duration > 0
    requires hi - from <= q * (1000 * duration)
    ensures CountIn(Run(run).log, from, hi) <= bound * q + bound
  {
    MulMonotone(0, q, bound);
    if run == [] {
    } else if bound == 0 {
      NothingAdmitted(run, duration);
    } else if run[|run| - 1].at >= hi {
      SpanBound(run[..|run| - 1], duration, bound, from, hi, q);
      LaterAttemptsDoNotCount(run, from, hi);
    } else {
      SpanAtEnd(run, duration, bound, from, hi, q);
    }
  }

  // ---------- the documented promise ----------

  /** "At most `count` messages per `duration`", for any stretch of that length in any run under this one limit. */
  ghost predicate KeepsPromise(l: RateLimit)
    requires l.algorithm.FixedWindow?
  {
    forall run: seq<Attempt>, from: int | FixedRun(run, l.duration) && UnderLimit(run, l) ::
      CountWithin(Run(run).log, from, 1000 * l.duration) <= l.count
  }

  ghost predicate UnderLimit(run: seq<Attempt>, l: RateLimit) {
    forall i | 0 <= i < |run| :: run[i].limit == l
  }

  /** `n` calls in millisecond 999, then `m` calls in the first millisecond of second `duration`. */
  function TwoBursts(l: RateLimit, n: nat, m: nat): seq<Attempt> {
    seq(n, i => Attempt(999, l)) + seq(m, i => Attempt(1000 * l.duration, l))
  }

  lemma TwoBurstsLegal(l: RateLimit, n: nat, m: nat)
    requires l.algorithm.FixedWindow? && l.duration > 0
    ensures FixedRun(TwoBursts(l, n, m), l.duration) && UnderLimit(TwoBursts(l, n, m), l)
  {
  }

  /** Where a burst has brought the counter: `count` admissions in the window of second `start`. */
  ghost predicate After(s: KeyState, l: RateLimit, at: nat, count: nat) {
    s.entry == if count == 0 then None
               else Some(Entry(map[Count := count, WindowStart := at / 1000], Some(at + 1000 * (l.duration + 60))))
  }

  lemma {:induction false} FirstBurst(l: RateLimit, n: nat)
    requires l.algorithm.FixedWindow? && l.duration > 0 && n <= l.count
    ensures AllCountable(TwoBursts(l, n, 0))
    ensures var s := Run(TwoBursts(l, n, 0));
            After(s, l, 999, n) && CountWithin(s.log, 999, 1000 * l.duration) == n
  {
    if n > 0 {
      FirstBurst(l, n - 1);
      var a, init := Attempt(999, l), TwoBursts(l, n - 1, 0);
      assert TwoBursts(l, n, 0) == init + [a];
      RunAppend(init, a);
      FirstBurstGrows(Run(init), l, n);
    }
  }

  lemma FirstBurstGrows(s: KeyState, l: RateLimit, n: nat)
    requires l.algorithm.FixedWindow? && l.duration > 0 && 1 <= n <= l.count && After(s, l, 999, n - 1)
    ensures var s' := Advance(s, Attempt(999, l));
            After(s', l, 999, n)
            && CountWithin(s'.log, 999, 1000 * l.duration) == CountWithin(s.log, 999, 1000 * l.duration) + 1
  {
    BurstGrows(s, Attempt(999, l), n, 0);
    CountAppend(s.log, 999, 999, 999 + 1000 * l.duration);
  }

  lemma {:induction false} SecondBurst(l: RateLimit, n: nat, m: nat)
    requires l.algorithm.FixedWindow? && l.duration > 0 && n <= l.count && m <= l.count && n > 0
    ensures AllCountable(TwoBursts(l, n, m))
    ensures var s := Run(TwoBursts(l, n, m));
            && (if m == 0 then After(s, l, 999, n) else After(s, l, 1000 * l.duration, m))
            && CountWithin(s.log, 999, 1000 * l.duration) == n + m
  {
    if m == 0 {
      FirstBurst(l, n);
    } else {
      SecondBurst(l, n, m - 1);
      var a, init := Attempt(1000 * l.duration, l), TwoBursts(l, n, m - 1);
      assert TwoBursts(l, n, m) == init + [a];
      RunAppend(init, a);
      SecondBurstGrows(Run(init), l, n, m);
    }
  }

  lemma SecondBurstGrows(s: KeyState, l: RateLimit, n: nat, m: nat)
    requires l.algorithm.FixedWindow? && l.duration > 0 && n > 0 && 1 <= m <= l.count
    requires if m == 1 then After(s, l, 999, n) else After(s, l, 1000 * l.duration, m - 1)
    ensures var s' := Advance(s, Attempt(1000 * l.duration, l));
            After(s', l, 1000 * l.duration, m)
            && CountWithin(s'.log, 999, 1000 * l.duration) == CountWithin(s.log, 999, 1000 * l.duration) + 1
  {
    var a := Attempt(1000 * l.duration, l);
    assert a.at / 1000 == l.duration;
    BurstGrows(s, a, m, l.duration);
    CountAppend(s.log, a.at, 999, 999 + 1000 * l.duration);
  }

  lemma BurstGrows(s: KeyState, a: Attempt, count: nat, start: nat)
    requires a.limit.algorithm.FixedWindow? && 1 <= count <= a.limit.count && a.limit.duration > 0
    requires start == a.at / 1000
    requires CurrentWindow(Visible(s.entry, a.at), a.limit.duration, start) == Window(count - 1, start)
    requires Visible(s.entry, a.at).Keys <= {Count, WindowStart}
    ensures Advance(s, a).log == s.log + [a.at] && After(Advance(s, a), a.limit, a.at, count)
  {
    var f := Visible(s.entry, a.at);
    assert f[Count := count][WindowStart := start] == map[Count := count, WindowStart := start];
  }

  /**
   * The promise is kept only by a limit that admits nothing: otherwise a burst at the end of the second in which a
   * window opens, and one as soon as the next may open, put twice the limit into one duration.
   */
  lemma PromiseKeptExactlyWhenClosed(l: RateLimit)
    requires l.algorithm.FixedWindow? && l.duration > 0
    ensures KeepsPromise(l) <==> l.count == 0
  {
    if l.count == 0 {
      forall run: seq<Attempt>, from: int | FixedRun(run, l.duration) && UnderLimit(run, l)
        ensures CountWithin(Run(run).log, from, 1000 * l.duration) <= l.count
      {
        NothingAdmitted(run, l.duration);
      }
    } else {
      var run := TwoBursts(l, l.count, l.count);
      TwoBurstsLegal(l, l.count, l.count);
      SecondBurst(l, l.count, l.count);
      assert CountWithin(Run(run).log, 999, 1000 * l.duration) == 2 * l.count;
    }
  }

  // ---------- expiry ----------

  lemma ExpiredAnswer(s: KeyState, l: RateLimit, nowMs: nat)
    requires l.algorithm.FixedWindow? && Consistent(s, nowMs, l.duration + 60)
    requires s.entry.Some? ==> Describes(s.entry.value.fields, s.log, l.duration)
    ensures SameAnswer(VerdictFor(l, Visible(s.entry, nowMs), nowMs), VerdictFor(l, RawFields(s.entry), nowMs))
  {
    if s.entry.Some? && !Live(s.entry, nowMs) {
      var f := s.entry.value.fields;
      var now := nowMs / 1000;
      assert f[Count := 1][WindowStart := now] == map[Count := 1, WindowStart := now];
    }
  }

  /** Dropping the key one time to live after its last admission changes no decision and no reported usage. */
  lemma {:induction false} ExpiryInvisible(run: seq<Attempt>, duration: nat, next: Attempt)
    requires FixedRun(run, duration) && UpTo(run, next.at)
    requires next.limit.algorithm.FixedWindow? && next.limit.duration == duration
    ensures Run(run) == Immortal(run)
    ensures SameAnswer(Decide(Run(run), next), VerdictFor(next.limit, RawFields(Immortal(run).entry), next.at))
  {
    if run != [] {
      ExpiryInvisible(run[..|run| - 1], duration, run[|run| - 1]);
    }
    StateDescribesLog(run, duration);
    RunConsistent(run, FixedWindow, duration, next.at);
    ExpiredAnswer(Run(run), next.limit, next.at);
  }
}
