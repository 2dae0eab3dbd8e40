/** One counter over a whole run: every script call on its key, in the order in which Redis executes them. */
module KeyRuns {
  import opened Prelude
  import opened RedisStore
  import opened Limits
  import opened Scripts

  datatype Attempt = Attempt(at: nat, limit: RateLimit)

  /** The stored entry, and the times (in milliseconds) of the calls admitted so far. */
  datatype KeyState = KeyState(entry: Option<Entry>, log: seq<int>)

  /** All attempts agree on algorithm and duration, as attempts on one key must; counts and rates may vary. */
  ghost predicate Uniform(run: seq<Attempt>, a: Algorithm, duration: nat) {
    (a.SlidingWindowCounter? ==> duration > 0) &&
    forall i | 0 <= i < |run| :: run[i].limit.algorithm == a && run[i].limit.duration == duration
  }

  /** The clock never goes back. */
  ghost predicate Ordered(run: seq<Attempt>) {
    forall i, j | 0 <= i <= j < |run| :: run[i].at <= run[j].at
  }

  ghost predicate UpTo(run: seq<Attempt>, nowMs: int) {
    forall i | 0 <= i < |run| :: run[i].at <= nowMs
  }

  ghost predicate CountsAtMost(run: seq<Attempt>, bound: nat) {
    forall i | 0 <= i < |run| :: run[i].limit.count <= bound
  }

  predicate AllCountable(run: seq<Attempt>) {
    forall i | 0 <= i < |run| :: Countable(run[i].limit)
  }

  function Decide(s: KeyState, a: Attempt): Verdict
    requires Countable(a.limit)
  {
    VerdictFor(a.limit, Visible(s.entry, a.at), a.at)
  }

  function Record(s: KeyState, at: nat, ttl: nat, v: Verdict): KeyState {
    if v.allowed then KeyState(Some(Entry(v.fields, Some(at + 1000 * ttl))), s.log + [at]) else s
  }

  function Advance(s: KeyState, a: Attempt): KeyState
    requires Countable(a.limit)
  {
    Record(s, a.at, TtlSeconds(a.limit), Decide(s, a))
  }

  function Run(run: seq<Attempt>): KeyState
    requires AllCountable(run)
  {
    if run == [] then KeyState(None, []) else Advance(Run(run[..|run| - 1]), run[|run| - 1])
  }

  lemma RunAppend(run: seq<Attempt>, a: Attempt)
    requires AllCountable(run) && Countable(a.limit)
    ensures AllCountable(run + [a]) && Run(run + [a]) == Advance(Run(run), a)
  {
    assert (run + [a])[..|run|] == run;
  }

  function Ttl(a: Algorithm, duration: nat): nat {
    TtlSeconds(RateLimit(0, duration, 0.0, a, false))
  }

  /** The log is sorted, never ahead of the clock, and the entry expires one time to live after the last admission. */
  ghost predicate Consistent(s: KeyState, nowMs: int, ttl: nat) {
    && Nondecreasing(s.log)
    && (forall i | 0 <= i < |s.log| :: 0 <= s.log[i] <= nowMs)
    && (s.entry.None? <==> s.log == [])
    && (s.entry.Some? ==> s.entry.value.expireAt == Some(s.log[|s.log| - 1] + 1000 * ttl))
  }

  lemma RecordConsistent(s: KeyState, before: int, at: nat, ttl: nat, v: Verdict)
    requires Consistent(s, before, ttl) && before <= at
    ensures Consistent(Record(s, at, ttl, v), at, ttl)
  {
  }

  lemma AdvanceConsistent(s: KeyState, a: Attempt, ttl: nat)
    requires Countable(a.limit) && Consistent(s, a.at, ttl) && ttl == TtlSeconds(a.limit)
    ensures Consistent(Advance(s, a), a.at, ttl)
  {
    RecordConsistent(s, a.at, a.at, ttl, Decide(s, a));
  }

  lemma ConsistentLater(s: KeyState, before: int, nowMs: int, ttl: nat)
    requires Consistent(s, before, ttl) && before <= nowMs
    ensures Consistent(s, nowMs, ttl)
  {
  }

  lemma {:induction false} RunConsistent(run: seq<Attempt>, a: Algorithm, duration: nat, nowMs: int)
    requires Ordered(run) && Uniform(run, a, duration) && UpTo(run, nowMs)
    ensures Consistent(Run(run), nowMs, Ttl(a, duration))
  {
    if run != [] {
      var init, last := run[..|run| - 1], run[|run| - 1];
      RunConsistent(init, a, duration, last.at);
      AdvanceConsistent(Run(init), last, Ttl(a, duration));
      ConsistentLater(Run(run), last.at, nowMs, Ttl(a, duration));
    }
  }

  /** Attempts made at or after `hi` leave the count of [lo, hi) as it was. */
  lemma LaterAttemptsDoNotCount(run: seq<Attempt>, lo: int, hi: int)
    requires AllCountable(run) && run != [] && run[|run| - 1].at >= hi
    ensures CountIn(Run(run).log, lo, hi) == CountIn(Run(run[..|run| - 1]).log, lo, hi)
  {
    var s := Run(run[..|run| - 1]);
    CountAppend(s.log, run[|run| - 1].at, lo, hi);
    assert Run(run) == Advance(s, run[|run| - 1]);
  }

  // ---------- the same run on a store that never expires a key ----------

  function RawFields(e: Option<Entry>): Hash {
    if e.Some? then e.value.fields else map[]
  }

  function Immortal(run: seq<Attempt>): KeyState
    requires AllCountable(run)
  {
    if run == [] then KeyState(None, [])
    else
      var s, a := Immortal(run[..|run| - 1]), run[|run| - 1];
      Record(s, a.at, TtlSeconds(a.limit), VerdictFor(a.limit, RawFields(s.entry), a.at))
  }

  predicate SameAnswer(v: Verdict, w: Verdict) {
    v.allowed == w.allowed && v.usage == w.usage && (v.allowed ==> v.fields == w.fields)
  }
}
