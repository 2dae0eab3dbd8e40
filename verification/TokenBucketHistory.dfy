/**
 * The closed form of the token bucket for one limit throughout: whatever its rate, the tokens are what a bucket that
 * refills on every tick would hold after the admissions that its key still knows of.
 */
module TokenBucketHistory {
  import opened Prelude
  import opened RedisStore
  import opened Limits
  import opened Scripts
  import opened KeyRuns
  import opened TokenBucketRuns

  // ---------- what the key still knows ----------

  /** The admissions since the key last expired: none if it has expired by now. */
  function Since(log: seq<int>, ttlMs: nat, nowMs: int): seq<int> {
    if log == [] || nowMs - log[|log| - 1] > ttlMs then []
    else Since(log[..|log| - 1], ttlMs, log[|log| - 1]) + [log[|log| - 1]]
  }

  function Kept(s: KeyState, l: RateLimit, nowMs: int): seq<int> {
    Since(s.log, 1000 * TtlSeconds(l), nowMs)
  }

  lemma SinceAppend(log: seq<int>, at: int, ttlMs: nat, nowMs: int)
    ensures Since(log + [at], ttlMs, nowMs) == if nowMs - at > ttlMs then [] else Since(log, ttlMs, at) + [at]
  {
    assert (log + [at])[..|log|] == log;
  }

  /** When the key was next written, or else now. */
  function Next(log: seq<int>, i: nat, nowMs: int): int {
    if i + 1 < |log| then log[i + 1] else nowMs
  }

  /** The key never expired between two admissions, nor since. */
  ghost predicate NeverExpired(log: seq<int>, ttlMs: nat, nowMs: int) {
    forall i | 0 <= i < |log| :: Next(log, i, nowMs) - log[i] <= ttlMs
  }

  lemma NeverExpiredAppend(log: seq<int>, at: int, ttlMs: nat, nowMs: int)
    ensures NeverExpired(log + [at], ttlMs, nowMs) <==> NeverExpired(log, ttlMs, at) && nowMs - at <= ttlMs
  {
    var all := log + [at];
    assert Next(all, |log|, nowMs) - all[|log|] == nowMs - at;
    assert forall i | 0 <= i < |log| :: Next(all, i, nowMs) - all[i] == Next(log, i, at) - log[i];
  }

  /** Everything is still known exactly when the key never expired. */
  lemma {:induction false} SinceIsAll(log: seq<int>, ttlMs: nat, nowMs: int)
    ensures Since(log, ttlMs, nowMs) == log <==> NeverExpired(log, ttlMs, nowMs)
  {
    if log != [] {
      var init, last := log[..|log| - 1], log[|log| - 1];
      SinceIsAll(init, ttlMs, last);
      assert init + [last] == log;
      SinceAppend(init, last, ttlMs, nowMs);
      NeverExpiredAppend(init, last, ttlMs, nowMs);
      if Since(log, ttlMs, nowMs) == log {
        assert Since(init, ttlMs, last) == (Since(init, ttlMs, last) + [last])[..|init|] == log[..|init|];
      }
    }
  }

  lemma {:induction false} SinceIsSuffix(log: seq<int>, ttlMs: nat, nowMs: int)
    ensures |Since(log, ttlMs, nowMs)| <= |log|
    ensures Since(log, ttlMs, nowMs) == log[|log| - |Since(log, ttlMs, nowMs)|..]
  {
    if log != [] && nowMs - log[|log| - 1] <= ttlMs {
      SinceIsSuffix(log[..|log| - 1], ttlMs, log[|log| - 1]);
    }
  }

  // ---------- the closed form ----------

  /** The tokens lie between the allowances that charge each admission one message, give or take the store error. */
  ghost predicate Accounted(s: KeyState, l: RateLimit, kept: seq<int>, nowMs: int) {
    Allowance(l, kept, nowMs, 1.0 + StoreError(l)) <= TokensNow(s, l, nowMs)
    <= Allowance(l, kept, nowMs, 1.0 - StoreError(l))
  }

  /** What an admission stores is the tokens less one message, give or take the store error. */
  function StoredTokens(s: KeyState, a: Attempt): real {
    RoundHalfEven((TokensNow(s, a.limit, a.at) - 1.0) * MICRO) as real / MICRO
  }

  lemma StoredTokensClose(s: KeyState, a: Attempt)
    ensures -StoreError(a.limit) <= StoredTokens(s, a) - (TokensNow(s, a.limit, a.at) - 1.0) <= StoreError(a.limit)
  {
    StoreWithinError(a.limit, Visible(s.entry, a.at), a.at);
  }

  lemma AllowanceSandwich(l: RateLimit, kept: seq<int>, at: int, nowMs: int, stored: real, tokens: real, error: real)
    requires -error <= stored - (tokens - 1.0) <= error
    requires Allowance(l, kept, at, 1.0 + error) <= tokens <= Allowance(l, kept, at, 1.0 - error)
    ensures Allowance(l, kept + [at], nowMs, 1.0 + error)
            <= Min(stored + Refill(l.refillRate, nowMs - at), l.count as real)
            <= Allowance(l, kept + [at], nowMs, 1.0 - error)
  {
    var refill := Refill(l.refillRate, nowMs - at);
    AllowanceAfterAdmission(l, kept, at, nowMs, 1.0 + error);
    AllowanceAfterAdmission(l, kept, at, nowMs, 1.0 - error);
    SandwichBelow(stored, tokens, Allowance(l, kept, at, 1.0 + error), error, refill, l.count as real);
    SandwichAbove(stored, tokens, Allowance(l, kept, at, 1.0 - error), error, refill, l.count as real);
  }

  lemma AccountedWhileLive(s: KeyState, a: Attempt, kept: seq<int>, nowMs: int)
    requires a.limit.algorithm.TokenBucket? && a.at <= nowMs <= a.at + 1000 * TtlSeconds(a.limit)
    requires Accounted(s, a.limit, kept, a.at) && Decide(s, a).allowed
    ensures Accounted(Advance(s, a), a.limit, kept + [a.at], nowMs)
  {
    var l := a.limit;
    LiveAfterAdmission(s, a, l, nowMs);
    StoredTokensClose(s, a);
    AllowanceSandwich(l, kept, a.at, nowMs, StoredTokens(s, a), TokensNow(s, l, a.at), StoreError(l));
  }

  lemma AccountedOnceExpired(s: KeyState, l: RateLimit, nowMs: int)
    requires l.algorithm.TokenBucket? && Consistent(s, nowMs, TtlSeconds(l))
    requires s.log == [] || nowMs - s.log[|s.log| - 1] > 1000 * TtlSeconds(l)
    ensures Accounted(s, l, [], nowMs)
  {
  }

  lemma SteadyConsistent(run: seq<Attempt>, l: RateLimit, nowMs: int)
    requires SteadyRun(run, l) && UpTo(run, nowMs)
    ensures Consistent(Run(run), nowMs, TtlSeconds(l))
  {
    RunConsistent(run, TokenBucket, l.duration, nowMs);
  }

  /**
   * Closed form: at any moment of any run of any bucket the available tokens are determined, up to the store error, by
   * the admissions since the key last expired. On the grid the error is nothing and the two allowances coincide.
   */
  lemma {:induction false} TokensMatchHistory(run: seq<Attempt>, l: RateLimit, nowMs: nat)
    requires SteadyRun(run, l) && UpTo(run, nowMs)
    ensures Accounted(Run(run), l, Kept(Run(run), l, nowMs), nowMs)
  {
    var ttlMs := 1000 * TtlSeconds(l);
    SteadyConsistent(run, l, nowMs);
    if run == [] {
      AccountedOnceExpired(Run(run), l, nowMs);
    } else {
      var init, last := run[..|run| - 1], run[|run| - 1];
      var s := Run(init);
      if !Decide(s, last).allowed {
        TokensMatchHistory(init, l, nowMs);
      } else if nowMs - last.at > ttlMs {
        AccountedOnceExpired(Run(run), l, nowMs);
      } else {
        TokensMatchHistory(init, l, last.at);
        AccountedWhileLive(s, last, Kept(s, l, last.at), nowMs);
        SinceAppend(s.log, last.at, ttlMs, nowMs);
      }
    }
  }

  lemma RoomByAllowance(l: RateLimit, log: seq<int>, nowMs: int, charge: real)
    ensures RoomForOne(l, log, nowMs, charge) <==> Allowance(l, log, nowMs, charge) >= 1.0
  {
    AllowanceIsMinimum(l, log, nowMs, charge, 1.0);
  }

  /** The decision, up to the store error, from a list of admissions. */
  ghost predicate DecidedBy(s: KeyState, a: Attempt, kept: seq<int>)
    requires Countable(a.limit)
  {
    var l := a.limit;
    && (Decide(s, a).allowed ==> RoomForOne(l, kept, a.at, 1.0 - StoreError(l)))
    && (RoomForOne(l, kept, a.at, 1.0 + StoreError(l)) ==> Decide(s, a).allowed)
    && (OnGrid(l) ==> (Decide(s, a).allowed <==> RoomForOne(l, kept, a.at, 1.0)))
  }

  lemma AccountedDecides(s: KeyState, a: Attempt, kept: seq<int>)
    requires a.limit.algorithm.TokenBucket? && Accounted(s, a.limit, kept, a.at)
    ensures DecidedBy(s, a, kept)
  {
    var l := a.limit;
    DecisionByTokens(s, a);
    RoomByAllowance(l, kept, a.at, 1.0 - StoreError(l));
    RoomByAllowance(l, kept, a.at, 1.0 + StoreError(l));
  }

  /**
   * A call is admitted exactly when no suffix of the admissions since the key last expired would exceed the capacity
   * plus the refill since it began; off the grid the two sides of the equivalence differ by the store error.
   */
  lemma AdmittedExactlyWhenRoom(run: seq<Attempt>, l: RateLimit, a: Attempt)
    requires SteadyRun(run, l) && UpTo(run, a.at) && a.limit == l
    ensures DecidedBy(Run(run), a, Kept(Run(run), l, a.at))
  {
    TokensMatchHistory(run, l, a.at);
    AccountedDecides(Run(run), a, Kept(Run(run), l, a.at));
  }

  // ---------- the whole history ----------

  lemma {:induction false} AllowanceOfSuffix(l: RateLimit, log: seq<int>, k: nat, nowMs: int, charge: real)
    requires k <= |log|
    ensures Allowance(l, log, nowMs, charge) <= Allowance(l, log[k..], nowMs, charge)
  {
    if k > 0 {
      AllowanceOfSuffix(l, log[1..], k - 1, nowMs, charge);
      assert log[1..][k - 1..] == log[k..];
    }
  }

  lemma WholeHistoryBelowKept(s: KeyState, l: RateLimit, nowMs: int, charge: real)
    ensures Allowance(l, s.log, nowMs, charge) <= Allowance(l, Kept(s, l, nowMs), nowMs, charge)
  {
    SinceIsSuffix(s.log, 1000 * TtlSeconds(l), nowMs);
    AllowanceOfSuffix(l, s.log, |s.log| - |Kept(s, l, nowMs)|, nowMs, charge);
  }

  lemma SteadyIsVarying(run: seq<Attempt>, l: RateLimit)
    requires SteadyRun(run, l) && Bucket(l)
    ensures VaryingRun(run, l, StoreError(l))
  {
  }

  lemma WholeHistoryAccounts(run: seq<Attempt>, l: RateLimit, nowMs: nat)
    requires SteadyRun(run, l) && Bucket(l) && FullBeforeExpiry(l) && UpTo(run, nowMs)
    ensures Accounted(Run(run), l, Run(run).log, nowMs)
  {
    TokensMatchHistory(run, l, nowMs);
    WholeHistoryBelowKept(Run(run), l, nowMs, 1.0 + StoreError(l));
    SteadyIsVarying(run, l);
    HistoryCovers(run, l, StoreError(l), nowMs);
  }

  /** When a full refill takes no longer than the time to live, what the key has forgotten makes no difference. */
  lemma WholeHistoryCounts(run: seq<Attempt>, l: RateLimit, a: Attempt)
    requires SteadyRun(run, l) && Bucket(l) && FullBeforeExpiry(l) && UpTo(run, a.at) && a.limit == l
    ensures Accounted(Run(run), l, Run(run).log, a.at) && DecidedBy(Run(run), a, Run(run).log)
  {
    WholeHistoryAccounts(run, l, a.at);
    AccountedDecides(Run(run), a, Run(run).log);
  }

  // ---------- a bucket that refills on every tick ----------

  /** Full at first; each millisecond adds what it gains, up to the capacity, and each admission takes one charge. */
  function Eager(l: RateLimit, log: seq<int>, nowMs: int, charge: real): real
    requires log != [] ==> log[|log| - 1] <= nowMs
    requires Nondecreasing(log)
    decreases |log|, if log == [] then 0 else nowMs - log[|log| - 1]
  {
    if log == [] then l.count as real
    else if log[|log| - 1] == nowMs then Eager(l, log[..|log| - 1], nowMs, charge) - charge
    else Min(Eager(l, log, nowMs - 1, charge) + Refill(l.refillRate, 1), l.count as real)
  }

  lemma TickOfSuffix(l: RateLimit, log: seq<int>, i: nat, nowMs: int, charge: real)
    requires i < |log|
    ensures Suffix(l, log, i, nowMs + 1, charge) == Suffix(l, log, i, nowMs, charge) + Refill(l.refillRate, 1)
  {
    RefillAdds(l.refillRate, nowMs - log[i], 1);
  }

  lemma RefillSign(rate: real, ms: nat)
    requires rate < 0.0
    ensures Refill(rate, ms) <= 0.0
  {
    assert ms as real / 1000.0 * -rate >= 0.0;
  }

  /** One more tick adds what a millisecond gains, up to the capacity. */
  lemma {:induction false} TickRefills(l: RateLimit, log: seq<int>, nowMs: int, charge: real)
    requires log != [] && log[|log| - 1] <= nowMs && charge >= 0.0
    ensures Allowance(l, log, nowMs + 1, charge)
            == Min(Allowance(l, log, nowMs, charge) + Refill(l.refillRate, 1), l.count as real)
  {
    TickOfSuffix(l, log, 0, nowMs, charge);
    if |log| == 1 {
      assert log[1..] == [];
      if l.refillRate < 0.0 {
        RefillSign(l.refillRate, nowMs - log[0]);
      } else {
        RefillMonotone(l.refillRate, 0, 1);
      }
    } else {
      TickRefills(l, log[1..], nowMs, charge);
    }
  }

  lemma {:induction false} AllowanceWithinCapacity(l: RateLimit, log: seq<int>, nowMs: int, charge: real)
    ensures Allowance(l, log, nowMs, charge) <= l.count as real
  {
    if log != [] {
      AllowanceWithinCapacity(l, log[1..], nowMs, charge);
    }
  }

  lemma {:induction false} EagerIsAllowance(l: RateLimit, log: seq<int>, nowMs: int, charge: real)
    requires Nondecreasing(log) && (log != [] ==> log[|log| - 1] <= nowMs) && charge >= 0.0
    ensures Eager(l, log, nowMs, charge) == Allowance(l, log, nowMs, charge)
    decreases |log|, if log == [] then 0 else nowMs - log[|log| - 1]
  {
    if log != [] {
      var init, last := log[..|log| - 1], log[|log| - 1];
      if last == nowMs {
        EagerIsAllowance(l, init, nowMs, charge);
        assert init + [nowMs] == log;
        AllowanceAfterAdmission(l, init, nowMs, nowMs, charge);
        AllowanceWithinCapacity(l, init, nowMs, charge);
        assert Refill(l.refillRate, 0) == 0.0;
      } else {
        EagerIsAllowance(l, log, nowMs - 1, charge);
        TickRefills(l, log, nowMs - 1, charge);
      }
    }
  }

  lemma SinceInOrder(log: seq<int>, ttlMs: nat, nowMs: int)
    requires Nondecreasing(log) && (log != [] ==> log[|log| - 1] <= nowMs)
    ensures var kept := Since(log, ttlMs, nowMs); Nondecreasing(kept) && (kept != [] ==> kept[|kept| - 1] <= nowMs)
  {
    SinceIsSuffix(log, ttlMs, nowMs);
  }

  /**
   * Refilling lazily, and writing nothing on denial, is as good as refilling on every tick: the tokens are those of the
   * eager bucket up to the store error, and on the grid they are the same and decide every call.
   */
  lemma LazyIsEager(run: seq<Attempt>, l: RateLimit, a: Attempt)
    requires SteadyRun(run, l) && UpTo(run, a.at) && a.limit == l
    ensures var s := Run(run);
            var kept, tokens, error := Kept(s, l, a.at), TokensNow(s, l, a.at), StoreError(l);
            && Nondecreasing(kept) && (kept != [] ==> kept[|kept| - 1] <= a.at)
            && Eager(l, kept, a.at, 1.0 + error) <= tokens <= Eager(l, kept, a.at, 1.0 - error)
            && (OnGrid(l) ==> tokens == Eager(l, kept, a.at, 1.0) && (Decide(s, a).allowed <==> tokens >= 1.0))
  {
    var s := Run(run);
    var kept, error := Kept(s, l, a.at), StoreError(l);
    TokensMatchHistory(run, l, a.at);
    SteadyConsistent(run, l, a.at);
    SinceInOrder(s.log, 1000 * TtlSeconds(l), a.at);
    EagerIsAllowance(l, kept, a.at, 1.0 + error);
    EagerIsAllowance(l, kept, a.at, 1.0 - error);
    DecisionByTokens(s, a);
  }

  /** What an eager bucket admits that forgets as the key does, deciding by its own tokens and its own admissions. */
  ghost function EagerLog(run: seq<Attempt>, l: RateLimit): (log: seq<int>)
    requires Ordered(run)
    ensures Nondecreasing(log) && (log != [] ==> run != [] && log[|log| - 1] <= run[|run| - 1].at)
  {
    if run == [] then []
    else
      var log, at := EagerLog(run[..|run| - 1], l), run[|run| - 1].at;
      SinceInOrder(log, 1000 * TtlSeconds(l), at);
      if Eager(l, Since(log, 1000 * TtlSeconds(l), at), at, 1.0) >= 1.0 then log + [at] else log
  }

  /** On the grid the lazy bucket and the eager one admit exactly the same calls, whatever the run. */
  lemma {:induction false} EagerAdmitsTheSame(run: seq<Attempt>, l: RateLimit)
    requires SteadyRun(run, l) && OnGrid(l)
    ensures Run(run).log == EagerLog(run, l)
  {
    if run != [] {
      var init, last := run[..|run| - 1], run[|run| - 1];
      EagerAdmitsTheSame(init, l);
      LazyIsEager(init, l, last);
    }
  }
}
