/**
 * Whole-run properties of the token bucket. The available tokens are compared with an allowance that is read off
 * the admission log alone; the six-decimal store makes the two differ by at most half a millionth per admission.
 */
module TokenBucketRuns {
  import opened Prelude
  import opened RedisStore
  import opened Limits
  import opened Scripts
  import opened KeyRuns

  predicate Bucket(l: RateLimit) {
    l.algorithm.TokenBucket? && l.refillRate >= 0.0
  }

  /** Every call brings the same limit. */
  ghost predicate SteadyRun(run: seq<Attempt>, l: RateLimit) {
    l.algorithm.TokenBucket? && Ordered(run) && forall i | 0 <= i < |run| :: run[i].limit == l
  }

  /** How long after its last admission a key first counts as expired. */
  function ExpiryMs(l: RateLimit): nat {
    1000 * TtlSeconds(l) + 1
  }

  /**
   * A full refill takes no longer than the time to live, to the millisecond in which the key first counts as expired.
   */
  predicate FullBeforeExpiry(l: RateLimit) {
    Refill(l.refillRate, ExpiryMs(l)) >= l.count as real
  }

  lemma FillInWholeNumbers(fill: real, ms: real, gain: real, period: real, count: real)
    requires period > 0.0 && fill == ms / 1000.0 * (gain / period)
    ensures fill >= count <==> gain * ms >= 1000.0 * count * period
  {
    assert fill * period == ms / 1000.0 * gain;
    if fill >= count {
      assert (fill - count) * period >= 0.0;
    } else {
      assert (count - fill) * period > 0.0;
    }
  }

  lemma ProductAsReal(a: nat, b: nat)
    ensures (1000 * a * b) as real == 1000.0 * a as real * b as real
  {
    assert (a * b) as real == a as real * b as real;
  }

  /** Without division: what `gain` tokens per `period` seconds add up to before the key expires fills the bucket. */
  predicate GainFills(l: RateLimit, gain: real, period: nat) {
    gain * (1000 * (l.duration + 60) + 1) as real >= (1000 * l.count * period) as real
  }

  lemma FullInWholeNumbers(l: RateLimit, gain: real, period: nat)
    requires period > 0 && l.algorithm.TokenBucket? && l.refillRate == gain / period as real
    ensures FullBeforeExpiry(l) <==> GainFills(l, gain, period)
  {
    var ms := 1000 * (l.duration + 60) + 1;
    FillInWholeNumbers(Refill(l.refillRate, ms), ms as real, gain, period as real, l.count as real);
    ProductAsReal(l.count, period);
  }

  lemma RefillAdds(rate: real, a: int, b: int)
    ensures Refill(rate, a + b) == Refill(rate, a) + Refill(rate, b)
  {
    var x, y := a as real / 1000.0, b as real / 1000.0;
    assert (a + b) as real / 1000.0 == x + y;
    assert (x + y) * rate == x * rate + y * rate;
  }

  lemma RefillMonotone(rate: real, a: int, b: int)
    requires rate >= 0.0 && a <= b
    ensures Refill(rate, a) <= Refill(rate, b)
    ensures a >= 0 ==> Refill(rate, a) >= 0.0
  {
    RefillAdds(rate, a, b - a);
    assert ((b - a) as real / 1000.0) * rate >= 0.0;
    if a >= 0 {
      assert (a as real / 1000.0) * rate >= 0.0;
    }
  }

  // ---------- the allowance of a log ----------

  /**
   * What the admission at `log[i]` and its successors leave: a full bucket then, refilled since, one charge for each.
   */
  function Suffix(l: RateLimit, log: seq<int>, i: nat, nowMs: int, charge: real): real
    requires i < |log|
  {
    l.count as real + Refill(l.refillRate, nowMs - log[i]) - charge * (|log| - i) as real
  }

  /** The least that any suffix of the log leaves, and never more than a full bucket. */
  function Allowance(l: RateLimit, log: seq<int>, nowMs: int, charge: real): real {
    if log == [] then l.count as real
    else Min(Allowance(l, log[1..], nowMs, charge), Suffix(l, log, 0, nowMs, charge))
  }

  /** The allowance is the minimum over all suffixes, stated without recursion. */
  lemma {:induction false} AllowanceIsMinimum(l: RateLimit, log: seq<int>, nowMs: int, charge: real, x: real)
    ensures Allowance(l, log, nowMs, charge) >= x
            <==> l.count as real >= x && forall i | 0 <= i < |log| :: Suffix(l, log, i, nowMs, charge) >= x
  {
    if log != [] {
      AllowanceIsMinimum(l, log[1..], nowMs, charge, x);
      assert forall i | 0 <= i < |log| - 1 ::
             Suffix(l, log[1..], i, nowMs, charge) == Suffix(l, log, i + 1, nowMs, charge);
      if forall i | 0 <= i < |log| - 1 :: Suffix(l, log[1..], i, nowMs, charge) >= x {
        forall i | 1 <= i < |log| ensures Suffix(l, log, i, nowMs, charge) >= x {
          assert Suffix(l, log[1..], i - 1, nowMs, charge) >= x;
        }
      }
    }
  }

  lemma SuffixAfterAdmission(l: RateLimit, log: seq<int>, at: int, nowMs: int, charge: real)
    requires log != []
    ensures Suffix(l, log + [at], 0, nowMs, charge)
            == Suffix(l, log, 0, at, charge) - charge + Refill(l.refillRate, nowMs - at)
  {
    RefillAdds(l.refillRate, at - log[0], nowMs - at);
    var n := |log| as real;
    assert |log + [at]| as real == n + 1.0;
    assert charge * (n + 1.0) == charge * n + charge;
  }

  lemma {:induction false} AllowanceAfterAdmission(l: RateLimit, log: seq<int>, at: int, nowMs: int, charge: real)
    ensures Allowance(l, log + [at], nowMs, charge)
            == Min(Allowance(l, log, at, charge) - charge + Refill(l.refillRate, nowMs - at), l.count as real)
  {
    if log == [] {
      assert (log + [at])[1..] == [];
      assert Suffix(l, log + [at], 0, nowMs, charge) == l.count as real + Refill(l.refillRate, nowMs - at) - charge;
    } else {
      assert (log + [at])[1..] == log[1..] + [at];
      AllowanceAfterAdmission(l, log[1..], at, nowMs, charge);
      SuffixAfterAdmission(l, log, at, nowMs, charge);
    }
  }

  // ---------- the six-decimal store ----------

  predicate Whole(x: real) {
    x == x.Floor as real
  }

  /** The bucket gains a whole number of millionths each millisecond, so storing six decimals loses nothing. */
  predicate OnGrid(l: RateLimit) {
    Whole(l.refillRate * 1000.0)
  }

  function StoreError(l: RateLimit): real {
    if OnGrid(l) then 0.0 else 0.0000005
  }

  lemma IntegerIsWhole(x: real, n: int)
    requires x == n as real
    ensures Whole(x)
  {
  }

  lemma WholeSum(x: real, y: real)
    requires Whole(x) && Whole(y)
    ensures Whole(x + y)
  {
    IntegerIsWhole(x + y, x.Floor + y.Floor);
  }

  lemma RefillOnGrid(l: RateLimit, elapsedMs: int)
    requires OnGrid(l)
    ensures Whole(Refill(l.refillRate, elapsedMs) * MICRO)
  {
    var gain := (l.refillRate * 1000.0).Floor;
    var elapsed, rate := elapsedMs as real, l.refillRate;
    assert elapsed / 1000.0 * rate * 1000000.0 == elapsed * (rate * 1000.0);
    assert (elapsedMs * gain) as real == elapsed * gain as real;
    IntegerIsWhole(Refill(rate, elapsedMs) * MICRO, elapsedMs * gain);
  }

  lemma InMillionths(stored: int, refill: real)
    ensures (stored as real / MICRO + refill - 1.0) * MICRO == refill * MICRO + (stored - 1000000) as real
  {
  }

  lemma FullOnGrid(capacity: nat)
    ensures Whole((capacity as real - 1.0) * MICRO)
  {
    IntegerIsWhole((capacity as real - 1.0) * MICRO, (capacity - 1) * 1000000);
  }

  lemma RefilledOnGrid(l: RateLimit, stored: int, elapsedMs: int)
    requires OnGrid(l)
    ensures Whole((stored as real / MICRO + Refill(l.refillRate, elapsedMs) - 1.0) * MICRO)
  {
    var refill := Refill(l.refillRate, elapsedMs);
    RefillOnGrid(l, elapsedMs);
    IntegerIsWhole((stored - 1000000) as real, stored - 1000000);
    WholeSum(refill * MICRO, (stored - 1000000) as real);
    InMillionths(stored, refill);
  }

  lemma MinOnGrid(x: real, y: real)
    requires Whole((x - 1.0) * MICRO) && Whole((y - 1.0) * MICRO)
    ensures Whole((Min(x, y) - 1.0) * MICRO)
  {
  }

  /** Between two admissions of a bucket on the grid every amount is a whole number of millionths. */
  lemma AvailableOnGrid(l: RateLimit, f: Hash, nowMs: int)
    requires OnGrid(l)
    ensures Whole((Available(f, l.count, l.refillRate, nowMs) - 1.0) * MICRO)
  {
    FullOnGrid(l.count);
    if Tokens in f {
      var elapsedMs := nowMs - Get(f, LastRefillMs, nowMs);
      RefilledOnGrid(l, f[Tokens], elapsedMs);
      MinOnGrid(f[Tokens] as real / MICRO + Refill(l.refillRate, elapsedMs), l.count as real);
    }
  }

  lemma StoreWithinError(l: RateLimit, f: Hash, nowMs: int)
    ensures var left := Available(f, l.count, l.refillRate, nowMs) - 1.0;
            var stored := RoundHalfEven(left * MICRO);
            && -StoreError(l) <= stored as real / MICRO - left <= StoreError(l)
            && (left >= 0.0 ==> 0 <= stored <= 1000000 * (l.count - 1))
  {
    var left := Available(f, l.count, l.refillRate, nowMs) - 1.0;
    assert left <= l.count as real - 1.0;
    assert left * MICRO <= (1000000 * (l.count - 1)) as real;
    if OnGrid(l) {
      AvailableOnGrid(l, f, nowMs);
    }
  }

  // ---------- reachable buckets ----------

  ghost predicate Stocked(s: KeyState, capacity: nat) {
    s.entry.Some? ==>
      var f := s.entry.value.fields;
      && f.Keys == {Tokens, LastRefillMs}
      && s.log != [] && f[LastRefillMs] == s.log[|s.log| - 1]
      && 0 <= f[Tokens] <= 1000000 * (capacity - 1)
  }

  function TokensNow(s: KeyState, l: RateLimit, nowMs: int): real {
    Available(Visible(s.entry, nowMs), l.count, l.refillRate, nowMs)
  }

  lemma DecisionByTokens(s: KeyState, a: Attempt)
    requires a.limit.algorithm.TokenBucket?
    ensures var v, tokens := Decide(s, a), TokensNow(s, a.limit, a.at);
            && (v.allowed <==> tokens >= 1.0)
            && (v.allowed ==> v.fields == Visible(s.entry, a.at)
                                          [Tokens := RoundHalfEven((tokens - 1.0) * MICRO)][LastRefillMs := a.at])
  {
  }

  lemma AdmissionStocked(s: KeyState, a: Attempt, capacity: nat)
    requires a.limit.algorithm.TokenBucket? && a.limit.count <= capacity && Stocked(s, capacity)
    ensures Stocked(Advance(s, a), capacity)
  {
    DecisionByTokens(s, a);
    StoreWithinError(a.limit, Visible(s.entry, a.at), a.at);
  }

  /** Stored tokens stay between nothing and one below the largest capacity, next to the time of the last admission. */
  lemma {:induction false} StoredTokensInRange(run: seq<Attempt>, duration: nat, capacity: nat)
    requires Uniform(run, TokenBucket, duration) && CountsAtMost(run, capacity)
    ensures Stocked(Run(run), capacity)
  {
    if run != [] {
      StoredTokensInRange(run[..|run| - 1], duration, capacity);
      AdmissionStocked(Run(run[..|run| - 1]), run[|run| - 1], capacity);
    }
  }

  lemma ExpiredIsFull(s: KeyState, l: RateLimit, nowMs: int, capacity: nat)
    requires Bucket(l) && FullBeforeExpiry(l)
    requires Consistent(s, nowMs, TtlSeconds(l)) && Stocked(s, capacity)
    ensures TokensNow(s, l, nowMs) == Available(RawFields(s.entry), l.count, l.refillRate, nowMs)
  {
    if s.entry.Some? && !Live(s.entry, nowMs) {
      RefillMonotone(l.refillRate, ExpiryMs(l), nowMs - s.log[|s.log| - 1]);
    }
  }

  // ---------- what an admission leaves ----------

  /** After an admission under its own limit, what a call under the limit `l` of the same key finds some time later. */
  lemma TokensAfterAdmission(s: KeyState, a: Attempt, l: RateLimit, nowMs: int, capacity: nat)
    requires Bucket(l) && FullBeforeExpiry(l) && a.at <= nowMs
    requires a.limit.algorithm.TokenBucket? && a.limit.duration == l.duration && a.limit.count <= capacity
    requires Consistent(s, a.at, TtlSeconds(l)) && Stocked(s, capacity) && Decide(s, a).allowed
    ensures var stored := RoundHalfEven((TokensNow(s, a.limit, a.at) - 1.0) * MICRO);
            TokensNow(Advance(s, a), l, nowMs)
            == Min(stored as real / MICRO + Refill(l.refillRate, nowMs - a.at), l.count as real)
  {
    var s' := Advance(s, a);
    DecisionByTokens(s, a);
    AdmissionStocked(s, a, capacity);
    RecordConsistent(s, a.at, a.at, TtlSeconds(l), Decide(s, a));
    ConsistentLater(s', a.at, nowMs, TtlSeconds(l));
    ExpiredIsFull(s', l, nowMs, capacity);
  }

  lemma LiveAfterAdmission(s: KeyState, a: Attempt, l: RateLimit, nowMs: int)
    requires a.limit.algorithm.TokenBucket? && l.algorithm.TokenBucket? && a.limit.duration == l.duration
    requires a.at <= nowMs <= a.at + 1000 * TtlSeconds(l) && Decide(s, a).allowed
    ensures var stored := RoundHalfEven((TokensNow(s, a.limit, a.at) - 1.0) * MICRO);
            TokensNow(Advance(s, a), l, nowMs)
            == Min(stored as real / MICRO + Refill(l.refillRate, nowMs - a.at), l.count as real)
  {
    DecisionByTokens(s, a);
  }

  lemma SandwichAbove(stored: real, tokens: real, high: real, error: real, refill: real, cap: real)
    requires stored - (tokens - 1.0) <= error && tokens <= high
    ensures Min(stored + refill, cap) <= Min(high - (1.0 - error) + refill, cap)
  {
  }

  lemma SandwichBelow(stored: real, tokens: real, low: real, error: real, refill: real, cap: real)
    requires -error <= stored - (tokens - 1.0) && low <= tokens
    ensures Min(low - (1.0 + error) + refill, cap) <= Min(stored + refill, cap)
  {
  }

  // ---------- capacities and rates that change from call to call ----------

  /** A limit of the same key that never gives more than `top`, and stores its tokens within the error. */
  predicate Below(l: RateLimit, top: RateLimit, error: real) {
    && l.algorithm.TokenBucket? && l.duration == top.duration
    && l.count <= top.count && l.refillRate <= top.refillRate && StoreError(l) <= error
  }

  /** Every call brings its own limit, none above `top`; rates may even be negative. */
  ghost predicate VaryingRun(run: seq<Attempt>, top: RateLimit, error: real) {
    Bucket(top) && Ordered(run) && forall i | 0 <= i < |run| :: Below(run[i].limit, top, error)
  }

  lemma TokensBelow(s: KeyState, l: RateLimit, top: RateLimit, nowMs: int, error: real)
    requires Below(l, top, error) && Consistent(s, nowMs, TtlSeconds(top)) && Stocked(s, top.count)
    ensures TokensNow(s, l, nowMs) <= TokensNow(s, top, nowMs)
  {
    if s.entry.Some? && Live(s.entry, nowMs) {
      var elapsed := (nowMs - s.log[|s.log| - 1]) as real / 1000.0;
      assert elapsed * (top.refillRate - l.refillRate) >= 0.0;
      assert elapsed * l.refillRate <= elapsed * top.refillRate;
    }
  }

  /** What `top` would find lies within the allowance that the history leaves of it. */
  ghost predicate Covered(s: KeyState, top: RateLimit, error: real, nowMs: int) {
    TokensNow(s, top, nowMs) <= Allowance(top, s.log, nowMs, 1.0 - error)
  }

  lemma CoveredAfterAdmission(s: KeyState, a: Attempt, top: RateLimit, error: real, nowMs: int)
    requires Bucket(top) && FullBeforeExpiry(top) && Below(a.limit, top, error) && a.at <= nowMs
    requires Consistent(s, a.at, TtlSeconds(top)) && Stocked(s, top.count)
    requires Covered(s, top, error, a.at) && Decide(s, a).allowed
    ensures Covered(Advance(s, a), top, error, nowMs)
  {
    var tokens := TokensNow(s, a.limit, a.at);
    TokensBelow(s, a.limit, top, a.at, error);
    TokensAfterAdmission(s, a, top, nowMs, top.count);
    StoreWithinError(a.limit, Visible(s.entry, a.at), a.at);
    AllowanceAfterAdmission(top, s.log, a.at, nowMs, 1.0 - error);
    SandwichAbove(RoundHalfEven((tokens - 1.0) * MICRO) as real / MICRO, tokens,
                  Allowance(top, s.log, a.at, 1.0 - error), error, Refill(top.refillRate, nowMs - a.at),
                             top.count as real);
  }

  lemma VaryingReaches(run: seq<Attempt>, top: RateLimit, error: real, nowMs: int)
    requires VaryingRun(run, top, error) && UpTo(run, nowMs)
    ensures Consistent(Run(run), nowMs, TtlSeconds(top)) && Stocked(Run(run), top.count)
  {
    StoredTokensInRange(run, top.duration, top.count);
    RunConsistent(run, TokenBucket, top.duration, nowMs);
  }

  lemma {:induction false} HistoryCovers(run: seq<Attempt>, top: RateLimit, error: real, nowMs: nat)
    requires VaryingRun(run, top, error) && FullBeforeExpiry(top) && UpTo(run, nowMs)
    ensures Covered(Run(run), top, error, nowMs)
  {
    if run != [] {
      var init, last := run[..|run| - 1], run[|run| - 1];
      if Decide(Run(init), last).allowed {
        HistoryCovers(init, top, error, last.at);
        VaryingReaches(init, top, error, last.at);
        CoveredAfterAdmission(Run(init), last, top, error, nowMs);
      } else {
        HistoryCovers(init, top, error, nowMs);
      }
    }
  }

  /** No suffix of the log, with one more message, uses more than a full bucket and the refill since it began. */
  ghost predicate RoomForOne(l: RateLimit, log: seq<int>, nowMs: int, charge: real) {
    l.count as real >= 1.0 && forall i | 0 <= i < |log| :: Suffix(l, log, i, nowMs, charge) >= 1.0
  }

  /** An admission, under whatever limit, leaves room for one more message under `top`. */
  lemma AdmittedHasRoom(run: seq<Attempt>, top: RateLimit, error: real, a: Attempt)
    requires VaryingRun(run, top, error) && FullBeforeExpiry(top) && UpTo(run, a.at)
    requires Below(a.limit, top, error) && Decide(Run(run), a).allowed
    ensures RoomForOne(top, Run(run).log, a.at, 1.0 - error)
  {
    HistoryCovers(run, top, error, a.at);
    VaryingReaches(run, top, error, a.at);
    TokensBelow(Run(run), a.limit, top, a.at, error);
    DecisionByTokens(Run(run), a);
    AllowanceIsMinimum(top, Run(run).log, a.at, 1.0 - error, 1.0);
  }

  /** Any stretch of consecutive admissions fits in the capacity and the refill during the stretch. */
  ghost predicate Affordable(top: RateLimit, error: real, log: seq<int>, i: nat, j: nat)
    requires i <= j < |log|
  {
    1.0 + (1.0 - error) * (j - i) as real <= top.count as real + Refill(top.refillRate, log[j] - log[i])
  }

  lemma {:induction false} StretchBound(run: seq<Attempt>, top: RateLimit, error: real, i: nat, j: nat)
    requires VaryingRun(run, top, error) && FullBeforeExpiry(top) && i <= j < |Run(run).log|
    ensures Affordable(top, error, Run(run).log, i, j)
  {
    var init, last := run[..|run| - 1], run[|run| - 1];
    var s := Run(init);
    if j < |s.log| {
      StretchBound(init, top, error, i, j);
      SameStretch(top, error, s.log, Run(run).log, i, j);
    } else {
      AdmittedHasRoom(init, top, error, last);
      RoomIsAffordable(top, error, s.log, last.at, i);
    }
  }

  lemma SameStretch(top: RateLimit, error: real, log: seq<int>, longer: seq<int>, i: nat, j: nat)
    requires i <= j < |log| && log <= longer && Affordable(top, error, log, i, j)
    ensures Affordable(top, error, longer, i, j)
  {
  }

  lemma RoomIsAffordable(top: RateLimit, error: real, log: seq<int>, at: int, i: nat)
    requires Bucket(top) && i <= |log| && RoomForOne(top, log, at, 1.0 - error)
    ensures Affordable(top, error, log + [at], i, |log|)
  {
    if i < |log| {
      assert Suffix(top, log, i, at, 1.0 - error) >= 1.0;
    } else {
      RefillMonotone(top.refillRate, 0, 0);
    }
  }

  /** `n` messages, each counted as one minus the error, fit in the capacity plus what the bucket gains in the time. */
  predicate Fits(top: RateLimit, n: nat, spanMs: nat, error: real) {
    n as real * (1.0 - error) <= top.count as real + Refill(top.refillRate, spanMs)
  }

  lemma FewerFit(top: RateLimit, n: nat, m: nat, spanMs: nat, error: real)
    requires n <= m && Fits(top, m, spanMs, error) && error <= 1.0
    ensures Fits(top, n, spanMs, error)
  {
    var charge := 1.0 - error;
    assert (m - n) as real * charge >= 0.0;
    assert m as real * charge == n as real * charge + (m - n) as real * charge;
  }

  lemma SpanBoundWhenFull(run: seq<Attempt>, top: RateLimit, error: real, from: int, span: nat)
    requires VaryingRun(run, top, error) && FullBeforeExpiry(top)
    ensures Fits(top, CountWithin(Run(run).log, from, span), span, error)
  {
    RefillMonotone(top.refillRate, 0, span);
    if CountWithin(Run(run).log, from, span) > 0 {
      assert Below(run[0].limit, top, error);
      StretchesAffordable(run, top, error);
      RunConsistent(run, TokenBucket, top.duration, run[|run| - 1].at);
      SpanAffordable(top, error, Run(run).log, from, span);
    }
  }

  /** The bucket that gains at least what the expiry of its key gives it: a full bucket in the time to live. */
  function Renewed(l: RateLimit): RateLimit {
    if FullBeforeExpiry(l) then l else l.(refillRate := l.count as real * 1000.0 / ExpiryMs(l) as real)
  }

  lemma QuotientExceeds(rate: real, ms: real, count: real)
    requires ms > 0.0 && ms / 1000.0 * rate < count
    ensures rate < count * 1000.0 / ms
  {
    var q := count * 1000.0 / ms;
    assert q * ms == count * 1000.0;
    assert (q - rate) * ms > 0.0;
  }

  lemma RenewedIsFull(l: RateLimit)
    requires Bucket(l)
    ensures Bucket(Renewed(l)) && FullBeforeExpiry(Renewed(l)) && l.refillRate <= Renewed(l).refillRate
  {
    if !FullBeforeExpiry(l) {
      QuotientExceeds(l.refillRate, ExpiryMs(l) as real, l.count as real);
      FullInWholeNumbers(Renewed(l), l.count as real * 1000.0, ExpiryMs(l));
      ProductAsReal(l.count, ExpiryMs(l));
    }
  }

  lemma VaryingBelowRenewed(run: seq<Attempt>, top: RateLimit, error: real)
    requires VaryingRun(run, top, error)
    ensures VaryingRun(run, Renewed(top), error) && FullBeforeExpiry(Renewed(top))
  {
    RenewedIsFull(top);
    forall i | 0 <= i < |run| ensures Below(run[i].limit, Renewed(top), error) {
      assert Below(run[i].limit, top, error);
    }
  }

  /**
   * Whatever the limits of the calls, any span of a run admits no more messages than fit under their ceiling, which
   * gains what its own refill or the expiry of its key gives it, whichever is more.
   */
  lemma SpanBound(run: seq<Attempt>, top: RateLimit, error: real, from: int, span: nat)
    requires VaryingRun(run, top, error)
    ensures Fits(Renewed(top), CountWithin(Run(run).log, from, span), span, error)
    ensures FullBeforeExpiry(top) ==> Fits(top, CountWithin(Run(run).log, from, span), span, error)
  {
    VaryingBelowRenewed(run, top, error);
    SpanBoundWhenFull(run, Renewed(top), error, from, span);
  }

  lemma SpanBoundFewer(run: seq<Attempt>, top: RateLimit, error: real, from: int, span: nat, n: nat)
    requires VaryingRun(run, top, error) && error <= 1.0 && n <= CountWithin(Run(run).log, from, span)
    ensures Fits(Renewed(top), n, span, error)
  {
    SpanBound(run, top, error, from, span);
    FewerFit(Renewed(top), n, CountWithin(Run(run).log, from, span), span, error);
  }

  lemma StretchesAffordable(run: seq<Attempt>, top: RateLimit, error: real)
    requires VaryingRun(run, top, error) && FullBeforeExpiry(top)
    ensures forall i: nat, j: nat | i <= j < |Run(run).log| :: Affordable(top, error, Run(run).log, i, j)
  {
    forall i: nat, j: nat | i <= j < |Run(run).log| ensures Affordable(top, error, Run(run).log, i, j) {
      StretchBound(run, top, error, i, j);
    }
  }

  lemma SpanAffordable(top: RateLimit, error: real, log: seq<int>, from: int, span: nat)
    requires Bucket(top) && error >= 0.0 && Nondecreasing(log) && CountWithin(log, from, span) > 0
    requires forall i: nat, j: nat | i <= j < |log| :: Affordable(top, error, log, i, j)
    ensures Fits(top, CountWithin(log, from, span), span, error)
  {
    var n := CountIn(log, from, from + span);
    var first := SpanIsConsecutive(log, from, from + span);
    assert Affordable(top, error, log, first, first + n - 1);
    RefillMonotone(top.refillRate, log[first + n - 1] - log[first], span);
    assert n as real * (1.0 - error) == (1.0 - error) * (n - 1) as real + (1.0 - error);
  }

  // ---------- expiry ----------

  /** Buckets that share a key. */
  ghost predicate Buckets(limits: iset<RateLimit>, duration: nat) {
    forall l | l in limits :: Bucket(l) && l.duration == duration
  }

  /** Each call brings one of the limits. */
  ghost predicate DrawnFrom(run: seq<Attempt>, limits: iset<RateLimit>, duration: nat) {
    && Ordered(run) && Uniform(run, TokenBucket, duration)
    && forall i | 0 <= i < |run| :: run[i].limit in limits
  }

  /** After this run and for this call, dropping expired keys makes no difference. */
  ghost predicate ExpiryUnseen(run: seq<Attempt>, next: Attempt)
    requires AllCountable(run) && Countable(next.limit)
  {
    && Run(run) == Immortal(run)
    && SameAnswer(Decide(Run(run), next), VerdictFor(next.limit, RawFields(Immortal(run).entry), next.at))
  }

  /** Whatever mixture of the limits the calls bring, dropping expired keys makes no difference to any of them. */
  ghost predicate ExpiryHarmless(limits: iset<RateLimit>, duration: nat)
    requires Buckets(limits, duration)
  {
    forall run: seq<Attempt>, next: Attempt
      | DrawnFrom(run, limits, duration) && next.limit in limits && UpTo(run, next.at) :: ExpiryUnseen(run, next)
  }

  lemma ExpiredAnswer(s: KeyState, l: RateLimit, nowMs: int, capacity: nat)
    requires Bucket(l) && FullBeforeExpiry(l)
    requires Consistent(s, nowMs, TtlSeconds(l)) && Stocked(s, capacity)
    ensures SameAnswer(VerdictFor(l, Visible(s.entry, nowMs), nowMs), VerdictFor(l, RawFields(s.entry), nowMs))
  {
    ExpiredIsFull(s, l, nowMs, capacity);
    if s.entry.Some? && !Live(s.entry, nowMs) {
      var f, stored := s.entry.value.fields, RoundHalfEven((l.count as real - 1.0) * MICRO);
      assert f[Tokens := stored][LastRefillMs := nowMs] == map[Tokens := stored, LastRefillMs := nowMs];
    }
  }

  lemma HasLargestCount(run: seq<Attempt>) returns (capacity: nat)
    ensures CountsAtMost(run, capacity)
  {
    capacity := 0;
    for i := 0 to |run|
      invariant forall j | 0 <= j < i :: run[j].limit.count <= capacity
    {
      capacity := Max(capacity, run[i].limit.count);
    }
  }

  /** When each limit refills within its time to live, dropping the key changes no decision, usage or later state. */
  lemma {:induction false} ExpiryInvisible(run: seq<Attempt>, limits: iset<RateLimit>, duration: nat, next: Attempt)
    requires Buckets(limits, duration) && forall l | l in limits :: FullBeforeExpiry(l)
    requires DrawnFrom(run, limits, duration) && next.limit in limits && UpTo(run, next.at)
    ensures ExpiryUnseen(run, next)
  {
    if run != [] {
      ExpiryInvisible(run[..|run| - 1], limits, duration, run[|run| - 1]);
    }
    var capacity := HasLargestCount(run);
    StoredTokensInRange(run, duration, capacity);
    RunConsistent(run, TokenBucket, duration, next.at);
    ExpiredAnswer(Run(run), next.limit, next.at, capacity);
  }

  /** `n` calls in the same millisecond. */
  function Burst(l: RateLimit, n: nat): seq<Attempt> {
    seq(n, i => Attempt(0, l))
  }

  lemma {:induction false} BurstDrains(l: RateLimit, n: nat)
    requires Bucket(l) && n <= l.count
    ensures SteadyRun(Burst(l, n), l)
    ensures var s := Run(Burst(l, n));
            s.log == seq(n, i => 0) && TokensNow(s, l, 0) == (l.count - n) as real
            && (n > 0 ==>
                  s.entry.Some? && s.entry.value.fields == map[Tokens := 1000000 * (l.count - n), LastRefillMs := 0]
                  && s.entry.value.expireAt == Some(1000 * TtlSeconds(l)))
  {
    if n > 0 {
      BurstDrains(l, n - 1);
      assert Burst(l, n)[..n - 1] == Burst(l, n - 1);
      var s, a := Run(Burst(l, n - 1)), Attempt(0, l);
      DrainedOnce(s, a, l.count - n);
    }
  }

  lemma DrainedOnce(s: KeyState, a: Attempt, left: nat)
    requires Bucket(a.limit) && a.at == 0 && left <= a.limit.count
    requires TokensNow(s, a.limit, 0) == (left + 1) as real
    requires Visible(s.entry, 0).Keys <= {Tokens, LastRefillMs}
    ensures var s' := Advance(s, a);
            s'.log == s.log + [0] && TokensNow(s', a.limit, 0) == left as real
            && s'.entry
               == Some(Entry(map[Tokens := 1000000 * left, LastRefillMs := 0], Some(1000 * TtlSeconds(a.limit))))
  {
    DecisionByTokens(s, a);
    WholeTokens(left);
    var f, stored := Visible(s.entry, 0), map[Tokens := 1000000 * left, LastRefillMs := 0];
    assert f[Tokens := 1000000 * left][LastRefillMs := 0] == stored;
    AvailableAtOnce(a.limit, left);
  }

  lemma WholeTokens(left: nat)
    ensures RoundHalfEven(((left + 1) as real - 1.0) * MICRO) == 1000000 * left
  {
    IntegerIsWhole(((left + 1) as real - 1.0) * MICRO, 1000000 * left);
  }

  lemma AvailableAtOnce(l: RateLimit, left: nat)
    requires left <= l.count
    ensures Available(map[Tokens := 1000000 * left, LastRefillMs := 0], l.count, l.refillRate, 0) == left as real
  {
    assert Refill(l.refillRate, 0) == 0.0;
    assert (1000000 * left) as real / MICRO == left as real;
  }

  /**
   * A drained bucket that counts as expired before it is full again: the next call is told so, one way or the other.
   */
  lemma EarlyExpiryShows(l: RateLimit, late: nat)
    requires Bucket(l) && l.count > 0 && Refill(l.refillRate, late) < l.count as real
    ensures var drained := map[Tokens := 0, LastRefillMs := 0];
            !SameAnswer(VerdictFor(l, map[], late), VerdictFor(l, drained, late))
  {
    var drained := map[Tokens := 0, LastRefillMs := 0];
    RefillMonotone(l.refillRate, 0, late);
    assert Available(drained, l.count, l.refillRate, late) == Refill(l.refillRate, late);
    assert Available(map[], l.count, l.refillRate, late) == l.count as real;
  }

  lemma BurstBetrays(l: RateLimit)
    requires Bucket(l) && !FullBeforeExpiry(l)
    ensures var next := Attempt(ExpiryMs(l), l);
            SteadyRun(Burst(l, l.count), l) && UpTo(Burst(l, l.count), next.at)
            && !ExpiryUnseen(Burst(l, l.count), next)
  {
    var run, late := Burst(l, l.count), ExpiryMs(l);
    RefillMonotone(l.refillRate, 0, late);
    BurstDrains(l, l.count);
    EarlyExpiryShows(l, late);
  }

  /**
   * Expiry is harmless in all runs that mix the limits exactly when each of them refills completely within the time
   * to live: any other one has a run in which a burst drains the bucket and finds it full again too early.
   */
  lemma ExpiryHarmlessExactlyWhen(limits: iset<RateLimit>, duration: nat)
    requires Buckets(limits, duration)
    ensures ExpiryHarmless(limits, duration) <==> forall l | l in limits :: FullBeforeExpiry(l)
  {
    if forall l | l in limits :: FullBeforeExpiry(l) {
      forall run: seq<Attempt>, next: Attempt
        | DrawnFrom(run, limits, duration) && next.limit in limits && UpTo(run, next.at)
        ensures ExpiryUnseen(run, next)
      {
        ExpiryInvisible(run, limits, duration, next);
      }
    } else {
      var l :| l in limits && !FullBeforeExpiry(l);
      BurstBetrays(l);
      assert DrawnFrom(Burst(l, l.count), limits, duration);
    }
  }

  /** The same for one limit by itself. */
  lemma AloneHarmlessExactlyWhen(l: RateLimit)
    requires Bucket(l)
    ensures ExpiryHarmless(iset{l}, l.duration) <==> FullBeforeExpiry(l)
  {
    ExpiryHarmlessExactlyWhen(iset{l}, l.duration);
  }
}
