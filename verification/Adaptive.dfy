/** Adaptive limits: a multiplier chosen per request scales every bounded limit, on the same counters. */
module Adaptive {
  import RS = RedisStore
  import opened Prelude
  import opened Limits
  import opened KeyRuns
  import F = FixedWindowRuns
  import S = SlidingWindowRuns
  import T = TokenBucketRuns

  datatype Config = Config(
    enable: bool, authenticated: real, unauthenticated: real, localSender: real, externalSender: real, trusted: real,
    minimum: real, maximum: real)

  /** What the multiplier depends on in a request. */
  datatype Facts = Facts(authenticated: bool, localSender: bool, hasSenderDomain: bool, trusted: bool)

  function RealMax(a: real, b: real): real {
    if a >= b then a else b
  }

  /** The configured multipliers that apply to a request. */
  function Applicable(cfg: Config, q: Facts): (factors: seq<real>)
    ensures forall v :: v in factors <==>
              || (q.authenticated && v == cfg.authenticated) || (!q.authenticated && v == cfg.unauthenticated)
              || (q.localSender && v == cfg.localSender)
              || (!q.localSender && q.hasSenderDomain && v == cfg.externalSender)
              || (q.trusted && v == cfg.trusted)
  {
    [if q.authenticated then cfg.authenticated else cfg.unauthenticated]
    + (if q.localSender then [cfg.localSender] else if q.hasSenderDomain then [cfg.externalSender] else [])
    + (if q.trusted then [cfg.trusted] else [])
  }

  /** The most generous factor above one wins; failing that the strictest positive one below one; failing that one. */
  ghost predicate Chosen(m: real, factors: seq<real>) {
    if exists v :: v in factors && v > 1.0 then
      m in factors && forall v | v in factors :: v <= m
    else if exists v :: v in factors && 0.0 < v < 1.0 then
      m in factors && 0.0 < m && forall v | v in factors && v > 0.0 :: m <= v
    else m == 1.0
  }

  function Clamp(cfg: Config, m: real): (r: real)
    ensures r <= cfg.maximum
    ensures cfg.minimum <= cfg.maximum ==> cfg.minimum <= r
    ensures cfg.minimum <= m <= cfg.maximum ==> r == m
    ensures m < cfg.minimum <= cfg.maximum ==> r == cfg.minimum
    ensures m > cfg.maximum ==> r == cfg.maximum
  {
    Min(cfg.maximum, RealMax(cfg.minimum, m))
  }

  /** The multiplier that a request with these facts gets: the chosen factor, clamped. */
  ghost predicate Yields(cfg: Config, q: Facts, multiplier: real) {
    exists m :: Chosen(m, Applicable(cfg, q)) && multiplier == Clamp(cfg, m)
  }

  method ResolveAdaptiveMultiplier(cfg: Config, q: Facts) returns (multiplier: real)
    ensures Yields(cfg, q, multiplier) && multiplier <= cfg.maximum
  {
    var factors := Applicable(cfg, q);
    var positive: seq<real>, negative: seq<real> := [], [];
    var best, worst := 1.0, 1.0;
    for i := 0 to |factors|
      invariant forall v :: v in positive <==> v in factors[..i] && v > 1.0
      invariant forall v :: v in negative <==> v in factors[..i] && 0.0 < v < 1.0
      invariant best == 1.0 || best in positive
      invariant worst == 1.0 || worst in negative
      invariant forall v | v in positive :: 1.0 < v <= best
      invariant forall v | v in negative :: worst <= v < 1.0
    {
      var value := factors[i];
      if value > 1.0 {
        positive := positive + [value];
        best := RealMax(best, value);
      } else if 0.0 < value < 1.0 {
        negative := negative + [value];
        worst := Min(worst, value);
      }
    }
    assert factors[..|factors|] == factors;
    var m := if positive != [] then best else if negative != [] then worst else 1.0;
    if positive != [] {
      var v := positive[0];
      assert v in positive;
    } else if negative != [] {
      var v := negative[0];
      assert v in negative;
    }
    assert Chosen(m, factors);
    multiplier := Clamp(cfg, m);
  }

  /** Close to one, to nine digits: scaling is skipped. */
  predicate CloseToOne(m: real) {
    var size := if m >= 0.0 then m else -m;
    -0.000000001 * RealMax(size, 1.0) <= m - 1.0 <= 0.000000001 * RealMax(size, 1.0)
  }

  /** In plain terms: below one it is a billionth of one, above one a billionth of the multiplier itself. */
  lemma CloseToOneExactly(m: real)
    ensures m <= 1.0 ==> (CloseToOne(m) <==> 1.0 - m <= 0.000000001)
    ensures m > 1.0 ==> (CloseToOne(m) <==> m * 0.999999999 <= 1.0)
  {
  }

  function Seconds(l: RateLimit): nat {
    if l.duration == 0 then 1 else l.duration
  }

  /**
   * The limit for so many messages, and with this rate if the limit has one, but at least one message in its
   * duration.
   */
  function Resized(l: RateLimit, messages: real, rate: real): RateLimit {
    l.(count := Max(1, Ceil(messages)),
       refillRate := if l.algorithm.TokenBucket? && l.refillRate > 0.0 then RealMax(rate, 1.0 / Seconds(l) as real)
                     else l.refillRate)
  }

  function ScaleLimit(l: RateLimit, m: real): RateLimit {
    if l.unlimited then l else Resized(l, l.count as real * m, l.refillRate * m)
  }

  function AppliedLimit(cfg: Config, l: RateLimit, m: real): RateLimit {
    if !cfg.enable || CloseToOne(m) then l else ScaleLimit(l, m)
  }

  /** A bounded limit scaled by `m`, in plain numbers. */
  predicate ScaledRight(l: RateLimit, m: real, scaled: RateLimit) {
    && scaled.duration == l.duration && scaled.algorithm == l.algorithm && !scaled.unlimited
    && LeastCount(l.count as real * m, scaled.count)
    && if l.algorithm == TokenBucket && l.refillRate > 0.0
       then scaled.refillRate == RealMax(l.refillRate * m, if l.duration > 0 then 1.0 / l.duration as real else 1.0)
       else scaled.refillRate == l.refillRate
  }

  /** The least positive number that is not below `x`. */
  predicate LeastCount(x: real, n: nat) {
    n >= 1 && n as real >= x && (n > 1 ==> (n - 1) as real < x)
  }

  lemma ScaleLimitRight(l: RateLimit, m: real)
    requires !l.unlimited
    ensures ScaledRight(l, m, ScaleLimit(l, m))
  {
    ResizedCountRight(l, l.count as real * m, l.refillRate * m);
  }

  lemma ResizedCountRight(l: RateLimit, x: real, r: real)
    ensures LeastCount(x, Resized(l, x, r).count)
  {
  }

  datatype Adjustment = Unchanged | Relaxed | Tightened

  /** One multiplier, the one that the facts of the request yield, explains the whole result. */
  ghost predicate ScaledBy(cfg: Config, q: Facts, limits: seq<RateLimit>, scaled: seq<RateLimit>,
                           adjustment: Adjustment, m: real)
  {
    && m <= cfg.maximum && (cfg.enable ==> Yields(cfg, q, m)) && |scaled| == |limits|
    && (forall i | 0 <= i < |limits| ::
          && scaled[i] == AppliedLimit(cfg, limits[i], m)
          && if !cfg.enable || CloseToOne(m) || limits[i].unlimited then scaled[i] == limits[i]
             else ScaledRight(limits[i], m, scaled[i]))
    && adjustment == if !cfg.enable || CloseToOne(m) then Unchanged else if m > 1.0 then Relaxed else Tightened
  }

  method ApplyAdaptiveLimits(cfg: Config, q: Facts, limits: seq<RateLimit>)
    returns (scaled: seq<RateLimit>, adjustment: Adjustment)
    ensures |scaled| == |limits|
    ensures exists m :: ScaledBy(cfg, q, limits, scaled, adjustment, m)
  {
    if !cfg.enable {
      assert ScaledBy(cfg, q, limits, limits, Unchanged, cfg.maximum);
      return limits, Unchanged;
    }
    var multiplier := ResolveAdaptiveMultiplier(cfg, q);
    if CloseToOne(multiplier) {
      assert ScaledBy(cfg, q, limits, limits, Unchanged, multiplier);
      return limits, Unchanged;
    }
    adjustment := if multiplier > 1.0 then Relaxed else Tightened;
    scaled := [];
    for i := 0 to |limits|
      invariant |scaled| == i
      invariant forall j | 0 <= j < i ::
                  && scaled[j] == AppliedLimit(cfg, limits[j], multiplier)
                  && if limits[j].unlimited then scaled[j] == limits[j]
                     else ScaledRight(limits[j], multiplier, scaled[j])
    {
      if !limits[i].unlimited {
        ScaleLimitRight(limits[i], multiplier);
      }
      scaled := scaled + [ScaleLimit(limits[i], multiplier)];
    }
    assert ScaledBy(cfg, q, limits, scaled, adjustment, multiplier);
  }

  /** Capacity and rate of the larger one, whichever that is for each. */
  function Larger(l: RateLimit, k: RateLimit): RateLimit {
    l.(count := Max(l.count, k.count), refillRate := RealMax(l.refillRate, k.refillRate))
  }

  /** The most that any scaling gives: the larger of the configured limit and the one scaled by the maximum. */
  function TopLimit(cfg: Config, l: RateLimit): RateLimit {
    if cfg.enable then Larger(l, ScaleLimit(l, cfg.maximum)) else l
  }

  /** The count that no scaling passes. */
  function Ceiling(cfg: Config, l: RateLimit): nat {
    if cfg.enable && !l.unlimited then Max(l.count, Max(1, Ceil(l.count as real * cfg.maximum))) else l.count
  }

  lemma TopInNumbers(cfg: Config, l: RateLimit)
    ensures var top := TopLimit(cfg, l);
            && top.count == Ceiling(cfg, l) && top.duration == l.duration && top.algorithm == l.algorithm
            && top.refillRate
               == if cfg.enable && !l.unlimited && l.algorithm == TokenBucket && l.refillRate > 0.0
                  then RealMax(l.refillRate, RealMax(l.refillRate * cfg.maximum,
                                                     if l.duration > 0 then 1.0 / l.duration as real else 1.0))
                  else l.refillRate
  {
  }

  lemma ResizedMonotone(l: RateLimit, x: real, y: real, r: real, s: real)
    ensures x <= y ==> Resized(l, x, r).count <= Resized(l, y, s).count
    ensures r <= s ==> Resized(l, x, r).refillRate <= Resized(l, y, s).refillRate
  {
  }

  lemma ProductsOrdered(r: real, a: real, b: real)
    requires r >= 0.0 && a <= b
    ensures r * a <= r * b
  {
    assert r * (b - a) >= 0.0;
  }

  lemma ScaledCountMonotone(l: RateLimit, m: real, n: real)
    requires m <= n
    ensures ScaleLimit(l, m).count <= ScaleLimit(l, n).count
  {
    ProductsOrdered(l.count as real, m, n);
    ResizedMonotone(l, l.count as real * m, l.count as real * n, l.refillRate * m, l.refillRate * n);
  }

  lemma ScaledRateMonotone(l: RateLimit, m: real, n: real)
    requires m <= n && l.refillRate >= 0.0
    ensures ScaleLimit(l, m).refillRate <= ScaleLimit(l, n).refillRate
  {
    ProductsOrdered(l.refillRate, m, n);
    ResizedMonotone(l, l.count as real * m, l.count as real * n, l.refillRate * m, l.refillRate * n);
  }

  lemma AppliedWithinTop(cfg: Config, l: RateLimit, m: real)
    requires m <= cfg.maximum
    ensures AppliedLimit(cfg, l, m).count <= TopLimit(cfg, l).count && l.count <= TopLimit(cfg, l).count
    ensures l.refillRate >= 0.0 ==> AppliedLimit(cfg, l, m).refillRate <= TopLimit(cfg, l).refillRate
  {
    ScaledCountMonotone(l, m, cfg.maximum);
    if l.refillRate >= 0.0 {
      ScaledRateMonotone(l, m, cfg.maximum);
    }
  }

  /** Scaling moves neither the sender's counter nor its algorithm and duration. */
  lemma ScaledSharesCounter(cfg: Config, sender: string, l: RateLimit, m: real)
    ensures KeyForLimit(sender, AppliedLimit(cfg, l, m)) == KeyForLimit(sender, l)
  {
  }

  /** Requests of one sender under one configured limit, each with whatever multiplier its facts gave it. */
  function ScaledRun(cfg: Config, l: RateLimit, requests: seq<(nat, real)>): seq<Attempt> {
    seq(|requests|, i requires 0 <= i < |requests| => Attempt(requests[i].0, AppliedLimit(cfg, l, requests[i].1)))
  }

  lemma ScaledCounts(cfg: Config, l: RateLimit, requests: seq<(nat, real)>)
    requires forall i | 0 <= i < |requests| :: requests[i].1 <= cfg.maximum
    ensures CountsAtMost(ScaledRun(cfg, l, requests), TopLimit(cfg, l).count)
  {
    forall i | 0 <= i < |requests| ensures ScaledRun(cfg, l, requests)[i].limit.count <= TopLimit(cfg, l).count {
      AppliedWithinTop(cfg, l, requests[i].1);
    }
  }

  /**
   * End to end: for any sequence of per-request multipliers, a fixed-window limit admits at most
   * max(count, ceil(count * maximum)) messages per counter window, and any span accordingly.
   */
  lemma AdaptiveFixedWindowBound(cfg: Config, l: RateLimit, requests: seq<(nat, real)>, from: int, hi: int, q: nat)
    requires l.algorithm.FixedWindow? && l.duration > 0 && hi - from <= q * (1000 * l.duration)
    requires forall i | 0 <= i < |requests| :: requests[i].1 <= cfg.maximum
    requires forall i, j | 0 <= i <= j < |requests| :: requests[i].0 <= requests[j].0
    ensures var run := ScaledRun(cfg, l, requests);
            && F.FixedRun(run, l.duration)
            && (Run(run).entry.Some? ==>
                  F.Describes(Run(run).entry.value.fields, Run(run).log, l.duration)
                  && Run(run).entry.value.fields[RS.Count] <= Ceiling(cfg, l))
            && CountIn(Run(run).log, from, hi) <= Ceiling(cfg, l) * q + Ceiling(cfg, l)
  {
    TopInNumbers(cfg, l);
    var run := ScaledRun(cfg, l, requests);
    ScaledCounts(cfg, l, requests);
    F.WindowNeverExceeds(run, l.duration, TopLimit(cfg, l).count);
    F.SpanBound(run, l.duration, TopLimit(cfg, l).count, from, hi, q);
  }

  /** The same for a sliding window: no aligned window passes the ceiling, and no stretch of one duration its double. */
  lemma AdaptiveSlidingWindowBound(cfg: Config, l: RateLimit, requests: seq<(nat, real)>, from: int, start: int)
    requires l.algorithm.SlidingWindowCounter? && l.duration > 0 && S.Aligned(start, l.duration)
    requires forall i | 0 <= i < |requests| :: requests[i].1 <= cfg.maximum
    requires forall i, j | 0 <= i <= j < |requests| :: requests[i].0 <= requests[j].0
    ensures var run := ScaledRun(cfg, l, requests);
            && S.SlidingRun(run, l.duration)
            && S.InWindow(Run(run).log, start, l.duration) <= Ceiling(cfg, l)
            && CountWithin(Run(run).log, from, 1000 * l.duration) <= 2 * Ceiling(cfg, l)
  {
    TopInNumbers(cfg, l);
    var run := ScaledRun(cfg, l, requests);
    ScaledCounts(cfg, l, requests);
    S.WindowBound(run, l.duration, TopLimit(cfg, l).count, start);
    S.StretchBound(run, l.duration, TopLimit(cfg, l).count, from);
  }

  // ---------- scaled buckets ----------

  lemma ScaledBelowTop(cfg: Config, l: RateLimit, m: real)
    requires T.Bucket(l) && m <= cfg.maximum
    ensures T.Bucket(TopLimit(cfg, l)) && T.Below(AppliedLimit(cfg, l, m), TopLimit(cfg, l), 0.0000005)
  {
    AppliedWithinTop(cfg, l, m);
  }

  /**
   * End to end: for any sequence of per-request multipliers, a bucket admits in any span no more than fits in the
   * highest capacity and what the highest rate gains, or what expiry of the key gives it if that is more.
   */
  lemma AdaptiveBucketBound(cfg: Config, l: RateLimit, requests: seq<(nat, real)>, from: int, span: nat)
    requires T.Bucket(l)
    requires forall i | 0 <= i < |requests| :: requests[i].1 <= cfg.maximum
    requires forall i, j | 0 <= i <= j < |requests| :: requests[i].0 <= requests[j].0
    ensures var run, top := ScaledRun(cfg, l, requests), TopLimit(cfg, l);
            && top.count == Ceiling(cfg, l)
            && T.VaryingRun(run, top, 0.0000005)
            && T.Fits(T.Renewed(top), CountWithin(Run(run).log, from, span), span, 0.0000005)
            && (T.FullBeforeExpiry(top) ==> T.Fits(top, CountWithin(Run(run).log, from, span), span, 0.0000005))
  {
    var run := ScaledRun(cfg, l, requests);
    TopInNumbers(cfg, l);
    ScaledBelowTop(cfg, l, cfg.maximum);
    forall i | 0 <= i < |run| ensures T.Below(run[i].limit, TopLimit(cfg, l), 0.0000005) {
      ScaledBelowTop(cfg, l, requests[i].1);
    }
    T.SpanBound(run, TopLimit(cfg, l), 0.0000005, from, span);
  }

  /** The limits under which requests of some facts may charge the counter of a configured bucket. */
  ghost function Variants(cfg: Config, l: RateLimit): iset<RateLimit> {
    iset q: Facts, m: real | Yields(cfg, q, m) :: AppliedLimit(cfg, l, m)
  }

  /**
   * In messages: what a default refill scaled to `x` messages gains before the key expires covers these, rounded up.
   */
  predicate Fills(x: real, duration: nat) {
    RealMax(x, 1.0) * (1000 * (duration + 60) + 1) as real >= (1000 * Max(1, Ceil(x)) * duration) as real
  }

  predicate ScaledFills(count: nat, duration: nat, m: real) {
    Fills(count as real * m, duration)
  }

  lemma RateInWholeMessages(c: real, d: real, m: real)
    requires d > 0.0
    ensures RealMax(c / d * m, 1.0 / d) == RealMax(c * m, 1.0) / d > 0.0
  {
    assert c / d * m == c * m / d;
    assert (c * m - 1.0) / d == c * m / d - 1.0 / d;
    assert 1.0 / d > 0.0;
  }

  /** The bucket for so many messages, not yet rounded up, with the default refill for them. */
  function DefaultFor(l: RateLimit, x: real): RateLimit
    requires l.duration >= 1
  {
    l.(count := Max(1, Ceil(x)), refillRate := RealMax(x, 1.0) / l.duration as real)
  }

  lemma DefaultForFull(l: RateLimit, x: real)
    requires l.algorithm.TokenBucket? && l.duration >= 1
    ensures T.Bucket(DefaultFor(l, x)) && (T.FullBeforeExpiry(DefaultFor(l, x)) <==> Fills(x, l.duration))
  {
    T.FullInWholeNumbers(DefaultFor(l, x), RealMax(x, 1.0), l.duration);
    assert RealMax(x, 1.0) / l.duration as real >= 0.0;
  }

  /** Scaling keeps a default refill the default one, before the number of messages is rounded up. */
  lemma ScaledIsDefault(l: RateLimit, m: real)
    requires l.algorithm.TokenBucket? && !l.unlimited && l.count >= 1 && l.duration >= 1
    requires l.refillRate == l.count as real / l.duration as real
    ensures ScaleLimit(l, m) == DefaultFor(l, l.count as real * m)
  {
    assert l.refillRate > 0.0;
    RateInWholeMessages(l.count as real, l.duration as real, m);
  }

  lemma ScaledFull(l: RateLimit, m: real, scaled: RateLimit)
    requires l.algorithm.TokenBucket? && !l.unlimited && l.count >= 1 && l.duration >= 1
    requires l.refillRate == l.count as real / l.duration as real
    requires scaled == ScaleLimit(l, m)
    ensures T.Bucket(scaled)
    ensures T.FullBeforeExpiry(scaled) <==> ScaledFills(l.count, l.duration, m)
  {
    ScaledIsDefault(l, m);
    DefaultForFull(l, l.count as real * m);
  }

  /** The exact condition on limit and multiplier, for a bucket that leaves its refill to the default. */
  lemma ScaledDefaultFull(cfg: Config, l: RateLimit, m: real)
    requires l.algorithm.TokenBucket? && !l.unlimited && l.count >= 1 && l.duration >= 1
    requires l.refillRate == l.count as real / l.duration as real
    ensures T.Bucket(AppliedLimit(cfg, l, m))
    ensures T.FullBeforeExpiry(AppliedLimit(cfg, l, m))
            <==> !cfg.enable || CloseToOne(m) || ScaledFills(l.count, l.duration, m)
  {
    if !cfg.enable || CloseToOne(m) {
      DefaultFull(l);
    } else {
      ScaledFull(l, m, ScaleLimit(l, m));
    }
  }

  lemma DefaultFull(l: RateLimit)
    requires l.algorithm.TokenBucket? && l.duration >= 1 && l.refillRate == l.count as real / l.duration as real
    ensures T.Bucket(l) && T.FullBeforeExpiry(l)
  {
    T.FullInWholeNumbers(l, l.count as real, l.duration);
    var c, ms := l.count as real, (1000 * (l.duration + 60) + 1) as real;
    assert c * (ms - 1000.0 * l.duration as real) >= 0.0;
    T.ProductAsReal(l.count, l.duration);
  }

  /**
   * A configured bucket with the default refill: expiry goes unseen in all runs, whatever mixture of multipliers its
   * requests get, exactly when every multiplier that the configuration can yield scales capacity and rate alike enough.
   */
  lemma ScaledExpiryHarmlessExactlyWhen(cfg: Config, l: RateLimit)
    requires l.algorithm.TokenBucket? && !l.unlimited && l.count >= 1 && l.duration >= 1
    requires l.refillRate == l.count as real / l.duration as real
    ensures T.Buckets(Variants(cfg, l), l.duration)
    ensures T.ExpiryHarmless(Variants(cfg, l), l.duration)
            <==> forall q, m | Yields(cfg, q, m) :: !cfg.enable || CloseToOne(m) || ScaledFills(l.count, l.duration, m)
  {
    forall q, m | Yields(cfg, q, m)
      ensures T.Bucket(AppliedLimit(cfg, l, m))
      ensures T.FullBeforeExpiry(AppliedLimit(cfg, l, m))
              <==> !cfg.enable || CloseToOne(m) || ScaledFills(l.count, l.duration, m)
    {
      ScaledDefaultFull(cfg, l, m);
    }
    T.ExpiryHarmlessExactlyWhen(Variants(cfg, l), l.duration);
    forall q, m | Yields(cfg, q, m) ensures AppliedLimit(cfg, l, m) in Variants(cfg, l) {}
  }

  /** The multipliers of the example configuration. */
  const EXAMPLE := Config(true, 1.5, 0.5, 1.25, 0.75, 2.0, 0.5, 3.0)

  /**
   * The condition fails under the example configuration for one message a day: an authenticated sender gets a factor
   * of one and a half, hence two tokens, but only one and a half are gained before the key expires.
   */
  lemma ExampleOutpacesExpiry()
    ensures var l := RateLimit(1, 86400, 1.0 / 86400.0, TokenBucket, false);
            && Yields(EXAMPLE, Facts(true, false, true, false), 1.5) && !ScaledFills(1, 86400, 1.5)
            && T.ExpiryHarmless(iset{l}, 86400)
            && T.Buckets(Variants(EXAMPLE, l), 86400) && !T.ExpiryHarmless(Variants(EXAMPLE, l), 86400)
  {
    var l, q := RateLimit(1, 86400, 1.0 / 86400.0, TokenBucket, false), Facts(true, false, true, false);
    assert Applicable(EXAMPLE, q) == [1.5, 0.75];
    assert 1.5 in [1.5, 0.75];
    assert Chosen(1.5, Applicable(EXAMPLE, q)) && Clamp(EXAMPLE, 1.5) == 1.5;
    assert !CloseToOne(1.5) && Ceil(1.5) == 2 && !ScaledFills(1, 86400, 1.5);
    ScaledExpiryHarmlessExactlyWhen(EXAMPLE, l);
    assert Yields(EXAMPLE, q, 1.5) && EXAMPLE.enable;
    DefaultFull(l);
    T.AloneHarmlessExactlyWhen(l);
  }
}
