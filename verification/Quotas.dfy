/** The limits that the parts of a quota string stand for, and the refill rate that a part gets by default. */
module Quotas {
  import opened Prelude
  import opened Limits
  import opened Scripts
  import T = TokenBucketRuns

  /**
   * `count/duration`, `count/duration:tokens/period`, the older `count:duration[:rate]`, or text that is passed over.
   */
  datatype Part =
    | UnlimitedPart
    | SlashPart(count: nat, duration: nat, refill: Option<(real, nat)>, algorithm: Algorithm)
    | ColonPart(count: nat, duration: nat, rate: Option<real>, algorithm: Algorithm)
    | OtherPart

  function DefaultRate(count: nat, duration: nat): real {
    if duration > 0 then count as real / duration as real else 0.0
  }

  function RateOf(p: Part): real
    requires p.SlashPart? || p.ColonPart?
  {
    if !p.algorithm.TokenBucket? then 0.0
    else
      match p
      case SlashPart(count, duration, refill, _) =>
        if refill.None? then DefaultRate(count, duration)
        else if refill.value.1 > 0 then refill.value.0 / refill.value.1 as real else 0.0
      case ColonPart(count, duration, rate, _) =>
        if rate.None? then DefaultRate(count, duration) else rate.value
  }

  function LimitOf(p: Part): Option<RateLimit> {
    match p
    case UnlimitedPart => Some(RateLimit(0, 0, 0.0, TokenBucket, true))
    case OtherPart => None
    case _ => Some(RateLimit(p.count, p.duration, RateOf(p), p.algorithm, false))
  }

  predicate DefaultRefill(p: Part) {
    (p.SlashPart? && p.refill.None?) || (p.ColonPart? && p.rate.None?)
  }

  lemma DefaultRateFills(count: nat, duration: nat, ttlMs: nat)
    requires duration > 0 && ttlMs >= 1000 * duration
    ensures Refill(DefaultRate(count, duration), ttlMs) >= count as real
  {
    var c, d, t := count as real, duration as real, ttlMs as real / 1000.0;
    assert t >= d;
    assert c / d * d == c;
    assert (t - d) * (c / d) >= 0.0;
    assert t * (c / d) == d * (c / d) + (t - d) * (c / d);
  }

  /**
   * A bucket with a positive duration that leaves its refill to the default cannot be refilled early by key expiry,
   * whatever the run; one without a duration can, unless it admits nothing.
   */
  lemma DefaultRefillMakesExpiryHarmless(p: Part)
    requires DefaultRefill(p) && p.algorithm.TokenBucket?
    ensures var l := LimitOf(p).value;
            T.Bucket(l) && (T.ExpiryHarmless(iset{l}, p.duration) <==> p.duration > 0 || p.count == 0)
  {
    var l := LimitOf(p).value;
    if p.duration > 0 {
      DefaultRateFills(p.count, p.duration, 1000 * TtlSeconds(l) + 1);
      assert p.count as real / p.duration as real >= 0.0;
    } else {
      assert Refill(0.0, 1000 * TtlSeconds(l) + 1) == 0.0;
    }
    T.AloneHarmlessExactlyWhen(l);
  }

  lemma QuotientNonnegative(a: real, b: real)
    requires a >= 0.0 && b > 0.0
    ensures a / b >= 0.0
  {
  }

  lemma GainHarmlessExactlyWhen(l: RateLimit, tokens: real, period: nat)
    requires period > 0 && tokens >= 0.0 && l.algorithm.TokenBucket? && l.refillRate == tokens / period as real
    ensures T.Bucket(l) && (T.ExpiryHarmless(iset{l}, l.duration) <==> T.GainFills(l, tokens, period))
  {
    QuotientNonnegative(tokens, period as real);
    T.AloneHarmlessExactlyWhen(l);
    T.FullInWholeNumbers(l, tokens, period);
  }

  lemma ExplicitRate(p: Part, l: RateLimit)
    requires p.SlashPart? && p.algorithm.TokenBucket? && p.refill.Some? && p.refill.value.1 > 0 && LimitOf(p) == Some(l)
    ensures l.algorithm.TokenBucket? && l.refillRate == p.refill.value.0 / p.refill.value.1 as real
  {
  }

  /** With an explicit refill, expiry of the bucket is harmless exactly when the refill fills it before it expires. */
  lemma ExplicitRefillHarmlessExactlyWhen(p: Part, l: RateLimit)
    requires p.SlashPart? && p.algorithm.TokenBucket? && p.refill.Some? && LimitOf(p) == Some(l)
    requires p.refill.value.0 >= 0.0 && p.refill.value.1 > 0
    ensures T.Bucket(l)
    ensures T.ExpiryHarmless(iset{l}, l.duration) <==> T.GainFills(l, p.refill.value.0, p.refill.value.1)
  {
    ExplicitRate(p, l);
    GainHarmlessExactlyWhen(l, p.refill.value.0, p.refill.value.1);
  }
}
