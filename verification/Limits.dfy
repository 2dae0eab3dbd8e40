/** Rate limits and the Redis key under which each one is counted. */
module Limits {

  datatype Algorithm = TokenBucket | FixedWindow | SlidingWindowCounter

  datatype RateLimit = RateLimit(
    count: nat, duration: nat, refillRate: real, algorithm: Algorithm, unlimited: bool)

  /** The time to live that every admitted message gives its counter. */
  function TtlSeconds(l: RateLimit): nat {
    if l.algorithm.SlidingWindowCounter? then l.duration * 2 + 60 else l.duration + 60
  }

  function Digit(d: nat): char
    requires d < 10
  {
    "0123456789"[d]
  }

  function Decimal(n: nat): (s: string)
    ensures |s| > 0 && (|s| == 1 <==> n < 10)
    ensures forall i | 0 <= i < |s| :: '0' <= s[i] <= '9'
  {
    if n < 10 then [Digit(n)] else Decimal(n / 10) + [Digit(n % 10)]
  }

  function Prefix(a: Algorithm): string {
    match a
    case FixedWindow => "ratelimit:window:"
    case SlidingWindowCounter => "ratelimit:sliding:"
    case TokenBucket => "ratelimit:bucket:"
  }

  function KeyForLimit(sender: string, l: RateLimit): string {
    Prefix(l.algorithm) + sender + ":" + Decimal(l.duration)
  }

  lemma {:induction false} DecimalInjective(m: nat, n: nat)
    requires Decimal(m) == Decimal(n)
    ensures m == n
  {
    var s, t := Decimal(m), Decimal(n);
    if m >= 10 {
      var last := |s| - 1;
      assert s[..last] == Decimal(m / 10) && t[..last] == Decimal(n / 10);
      DecimalInjective(m / 10, n / 10);
      assert s[last] == Digit(m % 10) && t[last] == Digit(n % 10);
      DigitInjective(m % 10, n % 10);
    } else {
      assert s[0] == Digit(m) && t[0] == Digit(n);
      DigitInjective(m, n);
    }
  }

  lemma DigitInjective(c: nat, d: nat)
    requires c < 10 && d < 10 && Digit(c) == Digit(d)
    ensures c == d
  {
  }

  /** A colon followed by digits only: the split into sender and duration can be read back. */
  lemma SuffixInjective(a: string, b: string, m: nat, n: nat)
    requires a + ":" + Decimal(m) == b + ":" + Decimal(n)
    ensures a == b && m == n
  {
    var s, t := a + ":" + Decimal(m), b + ":" + Decimal(n);
    assert s[|a|] == ':' && t[|b|] == ':';
    if |a| == |b| {
      assert a == s[..|a|] == b;
      assert Decimal(m) == s[|a| + 1..] == Decimal(n);
      DecimalInjective(m, n);
    }
  }

  /** Two limits share a counter exactly when sender, algorithm and duration agree; count and rate play no part. */
  lemma KeysAgree(sender: string, l: RateLimit, other: string, k: RateLimit)
    ensures KeyForLimit(sender, l) == KeyForLimit(other, k)
            <==> sender == other && l.algorithm == k.algorithm && l.duration == k.duration
  {
    if KeyForLimit(sender, l) == KeyForLimit(other, k) {
      var s, t := KeyForLimit(sender, l), KeyForLimit(other, k);
      assert s[10] == Prefix(l.algorithm)[10] && t[10] == Prefix(k.algorithm)[10];
      var n := |Prefix(l.algorithm)|;
      assert s[n..] == sender + ":" + Decimal(l.duration);
      assert t[n..] == other + ":" + Decimal(k.duration);
      SuffixInjective(sender, other, l.duration, k.duration);
    }
  }

  /** The keys as Redis shows them. */
  lemma KeyExamples(count: nat, rate: real)
    ensures KeyForLimit("bob", RateLimit(count, 60, rate, FixedWindow, false)) == "ratelimit:window:bob:60"
    ensures KeyForLimit("bob", RateLimit(count, 60, rate, SlidingWindowCounter, false)) == "ratelimit:sliding:bob:60"
    ensures KeyForLimit("bob", RateLimit(count, 60, rate, TokenBucket, false)) == "ratelimit:bucket:bob:60"
  {
    assert Decimal(6) == "6" && Decimal(60) == "60";
  }
}
