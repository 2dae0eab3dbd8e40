/** Whatever quota string is written in one of the documented forms is read as it was meant. */
module QuotaRoundTrip {
  import opened Prelude
  import opened Limits
  import opened Quotas
  import opened QuotaText

  // ---------- strings ----------

  lemma DigitValue(d: nat)
    requires d < 10
    ensures '0' <= Digit(d) <= '9' && Digit(d) as int - '0' as int == d
  {
  }

  lemma NumberAppend(s: string, d: nat)
    requires AllDigits(s) && d < 10
    ensures AllDigits(s + [Digit(d)]) && Number(s + [Digit(d)]) == 10 * Number(s) + d
  {
    DigitValue(d);
    assert (s + [Digit(d)])[..|s|] == s;
  }

  lemma {:induction false} NumberOfDecimal(n: nat)
    ensures IsDigits(Decimal(n)) && Number(Decimal(n)) == n
  {
    var tens, ones := n / 10, n % 10;
    assert n == 10 * tens + ones;
    if n >= 10 {
      NumberOfDecimal(tens);
      NumberAppend(Decimal(tens), ones);
    } else {
      NumberAppend("", n);
      assert "" + [Digit(n)] == Decimal(n);
    }
  }

  predicate AllBlank(s: string) {
    forall i | 0 <= i < |s| :: Blank(s[i])
  }

  predicate Trimmed(s: string) {
    s != "" && !Blank(s[0]) && !Blank(s[|s| - 1])
  }

  lemma {:induction false} StripPadded(left: string, s: string, right: string)
    requires AllBlank(left) && AllBlank(right) && Trimmed(s)
    ensures Strip(left + s + right) == s
    decreases |left| + |right|
  {
    var padded := left + s + right;
    if left != "" {
      assert padded[0] == left[0] && padded[1..] == left[1..] + s + right;
      StripPadded(left[1..], s, right);
    } else if right != "" {
      var last := |right| - 1;
      assert padded[0] == s[0] && padded[|padded| - 1] == right[last];
      assert padded[..|padded| - 1] == left + s + right[..last];
      StripPadded(left, s, right[..last]);
    } else {
      assert padded == s;
    }
  }

  lemma {:induction false} IndexAfter(s: string, c: char, t: string)
    requires c !in s
    ensures IndexOf(s + [c] + t, c) == |s|
  {
    var all := s + [c] + t;
    assert all[|s|] == c;
    assert forall j | 0 <= j < |s| :: all[j] == s[j];
  }

  lemma NoIndex(s: string, c: char)
    requires c !in s
    ensures IndexOf(s, c) == |s|
  {
  }

  lemma CutAt(s: string, c: char, t: string)
    requires c !in s
    ensures var all := s + [c] + t; var i := IndexOf(all, c); i == |s| < |all| && all[..i] == s && all[i + 1..] == t
  {
    IndexAfter(s, c, t);
    var all := s + [c] + t;
    assert all[..|s|] == s;
    assert all[|s| + 1..] == t;
  }

  lemma SplitAt(s: string, c: char, t: string)
    requires c !in s
    ensures Split(s + [c] + t, c) == [s] + Split(t, c)
  {
    CutAt(s, c, t);
  }

  lemma {:induction false} SplitJoin(pieces: seq<string>, c: char)
    requires pieces != [] && forall p | p in pieces :: c !in p
    ensures Split(Join(pieces, c), c) == pieces
  {
    if |pieces| == 1 {
      NoIndex(pieces[0], c);
    } else {
      SplitAt(pieces[0], c, Join(pieces[1..], c));
      SplitJoin(pieces[1..], c);
    }
  }

  lemma LowerKeeps(s: string)
    requires forall i | 0 <= i < |s| :: !('A' <= s[i] <= 'Z')
    ensures Lower(s) == s
  {
  }

  /** A number of seconds, or of minutes, hours or days when a letter says so. */
  datatype Length = Length(n: nat, unit: string)

  predicate ProperUnit(unit: string) {
    unit in ["", "s", "m", "h", "d"]
  }

  function Written(d: Length): string {
    Decimal(d.n) + d.unit
  }

  function UnitSeconds(unit: string): nat {
    match unit
    case "d" => 86400
    case "h" => 3600
    case "m" => 60
    case _ => 1
  }

  function Seconds(d: Length): nat {
    d.n * UnitSeconds(d.unit)
  }

  lemma WrittenIsClean(d: Length)
    requires ProperUnit(d.unit)
    ensures forall c | c in Written(d) :: '0' <= c <= '9' || c in ['d', 'h', 'm', 's']
    ensures Written(d) != ""
  {
    assert forall i | 0 <= i < |Decimal(d.n)| :: '0' <= Decimal(d.n)[i] <= '9';
  }

  lemma StripKeeps(s: string)
    requires Trimmed(s)
    ensures Strip(s) == s
  {
  }

  predicate Clean(s: string) {
    forall i | 0 <= i < |s| :: '0' <= s[i] <= '9' || 'a' <= s[i] <= 'z'
  }

  lemma CleanKept(s: string)
    requires s != "" && Clean(s)
    ensures Lower(Strip(s)) == s
  {
    StripKeeps(s);
    LowerKeeps(s);
  }

  lemma UnitRead(n: nat, unit: char)
    requires unit in "smhd"
    ensures ParseDuration(Decimal(n) + [unit]) == Some(n * SecondsPer(unit))
  {
    var s := Decimal(n) + [unit];
    CleanKept(s);
    NumberOfDecimal(n);
    UnitSplits(Decimal(n), unit);
  }

  lemma PlainRead(n: nat)
    ensures ParseDuration(Decimal(n)) == Some(n)
  {
    CleanKept(Decimal(n));
    NumberOfDecimal(n);
  }

  lemma DurationReadBack(d: Length)
    requires ProperUnit(d.unit)
    ensures ParseDuration(Written(d)) == Some(Seconds(d))
  {
    match d.unit
    case "" =>
      PlainRead(d.n);
      assert Written(d) == Decimal(d.n);
    case "d" => UnitRead(d.n, 'd');
    case "h" => UnitRead(d.n, 'h');
    case "m" => UnitRead(d.n, 'm');
    case _ => UnitRead(d.n, 's');
  }

  lemma UnitSplits(digits: string, unit: char)
    requires SecondsPer(unit) > 0
    ensures var s := digits + [unit]; s[|s| - 1] == unit && s[..|s| - 1] == digits && !AllDigits(s)
  {
    var s := digits + [unit];
    assert s[|digits|] == unit;
  }

  lemma MatchCount(count: nat, rest: string)
    ensures MatchSlash(Decimal(count) + ['/'] + rest) == MatchDuration(count, rest)
  {
    NumberOfDecimal(count);
    CutAt(Decimal(count), '/', rest);
  }

  lemma MatchBoth(count: nat, duration: string, tokens: string, period: string)
    requires duration != "" && ':' !in duration && tokens != "" && '/' !in tokens && period != "" && '/' !in period
    ensures MatchDuration(count, duration + [':'] + (tokens + ['/'] + period))
            == Some(Slash(count, duration, Some((tokens, period))))
  {
    CutAt(duration, ':', tokens + ['/'] + period);
    CutAt(tokens, '/', period);
  }

  datatype Tag = NoTag | BucketTag | FixedTag | SlidingTag | SlidingShortTag

  function TagText(tag: Tag): string {
    match tag
    case NoTag => ""
    case BucketTag => ":token_bucket"
    case FixedTag => ":fixed_window"
    case SlidingTag => ":sliding_window_counter"
    case SlidingShortTag => ":sliding_window"
  }

  function TagAlgorithm(tag: Tag): Algorithm {
    match tag
    case FixedTag => FixedWindow
    case SlidingTag => SlidingWindowCounter
    case SlidingShortTag => SlidingWindowCounter
    case _ => TokenBucket
  }

  lemma EndsWithIt(base: string, t: string)
    ensures EndsWith(base + t, t) && (base + t)[..|base + t| - |t|] == base
  {
  }

  lemma EndsOtherwise(s: string, t: string, fromEnd: nat)
    requires 0 < fromEnd <= |t| && fromEnd <= |s| && s[|s| - fromEnd] != t[|t| - fromEnd]
    ensures !EndsWith(s, t)
  {
  }

  predicate EndsInLength(base: string) {
    base != "" && var c := base[|base| - 1]; '0' <= c <= '9' || c in ['d', 'h', 'm', 's']
  }

  lemma NoTagSplits(text: string)
    requires EndsInLength(text)
    ensures SplitAlgorithm(text) == (text, TokenBucket)
  {
    EndsOtherwise(text, SLIDING, 1);
    EndsOtherwise(text, SLIDING_SHORT, 1);
    EndsOtherwise(text, FIXED, 1);
    EndsOtherwise(text, BUCKET, 1);
  }

  lemma BucketTagSplits(base: string)
    ensures SplitAlgorithm(base + BUCKET) == (base, TokenBucket)
  {
    EndsWithIt(base, BUCKET);
    EndsOtherwise(base + BUCKET, SLIDING, 1);
    EndsOtherwise(base + BUCKET, SLIDING_SHORT, 1);
    EndsOtherwise(base + BUCKET, FIXED, 1);
  }

  lemma FixedTagSplits(base: string)
    requires base != ""
    ensures SplitAlgorithm(base + FIXED) == (base, FixedWindow)
  {
    EndsWithIt(base, FIXED);
    EndsOtherwise(base + FIXED, SLIDING, 1);
    EndsOtherwise(base + FIXED, SLIDING_SHORT, |FIXED|);
  }

  lemma SlidingTagSplits(base: string)
    ensures SplitAlgorithm(base + SLIDING) == (base, SlidingWindowCounter)
    ensures SplitAlgorithm(base + SLIDING_SHORT) == (base, SlidingWindowCounter)
  {
    EndsWithIt(base, SLIDING);
    EndsWithIt(base, SLIDING_SHORT);
    EndsOtherwise(base + SLIDING_SHORT, SLIDING, 1);
  }

  lemma TagSplits(base: string, tag: Tag)
    requires EndsInLength(base)
    ensures SplitAlgorithm(base + TagText(tag)) == (base, TagAlgorithm(tag))
  {
    match tag
    case NoTag =>
      assert base + TagText(tag) == base;
      NoTagSplits(base);
    case BucketTag => BucketTagSplits(base);
    case FixedTag => FixedTagSplits(base);
    case SlidingTag => SlidingTagSplits(base);
    case SlidingShortTag => SlidingTagSplits(base);
  }

  /** A part as an administrator writes it; `tokens` and `rate` are whatever text stands for the refill. */
  datatype Quota =
    | Unlimited
    | Plain(count: nat, duration: Length, tag: Tag)
    | Refilled(count: nat, duration: Length, tokens: string, period: Length, tag: Tag)
    | Older(count: nat, seconds: nat, tag: Tag)
    | OlderRated(count: nat, seconds: nat, rate: string, tag: Tag)

  predicate Proper(q: Quota) {
    match q
    case Unlimited => true
    case Plain(_, d, _) => ProperUnit(d.unit)
    case Refilled(_, d, tokens, p, _) =>
      ProperUnit(d.unit) && ProperUnit(p.unit) && tokens != "" && '/' !in tokens && ',' !in tokens
    case Older(_, _, _) => true
    case OlderRated(_, _, rate, _) =>
      ':' !in rate && '/' !in rate && ',' !in rate && rate != "" && '0' <= rate[|rate| - 1] <= '9'
  }

  function Base(q: Quota): string
    requires !q.Unlimited?
  {
    match q
    case Plain(count, d, _) => Decimal(count) + ['/'] + Written(d)
    case Refilled(count, d, tokens, p, _) =>
      Decimal(count) + ['/'] + (Written(d) + [':'] + (tokens + ['/'] + Written(p)))
    case Older(count, seconds, _) => Decimal(count) + [':'] + Decimal(seconds)
    case OlderRated(count, seconds, rate, _) => Decimal(count) + [':'] + (Decimal(seconds) + [':'] + rate)
  }

  function Text(q: Quota): string {
    if q.Unlimited? then "unlimited" else Base(q) + TagText(q.tag)
  }

  /** What is meant. */
  function Meaning(q: Quota, toReal: string -> Option<real>): Reading
    requires Proper(q)
  {
    match q
    case Unlimited => Read(UnlimitedPart)
    case Plain(count, d, tag) => Read(SlashPart(count, Seconds(d), None, TagAlgorithm(tag)))
    case Refilled(count, d, tokens, p, tag) =>
      if TagAlgorithm(tag) != TokenBucket then Read(SlashPart(count, Seconds(d), None, TagAlgorithm(tag)))
      else if toReal(tokens).None? then Raises
      else Read(SlashPart(count, Seconds(d), Some((toReal(tokens).value, Seconds(p))), TokenBucket))
    case Older(count, seconds, tag) => Read(ColonPart(count, seconds, None, TagAlgorithm(tag)))
    case OlderRated(count, seconds, rate, tag) =>
      if TagAlgorithm(tag) != TokenBucket then Read(ColonPart(count, seconds, None, TagAlgorithm(tag)))
      else if toReal(rate).None? then Raises
      else Read(ColonPart(count, seconds, toReal(rate), TokenBucket))
  }

  /** What is meant, as a limit; None where the text for a refill that counts is no number. */
  function MeantLimit(q: Quota, toReal: string -> Option<real>): Option<RateLimit>
    requires Proper(q)
  {
    match q
    case Unlimited => Some(RateLimit(0, 0, 0.0, TokenBucket, true))
    case Plain(count, d, tag) => Some(MeantDefault(count, Seconds(d), TagAlgorithm(tag)))
    case Older(count, seconds, tag) => Some(MeantDefault(count, seconds, TagAlgorithm(tag)))
    case Refilled(count, d, tokens, p, tag) =>
      if TagAlgorithm(tag) != TokenBucket then Some(RateLimit(count, Seconds(d), 0.0, TagAlgorithm(tag), false))
      else if toReal(tokens).None? then None
      else Some(RateLimit(count, Seconds(d), if Seconds(p) > 0 then toReal(tokens).value / Seconds(p) as real else 0.0,
                          TokenBucket, false))
    case OlderRated(count, seconds, rate, tag) =>
      if TagAlgorithm(tag) != TokenBucket then Some(RateLimit(count, seconds, 0.0, TagAlgorithm(tag), false))
      else if toReal(rate).None? then None
      else Some(RateLimit(count, seconds, toReal(rate).value, TokenBucket, false))
  }

  /** A bucket without a refill of its own gains its count in its duration. */
  function MeantDefault(count: nat, seconds: nat, a: Algorithm): RateLimit {
    RateLimit(count, seconds, if a == TokenBucket && seconds > 0 then count as real / seconds as real
        else 0.0, a, false)
  }

  lemma MeaningAsLimit(q: Quota, toReal: string -> Option<real>)
    requires Proper(q)
    ensures MeantLimit(q, toReal) == if Meaning(q, toReal).Raises? then None else LimitOf(Meaning(q, toReal).part)
  {
  }

  /** Reading of a part without its tag. */
  function ReadBase(base: string, a: Algorithm, toReal: string -> Option<real>): Reading {
    var m := MatchSlash(base);
    if m.Some? then ReadSlash(m.value, a, toReal) else ReadColon(Split(base, ':'), a, toReal)
  }

  lemma PlainReadBack(q: Quota, toReal: string -> Option<real>)
    requires Proper(q) && q.Plain?
    ensures ReadBase(Base(q), TagAlgorithm(q.tag), toReal) == Meaning(q, toReal)
  {
    var d := Written(q.duration);
    WrittenIsClean(q.duration);
    DurationReadBack(q.duration);
    MatchCount(q.count, d);
    NoIndex(d, ':');
    assert MatchSlash(Base(q)) == Some(Slash(q.count, d, None));
  }

  lemma RefilledMatches(q: Quota)
    requires Proper(q) && q.Refilled?
    ensures MatchSlash(Base(q)) == Some(Slash(q.count, Written(q.duration), Some((q.tokens, Written(q.period)))))
  {
    var d, p := Written(q.duration), Written(q.period);
    WrittenIsClean(q.duration);
    WrittenIsClean(q.period);
    MatchCount(q.count, d + [':'] + (q.tokens + ['/'] + p));
    MatchBoth(q.count, d, q.tokens, p);
  }

  lemma RefillMeant(q: Quota, toReal: string -> Option<real>)
    requires Proper(q) && q.Refilled?
    ensures ReadSlash(Slash(q.count, Written(q.duration), Some((q.tokens, Written(q.period)))), TagAlgorithm(q.tag),
               toReal)
            == Meaning(q, toReal)
  {
    DurationReadBack(q.duration);
    DurationReadBack(q.period);
  }

  lemma RefilledReadBack(q: Quota, toReal: string -> Option<real>)
    requires Proper(q) && q.Refilled?
    ensures ReadBase(Base(q), TagAlgorithm(q.tag), toReal) == Meaning(q, toReal)
  {
    RefilledMatches(q);
    RefillMeant(q, toReal);
  }

  lemma OlderReadBack(q: Quota, toReal: string -> Option<real>)
    requires q.Older?
    ensures ReadBase(Base(q), TagAlgorithm(q.tag), toReal) == Meaning(q, toReal)
  {
    var a, b := Decimal(q.count), Decimal(q.seconds);
    NumberOfDecimal(q.count);
    NumberOfDecimal(q.seconds);
    assert '/' !in a && '/' !in b && ':' !in a && ':' !in b;
    NoIndex(Base(q), '/');
    SplitJoin([a, b], ':');
    assert Join([a, b], ':') == Base(q);
  }

  lemma DecimalClean(n: nat)
    ensures '/' !in Decimal(n) && ':' !in Decimal(n)
  {
  }

  lemma SplitThree(a: string, b: string, rate: string)
    requires ':' !in a && ':' !in b && ':' !in rate
    ensures Split(a + [':'] + (b + [':'] + rate), ':') == [a, b, rate]
  {
    SplitAt(a, ':', b + [':'] + rate);
    SplitAt(b, ':', rate);
    NoIndex(rate, ':');
  }

  lemma OlderRatedReadBack(q: Quota, toReal: string -> Option<real>)
    requires Proper(q) && q.OlderRated?
    ensures ReadBase(Base(q), TagAlgorithm(q.tag), toReal) == Meaning(q, toReal)
  {
    NumberOfDecimal(q.count);
    NumberOfDecimal(q.seconds);
    DecimalClean(q.count);
    DecimalClean(q.seconds);
    SplitThree(Decimal(q.count), Decimal(q.seconds), q.rate);
    NoIndex(Base(q), '/');
    assert MatchSlash(Base(q)).None?;
  }

  predicate Shaped(s: string) {
    EndsInLength(s) && '0' <= s[0] <= '9' && ',' !in s
  }

  lemma PairShaped(head: string, middle: string, last: string)
    requires IsDigits(head) && ',' !in middle && EndsInLength(last) && ',' !in last
    ensures Shaped(head + middle + last)
  {
    var s := head + middle + last;
    assert s[|s| - 1] == last[|last| - 1];
    assert s[0] == head[0];
  }

  lemma WrittenEnds(d: Length)
    requires ProperUnit(d.unit)
    ensures EndsInLength(Written(d)) && ',' !in Written(d)
  {
    WrittenIsClean(d);
    assert Written(d)[|Written(d)| - 1] in Written(d);
  }

  lemma RefilledShape(count: nat, d: string, tokens: string, p: string)
    requires ',' !in d && ',' !in tokens && EndsInLength(p) && ',' !in p
    ensures Shaped(Decimal(count) + ['/'] + (d + [':'] + (tokens + ['/'] + p)))
  {
    var middle := ['/'] + d + [':'] + tokens + ['/'];
    NumberOfDecimal(count);
    PairShaped(Decimal(count), middle, p);
    assert Decimal(count) + middle + p == Decimal(count) + ['/'] + (d + [':'] + (tokens + ['/'] + p));
  }

  lemma RatedShape(a: string, b: string, rate: string)
    requires IsDigits(a) && IsDigits(b) && ',' !in rate && EndsInLength(rate)
    ensures Shaped(a + [':'] + (b + [':'] + rate))
  {
    var middle := [':'] + b + [':'];
    PairShaped(a, middle, rate);
    assert a + middle + rate == a + [':'] + (b + [':'] + rate);
  }

  lemma BaseShape(q: Quota)
    requires Proper(q) && !q.Unlimited?
    ensures Shaped(Base(q))
  {
    if q.Plain? {
      NumberOfDecimal(q.count);
      WrittenEnds(q.duration);
      PairShaped(Decimal(q.count), ['/'], Written(q.duration));
    } else if q.Refilled? {
      WrittenEnds(q.duration);
      WrittenEnds(q.period);
      RefilledShape(q.count, Written(q.duration), q.tokens, Written(q.period));
    } else if q.OlderRated? {
      RatedShape(Decimal(q.count), Decimal(q.seconds), q.rate);
    } else {
      NumberOfDecimal(q.count);
      NumberOfDecimal(q.seconds);
      PairShaped(Decimal(q.count), [':'], Decimal(q.seconds));
    }
  }

  lemma TagShape(base: string, tag: Tag)
    requires Shaped(base)
    ensures Trimmed(base + TagText(tag)) && ',' !in base + TagText(tag) && (base + TagText(tag))[0] == base[0]
  {
    var text, t := base + TagText(tag), TagText(tag);
    if tag.NoTag? {
      assert text == base;
    } else {
      assert text[|text| - 1] == t[|t| - 1];
    }
  }

  lemma TextShape(q: Quota)
    requires Proper(q)
    ensures Trimmed(Text(q)) && ',' !in Text(q)
  {
    if !q.Unlimited? {
      BaseShape(q);
      TagShape(Base(q), q.tag);
    }
  }

  /** Every quota, with blanks around it as may be, is read as it was meant. */
  lemma QuotaReadBack(left: string, q: Quota, right: string, toReal: string -> Option<real>)
    requires Proper(q) && AllBlank(left) && AllBlank(right)
    ensures ReadPiece(left + Text(q) + right, toReal) == Meaning(q, toReal)
    ensures var r := ReadPiece(left + Text(q) + right, toReal);
            MeantLimit(q, toReal) == if r.Raises? then None else LimitOf(r.part)
  {
    MeaningAsLimit(q, toReal);
    TextShape(q);
    StripPadded(left, Text(q), right);
    if q.Unlimited? {
      LowerKeeps(Text(q));
    } else {
      BaseShape(q);
      TagShape(Base(q), q.tag);
      assert Lower(Text(q))[0] == Base(q)[0] != "unlimited"[0];
      TagSplits(Base(q), q.tag);
      if q.Older? {
        OlderReadBack(q, toReal);
      } else if q.OlderRated? {
        OlderRatedReadBack(q, toReal);
      } else if q.Plain? {
        PlainReadBack(q, toReal);
      } else {
        RefilledReadBack(q, toReal);
      }
      assert ReadPiece(left + Text(q) + right, toReal) == ReadBase(Base(q), TagAlgorithm(q.tag), toReal);
    }
  }

  lemma BareReadBack(q: Quota, toReal: string -> Option<real>)
    requires Proper(q)
    ensures ',' !in Text(q) && ReadPiece(Text(q), toReal) == Meaning(q, toReal)
  {
    TextShape(q);
    var text := Text(q);
    assert "" + text + "" == text;
    QuotaReadBack("", q, "", toReal);
  }

  function Texts(quotas: seq<Quota>): seq<string> {
    seq(|quotas|, i requires 0 <= i < |quotas| => Text(quotas[i]))
  }

  /** Quotas joined by commas give, in order, the limits that they mean. */
  lemma QuotasReadBack(quotas: seq<Quota>, toReal: string -> Option<real>)
    requires quotas != [] && forall q | q in quotas :: Proper(q) && MeantLimit(q, toReal).Some?
    ensures var pieces := Split(Join(Texts(quotas), ','), ',');
            && !SomeRaises(pieces, Reader(toReal)) && |AllLimits(pieces, Reader(toReal))| == |quotas|
            && forall i | 0 <= i < |quotas| ::
               MeantLimit(quotas[i], toReal) == Some(AllLimits(pieces, Reader(toReal))[i])
  {
    var pieces, read := Texts(quotas), Reader(toReal);
    forall i | 0 <= i < |quotas| ensures ',' !in pieces[i] && Means(read(pieces[i]), quotas[i], toReal) {
      BareReadBack(quotas[i], toReal);
      MeaningAsLimit(quotas[i], toReal);
    }
    SplitJoin(pieces, ',');
    LimitsOneByOne(quotas, pieces, read, toReal);
  }

  predicate Means(r: Reading, q: Quota, toReal: string -> Option<real>)
    requires Proper(q)
  {
    r.Read? && MeantLimit(q, toReal).Some? && LimitOf(r.part) == MeantLimit(q, toReal)
  }

  lemma {:induction false} LimitsOneByOne(quotas: seq<Quota>, pieces: seq<string>, read: string -> Reading,
                                          toReal: string -> Option<real>)
    requires |quotas| == |pieces| && forall q | q in quotas :: Proper(q)
    requires forall i | 0 <= i < |quotas| :: Means(read(pieces[i]), quotas[i], toReal)
    ensures !SomeRaises(pieces, read) && |AllLimits(pieces, read)| == |quotas|
    ensures forall i | 0 <= i < |quotas| :: MeantLimit(quotas[i], toReal) == Some(AllLimits(pieces, read)[i])
  {
    if quotas != [] {
      var last := |quotas| - 1;
      LimitsOneByOne(quotas[..last], pieces[..last], read, toReal);
      assert quotas[last] in quotas;
      assert Means(read(pieces[last]), quotas[last], toReal);
    }
  }

  // ---------- what can be read at all ----------

  predicate LengthOf(v: string, digits: string, unit: string, seconds: nat) {
    IsDigits(digits) && ProperUnit(unit) && v == digits + unit && seconds == Number(digits) * UnitSeconds(unit)
  }

  lemma LengthIsRead(v: string, digits: string, unit: string, seconds: nat)
    requires LengthOf(v, digits, unit, seconds)
    ensures ReadLength(v) == Some(seconds)
  {
    if unit == "" {
      assert v == digits;
    } else {
      UnitAgrees(unit[0]);
      assert unit == [unit[0]];
      UnitSplits(digits, unit[0]);
    }
  }

  lemma ReadHasLength(v: string) returns (digits: string, unit: string)
    requires v != "" && ReadLength(v).Some?
    ensures LengthOf(v, digits, unit, ReadLength(v).value)
  {
    var last := |v| - 1;
    if IsDigits(v) {
      digits, unit := v, "";
      assert v == v + "";
    } else {
      digits, unit := v[..last], [v[last]];
      UnitAgrees(v[last]);
    }
  }

  /** A duration is readable exactly when it is blank, or digits with at most one letter for a unit; nothing else is. */
  lemma DurationExactly(value: string, seconds: nat)
    ensures var v := Lower(Strip(value));
            ParseDuration(value) == Some(seconds)
            <==> (v == "" && seconds == 0) || exists digits, unit :: LengthOf(v, digits, unit, seconds)
  {
    var v := Lower(Strip(value));
    if ParseDuration(value) == Some(seconds) && v != "" {
      var digits, unit := ReadHasLength(v);
    }
    if digits, unit :| LengthOf(v, digits, unit, seconds) {
      LengthIsRead(v, digits, unit, seconds);
    }
  }

  lemma UnitAgrees(c: char)
    ensures SecondsPer(c) > 0 <==> ProperUnit([c])
    ensures ProperUnit([c]) ==> SecondsPer(c) == UnitSeconds([c])
  {
  }

  /** A duration without colons, with tokens and period after it if any. */
  predicate RestShape(rest: string, duration: string, refill: Option<(string, string)>) {
    && duration != "" && ':' !in duration
    && match refill
       case None => rest == duration
       case Some((tokens, period)) =>
         && tokens != "" && '/' !in tokens && period != "" && '/' !in period
         && rest == duration + [':'] + (tokens + ['/'] + period)
  }

  /** The shape of the slash form. */
  predicate SlashShape(base: string, head: string, rest: string, duration: string, refill: Option<(string, string)>) {
    IsDigits(head) && base == head + ['/'] + rest && RestShape(rest, duration, refill)
  }

  lemma RestMatches(count: nat, rest: string, duration: string, refill: Option<(string, string)>)
    requires RestShape(rest, duration, refill)
    ensures MatchDuration(count, rest) == Some(Slash(count, duration, refill))
  {
    if refill.None? {
      NoIndex(duration, ':');
    } else {
      MatchBoth(count, duration, refill.value.0, refill.value.1);
    }
  }

  lemma ShapeMatches(base: string, head: string, rest: string, duration: string, refill: Option<(string, string)>)
    requires SlashShape(base, head, rest, duration, refill)
    ensures MatchSlash(base) == Some(Slash(Number(head), duration, refill))
  {
    assert '/' !in head;
    CutAt(head, '/', rest);
    RestMatches(Number(head), rest, duration, refill);
  }

  lemma CutBack(s: string, c: char)
    ensures var i := IndexOf(s, c); i < |s| ==> s == s[..i] + [c] + s[i + 1..] && c !in s[..i]
    ensures IndexOf(s, c) == |s| ==> c !in s
  {
  }

  lemma RestHasShape(count: nat, rest: string)
    requires MatchDuration(count, rest).Some?
    ensures var m := MatchDuration(count, rest).value; m.count == count && RestShape(rest, m.duration, m.refill)
  {
    var j := IndexOf(rest, ':');
    CutBack(rest, ':');
    if j < |rest| {
      CutBack(rest[j + 1..], '/');
    }
  }

  lemma MatchHasShape(base: string) returns (head: string, rest: string)
    requires MatchSlash(base).Some?
    ensures var m := MatchSlash(base).value;
            SlashShape(base, head, rest, m.duration, m.refill) && m.count == Number(head)
  {
    var i := IndexOf(base, '/');
    head, rest := base[..i], base[i + 1..];
    CutBack(base, '/');
    RestHasShape(Number(head), rest);
  }

  /** A part is taken for the slash form exactly when it has its shape. */
  lemma MatchesExactlyTheShape(base: string)
    ensures MatchSlash(base).Some?
            <==> exists head, rest, duration, refill :: SlashShape(base, head, rest, duration, refill)
  {
    if MatchSlash(base).Some? {
      var head, rest := MatchHasShape(base);
    }
    if head, rest, duration, refill :| SlashShape(base, head, rest, duration, refill) {
      ShapeMatches(base, head, rest, duration, refill);
    }
  }

  /**
   * The older form, whatever follows count and duration: the part after the second colon is the rate, and the default
   * rate stands in for it when it is missing or empty; further parts are passed over.
   */
  lemma ColonFormRead(count: string, seconds: string, tail: seq<string>, a: Algorithm, toReal: string -> Option<real>)
    requires IsDigits(count) && IsDigits(seconds)
    requires forall p | p in tail :: ':' !in p && '/' !in p
    ensures var r := ReadBase(Join([count, seconds] + tail, ':'), a, toReal);
            var c, d := Number(count), Number(seconds);
            if a != TokenBucket || tail == [] || tail[0] == "" then r == Read(ColonPart(c, d, None, a))
            else if toReal(tail[0]).None? then r == Raises
            else r == Read(ColonPart(c, d, toReal(tail[0]), a))
  {
    var sub := [count, seconds] + tail;
    forall p | p in sub ensures ':' !in p && '/' !in p {
      if p in tail {
      } else {
        assert IsDigits(p);
      }
    }
    SplitJoin(sub, ':');
    JoinWithout(sub, ':', '/');
    NoIndex(Join(sub, ':'), '/');
    assert Split(Join(sub, ':'), ':') == sub;
    ColonPartsRead(sub, tail, a, toReal);
  }

  lemma {:induction false} JoinWithout(pieces: seq<string>, c: char, other: char)
    requires pieces != [] && c != other && forall p | p in pieces :: other !in p
    ensures other !in Join(pieces, c)
  {
    if |pieces| > 1 {
      JoinWithout(pieces[1..], c, other);
    }
  }

  lemma ColonPartsRead(sub: seq<string>, tail: seq<string>, a: Algorithm, toReal: string -> Option<real>)
    requires |sub| >= 2 && tail == sub[2..] && IsDigits(sub[0]) && IsDigits(sub[1])
    ensures var r, c, d := ReadColon(sub, a, toReal), Number(sub[0]), Number(sub[1]);
            if a != TokenBucket || tail == [] || tail[0] == "" then r == Read(ColonPart(c, d, None, a))
            else if toReal(tail[0]).None? then r == Raises
            else r == Read(ColonPart(c, d, toReal(tail[0]), a))
  {
  }

  /** A part without a slash that does not begin with two numbers is passed over. */
  lemma OtherPassedOver(sub: seq<string>, a: Algorithm, toReal: string -> Option<real>)
    requires sub != [] && forall p | p in sub :: ':' !in p && '/' !in p
    requires |sub| == 1 || !IsDigits(sub[0]) || !IsDigits(sub[1])
    ensures ReadBase(Join(sub, ':'), a, toReal) == Read(OtherPart)
  {
    SplitJoin(sub, ':');
    JoinWithout(sub, ':', '/');
    NoIndex(Join(sub, ':'), '/');
  }
}
