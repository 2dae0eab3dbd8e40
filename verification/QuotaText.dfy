/**
 * The text of quota strings, such as `100/1h:fixed_window,unlimited`. Characters are taken one by one: blanks, digits
 * and letters are those of ASCII. How a fraction is read is a parameter, `None` where the reading raises an error.
 */
module QuotaText {
  import opened Prelude
  import opened Limits
  import opened Quotas

  // ---------- strings ----------

  predicate Blank(c: char) {
    c == ' ' || 9 <= c as int <= 13 || 28 <= c as int <= 31
  }

  function Strip(s: string): (r: string)
    ensures |r| <= |s| && (r != "" ==> !Blank(r[0]) && !Blank(r[|r| - 1]))
    decreases |s|
  {
    if s == "" then s
    else if Blank(s[0]) then Strip(s[1..])
    else if Blank(s[|s| - 1]) then Strip(s[..|s| - 1])
    else s
  }

  /** The position of the first `c`, or the length when there is none. */
  function IndexOf(s: string, c: char): (i: nat)
    ensures i <= |s| && (i < |s| ==> s[i] == c) && forall j | 0 <= j < i :: s[j] != c
  {
    if s == "" || s[0] == c then 0 else 1 + IndexOf(s[1..], c)
  }

  function Split(s: string, c: char): (pieces: seq<string>)
    ensures pieces != []
    decreases |s|
  {
    var i := IndexOf(s, c);
    if i == |s| then [s] else [s[..i]] + Split(s[i + 1..], c)
  }

  function Join(pieces: seq<string>, c: char): string
    requires pieces != []
  {
    if |pieces| == 1 then pieces[0] else pieces[0] + [c] + Join(pieces[1..], c)
  }

  predicate EndsWith(s: string, t: string) {
    |t| <= |s| && s[|s| - |t|..] == t
  }

  predicate AllDigits(s: string) {
    forall i | 0 <= i < |s| :: '0' <= s[i] <= '9'
  }

  predicate IsDigits(s: string) {
    s != "" && AllDigits(s)
  }

  function Number(s: string): nat
    requires AllDigits(s)
  {
    if s == "" then 0 else 10 * Number(s[..|s| - 1]) + (s[|s| - 1] as int - '0' as int)
  }

  // ---------- one part ----------

  function SecondsPer(unit: char): nat {
    match unit
    case 'd' => 86400
    case 'h' => 3600
    case 'm' => 60
    case 's' => 1
    case _ => 0
  }

  /** A length of time in lower case without blanks around; None where the source raises an error. */
  function ReadLength(v: string): Option<nat> {
    var last := |v| - 1;
    if v == "" then Some(0)
    else if IsDigits(v) then Some(Number(v))
    else if SecondsPer(v[last]) > 0 && IsDigits(v[..last]) then Some(Number(v[..last]) * SecondsPer(v[last]))
    else None
  }

  function ParseDuration(value: string): Option<nat> {
    ReadLength(Lower(Strip(value)))
  }

  const SLIDING := ":sliding_window_counter"
  const SLIDING_SHORT := ":sliding_window"
  const FIXED := ":fixed_window"
  const BUCKET := ":token_bucket"

  function SplitAlgorithm(text: string): (string, Algorithm) {
    if EndsWith(text, SLIDING) then (text[..|text| - |SLIDING|], SlidingWindowCounter)
    else if EndsWith(text, SLIDING_SHORT) then (text[..|text| - |SLIDING_SHORT|], SlidingWindowCounter)
    else if EndsWith(text, FIXED) then (text[..|text| - |FIXED|], FixedWindow)
    else if EndsWith(text, BUCKET) then (text[..|text| - |BUCKET|], TokenBucket)
    else (text, TokenBucket)
  }

  /** `count/duration`, and `tokens/period` if a colon and these follow. */
  datatype Slash = Slash(count: nat, duration: string, refill: Option<(string, string)>)

  function MatchSlash(base: string): Option<Slash> {
    var i := IndexOf(base, '/');
    if i == |base| || !IsDigits(base[..i]) then None else MatchDuration(Number(base[..i]), base[i + 1..])
  }

  function MatchDuration(count: nat, rest: string): Option<Slash> {
    var j := IndexOf(rest, ':');
    if j == 0 then None
    else if j == |rest| then Some(Slash(count, rest, None))
    else MatchRefill(count, rest[..j], rest[j + 1..])
  }

  function MatchRefill(count: nat, duration: string, tail: string): Option<Slash> {
    var k := IndexOf(tail, '/');
    if 0 < k < |tail| - 1 && '/' !in tail[k + 1..] then Some(Slash(count, duration, Some((tail[..k], tail[k + 1..]))))
    else None
  }

  datatype Reading = Read(part: Part) | Raises

  function ReadSlash(m: Slash, a: Algorithm, toReal: string -> Option<real>): Reading {
    var duration := ParseDuration(m.duration);
    if duration.None? then Raises
    else if a != TokenBucket || m.refill.None? then Read(SlashPart(m.count, duration.value, None, a))
    else
      var tokens, period := toReal(m.refill.value.0), ParseDuration(m.refill.value.1);
      if tokens.None? || period.None? then Raises
      else Read(SlashPart(m.count, duration.value, Some((tokens.value, period.value)), a))
  }

  function ReadColon(sub: seq<string>, a: Algorithm, toReal: string -> Option<real>): Reading {
    if |sub| < 2 || !IsDigits(sub[0]) || !IsDigits(sub[1]) then Read(OtherPart)
    else if a != TokenBucket || |sub| == 2 || sub[2] == "" then Read(ColonPart(Number(sub[0]), Number(sub[1]), None, a))
    else
      var rate := toReal(sub[2]);
      if rate.None? then Raises else Read(ColonPart(Number(sub[0]), Number(sub[1]), rate, a))
  }

  function ReadPiece(piece: string, toReal: string -> Option<real>): Reading {
    var text := Strip(piece);
    if text == "" then Read(OtherPart)
    else if Lower(text) == "unlimited" then Read(UnlimitedPart)
    else
      var (base, a) := SplitAlgorithm(text);
      var m := MatchSlash(base);
      if m.Some? then ReadSlash(m.value, a, toReal) else ReadColon(Split(base, ':'), a, toReal)
  }

  // ---------- the whole string ----------

  /** How one piece is read, once it is settled how fractions are. */
  function Reader(toReal: string -> Option<real>): string -> Reading {
    (piece: string) => ReadPiece(piece, toReal)
  }

  predicate SomeRaises(pieces: seq<string>, read: string -> Reading) {
    exists i :: 0 <= i < |pieces| && read(pieces[i]).Raises?
  }

  /** The limit of one piece, or none when it raises or is passed over. */
  function LimitsIn(r: Reading): seq<RateLimit> {
    if r.Raises? || LimitOf(r.part).None? then [] else [LimitOf(r.part).value]
  }

  function AllLimits(pieces: seq<string>, read: string -> Reading): seq<RateLimit> {
    if pieces == [] then [] else AllLimits(pieces[..|pieces| - 1], read) + LimitsIn(read(pieces[|pieces| - 1]))
  }

  lemma AllLimitsAppend(pieces: seq<string>, piece: string, read: string -> Reading)
    ensures AllLimits(pieces + [piece], read) == AllLimits(pieces, read) + LimitsIn(read(piece))
  {
    assert (pieces + [piece])[..|pieces|] == pieces;
  }

  /** The first `i` pieces are read without an error, and these are their limits. */
  ghost predicate ReadSoFar(pieces: seq<string>, i: nat, read: string -> Reading, results: seq<RateLimit>)
    requires i <= |pieces|
  {
    results == AllLimits(pieces[..i], read) && forall j | 0 <= j < i :: read(pieces[j]).Read?
  }

  lemma ReadNext(pieces: seq<string>, i: nat, read: string -> Reading, results: seq<RateLimit>)
    requires i < |pieces| && ReadSoFar(pieces, i, read, results) && read(pieces[i]).Read?
    ensures ReadSoFar(pieces, i + 1, read, results + LimitsIn(read(pieces[i])))
  {
    assert pieces[..i + 1] == pieces[..i] + [pieces[i]];
    AllLimitsAppend(pieces[..i], pieces[i], read);
  }

  lemma AllRead(pieces: seq<string>, read: string -> Reading, results: seq<RateLimit>)
    requires ReadSoFar(pieces, |pieces|, read, results)
    ensures results == AllLimits(pieces, read) && !SomeRaises(pieces, read)
  {
    assert pieces[..|pieces|] == pieces;
  }

  /** What reading all the pieces should give. */
  function ReadAll(pieces: seq<string>, read: string -> Reading): Option<seq<RateLimit>> {
    if SomeRaises(pieces, read) then None else Some(AllLimits(pieces, read))
  }

  /** Limit `k` comes from piece `origin[k]`; pieces keep their order and only those without a limit are dropped. */
  ghost predicate ReadsPieces(pieces: seq<string>, read: string -> Reading, results: seq<RateLimit>, origin: seq<nat>) {
    && |origin| == |results|
    && (forall k | 0 <= k < |origin| :: origin[k] < |pieces| && LimitsIn(read(pieces[origin[k]])) == [results[k]])
    && (forall j, k | 0 <= j < k < |origin| :: origin[j] < origin[k])
    && (forall i | 0 <= i < |pieces| :: i in origin || LimitsIn(read(pieces[i])) == [])
  }

  lemma OneMore(pieces: seq<string>, piece: string, read: string -> Reading, results: seq<RateLimit>, origin: seq<nat>,
                l: RateLimit)
    requires ReadsPieces(pieces, read, results, origin) && LimitsIn(read(piece)) == [l]
    ensures ReadsPieces(pieces + [piece], read, results + [l], origin + [|pieces|])
  {
    var all, longer := pieces + [piece], origin + [|pieces|];
    assert longer[|origin|] == |pieces|;
    forall i | 0 <= i < |all| ensures i in longer || LimitsIn(read(all[i])) == [] {
      if i < |pieces| {
        assert all[i] == pieces[i];
      }
    }
  }

  lemma OneSkipped(pieces: seq<string>, piece: string, read: string -> Reading, results: seq<RateLimit>,
                   origin: seq<nat>)
    requires ReadsPieces(pieces, read, results, origin) && LimitsIn(read(piece)) == []
    ensures ReadsPieces(pieces + [piece], read, results, origin)
  {
    var all := pieces + [piece];
    forall i | 0 <= i < |all| ensures i in origin || LimitsIn(read(all[i])) == [] {
      if i < |pieces| {
        assert all[i] == pieces[i];
      }
    }
  }

  lemma OneFurther(pieces: seq<string>, piece: string, read: string -> Reading, origin: seq<nat>)
    returns (further: seq<nat>)
    requires ReadsPieces(pieces, read, AllLimits(pieces, read), origin)
    ensures ReadsPieces(pieces + [piece], read, AllLimits(pieces + [piece], read), further)
  {
    var more := LimitsIn(read(piece));
    AllLimitsAppend(pieces, piece, read);
    if more == [] {
      OneSkipped(pieces, piece, read, AllLimits(pieces, read), origin);
      further := origin;
    } else {
      OneMore(pieces, piece, read, AllLimits(pieces, read), origin, more[0]);
      further := origin + [|pieces|];
    }
  }

  /** Each limit of the result comes from a piece of its own, in order, and no readable piece is lost. */
  lemma {:induction false} LimitsInOrder(pieces: seq<string>, read: string -> Reading) returns (origin: seq<nat>)
    ensures ReadsPieces(pieces, read, AllLimits(pieces, read), origin)
  {
    origin := [];
    if pieces != [] {
      var init, last := pieces[..|pieces| - 1], pieces[|pieces| - 1];
      origin := LimitsInOrder(init, read);
      origin := OneFurther(init, last, read, origin);
      assert init + [last] == pieces;
    }
  }

  /** What a reading comes to: None when it raises, else its limit if it has one. */
  function Outcome(r: Reading): Option<seq<RateLimit>> {
    if r.Raises? then None else Some(LimitsIn(r))
  }

  method ParseSlash(m: Slash, algorithm: Algorithm, toReal: string -> Option<real>) returns (r: Option<seq<RateLimit>>)
    ensures r == Outcome(ReadSlash(m, algorithm, toReal))
  {
    var duration := ParseDuration(m.duration);
    if duration.None? {
      return None;
    }
    var refillRate := 0.0;
    if algorithm == TokenBucket {
      if m.refill.Some? {
        var refillTokens := toReal(m.refill.value.0);
        if refillTokens.None? {
          return None;
        }
        var refillDuration := ParseDuration(m.refill.value.1);
        if refillDuration.None? {
          return None;
        }
        refillRate := if refillDuration.value > 0 then refillTokens.value / refillDuration.value as real else 0.0;
      } else {
        refillRate := if duration.value > 0 then m.count as real / duration.value as real else 0.0;
      }
    }
    return Some([RateLimit(m.count, duration.value, refillRate, algorithm, false)]);
  }

  method ParseColon(sub: seq<string>, algorithm: Algorithm, toReal: string -> Option<real>)
    returns (r: Option<seq<RateLimit>>)
    ensures r == Outcome(ReadColon(sub, algorithm, toReal))
  {
    if |sub| < 2 || !IsDigits(sub[0]) || !IsDigits(sub[1]) {
      return Some([]);
    }
    var count, duration, refillRate := Number(sub[0]), Number(sub[1]), 0.0;
    if algorithm == TokenBucket {
      if |sub| >= 3 && sub[2] != "" {
        var rate := toReal(sub[2]);
        if rate.None? {
          return None;
        }
        refillRate := rate.value;
      } else {
        refillRate := if duration > 0 then count as real / duration as real else 0.0;
      }
    }
    return Some([RateLimit(count, duration, refillRate, algorithm, false)]);
  }

  /** One part of the string: None where the source raises an error, an empty list where it passes the part over. */
  method ParsePart(piece: string, toReal: string -> Option<real>) returns (r: Option<seq<RateLimit>>)
    ensures r == Outcome(Reader(toReal)(piece))
  {
    assert Reader(toReal)(piece) == ReadPiece(piece, toReal);
    var part := Strip(piece);
    if part == "" {
      return Some([]);
    }
    if Lower(part) == "unlimited" {
      return Some([RateLimit(0, 0, 0.0, TokenBucket, true)]);
    }
    var (base, algorithm) := SplitAlgorithm(part);
    var m := MatchSlash(base);
    if m.Some? {
      r := ParseSlash(m.value, algorithm, toReal);
    } else {
      r := ParseColon(Split(base, ':'), algorithm, toReal);
    }
  }

  /** All limits of the string, or None as soon as one part raises an error. */
  method ParseRateLimits(value: string, toReal: string -> Option<real>) returns (r: Option<seq<RateLimit>>)
    ensures r == ReadAll(Split(value, ','), Reader(toReal))
  {
    r := ParseParts(Split(value, ','), toReal, Reader(toReal));
  }

  method ParseParts(pieces: seq<string>, toReal: string -> Option<real>, ghost read: string -> Reading)
    returns (r: Option<seq<RateLimit>>)
    requires read == Reader(toReal)
    ensures r == ReadAll(pieces, read)
  {
    var results: seq<RateLimit> := [];
    for i := 0 to |pieces|
      invariant ReadSoFar(pieces, i, read, results)
    {
      var part := ParsePart(pieces[i], toReal);
      if part.None? {
        return None;
      }
      ReadNext(pieces, i, read, results);
      results := results + part.value;
    }
    AllRead(pieces, read, results);
    return Some(results);
  }
}
