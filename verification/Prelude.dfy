/** Counting and rounding vocabulary shared by the whole model. */
module Prelude {

  datatype Option<+T> = None | Some(value: T)

  function Min(a: real, b: real): real {
    if a <= b then a else b
  }

  function Max(a: int, b: int): int {
    if a >= b then a else b
  }

  function One(b: bool): nat {
    if b then 1 else 0
  }

  /** The least integer that is not below `x`. */
  function Ceil(x: real): (n: int)
    ensures n as real - 1.0 < x <= n as real
  {
    -((-x).Floor)
  }

  function CeilDiv(a: int, b: int): (q: int)
    requires b > 0
    ensures (q - 1) * b < a <= q * b
  {
    var q := (a + b - 1) / b;
    assert a + b - 1 == q * b + (a + b - 1) % b;
    q
  }

  lemma MulMonotone(a: int, b: int, k: nat)
    requires a <= b
    ensures a * k <= b * k && k * a <= k * b
  {
  }

  lemma DivAtLeast(x: int, d: nat, k: int)
    requires d > 0 && k * d <= x
    ensures x / d >= k
  {
    if x / d < k {
      MulMonotone(x / d + 1, k, d);
    }
  }

  /** Rounding to an integer as printf does: to the nearest, ties to the even one. */
  function RoundHalfEven(x: real): (n: int)
    ensures -0.5 <= n as real - x <= 0.5
    ensures x == x.Floor as real ==> n as real == x
  {
    var below := x.Floor;
    var rest := x - below as real;
    if rest < 0.5 || (rest == 0.5 && below % 2 == 0) then below else below + 1
  }

  /** How many entries of `log` fall in [lo, hi). */
  function CountIn(log: seq<int>, lo: int, hi: int): (n: nat)
    ensures n <= |log|
  {
    if log == [] then 0
    else
      var last := |log| - 1;
      CountIn(log[..last], lo, hi) + if lo <= log[last] < hi then 1 else 0
  }

  /** How many entries fall in the `length` moments from `from` on. */
  function CountWithin(log: seq<int>, from: int, length: nat): nat {
    CountIn(log, from, from + length)
  }

  lemma CountAppend(log: seq<int>, t: int, lo: int, hi: int)
    ensures CountIn(log + [t], lo, hi) == CountIn(log, lo, hi) + if lo <= t < hi then 1 else 0
  {
    assert (log + [t])[..|log|] == log;
  }

  lemma {:induction false} CountSplit(log: seq<int>, lo: int, mid: int, hi: int)
    requires lo <= mid <= hi
    ensures CountIn(log, lo, hi) == CountIn(log, lo, mid) + CountIn(log, mid, hi)
  {
    if log != [] {
      CountSplit(log[..|log| - 1], lo, mid, hi);
    }
  }

  lemma {:induction false} CountNone(log: seq<int>, lo: int, hi: int)
    requires forall i | 0 <= i < |log| :: !(lo <= log[i] < hi)
    ensures CountIn(log, lo, hi) == 0
  {
    if log != [] {
      CountNone(log[..|log| - 1], lo, hi);
    }
  }

  ghost predicate Nondecreasing(log: seq<int>) {
    forall i, j | 0 <= i <= j < |log| :: log[i] <= log[j]
  }

  /** In a sorted log the entries of a span are consecutive: they sit at first .. first + n - 1. */
  lemma {:induction false} SpanIsConsecutive(log: seq<int>, lo: int, hi: int) returns (first: nat)
    requires Nondecreasing(log)
    requires CountIn(log, lo, hi) > 0
    ensures first + CountIn(log, lo, hi) <= |log|
    ensures lo <= log[first] && log[first + CountIn(log, lo, hi) - 1] < hi
    ensures forall i | first <= i < first + CountIn(log, lo, hi) :: lo <= log[i] < hi
    ensures first + CountIn(log, lo, hi) < |log| ==> hi <= log[first + CountIn(log, lo, hi)]
  {
    var last := |log| - 1;
    var init := log[..last];
    if CountIn(init, lo, hi) > 0 {
      first := SpanIsConsecutive(init, lo, hi);
    } else {
      first := last;
    }
  }

  /** How many elements of `xs` satisfy `p`. */
  function CountIf<T>(xs: seq<T>, p: T -> bool): (n: nat)
    ensures n <= |xs|
  {
    if xs == [] then 0
    else CountIf(xs[..|xs| - 1], p) + if p(xs[|xs| - 1]) then 1 else 0
  }

  lemma CountIfAppend<T>(xs: seq<T>, x: T, p: T -> bool)
    ensures CountIf(xs + [x], p) == CountIf(xs, p) + if p(x) then 1 else 0
  {
    assert (xs + [x])[..|xs|] == xs;
  }

  lemma {:induction false} CountIfConcat<T>(xs: seq<T>, ys: seq<T>, p: T -> bool)
    ensures CountIf(xs + ys, p) == CountIf(xs, p) + CountIf(ys, p)
  {
    if ys == [] {
      assert xs + ys == xs;
    } else {
      var last := |ys| - 1;
      assert xs + ys == (xs + ys[..last]) + [ys[last]];
      CountIfAppend(xs + ys[..last], ys[last], p);
      CountIfConcat(xs, ys[..last], p);
    }
  }

  lemma {:induction false} CountIfUpdate<T>(xs: seq<T>, i: nat, x: T, p: T -> bool)
    requires i < |xs|
    ensures CountIf(xs[i := x], p) + (if p(xs[i]) then 1 else 0) == CountIf(xs, p) + if p(x) then 1 else 0
  {
    var last := |xs| - 1;
    if i == last {
      assert xs[i := x][..last] == xs[..last];
    } else {
      assert xs[i := x][..last] == xs[..last][i := x];
      CountIfUpdate(xs[..last], i, x, p);
    }
  }

  lemma {:induction false} CountIfZero<T>(xs: seq<T>, p: T -> bool)
    ensures CountIf(xs, p) == 0 <==> forall i | 0 <= i < |xs| :: !p(xs[i])
  {
    if xs != [] {
      CountIfZero(xs[..|xs| - 1], p);
    }
  }

  /** Two elements that satisfy `p` are both counted. */
  lemma CountIfTwo<T>(xs: seq<T>, j: nat, k: nat, p: T -> bool)
    requires j < k < |xs| && p(xs[j]) && p(xs[k])
    ensures CountIf(xs, p) >= 2
  {
    assert xs == xs[..k] + xs[k..];
    CountIfConcat(xs[..k], xs[k..], p);
    CountIfZero(xs[..k], p);
    CountIfZero(xs[k..], p);
    assert xs[..k][j] == xs[j] && xs[k..][0] == xs[k];
  }

  lemma {:induction false} CountIfAll<T>(xs: seq<T>, p: T -> bool)
    ensures CountIf(xs, p) == |xs| <==> forall i | 0 <= i < |xs| :: p(xs[i])
  {
    if xs != [] {
      CountIfAll(xs[..|xs| - 1], p);
    }
  }

  lemma CountIfTail<T>(xs: seq<T>, p: T -> bool)
    requires xs != []
    ensures CountIf(xs, p) == (if p(xs[0]) then 1 else 0) + CountIf(xs[1..], p)
  {
    assert xs == xs[..1] + xs[1..];
    CountIfConcat(xs[..1], xs[1..], p);
    assert xs[..1][..0] == [];
  }

  function LowerChar(c: char): char {
    if 'A' <= c <= 'Z' then c - 'A' + 'a' else c
  }

  function Lower(s: string): (r: string)
    ensures |r| == |s|
  {
    seq(|s|, i requires 0 <= i < |s| => LowerChar(s[i]))
  }
}
