/**
 * String helpers shared by the modules of this model: decimal rendering of
 * timestamps (JavaScript template literals such as `${timestamp}`), prefix,
 * suffix and substring tests (`String.prototype.includes`, an anchored
 * regular expression) and `Array.prototype.join`.
 */
module Strings {
  import Wrappers

  predicate IsDigit(c: char) {
    '0' <= c <= '9'
  }

  function DigitChar(d: nat): (c: char)
    requires d < 10
    ensures IsDigit(c) && c as int - '0' as int == d
  {
    ['0', '1', '2', '3', '4', '5', '6', '7', '8', '9'][d]
  }

  /** Decimal rendering of a non-negative integer, as `${n}` renders an integral Number. */
  function NatToString(n: nat): (s: string)
    ensures |s| > 0
    ensures forall i :: 0 <= i < |s| ==> IsDigit(s[i])
    decreases n
  {
    if n < 10 then [DigitChar(n)] else NatToString(n / 10) + [DigitChar(n % 10)]
  }

  /** The value of a string of decimal digits, read most significant digit first. */
  function DigitsValue(s: string): nat
    requires forall i :: 0 <= i < |s| ==> IsDigit(s[i])
  {
    if s == [] then 0
    else
      assert IsDigit(s[|s| - 1]);
      DigitsValue(s[..|s| - 1]) * 10 + (s[|s| - 1] as int - '0' as int)
  }

  /** Reading back a rendered number gives the number: the rendering loses nothing. */
  lemma {:induction false} NatToStringRoundTrip(n: nat)
    ensures DigitsValue(NatToString(n)) == n
    decreases n
  {
    var s := NatToString(n);
    if n >= 10 {
      NatToStringRoundTrip(n / 10);
      assert s[..|s| - 1] == NatToString(n / 10);
    }
  }

  /** Distinct numbers render as distinct strings. */
  lemma NatToStringInjective(a: nat, b: nat)
    ensures NatToString(a) == NatToString(b) <==> a == b
  {
    if NatToString(a) == NatToString(b) {
      NatToStringRoundTrip(a);
      NatToStringRoundTrip(b);
    }
  }

  /** Two strings built from the same prefix and suffix around a rendered number agree exactly when the numbers do. */
  lemma AroundNumberInjective(prefix: string, suffix: string, a: nat, b: nat)
    ensures prefix + NatToString(a) + suffix == prefix + NatToString(b) + suffix <==> a == b
  {
    var x, y := prefix + NatToString(a) + suffix, prefix + NatToString(b) + suffix;
    if x == y {
      assert |NatToString(a)| == |NatToString(b)|;
      assert NatToString(a) == x[|prefix|..|x| - |suffix|];
      assert NatToString(b) == y[|prefix|..|y| - |suffix|];
      NatToStringInjective(a, b);
    }
  }

  predicate AllDigits(s: string) {
    forall i :: 0 <= i < |s| ==> IsDigit(s[i])
  }

  /**
   * Names built as prefix, digits, then a tail that does not start with a
   * digit, are equal only when their digits and their tails are: the end of
   * the digit run is where the two must agree.
   */
  lemma NumberedNamesEqual(prefix: string, d1: string, tail1: string, d2: string, tail2: string)
    requires AllDigits(d1) && AllDigits(d2)
    requires tail1 == [] || !IsDigit(tail1[0])
    requires tail2 == [] || !IsDigit(tail2[0])
    ensures prefix + d1 + tail1 == prefix + d2 + tail2 <==> d1 == d2 && tail1 == tail2
  {
    var x, y := prefix + d1 + tail1, prefix + d2 + tail2;
    if x == y {
      assert d1 == x[|prefix|..|prefix| + |d1|];
      assert d2 == y[|prefix|..|prefix| + |d2|];
      assert tail1 == x[|prefix| + |d1|..];
      assert tail2 == y[|prefix| + |d2|..];
    }
  }

  predicate StartsWith(s: string, prefix: string) {
    |prefix| <= |s| && s[..|prefix|] == prefix
  }

  /** A concatenation starts with its first part. */
  lemma StartsWithFirstPart(a: string, b: string)
    ensures StartsWith(a + b, a)
  {
    assert (a + b)[..|a|] == a;
  }

  predicate EndsWith(s: string, suffix: string) {
    |suffix| <= |s| && s[|s| - |suffix|..] == suffix
  }

  /** `t` occurs in `s` at position `i`. */
  predicate OccursAt(s: string, t: string, i: int) {
    0 <= i && i + |t| <= |s| && s[i..i + |t|] == t
  }

  /** `s.includes(t)`, searching from position `from` on. */
  function IncludesFrom(s: string, t: string, from: nat): (r: bool)
    ensures r <==> exists i :: from <= i && OccursAt(s, t, i)
    decreases |s| - from
  {
    if from + |t| > |s| then false
    else if s[from..from + |t|] == t then assert OccursAt(s, t, from); true
    else IncludesFrom(s, t, from + 1)
  }

  /** `s.includes(t)`. */
  function Includes(s: string, t: string): (r: bool)
    ensures r <==> exists i :: OccursAt(s, t, i)
  {
    IncludesFrom(s, t, 0)
  }

  /** The position of the first occurrence of `c` in `s`, if any. */
  function IndexOf(s: string, c: char): (r: Wrappers.Option<nat>)
    ensures r.Some? ==> r.value < |s| && s[r.value] == c && c !in s[..r.value]
    ensures r.None? ==> c !in s
  {
    if s == [] then Wrappers.None
    else if s[0] == c then Wrappers.Some(0)
    else
      match IndexOf(s[1..], c)
      case None => Wrappers.None
      case Some(k) => assert s[..k + 1] == [s[0]] + s[1..][..k]; Wrappers.Some(k + 1)
  }

  /** Regrouping a concatenation; stated once so that proofs about decoders need not rediscover it. */
  lemma ConcatAssociates(x: string, y: string, z: string)
    ensures x + (y + z) == x + y + z
  {
  }

  /** `xs.join(sep)`. */
  function JoinWith(xs: seq<string>, sep: string): string
  {
    if xs == [] then ""
    else if |xs| == 1 then xs[0]
    else xs[0] + sep + JoinWith(xs[1..], sep)
  }
}
