/** Values every other module shares: an optional value for .NET's null,
    the 32-bit integer range of C#'s `int`, and the first-match search that
    LINQ's `FirstOrDefault` performs. */
module Primitives {

  datatype Option<+T> = None | Some(value: T)

  const MinInt32: int := -0x8000_0000
  const MaxInt32: int := 0x7FFF_FFFF

  /** C#'s `int`. */
  type Int32 = x: int | MinInt32 <= x <= MaxInt32

  /** `++x` on a C# `int` in an unchecked context: two's-complement wrap-around. */
  function UncheckedIncrement(x: Int32): (r: Int32)
    ensures x < MaxInt32 ==> r == x + 1
    ensures x == MaxInt32 ==> r == MinInt32
  {
    (x + 1 - MinInt32) % 0x1_0000_0000 + MinInt32
  }

  /** `++x` in a checked context: None where C# raises an OverflowException. */
  function CheckedIncrement(x: Int32): (r: Option<Int32>)
    ensures r.Some? <==> x < MaxInt32
    ensures r.Some? ==> r.value == x + 1
  {
    if x < MaxInt32 then Some(x + 1) else None
  }

  /** The index that `s.FirstOrDefault(matches)` picks, or None when it
      would return null: the FIRST element that matches. */
  function FirstIndex<T>(s: seq<T>, matches: T -> bool): (r: Option<nat>)
    ensures r.Some? ==> r.value < |s| && matches(s[r.value])
    ensures r.Some? ==> forall j :: 0 <= j < r.value ==> !matches(s[j])
    ensures r.None? <==> forall j :: 0 <= j < |s| ==> !matches(s[j])
    decreases |s|
  {
    if |s| == 0 then None
    else if matches(s[0]) then Some(0)
    else
      match FirstIndex(s[1..], matches)
      case None => None
      case Some(k) => Some(k + 1)
  }

  /** `s` without its element at `j`: what `List.Remove` does once it has
      found the object it was given. */
  function RemoveAt<T>(s: seq<T>, j: nat): (r: seq<T>)
    requires j < |s|
    ensures |r| == |s| - 1
    ensures forall k :: 0 <= k < j ==> r[k] == s[k]
    ensures forall k :: j <= k < |r| ==> r[k] == s[k + 1]
  {
    s[..j] + s[j + 1..]
  }

  predicate IsDigit(c: char) {
    '0' <= c <= '9'
  }

  /** The character that writes the decimal digit `d`. */
  function DigitChar(d: nat): (c: char)
    requires d < 10
    ensures IsDigit(c)
  {
    ('0' as int + d) as char
  }

  function DigitValue(c: char): (d: nat)
    requires IsDigit(c)
    ensures d < 10 && DigitChar(d) == c
  {
    c as int - '0' as int
  }

  /** The number a string of decimal digits denotes, most significant first. */
  function DigitsValue(s: string): nat
    requires forall k :: 0 <= k < |s| ==> IsDigit(s[k])
    decreases |s|
  {
    if s == [] then 0 else 10 * DigitsValue(s[..|s| - 1]) + DigitValue(s[|s| - 1])
  }

  /** Decimal text of an integer: an optional minus sign, then digits. */
  predicate IsDecimal(s: string) {
    if |s| > 0 && s[0] == '-' then |s| > 1 && forall k :: 1 <= k < |s| ==> IsDigit(s[k])
    else |s| > 0 && forall k :: 0 <= k < |s| ==> IsDigit(s[k])
  }

  /** The integer decimal text denotes. */
  function DecimalValue(s: string): int
    requires IsDecimal(s)
  {
    if s[0] == '-' then -(DigitsValue(s[1..]) as int) else DigitsValue(s)
  }

  /** The decimal text of a natural number, as string interpolation writes
      it: digits only, denoting `n`, with no leading zero. */
  function NatString(n: nat): (r: string)
    ensures |r| > 0
    ensures forall k :: 0 <= k < |r| ==> IsDigit(r[k])
    ensures DigitsValue(r) == n
    ensures n > 0 ==> r[0] != '0'
    decreases n
  {
    if n < 10 then
      [DigitChar(n)]
    else
      var front := NatString(n / 10);
      var r := front + [DigitChar(n % 10)];
      assert r[..|r| - 1] == front;
      r
  }

  /** The decimal text of an `int`, as string interpolation writes it: a
      leading minus sign exactly when negative, and the text denotes `n`. */
  function IntString(n: int): (r: string)
    ensures IsDecimal(r) && DecimalValue(r) == n
    ensures (r[0] == '-') <==> n < 0
    ensures |r| > 1 && r[0] == '-' ==> r[1] != '0'
    ensures |r| > 1 && r[0] != '-' ==> r[0] != '0'
  {
    if n < 0 then
      var r := "-" + NatString(-n);
      assert r[1..] == NatString(-n);
      r
    else
      NatString(n)
  }

  /** The positions of `s` holding a character outside the Basic
      Multilingual Plane, which UTF-16 writes as a surrogate pair. */
  function Astral(s: string): set<nat> {
    set k: nat | k < |s| && s[k] as int > 0xFFFF
  }

  lemma {:induction false} AstralBound(s: string)
    ensures |Astral(s)| <= |s|
    decreases |s|
  {
    if s != [] {
      var front := s[..|s| - 1];
      AstralBound(front);
      assert Astral(s) == Astral(front) + (if s[|s| - 1] as int > 0xFFFF then {|s| - 1} else {});
    }
  }

  /** The length .NET reports for a string: UTF-16 code units, two for a
      character outside the Basic Multilingual Plane. */
  function Utf16Length(s: string): (n: nat)
    ensures |s| <= n <= 2 * |s|
    ensures n == |s| <==> forall k :: 0 <= k < |s| ==> s[k] as int <= 0xFFFF
  {
    AstralBound(s);
    assert (exists k :: 0 <= k < |s| && s[k] as int > 0xFFFF) ==> Astral(s) != {} by {
      if k :| 0 <= k < |s| && s[k] as int > 0xFFFF {
        assert k in Astral(s);
      }
    }
    |s| + |Astral(s)|
  }
}
