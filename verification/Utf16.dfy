/** UTF-16 as section 2.1 of RFC 2781 defines it, over strings of Unicode scalar values. */
module Utf16 {

  /** The number of 16-bit units a character takes. */
  function CharWidth(c: char): nat {
    if c as int > 0xffff then 2 else 1
  }

  /** utf16RuneCountInString, as a function. */
  function Width(s: string): nat {
    if s == [] then 0 else CharWidth(s[0]) + Width(s[1..])
  }

  method CountUnits(s: string) returns (count: nat)
    ensures count == Width(s)
  {
    count := 0;
    for k := 0 to |s|
      invariant count + Width(s[k..]) == Width(s)
    {
      count := count + 1;
      if s[k] as int > 0xffff { count := count + 1; }
    }
  }

  lemma {:induction false} WidthSplits(s: string, t: string)
    ensures Width(s + t) == Width(s) + Width(t)
  {
    if s == [] {
      assert s + t == t;
    } else {
      WidthSplits(s[1..], t);
      assert (s + t)[1..] == s[1..] + t;
    }
  }

  type Unit = u: int | 0 <= u < 0x10000

  function EncodeChar(c: char): (r: seq<Unit>)
    ensures |r| == CharWidth(c)
  {
    var v := c as int;
    if v < 0x10000 then [v]
    else [0xD800 + (v - 0x10000) / 0x400, 0xDC00 + (v - 0x10000) % 0x400]
  }

  function Encode(s: string): (r: seq<Unit>)
    ensures |r| == Width(s)
  {
    if s == [] then [] else EncodeChar(s[0]) + Encode(s[1..])
  }

  const REPLACEMENT: char := '\U{FFFD}'

  predicate IsHigh(u: Unit) { 0xD800 <= u < 0xDC00 }

  predicate IsLow(u: Unit) { 0xDC00 <= u < 0xE000 }

  function Combined(high: int, low: int): char
    requires 0xD800 <= high < 0xDC00 && 0xDC00 <= low < 0xE000
  {
    ((high - 0xD800) * 0x400 + (low - 0xDC00) + 0x10000) as char
  }

  /** A lone surrogate decodes to the replacement character. */
  function Decode(units: seq<Unit>): string {
    if units == [] then []
    else if !IsHigh(units[0]) && !IsLow(units[0]) then [units[0] as char] + Decode(units[1..])
    else if IsHigh(units[0]) && |units| > 1 && IsLow(units[1]) then
      [Combined(units[0], units[1])] + Decode(units[2..])
    else [REPLACEMENT] + Decode(units[1..])
  }

  lemma Associates<T>(a: seq<T>, b: seq<T>, c: seq<T>)
    ensures a + (b + c) == a + b + c
  {
  }

  lemma {:induction false} EncodeSplits(s: string, t: string)
    ensures Encode(s + t) == Encode(s) + Encode(t)
  {
    if s == [] {
      assert s + t == t;
    } else {
      EncodeSplits(s[1..], t);
      assert (s + t)[1..] == s[1..] + t;
      Associates(EncodeChar(s[0]), Encode(s[1..]), Encode(t));
    }
  }

  lemma {:induction false} DecodeEncode(s: string)
    ensures Decode(Encode(s)) == s
  {
    if s != [] {
      DecodeEncode(s[1..]);
      var head := EncodeChar(s[0]);
      assert Encode(s)[|head|..] == Encode(s[1..]);
    }
  }
}
