/**
  The UTF-8 step of `Buffer.from(string)` and `Buffer.toString()`: a Dafny
  `string` is a sequence of Unicode scalar values, and UTF-8 (RFC 3629,
  section 3) maps such sequences one-to-one onto the well-formed byte
  sequences. Decoding here is strict and reports ill-formed input as `None`.
 */
module Utf8 {
  import opened Results
  import Hex

  predicate IsContinuation(b: Hex.byte) {
    0x80 <= b < 0xC0
  }

  /** The one to four bytes that encode one scalar value. */
  function EncodeChar(c: char): (bs: seq<Hex.byte>)
    ensures 1 <= |bs| <= 4
    ensures (|bs| == 1) <==> (c as int < 0x80)
  {
    var n := c as int;
    if n < 0x80 then [n]
    else if n < 0x800 then [0xC0 + n / 64, 0x80 + n % 64]
    else if n < 0x1_0000 then [0xE0 + n / 4096, 0x80 + n / 64 % 64, 0x80 + n % 64]
    else [0xF0 + n / 262144, 0x80 + n / 4096 % 64, 0x80 + n / 64 % 64, 0x80 + n % 64]
  }

  /**
    The bytes of a string: the encodings of its characters, in order, one to
    four bytes each; an empty string has no bytes, and any other starts with
    a byte that can start a character.
   */
  function Encode(s: string): (bs: seq<Hex.byte>)
    ensures |s| <= |bs| <= 4 * |s|
    ensures |bs| > 0 ==> !IsContinuation(bs[0])
  {
    if s == [] then [] else EncodeChar(s[0]) + Encode(s[1..])
  }

  /**
    Reads the first character of `bs`, with the number of bytes it takes;
    `None` for a byte that cannot start a character, a missing or wrong
    continuation byte, an overlong form, a surrogate or a value past U+10FFFF.
   */
  function DecodeFirst(bs: seq<Hex.byte>): (r: Option<(char, nat)>)
    requires |bs| > 0
    ensures r.Some? ==> 1 <= r.value.1 <= |bs|
  {
    var b0 := bs[0] as int;
    if b0 < 0x80 then Some((b0 as char, 1))
    else if 0xC2 <= b0 < 0xE0 then
      if |bs| < 2 || !IsContinuation(bs[1]) then None
      else Some((((b0 - 0xC0) * 64 + (bs[1] as int - 0x80)) as char, 2))
    else if 0xE0 <= b0 < 0xF0 then
      if |bs| < 3 || !IsContinuation(bs[1]) || !IsContinuation(bs[2]) then None
      else
        var n := (b0 - 0xE0) * 4096 + (bs[1] as int - 0x80) * 64 + (bs[2] as int - 0x80);
        if n < 0x800 || 0xD800 <= n < 0xE000 then None else Some((n as char, 3))
    else if 0xF0 <= b0 < 0xF5 then
      if |bs| < 4 || !IsContinuation(bs[1]) || !IsContinuation(bs[2]) || !IsContinuation(bs[3]) then None
      else
        var n := (b0 - 0xF0) * 262144 + (bs[1] as int - 0x80) * 4096 + (bs[2] as int - 0x80) * 64 + (bs[3] as int - 0x80);
        if n < 0x1_0000 || 0x11_0000 <= n then None else Some((n as char, 4))
    else None
  }

  /** The string whose bytes `bs` are, or `None` when `bs` is not well-formed UTF-8. */
  function Decode(bs: seq<Hex.byte>): (r: Option<string>)
    ensures r.Some? ==> |r.value| <= |bs|
    decreases |bs|
  {
    if bs == [] then Some([])
    else
      match DecodeFirst(bs)
      case None => None
      case Some((c, k)) =>
        match Decode(bs[k..])
        case None => None
        case Some(rest) => Some([c] + rest)
  }

  /** A string of code points below 0x80: one byte per character. */
  predicate IsAscii(s: string) {
    forall i :: 0 <= i < |s| ==> s[i] as int < 0x80
  }

  lemma {:induction false} EncodeAppend(a: string, b: string)
    ensures Encode(a + b) == Encode(a) + Encode(b)
    decreases |a|
  {
    if a == [] {
      assert a + b == b;
    } else {
      assert (a + b)[1..] == a[1..] + b;
      EncodeAppend(a[1..], b);
    }
  }

  /** An ASCII string encodes to its own code points, one byte each. */
  lemma {:induction false} EncodeAscii(s: string)
    requires IsAscii(s)
    ensures |Encode(s)| == |s|
    ensures forall i :: 0 <= i < |s| ==> Encode(s)[i] == s[i] as int
    decreases |s|
  {
    if s != [] {
      EncodeAscii(s[1..]);
      assert forall i :: 1 <= i < |s| ==> s[i] == s[1..][i - 1];
    }
  }

  /** The first character of an encoding reads back as itself. */
  lemma DecodeFirstEncodeChar(c: char, rest: seq<Hex.byte>)
    ensures DecodeFirst(EncodeChar(c) + rest) == Some((c, |EncodeChar(c)|))
  {
    var n := c as int;
    var bs := EncodeChar(c) + rest;
    if n < 0x80 {
    } else if n < 0x800 {
      assert (n / 64) * 64 + n % 64 == n;
    } else if n < 0x1_0000 {
      assert n / 64 / 64 == n / 4096;
      assert (n / 4096) * 4096 + (n / 64 % 64) * 64 + n % 64 == n;
    } else {
      assert n / 64 / 64 == n / 4096;
      assert n / 4096 / 64 == n / 262144;
      assert (n / 262144) * 262144 + (n / 4096 % 64) * 4096 + (n / 64 % 64) * 64 + n % 64 == n;
    }
  }

  lemma TwoByteDigits(b0: int, b1: int)
    requires 0xC2 <= b0 < 0xE0 && 0x80 <= b1 < 0xC0
    ensures ((b0 - 0xC0) * 64 + (b1 - 0x80)) / 64 == b0 - 0xC0
    ensures ((b0 - 0xC0) * 64 + (b1 - 0x80)) % 64 == b1 - 0x80
  {
  }

  lemma ThreeByteDigits(b0: int, b1: int, b2: int, n: int)
    requires 0xE0 <= b0 < 0xF0 && 0x80 <= b1 < 0xC0 && 0x80 <= b2 < 0xC0
    requires n == (b0 - 0xE0) * 4096 + (b1 - 0x80) * 64 + (b2 - 0x80)
    ensures n / 4096 == b0 - 0xE0 && n / 64 % 64 == b1 - 0x80 && n % 64 == b2 - 0x80
  {
    var m := (b0 - 0xE0) * 64 + (b1 - 0x80);
    assert n == m * 64 + (b2 - 0x80);
    assert n / 64 == m;
    assert m / 64 == b0 - 0xE0;
  }

  lemma FourByteDigits(b0: int, b1: int, b2: int, b3: int, n: int)
    requires 0xF0 <= b0 < 0xF5 && 0x80 <= b1 < 0xC0 && 0x80 <= b2 < 0xC0 && 0x80 <= b3 < 0xC0
    requires n == (b0 - 0xF0) * 262144 + (b1 - 0x80) * 4096 + (b2 - 0x80) * 64 + (b3 - 0x80)
    ensures n / 262144 == b0 - 0xF0 && n / 4096 % 64 == b1 - 0x80
    ensures n / 64 % 64 == b2 - 0x80 && n % 64 == b3 - 0x80
  {
    var m := (b0 - 0xF0) * 4096 + (b1 - 0x80) * 64 + (b2 - 0x80);
    assert n == m * 64 + (b3 - 0x80);
    assert n / 64 == m;
    ThreeByteDigits(b0 - 0xF0 + 0xE0, b1, b2, m);
    assert n / 4096 == m / 64 by {
      assert n / 4096 == n / 64 / 64;
    }
    assert n / 262144 == m / 4096 by {
      assert n / 262144 == n / 64 / 4096;
    }
  }

  /** A character read from `bs` re-encodes to exactly the bytes it was read from. */
  lemma EncodeCharDecodeFirst(bs: seq<Hex.byte>)
    requires |bs| > 0 && DecodeFirst(bs).Some?
    ensures EncodeChar(DecodeFirst(bs).value.0) == bs[..DecodeFirst(bs).value.1]
  {
    var b0 := bs[0] as int;
    if b0 < 0x80 {
    } else if b0 < 0xE0 {
      TwoByteDigits(b0, bs[1]);
    } else if b0 < 0xF0 {
      var n := (b0 - 0xE0) * 4096 + (bs[1] as int - 0x80) * 64 + (bs[2] as int - 0x80);
      ThreeByteDigits(b0, bs[1], bs[2], n);
    } else {
      var n := (b0 - 0xF0) * 262144 + (bs[1] as int - 0x80) * 4096 + (bs[2] as int - 0x80) * 64 + (bs[3] as int - 0x80);
      FourByteDigits(b0, bs[1], bs[2], bs[3], n);
    }
  }

  /** Decoding reverses encoding: UTF-8 loses nothing. */
  lemma {:induction false} DecodeEncode(s: string)
    ensures Decode(Encode(s)) == Some(s)
    decreases |s|
  {
    if s != [] {
      var e := EncodeChar(s[0]);
      var bs := Encode(s);
      assert bs == e + Encode(s[1..]);
      DecodeFirstEncodeChar(s[0], Encode(s[1..]));
      assert bs[|e|..] == Encode(s[1..]);
      DecodeEncode(s[1..]);
      assert s == [s[0]] + s[1..];
    }
  }

  /** Encoding reverses a successful decoding: no two byte sequences read as the same string. */
  lemma {:induction false} EncodeDecode(bs: seq<Hex.byte>)
    requires Decode(bs).Some?
    ensures Encode(Decode(bs).value) == bs
    decreases |bs|
  {
    if bs != [] {
      var c := DecodeFirst(bs).value.0;
      var k := DecodeFirst(bs).value.1;
      EncodeCharDecodeFirst(bs);
      EncodeDecode(bs[k..]);
      var s := Decode(bs).value;
      assert s == [c] + Decode(bs[k..]).value;
      assert s[1..] == Decode(bs[k..]).value;
      assert bs == bs[..k] + bs[k..];
    }
  }

  /** Distinct strings have distinct encodings. */
  lemma EncodeInjective(a: string, b: string)
    requires Encode(a) == Encode(b)
    ensures a == b
  {
    DecodeEncode(a);
    DecodeEncode(b);
  }
}
