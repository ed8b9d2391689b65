/**
  The byte-level hex codec behind `string_to_hex` and `hex_to_string`
  (src/libs/utils.ts): every byte becomes two lower-case hexadecimal digits,
  and decoding reads digit pairs of either case back into bytes.
 */
module Hex {
  import opened Results

  /** An octet, as held by a Node `Buffer`. */
  type byte = b: int | 0 <= b < 256

  predicate IsLowerHexDigit(c: char) {
    '0' <= c <= '9' || 'a' <= c <= 'f'
  }

  /** The digits `Buffer.from(_, "hex")` reads: both cases are accepted. */
  predicate IsHexDigit(c: char) {
    IsLowerHexDigit(c) || 'A' <= c <= 'F'
  }

  /** A string made of lower-case hex digits only. */
  predicate IsLowerHex(h: string) {
    forall i :: 0 <= i < |h| ==> IsLowerHexDigit(h[i])
  }

  /** A string that decodes completely: an even number of hex digits. */
  predicate WellFormed(h: string) {
    |h| % 2 == 0 && forall i :: 0 <= i < |h| ==> IsHexDigit(h[i])
  }

  function DigitValue(c: char): (v: int)
    requires IsHexDigit(c)
    ensures 0 <= v < 16
  {
    if '0' <= c <= '9' then c as int - '0' as int
    else if 'a' <= c <= 'f' then c as int - 'a' as int + 10
    else c as int - 'A' as int + 10
  }

  /** The lower-case digit `Buffer.toString("hex")` writes for a nibble. */
  function DigitChar(v: int): (c: char)
    requires 0 <= v < 16
    ensures IsLowerHexDigit(c)
    ensures DigitValue(c) == v
  {
    if v < 10 then ('0' as int + v) as char else ('a' as int + v - 10) as char
  }

  /** The digit a reader of either case takes `c` for, written in lower case. */
  function LowerDigit(c: char): (d: char)
    requires IsHexDigit(c)
    ensures IsLowerHexDigit(d) && DigitValue(d) == DigitValue(c)
    ensures IsLowerHexDigit(c) ==> d == c
  {
    if 'A' <= c <= 'F' then (c as int - 'A' as int + 'a' as int) as char else c
  }

  /** A well-formed hex string with every upper-case digit lowered. */
  function Lower(h: string): (l: string)
    requires WellFormed(h)
    ensures |l| == |h| && IsLowerHex(l)
  {
    seq(|h|, i requires 0 <= i < |h| => LowerDigit(h[i]))
  }

  /** The two digits of one byte, high nibble first. */
  function EncodeByte(b: byte): (h: string)
    ensures |h| == 2 && IsLowerHex(h)
    ensures DigitValue(h[0]) * 16 + DigitValue(h[1]) == b
  {
    [DigitChar(b / 16), DigitChar(b % 16)]
  }

  /** `Buffer.from(bytes).toString("hex")`. */
  function Encode(bs: seq<byte>): (h: string)
    ensures |h| == 2 * |bs|
    ensures IsLowerHex(h)
  {
    if bs == [] then [] else EncodeByte(bs[0]) + Encode(bs[1..])
  }

  /** `Buffer.from(h, "hex")` on a string it can read completely; `None` otherwise. */
  function Decode(h: string): (r: Option<seq<byte>>)
    ensures r.Some? <==> WellFormed(h)
    ensures r.Some? ==> 2 * |r.value| == |h|
    decreases |h|
  {
    if |h| == 0 then Some([])
    else if |h| == 1 || !IsHexDigit(h[0]) || !IsHexDigit(h[1]) then None
    else
      match Decode(h[2..])
      case None => None
      case Some(rest) => Some([DigitValue(h[0]) * 16 + DigitValue(h[1])] + rest)
  }

  /** Encoding distributes over concatenation. */
  lemma {:induction false} EncodeAppend(a: seq<byte>, b: seq<byte>)
    ensures Encode(a + b) == Encode(a) + Encode(b)
    decreases |a|
  {
    if a == [] {
      assert a + b == b;
    } else {
      assert (a + b)[1..] == a[1..] + b;
      EncodeAppend(a[1..], b);
    }
  }

  /** Decoding reverses encoding exactly. */
  lemma {:induction false} DecodeEncode(bs: seq<byte>)
    ensures Decode(Encode(bs)) == Some(bs)
    decreases |bs|
  {
    if bs != [] {
      var h := Encode(bs);
      assert h[..2] == EncodeByte(bs[0]);
      assert h[2..] == Encode(bs[1..]);
      DecodeEncode(bs[1..]);
      assert DigitValue(h[0]) * 16 + DigitValue(h[1]) == bs[0];
      assert bs == [bs[0]] + bs[1..];
    }
  }

  /** Encoding what was decoded gives back the input, in lower case. */
  lemma {:induction false} EncodeDecode(h: string)
    requires WellFormed(h)
    ensures Encode(Decode(h).value) == Lower(h)
    decreases |h|
  {
    if |h| > 0 {
      var t := h[2..];
      assert WellFormed(t) by {
        forall i | 0 <= i < |t| ensures IsHexDigit(t[i]) {
          assert t[i] == h[i + 2];
        }
      }
      EncodeDecode(t);
      var b: byte := DigitValue(h[0]) * 16 + DigitValue(h[1]);
      assert Decode(h).value == [b] + Decode(t).value;
      assert Decode(h).value[1..] == Decode(t).value;
      var e := EncodeByte(b);
      assert DigitValue(e[0]) == DigitValue(h[0]) && DigitValue(e[1]) == DigitValue(h[1]);
      assert e[0] == LowerDigit(h[0]) by { DigitsDetermined(e[0], LowerDigit(h[0])); }
      assert e[1] == LowerDigit(h[1]) by { DigitsDetermined(e[1], LowerDigit(h[1])); }
      assert Lower(h) == e + Lower(t);
    }
  }

  /** Byte `i` of a decoding is the value of the digit pair at `2 * i`. */
  lemma {:induction false} DecodeIndex(h: string)
    requires WellFormed(h)
    ensures forall i :: 0 <= i < |h| / 2 ==>
      Decode(h).value[i] == DigitValue(h[2 * i]) * 16 + DigitValue(h[2 * i + 1])
    decreases |h|
  {
    if |h| > 0 {
      var t := h[2..];
      assert WellFormed(t) by {
        forall i | 0 <= i < |t| ensures IsHexDigit(t[i]) {
          assert t[i] == h[i + 2];
        }
      }
      DecodeIndex(t);
      forall i | 1 <= i < |h| / 2
        ensures Decode(h).value[i] == DigitValue(h[2 * i]) * 16 + DigitValue(h[2 * i + 1])
      {
        assert Decode(h).value[i] == Decode(t).value[i - 1];
        assert t[2 * (i - 1)] == h[2 * i] && t[2 * (i - 1) + 1] == h[2 * i + 1];
      }
    }
  }

  /** A lower-case digit is determined by its value. */
  lemma DigitsDetermined(c: char, d: char)
    requires IsLowerHexDigit(c) && IsLowerHexDigit(d)
    requires DigitValue(c) == DigitValue(d)
    ensures c == d
  {
  }

  /** On lower-case input, encoding inverts decoding outright. */
  lemma EncodeDecodeLower(h: string)
    requires WellFormed(h) && IsLowerHex(h)
    ensures Encode(Decode(h).value) == h
  {
    EncodeDecode(h);
    assert Lower(h) == h;
  }

  /** Distinct byte sequences have distinct encodings. */
  lemma EncodeInjective(a: seq<byte>, b: seq<byte>)
    requires Encode(a) == Encode(b)
    ensures a == b
  {
    DecodeEncode(a);
    DecodeEncode(b);
  }
}
