/**
  `string_to_hex` and `hex_to_string` (src/libs/utils.ts): the transport
  encoding every secret blob passes through on its way to storage. A string
  is taken to its UTF-8 bytes and those bytes to lower-case hex, and back.
 */
module Utils {
  import opened Results
  import Hex
  import Utf8

  /** `Buffer.from(s).toString("hex")`. */
  function StringToHex(s: string): (h: string)
    ensures |h| == 2 * |Utf8.Encode(s)|
    ensures |h| >= 2 * |s|
    ensures Hex.WellFormed(h) && Hex.IsLowerHex(h)
  {
    Hex.Encode(Utf8.Encode(s))
  }

  /**
    `Buffer.from(h, "hex").toString()` on input it reads completely: an even
    number of hex digits of either case spelling well-formed UTF-8.
   */
  function HexToString(h: string): (r: Option<string>)
    ensures r.Some? ==> Hex.WellFormed(h)
    ensures r.Some? ==> |h| >= 2 * |r.value|
  {
    match Hex.Decode(h)
    case None => None
    case Some(bs) => Utf8.Decode(bs)
  }

  /** Decoding the hex of a string gives the string back. */
  lemma RoundTrip(s: string)
    ensures HexToString(StringToHex(s)) == Some(s)
  {
    Hex.DecodeEncode(Utf8.Encode(s));
    Utf8.DecodeEncode(s);
  }

  /** Whatever hex decodes to a string is that string's hex, up to the case of its digits. */
  lemma InverseRoundTrip(h: string)
    requires HexToString(h).Some?
    ensures StringToHex(HexToString(h).value) == Hex.Lower(h)
  {
    Utf8.EncodeDecode(Hex.Decode(h).value);
    Hex.EncodeDecode(h);
  }

  /** Distinct strings are stored as distinct hex. */
  lemma StringToHexInjective(a: string, b: string)
    requires StringToHex(a) == StringToHex(b)
    ensures a == b
  {
    RoundTrip(a);
    RoundTrip(b);
  }

  /** The hex of a concatenation is the concatenation of the hexes. */
  lemma StringToHexAppend(a: string, b: string)
    ensures StringToHex(a + b) == StringToHex(a) + StringToHex(b)
  {
    Utf8.EncodeAppend(a, b);
    Hex.EncodeAppend(Utf8.Encode(a), Utf8.Encode(b));
  }

  /** An ASCII string, such as armored OpenPGP text, takes exactly two digits per character. */
  lemma AsciiLength(s: string)
    requires Utf8.IsAscii(s)
    ensures |StringToHex(s)| == 2 * |s|
  {
    Utf8.EncodeAscii(s);
  }

  /** The documented example of src/libs/utils.ts, in both directions. */
  lemma HelloWorld()
    ensures StringToHex("Hello, World!") == "48656c6c6f2c20576f726c6421"
    ensures HexToString("48656c6c6f2c20576f726c6421") == Some("Hello, World!")
  {
    HelloPair([0x48, 0x65, 0x6c, 0x6c, 0x6f, 0x2c, 0x20, 0x57, 0x6f, 0x72, 0x6c, 0x64, 0x21], "Hello, World!", "48656c6c6f2c20576f726c6421");
  }

  /**
   * The example's text encodes to the bytes `bs`, and its lowercase hex `h`
   * decodes to them; the round trips of both codecs do the rest.
   */
  lemma HelloPair(bs: seq<Hex.byte>, s: string, h: string)
    requires bs == [0x48, 0x65, 0x6c, 0x6c, 0x6f, 0x2c, 0x20, 0x57, 0x6f, 0x72, 0x6c, 0x64, 0x21]
    requires s == "Hello, World!" && h == "48656c6c6f2c20576f726c6421"
    ensures StringToHex(s) == h
    ensures HexToString(h) == Some(s)
  {
    HelloBytes(s, bs);
    HelloDigits(bs, h);
    Hex.DecodeIndex(h);
    assert Hex.Decode(h).value == bs;
    Hex.EncodeDecodeLower(h);
    RoundTrip(s);
  }

  /** The example's text is ASCII, so its UTF-8 bytes are its character codes. */
  lemma HelloBytes(s: string, bs: seq<Hex.byte>)
    requires s == "Hello, World!"
    requires bs == [0x48, 0x65, 0x6c, 0x6c, 0x6f, 0x2c, 0x20, 0x57, 0x6f, 0x72, 0x6c, 0x64, 0x21]
    ensures Utf8.Encode(s) == bs
  {
    forall i | 0 <= i < |s|
      ensures s[i] as int == bs[i]
    {
    }
    Utf8.EncodeAscii(s);
  }

  /** The example's hex is lowercase and well-formed, and its digit pairs spell its bytes. */
  lemma HelloDigits(bs: seq<Hex.byte>, h: string)
    requires bs == [0x48, 0x65, 0x6c, 0x6c, 0x6f, 0x2c, 0x20, 0x57, 0x6f, 0x72, 0x6c, 0x64, 0x21]
    requires h == "48656c6c6f2c20576f726c6421"
    ensures Hex.WellFormed(h) && Hex.IsLowerHex(h)
    ensures forall i :: 0 <= i < |bs| ==> Hex.DigitValue(h[2 * i]) * 16 + Hex.DigitValue(h[2 * i + 1]) == bs[i]
  {
    assert Hex.WellFormed(h) && Hex.IsLowerHex(h);
  }
}
