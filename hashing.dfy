/** `HTLC.hash`: SHA-256 of the message's bytes, each digest byte rendered with
    "%02x" and concatenated. The digest itself (FIPS 180-4 over the UTF-8
    bytes) is not modelled: `Sha256` is an arbitrary fixed function yielding
    32 signed bytes. The hex rendering is modelled as written. */
module Hashing {

  /** A JVM `Byte`. */
  type Int8 = x: int | -128 <= x <= 127

  type Digest = d: seq<Int8> | |d| == 32 witness seq(32, _ => 0)

  /** SHA-256 over the UTF-8 encoding of a string; deliberately left unspecified. */
  const Sha256: string -> Digest

  predicate IsLowerHexDigit(c: char)
  {
    '0' <= c <= '9' || 'a' <= c <= 'f'
  }

  function HexDigit(n: nat): (c: char)
    requires n < 16
    ensures IsLowerHexDigit(c)
  {
    if n < 10 then '0' + n as char else 'a' + (n - 10) as char
  }

  function HexValue(c: char): (n: nat)
    requires IsLowerHexDigit(c)
    ensures n < 16 && HexDigit(n) == c
  {
    if c <= '9' then (c - '0') as nat else (c - 'a') as nat + 10
  }

  /** "%02x" on a `Byte`: a negative byte is formatted as its value plus 256. */
  function FormatByte(b: Int8): (s: string)
    ensures |s| == 2 && IsLowerHexDigit(s[0]) && IsLowerHexDigit(s[1])
  {
    var u := if b < 0 then b + 256 else b;
    [HexDigit(u / 16), HexDigit(u % 16)]
  }

  /** The fold appending each byte's rendering to a StringBuilder, left to right. */
  function Hex(bytes: seq<Int8>): (s: string)
    ensures |s| == 2 * |bytes|
  {
    if bytes == [] then "" else FormatByte(bytes[0]) + Hex(bytes[1..])
  }

  /** Reads back a byte from its two-digit rendering. */
  function ParseByte(s: string): (b: Int8)
    requires |s| == 2 && IsLowerHexDigit(s[0]) && IsLowerHexDigit(s[1])
  {
    var u := HexValue(s[0]) * 16 + HexValue(s[1]);
    if u >= 128 then u - 256 else u
  }

  /** Reads back the bytes of a rendering, two characters at a time. */
  function Unhex(s: string): (bytes: seq<Int8>)
    requires |s| % 2 == 0
    requires forall i :: 0 <= i < |s| ==> IsLowerHexDigit(s[i])
  {
    if s == [] then [] else [ParseByte(s[..2])] + Unhex(s[2..])
  }

  lemma FormatParseByte(s: string)
    requires |s| == 2 && IsLowerHexDigit(s[0]) && IsLowerHexDigit(s[1])
    ensures FormatByte(ParseByte(s)) == s
  {
    var u := HexValue(s[0]) * 16 + HexValue(s[1]);
    assert u / 16 == HexValue(s[0]) && u % 16 == HexValue(s[1]);
  }

  /** `HTLC.hash(msg)`: 32 digest bytes, so always 64 characters. */
  function Hash(msg: string): (r: string)
    ensures |r| == 64
  {
    Hex(Sha256(msg))
  }

  lemma ParseFormatByte(b: Int8)
    ensures ParseByte(FormatByte(b)) == b
  {
  }

  /** The rendering has two lowercase hex digits per byte. */
  lemma {:induction false} HexShape(bytes: seq<Int8>)
    ensures |Hex(bytes)| == 2 * |bytes|
    ensures forall i :: 0 <= i < |Hex(bytes)| ==> IsLowerHexDigit(Hex(bytes)[i])
  {
    if bytes != [] {
      HexShape(bytes[1..]);
      var h := Hex(bytes);
      assert h == FormatByte(bytes[0]) + Hex(bytes[1..]);
      forall i | 0 <= i < |h| ensures IsLowerHexDigit(h[i]) {
        if i >= 2 { assert h[i] == Hex(bytes[1..])[i - 2]; }
      }
    }
  }

  /** Round trip: the rendering loses nothing, so it is injective. */
  lemma {:induction false} UnhexHex(bytes: seq<Int8>)
    ensures HexShapeOk(Hex(bytes)) && Unhex(Hex(bytes)) == bytes
  {
    HexShape(bytes);
    if bytes != [] {
      var h := Hex(bytes);
      assert h[..2] == FormatByte(bytes[0]);
      assert h[2..] == Hex(bytes[1..]);
      ParseFormatByte(bytes[0]);
      UnhexHex(bytes[1..]);
    }
  }

  /** Round trip the other way: every even-length lowercase hex string is a rendering. */
  lemma {:induction false} HexUnhex(s: string)
    requires HexShapeOk(s)
    ensures Hex(Unhex(s)) == s
    ensures |Unhex(s)| == |s| / 2
  {
    if s != [] {
      assert HexShapeOk(s[2..]);
      FormatParseByte(s[..2]);
      HexUnhex(s[2..]);
      assert s == s[..2] + s[2..];
    }
  }

  predicate HexShapeOk(s: string)
  {
    |s| % 2 == 0 && forall i :: 0 <= i < |s| ==> IsLowerHexDigit(s[i])
  }

  /** `hash` yields 64 lowercase hex characters for every message. */
  lemma HashShape(msg: string)
    ensures |Hash(msg)| == 64
    ensures forall i :: 0 <= i < |Hash(msg)| ==> IsLowerHexDigit(Hash(msg)[i])
  {
    HexShape(Sha256(msg));
  }

  /** Two messages have the same hash exactly when their digests are equal. */
  lemma HashEqualIffDigestEqual(m1: string, m2: string)
    ensures Hash(m1) == Hash(m2) <==> Sha256(m1) == Sha256(m2)
  {
    UnhexHex(Sha256(m1));
    UnhexHex(Sha256(m2));
  }
}
