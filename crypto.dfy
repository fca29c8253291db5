/**
 * js/utils/crypto.js: `generateSHA256Hash` writes the SHA-256 digest of a
 * string as lowercase hexadecimal, two characters per byte. The digest
 * itself (FIPS 180-4 over the UTF-8 encoding) is a parameter of the model;
 * the hex step is modelled and proved.
 */
module Crypto {

  type Byte = b: int | 0 <= b < 256

  /** A SHA-256 digest: 32 bytes. */
  type Digest = d: seq<Byte> | |d| == 32 witness seq(32, _ => 0)

  /** The digits `Number.prototype.toString(16)` writes: 0-9, then lowercase a-f. */
  predicate IsHexDigit(c: char) {
    '0' <= c <= '9' || 'a' <= c <= 'f'
  }

  function HexDigit(n: nat): (c: char)
    requires n < 16
    ensures IsHexDigit(c)
  {
    if n < 10 then (48 + n) as char else (87 + n) as char
  }

  /** `byte.toString(16)`: one digit below 16, otherwise two. */
  function ToString16(b: Byte): string {
    if b < 16 then [HexDigit(b)] else [HexDigit(b / 16), HexDigit(b % 16)]
  }

  /** `s.padStart(len, fill)` for a one-character fill. */
  function PadStart(s: string, len: nat, fill: char): (r: string)
    ensures |r| == if |s| >= len then |s| else len
    ensures r[|r| - |s|..] == s
    ensures forall i :: 0 <= i < |r| - |s| ==> r[i] == fill
  {
    if |s| >= len then s else seq(len - |s|, _ => fill) + s
  }

  /** The two digits written for a byte: high nibble, then low nibble. */
  function ByteHex(b: Byte): (h: string)
    ensures |h| == 2 && IsHexDigit(h[0]) && IsHexDigit(h[1])
  {
    [HexDigit(b / 16), HexDigit(b % 16)]
  }

  /**
   * `byte.toString(16).padStart(2, '0')` is the byte's two-digit form: a
   * byte below 16 gets a leading '0'.
   */
  lemma PaddedToString16(b: Byte)
    ensures PadStart(ToString16(b), 2, '0') == ByteHex(b)
    ensures b < 16 ==> ByteHex(b)[0] == '0'
  {
    if b < 16 {
      assert b / 16 == 0 && b % 16 == b;
    }
  }

  /**
   * `Array.from(bytes).map(ByteHex).join('')`: byte i occupies characters
   * 2i and 2i+1, and only lowercase hex digits occur.
   */
  function HexEncode(bytes: seq<Byte>): (h: string)
    ensures |h| == 2 * |bytes|
    ensures forall i :: 0 <= i < |bytes| ==> h[2 * i..2 * i + 2] == ByteHex(bytes[i])
    ensures forall k :: 0 <= k < |h| ==> IsHexDigit(h[k])
  {
    if bytes == [] then []
    else
      var rest := HexEncode(bytes[1..]);
      var h := ByteHex(bytes[0]) + rest;
      forall i | 1 <= i < |bytes|
        ensures h[2 * i..2 * i + 2] == ByteHex(bytes[i])
      {
        var j := i - 1;
        assert bytes[1..][j] == bytes[i];
        assert h[2 * i..2 * i + 2] == rest[2 * j..2 * j + 2];
      }
      h
  }

  /** Byte i is written high nibble first at characters 2i and 2i+1. */
  lemma HexPositions(bytes: seq<Byte>, i: nat)
    requires i < |bytes|
    ensures HexEncode(bytes)[2 * i] == HexDigit(bytes[i] / 16)
    ensures HexEncode(bytes)[2 * i + 1] == HexDigit(bytes[i] % 16)
  {
    var h := HexEncode(bytes);
    var pair := h[2 * i..2 * i + 2];
    assert pair == ByteHex(bytes[i]);
    assert pair[0] == h[2 * i] && pair[1] == h[2 * i + 1];
  }

  /** generateSHA256Hash(data), with the digest of the encoded string given. */
  function Hash(data: string, digest: string -> Digest): (h: string)
    ensures |h| == 64
    ensures forall k :: 0 <= k < |h| ==> IsHexDigit(h[k])
  {
    HexEncode(digest(data))
  }

  /** The value of a lowercase hex digit. */
  function DigitValue(c: char): (n: nat)
    requires IsHexDigit(c)
    ensures n < 16 && HexDigit(n) == c
  {
    if '0' <= c <= '9' then (c - '0') as nat
    else (c - 'a') as nat + 10
  }

  /** Reads pairs of lowercase hex digits back into bytes. */
  function HexDecode(h: string): (bytes: seq<Byte>)
    requires |h| % 2 == 0
    requires forall k :: 0 <= k < |h| ==> IsHexDigit(h[k])
    ensures |bytes| == |h| / 2
  {
    if h == [] then []
    else [DigitValue(h[0]) * 16 + DigitValue(h[1])] + HexDecode(h[2..])
  }

  /** Each hex digit stands for its own value. */
  lemma DigitRoundTrip(n: nat)
    requires n < 16
    ensures DigitValue(HexDigit(n)) == n
  {
  }

  /** Decoding the encoding gives the bytes back. */
  lemma {:induction false} HexRoundTrip(bytes: seq<Byte>)
    ensures HexDecode(HexEncode(bytes)) == bytes
  {
    if bytes != [] {
      var h := HexEncode(bytes);
      var b := bytes[0];
      DigitRoundTrip(b / 16);
      DigitRoundTrip(b % 16);
      assert h[0..2] == ByteHex(b);
      assert h[2..] == HexEncode(bytes[1..]);
      HexRoundTrip(bytes[1..]);
      assert bytes == [b] + bytes[1..];
    }
  }

  /** Distinct byte sequences have distinct hex strings. */
  lemma HexInjective(a: seq<Byte>, b: seq<Byte>)
    requires HexEncode(a) == HexEncode(b)
    ensures a == b
  {
    HexRoundTrip(a);
    HexRoundTrip(b);
  }
}
