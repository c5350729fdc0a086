/**
 * Node's "hex" buffer encoding: `buffer.toString("hex")` writes two
 * lower-case digits per byte; `Buffer.from(s, "hex")` reads digit pairs of
 * either case and stops at the first pair that is not two hex digits
 * (so an odd trailing digit is dropped).
 */
module Hex {
  import opened Utf8

  function HexDigit(d: nat): (c: char)
    requires d < 16
    ensures IsHexChar(c) && HexValue(c) == d
  {
    if d < 10 then ('0' as int + d) as char else ('a' as int + d - 10) as char
  }

  predicate IsHexChar(c: char)
  {
    '0' <= c <= '9' || 'a' <= c <= 'f' || 'A' <= c <= 'F'
  }

  function HexValue(c: char): (v: nat)
    requires IsHexChar(c)
    ensures v < 16
  {
    if '0' <= c <= '9' then c as int - '0' as int
    else if 'a' <= c <= 'f' then c as int - 'a' as int + 10
    else c as int - 'A' as int + 10
  }

  /** `buffer.toString("hex")`. */
  function Encode(b: Bytes): (s: string)
    ensures |s| == 2 * |b|
  {
    if b == [] then []
    else [HexDigit(b[0] as int / 16), HexDigit(b[0] as int % 16)] + Encode(b[1..])
  }

  /** `Buffer.from(s, "hex")`. */
  function Decode(s: string): (b: Bytes)
    ensures |b| <= |s| / 2
  {
    if |s| < 2 || !IsHexChar(s[0]) || !IsHexChar(s[1]) then []
    else [(HexValue(s[0]) * 16 + HexValue(s[1])) as byte] + Decode(s[2..])
  }

  /** Every character of the output is a hex digit. */
  lemma {:induction false} EncodeDigits(b: Bytes)
    ensures forall i :: 0 <= i < |Encode(b)| ==> IsHexChar(Encode(b)[i])
  {
    if b != [] {
      EncodeDigits(b[1..]);
    }
  }

  /** Hex output never contains the `:` that separates the cipher fields. */
  lemma EncodeHasNoColon(b: Bytes)
    ensures ':' !in Encode(b)
  {
    EncodeDigits(b);
  }

  /** Decoding the hex encoding of a buffer gives the buffer back. */
  lemma {:induction false} DecodeEncode(b: Bytes)
    ensures Decode(Encode(b)) == b
  {
    if b != [] {
      var s := Encode(b);
      var hi, lo := b[0] as int / 16, b[0] as int % 16;
      assert s[0] == HexDigit(hi) && s[1] == HexDigit(lo);
      assert s[2..] == Encode(b[1..]);
      DecodeEncode(b[1..]);
      assert (hi * 16 + lo) as byte == b[0];
      assert [b[0]] + b[1..] == b;
    }
  }
}
