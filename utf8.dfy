/**
 * UTF-8 as Node's `Buffer` applies it in `cipher.update(text, "utf8")`
 * and `decrypted.toString("utf8")`: encoding of Unicode scalar values,
 * and the WHATWG decoder that replaces each maximal ill-formed subpart
 * with U+FFFD.
 */
module Utf8 {

  newtype byte = x: int | 0 <= x < 256

  type Bytes = seq<byte>

  const REPLACEMENT: char := '\U{FFFD}'

  /** The bytes encoding one Unicode scalar value. */
  function EncodeChar(c: char): (r: Bytes)
    ensures 1 <= |r| <= 4
  {
    var n := c as int;
    if n < 0x80 then [n as byte]
    else if n < 0x800 then [(0xC0 + n / 64) as byte, (0x80 + n % 64) as byte]
    else if n < 0x10000 then
      [(0xE0 + n / 4096) as byte, (0x80 + n / 64 % 64) as byte, (0x80 + n % 64) as byte]
    else
      [(0xF0 + n / 262144) as byte, (0x80 + n / 4096 % 64) as byte,
       (0x80 + n / 64 % 64) as byte, (0x80 + n % 64) as byte]
  }

  /** `Buffer.from(s, "utf8")`. */
  function Encode(s: string): Bytes
  {
    if s == [] then [] else EncodeChar(s[0]) + Encode(s[1..])
  }

  predicate InRange(b: byte, lo: int, hi: int)
  {
    lo <= b as int <= hi
  }

  /**
   * One step of the decoder on a non-empty input: the character produced
   * and how many bytes it consumes. A byte that does not continue the
   * sequence is not consumed, so decoding resumes at it.
   */
  function DecodeOne(b: Bytes): (r: (char, nat))
    requires |b| > 0
    ensures 1 <= r.1 <= |b|
  {
    var b0 := b[0] as int;
    if b0 < 0x80 then (b0 as char, 1)
    else if 0xC2 <= b0 <= 0xDF then
      if |b| < 2 || !InRange(b[1], 0x80, 0xBF) then (REPLACEMENT, 1)
      else (((b0 - 0xC0) * 64 + (b[1] as int - 0x80)) as char, 2)
    else if 0xE0 <= b0 <= 0xEF then
      var lo := if b0 == 0xE0 then 0xA0 else 0x80;
      var hi := if b0 == 0xED then 0x9F else 0xBF;
      if |b| < 2 || !InRange(b[1], lo, hi) then (REPLACEMENT, 1)
      else if |b| < 3 || !InRange(b[2], 0x80, 0xBF) then (REPLACEMENT, 2)
      else (((b0 - 0xE0) * 4096 + (b[1] as int - 0x80) * 64 + (b[2] as int - 0x80)) as char, 3)
    else if 0xF0 <= b0 <= 0xF4 then
      var lo := if b0 == 0xF0 then 0x90 else 0x80;
      var hi := if b0 == 0xF4 then 0x8F else 0xBF;
      if |b| < 2 || !InRange(b[1], lo, hi) then (REPLACEMENT, 1)
      else if |b| < 3 || !InRange(b[2], 0x80, 0xBF) then (REPLACEMENT, 2)
      else if |b| < 4 || !InRange(b[3], 0x80, 0xBF) then (REPLACEMENT, 3)
      else (((b0 - 0xF0) * 262144 + (b[1] as int - 0x80) * 4096
             + (b[2] as int - 0x80) * 64 + (b[3] as int - 0x80)) as char, 4)
    else (REPLACEMENT, 1)
  }

  /** `buffer.toString("utf8")`: total on every byte sequence. */
  function Decode(b: Bytes): string
    decreases |b|
  {
    if b == [] then []
    else
      var step := DecodeOne(b);
      [step.0] + Decode(b[step.1..])
  }

  lemma DecodeTwoBytes(c: char, rest: Bytes)
    requires 0x80 <= c as int < 0x800
    ensures |EncodeChar(c) + rest| > 0
    ensures DecodeOne(EncodeChar(c) + rest) == (c, 2)
  {
    var n := c as int;
    var q, r := n / 64, n % 64;
    assert n == q * 64 + r && 2 <= q < 32 && 0 <= r < 64;
    var b := EncodeChar(c) + rest;
    assert b[0] as int == 0xC0 + q && b[1] as int == 0x80 + r;
  }

  lemma DecodeThreeBytes(c: char, rest: Bytes)
    requires 0x800 <= c as int < 0x10000
    ensures |EncodeChar(c) + rest| > 0
    ensures DecodeOne(EncodeChar(c) + rest) == (c, 3)
  {
    var n := c as int;
    var q, m, r := n / 4096, n / 64 % 64, n % 64;
    assert n / 64 == q * 64 + m;
    assert n == q * 4096 + m * 64 + r && 0 <= q < 16 && 0 <= m < 64 && 0 <= r < 64;
    assert q == 0 ==> m >= 32;
    assert q == 13 ==> m < 32;
    var b := EncodeChar(c) + rest;
    assert b[0] as int == 0xE0 + q && b[1] as int == 0x80 + m && b[2] as int == 0x80 + r;
  }

  lemma DecodeFourBytes(c: char, rest: Bytes)
    requires 0x10000 <= c as int
    ensures |EncodeChar(c) + rest| > 0
    ensures DecodeOne(EncodeChar(c) + rest) == (c, 4)
  {
    var n := c as int;
    var q, h, m, r := n / 262144, n / 4096 % 64, n / 64 % 64, n % 64;
    assert n / 4096 == q * 64 + h;
    assert n / 64 == (n / 4096) * 64 + m;
    assert n == q * 262144 + h * 4096 + m * 64 + r;
    assert 0 <= q <= 4 && 0 <= h < 64 && 0 <= m < 64 && 0 <= r < 64;
    assert q == 0 ==> h >= 16;
    assert q == 4 ==> h < 16;
    var b := EncodeChar(c) + rest;
    assert b[0] as int == 0xF0 + q && b[1] as int == 0x80 + h;
    assert b[2] as int == 0x80 + m && b[3] as int == 0x80 + r;
  }

  /** The decoder reads back exactly one encoded character and nothing after it. */
  lemma DecodeOneEncodeChar(c: char, rest: Bytes)
    ensures |EncodeChar(c) + rest| > 0
    ensures DecodeOne(EncodeChar(c) + rest) == (c, |EncodeChar(c)|)
  {
    var n := c as int;
    if n < 0x80 {
    } else if n < 0x800 {
      DecodeTwoBytes(c, rest);
    } else if n < 0x10000 {
      DecodeThreeBytes(c, rest);
    } else {
      DecodeFourBytes(c, rest);
    }
  }

  /** Decoding an encoding gives back the text: `Buffer.from(s, "utf8").toString("utf8") == s`. */
  lemma {:induction false} DecodeEncode(s: string)
    ensures Decode(Encode(s)) == s
  {
    if s != [] {
      var head, rest := EncodeChar(s[0]), Encode(s[1..]);
      DecodeOneEncodeChar(s[0], rest);
      assert (head + rest)[|head|..] == rest;
      DecodeEncode(s[1..]);
      assert [s[0]] + s[1..] == s;
    }
  }

  /** The encoding is empty exactly when the text is. */
  lemma EncodeEmpty(s: string)
    ensures Encode(s) == [] <==> s == []
  {
  }
}
