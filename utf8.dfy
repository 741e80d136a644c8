/**
 * `String.getBytes()` and `new String(byte[])` with UTF-8 as the platform charset:
 * the record body is the identifier's bytes, and the transform stage decodes it again.
 */
module Utf8 {

  newtype byte = x: int | 0 <= x < 256

  predicate IsContinuation(b: byte) { 0x80 <= b < 0xC0 }

  /** The UTF-8 encoding of one scalar value. */
  function EncodeChar(c: char): (r: seq<byte>)
    ensures 1 <= |r| <= 4
  {
    var n := c as int;
    if n < 0x80 then [n as byte]
    else if n < 0x800 then [(0xC0 + n / 64) as byte, (0x80 + n % 64) as byte]
    else if n < 0x10000 then
      [(0xE0 + n / 4096) as byte, (0x80 + (n / 64) % 64) as byte, (0x80 + n % 64) as byte]
    else
      [(0xF0 + n / 262144) as byte, (0x80 + (n / 4096) % 64) as byte,
       (0x80 + (n / 64) % 64) as byte, (0x80 + n % 64) as byte]
  }

  /** `s.getBytes()`. */
  function Encode(s: string): (r: seq<byte>)
    ensures |s| <= |r| <= 4 * |s|
  {
    if s == [] then [] else EncodeChar(s[0]) + Encode(s[1..])
  }

  predicate IsScalar(n: int) { 0 <= n < 0xD800 || 0xE000 <= n < 0x110000 }

  /** U+FFFD, which the decoder puts in place of a byte that starts no well-formed sequence. */
  const Replacement: char := '�'

  /**
   * The character at the start of `b` and the number of bytes it takes. A lead byte
   * followed by the right continuation bytes gives their scalar value when the encoding
   * is the shortest one and names no surrogate; anything else is one replaced byte.
   */
  function DecodeFirst(b: seq<byte>): (r: (char, nat))
    requires |b| > 0
    ensures 1 <= r.1 <= |b|
  {
    var b0 := b[0] as int;
    if b0 < 0x80 then (b0 as char, 1)
    else if 0xC0 <= b0 < 0xE0 && |b| >= 2 && IsContinuation(b[1]) then
      var n := (b0 - 0xC0) * 64 + (b[1] as int - 0x80);
      if 0x80 <= n then (n as char, 2) else (Replacement, 1)
    else if 0xE0 <= b0 < 0xF0 && |b| >= 3 && IsContinuation(b[1]) && IsContinuation(b[2]) then
      var n := (b0 - 0xE0) * 4096 + (b[1] as int - 0x80) * 64 + (b[2] as int - 0x80);
      if 0x800 <= n && IsScalar(n) then (n as char, 3) else (Replacement, 1)
    else if 0xF0 <= b0 < 0xF8 && |b| >= 4 && IsContinuation(b[1]) && IsContinuation(b[2])
         && IsContinuation(b[3]) then
      var n := (b0 - 0xF0) * 262144 + (b[1] as int - 0x80) * 4096
               + (b[2] as int - 0x80) * 64 + (b[3] as int - 0x80);
      if 0x10000 <= n && IsScalar(n) then (n as char, 4) else (Replacement, 1)
    else (Replacement, 1)
  }

  /** `new String(b)`. */
  function Decode(b: seq<byte>): (r: string)
    ensures |r| <= |b|
    decreases |b|
  {
    if b == [] then []
    else
      var (c, k) := DecodeFirst(b);
      [c] + Decode(b[k..])
  }

  lemma DecodeTwo(n: int, rest: seq<byte>)
    requires 0x80 <= n < 0x800
    ensures var e := [(0xC0 + n / 64) as byte, (0x80 + n % 64) as byte] + rest;
            DecodeFirst(e) == (n as char, 2)
  {
    var e := [(0xC0 + n / 64) as byte, (0x80 + n % 64) as byte] + rest;
    assert e[0] as int - 0xC0 == n / 64 && e[1] as int - 0x80 == n % 64;
  }

  lemma DecodeThree(n: int, rest: seq<byte>)
    requires 0x800 <= n < 0x10000 && IsScalar(n)
    ensures var e := [(0xE0 + n / 4096) as byte, (0x80 + (n / 64) % 64) as byte, (0x80 + n % 64) as byte] + rest;
            DecodeFirst(e) == (n as char, 3)
  {
    var e := [(0xE0 + n / 4096) as byte, (0x80 + (n / 64) % 64) as byte, (0x80 + n % 64) as byte] + rest;
    assert e[0] as int - 0xE0 == n / 4096;
    assert e[1] as int - 0x80 == (n / 64) % 64;
    assert e[2] as int - 0x80 == n % 64;
    assert (n / 4096) * 4096 + ((n / 64) % 64) * 64 + n % 64 == n;
  }

  lemma DecodeFour(n: int, rest: seq<byte>)
    requires 0x10000 <= n < 0x110000
    ensures var e := [(0xF0 + n / 262144) as byte, (0x80 + (n / 4096) % 64) as byte,
                      (0x80 + (n / 64) % 64) as byte, (0x80 + n % 64) as byte] + rest;
            DecodeFirst(e) == (n as char, 4)
  {
    var e := [(0xF0 + n / 262144) as byte, (0x80 + (n / 4096) % 64) as byte,
              (0x80 + (n / 64) % 64) as byte, (0x80 + n % 64) as byte] + rest;
    // the four base-64 digits of `n`, one division at a time
    var q1 := n / 64;
    assert n == 64 * q1 + n % 64;
    var q2 := q1 / 64;
    assert q1 == 64 * q2 + q1 % 64;
    assert q2 == n / 4096;
    var q3 := q2 / 64;
    assert q2 == 64 * q3 + q2 % 64;
    assert q3 == n / 262144;
    assert e[0] as int - 0xF0 == q3;
    assert e[1] as int - 0x80 == q2 % 64;
    assert e[2] as int - 0x80 == q1 % 64;
    assert e[3] as int - 0x80 == n % 64;
    assert q3 * 262144 + (q2 % 64) * 4096 + (q1 % 64) * 64 + n % 64 == n;
  }

  /** Decoding the encoding of one character reads exactly that character back. */
  lemma DecodeFirstEncodeChar(c: char, rest: seq<byte>)
    ensures DecodeFirst(EncodeChar(c) + rest) == (c, |EncodeChar(c)|)
  {
    var n := c as int;
    if n < 0x80 {
    } else if n < 0x800 {
      DecodeTwo(n, rest);
    } else if n < 0x10000 {
      DecodeThree(n, rest);
    } else {
      DecodeFour(n, rest);
    }
  }

  /** The round trip: `new String(s.getBytes())` equals `s`. */
  lemma {:induction false} DecodeEncode(s: string)
    ensures Decode(Encode(s)) == s
  {
    if s != [] {
      var e := EncodeChar(s[0]);
      DecodeFirstEncodeChar(s[0], Encode(s[1..]));
      assert (e + Encode(s[1..]))[|e|..] == Encode(s[1..]);
      DecodeEncode(s[1..]);
    }
  }

  /** Encoding is injective: distinct strings have distinct bodies. */
  lemma EncodeInjective(s: string, t: string)
    requires Encode(s) == Encode(t)
    ensures s == t
  {
    DecodeEncode(s);
    DecodeEncode(t);
  }
}
