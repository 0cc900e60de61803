/**
 * UTF-8 as defined in RFC 3629: the encoding Python's `str.encode('utf-8')`
 * performs, and the strict decoding `bytes.decode('utf-8')` performs (overlong
 * forms, surrogate code points and code points above U+10FFFF are rejected).
 * A Dafny `char` is a Unicode scalar value, so every string is encodable.
 */
module Utf8 {
  import opened Wrappers
  import opened Bytes

  /** A continuation byte 10xxxxxx. */
  predicate IsCont(b: byte) { 0x80 <= b < 0xC0 }

  /** The one to four bytes of a single character. */
  function EncodeChar(c: char): (r: seq<byte>)
    ensures 1 <= |r| <= 4
    ensures (|r| == 1) == (c as int < 0x80)
    ensures |r| == 1 ==> r[0] == c as int
  {
    var cp := c as int;
    if cp < 0x80 then [cp]
    else if cp < 0x800 then [0xC0 + cp / 64, 0x80 + cp % 64]
    else if cp < 0x1_0000 then [0xE0 + cp / 4096, 0x80 + (cp / 64) % 64, 0x80 + cp % 64]
    else [0xF0 + cp / 262144, 0x80 + (cp / 4096) % 64, 0x80 + (cp / 64) % 64, 0x80 + cp % 64]
  }

  /** The encoding of a string: its characters' encodings, concatenated. */
  function Encode(s: string): seq<byte>
  {
    if s == [] then [] else EncodeChar(s[0]) + Encode(s[1..])
  }

  /** The code point carried by a two-, three- or four-byte sequence. */
  function Cp2(b0: int, b1: int): int { (b0 - 0xC0) * 64 + (b1 - 0x80) }
  function Cp3(b0: int, b1: int, b2: int): int { (b0 - 0xE0) * 4096 + (b1 - 0x80) * 64 + (b2 - 0x80) }
  function Cp4(b0: int, b1: int, b2: int, b3: int): int
  {
    (b0 - 0xF0) * 262144 + (b1 - 0x80) * 4096 + (b2 - 0x80) * 64 + (b3 - 0x80)
  }

  /** The bounds Unicode's table of well-formed byte sequences puts on the second byte. */
  function Lo3(b0: int): int { if b0 == 0xE0 then 0xA0 else 0x80 }
  function Hi3(b0: int): int { if b0 == 0xED then 0x9F else 0xBF }
  function Lo4(b0: int): int { if b0 == 0xF0 then 0x90 else 0x80 }
  function Hi4(b0: int): int { if b0 == 0xF4 then 0x8F else 0xBF }

  /** Strict decoding of the first character of `b`, with the number of bytes it used. */
  function DecodeFirst(b: seq<byte>): (r: Option<(char, nat)>)
    requires |b| > 0
    ensures r.Some? ==> 1 <= r.value.1 <= |b| && r.value.1 <= 4
  {
    var b0 := b[0] as int;
    if b0 < 0x80 then
      Some((b0 as char, 1))
    else if 0xC2 <= b0 <= 0xDF then
      if |b| >= 2 && IsCont(b[1]) then Some((Cp2(b0, b[1]) as char, 2)) else None
    else if 0xE0 <= b0 <= 0xEF then
      if |b| >= 3 && Lo3(b0) <= b[1] <= Hi3(b0) && IsCont(b[2]) then
        Some((Cp3(b0, b[1], b[2]) as char, 3))
      else None
    else if 0xF0 <= b0 <= 0xF4 then
      if |b| >= 4 && Lo4(b0) <= b[1] <= Hi4(b0) && IsCont(b[2]) && IsCont(b[3]) then
        Some((Cp4(b0, b[1], b[2], b[3]) as char, 4))
      else None
    else
      None
  }

  /** Strict decoding of a whole byte string; None where Python raises UnicodeDecodeError. */
  function Decode(b: seq<byte>): Option<string>
    decreases |b|
  {
    if b == [] then Some([])
    else match DecodeFirst(b)
      case None => None
      case Some((c, n)) =>
        match Decode(b[n..])
        case None => None
        case Some(rest) => Some([c] + rest)
  }

  lemma Split2(cp: int)
    requires 0x80 <= cp < 0x800
    ensures 0xC2 <= 0xC0 + cp / 64 <= 0xDF && Cp2(0xC0 + cp / 64, 0x80 + cp % 64) == cp
  {}

  lemma Split3(cp: int)
    requires 0x800 <= cp < 0x1_0000 && !(0xD800 <= cp < 0xE000)
    ensures var b0, b1 := 0xE0 + cp / 4096, 0x80 + (cp / 64) % 64;
      Lo3(b0) <= b1 <= Hi3(b0) && Cp3(b0, b1, 0x80 + cp % 64) == cp
  {
    var q := cp / 64;
    assert cp == q * 64 + cp % 64;
    assert q == (q / 64) * 64 + q % 64;
    assert cp / 4096 == q / 64;
  }

  lemma Split4(cp: int)
    requires 0x1_0000 <= cp <= 0x10_FFFF
    ensures var b0, b1 := 0xF0 + cp / 262144, 0x80 + (cp / 4096) % 64;
      0xF0 <= b0 <= 0xF4 && Lo4(b0) <= b1 <= Hi4(b0)
      && Cp4(b0, b1, 0x80 + (cp / 64) % 64, 0x80 + cp % 64) == cp
  {
    var q := cp / 64;
    var p := q / 64;
    assert cp == q * 64 + cp % 64;
    assert q == p * 64 + q % 64;
    assert p == (p / 64) * 64 + p % 64;
    assert cp / 4096 == p;
    assert cp / 262144 == p / 64;
  }

  lemma DecodeFirstEncodeChar(c: char, rest: seq<byte>)
    ensures DecodeFirst(EncodeChar(c) + rest) == Some((c, |EncodeChar(c)|))
  {
    var cp := c as int;
    if cp < 0x80 {
    } else if cp < 0x800 {
      DecodeFirstTwo(c, rest);
    } else if cp < 0x1_0000 {
      DecodeFirstThree(c, rest);
    } else {
      DecodeFirstFour(c, rest);
    }
  }

  lemma DecodeFirstTwo(c: char, rest: seq<byte>)
    requires 0x80 <= c as int < 0x800
    ensures DecodeFirst(EncodeChar(c) + rest) == Some((c, 2))
  {
    var cp := c as int;
    var b := EncodeChar(c) + rest;
    Split2(cp);
    assert b[0] == 0xC0 + cp / 64 && b[1] == 0x80 + cp % 64;
  }

  lemma DecodeFirstThree(c: char, rest: seq<byte>)
    requires 0x800 <= c as int < 0x1_0000
    ensures DecodeFirst(EncodeChar(c) + rest) == Some((c, 3))
  {
    var cp := c as int;
    var b := EncodeChar(c) + rest;
    Split3(cp);
    assert b[0] == 0xE0 + cp / 4096 && b[1] == 0x80 + (cp / 64) % 64 && b[2] == 0x80 + cp % 64;
  }

  lemma DecodeFirstFour(c: char, rest: seq<byte>)
    requires 0x1_0000 <= c as int
    ensures DecodeFirst(EncodeChar(c) + rest) == Some((c, 4))
  {
    var cp := c as int;
    var b := EncodeChar(c) + rest;
    Split4(cp);
    assert b[0] == 0xF0 + cp / 262144 && b[1] == 0x80 + (cp / 4096) % 64;
    assert b[2] == 0x80 + (cp / 64) % 64 && b[3] == 0x80 + cp % 64;
  }

  lemma Join2(b0: int, b1: int)
    requires 0xC2 <= b0 <= 0xDF && 0x80 <= b1 < 0xC0
    ensures var cp := Cp2(b0, b1); 0x80 <= cp < 0x800 && cp / 64 == b0 - 0xC0 && cp % 64 == b1 - 0x80
  {}

  lemma Join3(b0: int, b1: int, b2: int)
    requires 0xE0 <= b0 <= 0xEF && Lo3(b0) <= b1 <= Hi3(b0) && 0x80 <= b2 < 0xC0
    ensures var cp := Cp3(b0, b1, b2);
      0x800 <= cp < 0x1_0000 && cp / 4096 == b0 - 0xE0 && (cp / 64) % 64 == b1 - 0x80 && cp % 64 == b2 - 0x80
  {
    var cp := Cp3(b0, b1, b2);
    assert cp == ((b0 - 0xE0) * 64 + (b1 - 0x80)) * 64 + (b2 - 0x80);
    assert cp / 64 == (b0 - 0xE0) * 64 + (b1 - 0x80);
  }

  lemma Join4(b0: int, b1: int, b2: int, b3: int)
    requires 0xF0 <= b0 <= 0xF4 && Lo4(b0) <= b1 <= Hi4(b0) && 0x80 <= b2 < 0xC0 && 0x80 <= b3 < 0xC0
    ensures var cp := Cp4(b0, b1, b2, b3);
      0x1_0000 <= cp <= 0x10_FFFF && cp / 262144 == b0 - 0xF0 && (cp / 4096) % 64 == b1 - 0x80
      && (cp / 64) % 64 == b2 - 0x80 && cp % 64 == b3 - 0x80
  {
    var cp := Cp4(b0, b1, b2, b3);
    var p := (b0 - 0xF0) * 64 + (b1 - 0x80);
    var q := p * 64 + (b2 - 0x80);
    assert cp == q * 64 + (b3 - 0x80);
    assert cp / 64 == q;
    assert cp / 4096 == q / 64 == p;
    assert cp / 262144 == p / 64;
  }

  lemma EncodeCharOfDecodeFirst(b: seq<byte>)
    requires |b| > 0 && DecodeFirst(b).Some?
    ensures var (c, n) := DecodeFirst(b).value; b[..n] == EncodeChar(c)
  {
    var b0 := b[0] as int;
    if b0 < 0x80 {
    } else if b0 <= 0xDF {
      Join2(b0, b[1]);
    } else if b0 <= 0xEF {
      Join3(b0, b[1], b[2]);
    } else {
      Join4(b0, b[1], b[2], b[3]);
    }
  }

  lemma {:induction false} EncodeAppend(s: string, t: string)
    ensures Encode(s + t) == Encode(s) + Encode(t)
  {
    if s == [] {
      assert s + t == t;
    } else {
      assert (s + t)[1..] == s[1..] + t;
      EncodeAppend(s[1..], t);
    }
  }

  /** Decoding inverts encoding: every string survives the round trip, the empty one included. */
  lemma {:induction false} DecodeEncode(s: string)
    ensures Decode(Encode(s)) == Some(s)
  {
    if s != [] {
      var e := EncodeChar(s[0]);
      DecodeFirstEncodeChar(s[0], Encode(s[1..]));
      assert (e + Encode(s[1..]))[|e|..] == Encode(s[1..]);
      DecodeEncode(s[1..]);
      assert [s[0]] + s[1..] == s;
    }
  }

  lemma Rejoin(b: seq<byte>, n: nat)
    requires n <= |b|
    ensures b[..n] + b[n..] == b
  {
  }

  /** Encoding inverts decoding: decoding is injective on the bytes it accepts. */
  lemma {:induction false} EncodeDecode(b: seq<byte>)
    requires Decode(b).Some?
    ensures Encode(Decode(b).value) == b
    decreases |b|
  {
    if b != [] {
      var (c, n) := DecodeFirst(b).value;
      EncodeCharOfDecodeFirst(b);
      EncodeDecode(b[n..]);
      var rest := Decode(b[n..]).value;
      var s := [c] + rest;
      assert Decode(b).value == s;
      assert s[0] == c && s[1..] == rest;
      assert Encode(s) == EncodeChar(c) + Encode(rest);
      Rejoin(b, n);
    }
  }

  /** A character is written as at least one byte, so a decoded string is no longer than its bytes. */
  lemma {:induction false} EncodeLength(s: string)
    ensures |s| <= |Encode(s)| <= 4 * |s|
  {
    if s != [] { EncodeLength(s[1..]); }
  }

  /** Characters below U+0080 are written as themselves, one byte each. */
  predicate IsAscii(s: string) { forall i :: 0 <= i < |s| ==> s[i] as int < 0x80 }

  lemma {:induction false} EncodeAscii(s: string)
    requires IsAscii(s)
    ensures |Encode(s)| == |s|
    ensures forall i :: 0 <= i < |s| ==> Encode(s)[i] == s[i] as int
  {
    if s != [] {
      assert IsAscii(s[1..]) by {
        forall i | 0 <= i < |s[1..]| ensures s[1..][i] as int < 0x80 { assert s[1..][i] == s[i + 1]; }
      }
      EncodeAscii(s[1..]);
    }
  }
}
