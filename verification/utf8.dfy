/**
 * `str.encode('utf-8')`, which the control server applies to a page before
 * measuring it for `Content-Length`. A Dafny `char` is a Unicode scalar
 * value, so every string here is encodable (Python's strict encoder only
 * fails on lone surrogates, which a `char` cannot hold).
 */
module Utf8 {
  import opened Basics

  predicate IsContinuation(b: byte) {
    0x80 <= b < 0xC0
  }

  /** How many bytes UTF-8 spends on one scalar value. */
  function Width(c: char): (n: nat)
    ensures 1 <= n <= 4
  {
    var cp := c as int;
    if cp < 0x80 then 1
    else if cp < 0x800 then 2
    else if cp < 0x1_0000 then 3
    else 4
  }

  /** The length of the encoding, summed character by character. */
  function EncodedLength(s: string): nat {
    if |s| == 0 then 0 else Width(s[0]) + EncodedLength(s[1..])
  }

  function EncodeChar(c: char): (b: seq<byte>)
    ensures |b| == Width(c)
    ensures |b| == 1 <==> b[0] < 0x80
    ensures |b| == 2 <==> 0xC0 <= b[0] < 0xE0
    ensures |b| == 3 <==> 0xE0 <= b[0] < 0xF0
    ensures |b| == 4 <==> 0xF0 <= b[0] < 0xF8
    ensures forall i :: 1 <= i < |b| ==> IsContinuation(b[i])
  {
    var cp := c as int;
    if cp < 0x80 then [cp]
    else if cp < 0x800 then [0xC0 + cp / 64, 0x80 + cp % 64]
    else if cp < 0x1_0000 then [0xE0 + cp / 4096, 0x80 + (cp / 64) % 64, 0x80 + cp % 64]
    else [0xF0 + cp / 262144, 0x80 + (cp / 4096) % 64, 0x80 + (cp / 64) % 64, 0x80 + cp % 64]
  }

  function Encode(s: string): (b: seq<byte>)
    ensures |b| == EncodedLength(s)
    ensures |s| == 0 <==> |b| == 0
  {
    if |s| == 0 then [] else EncodeChar(s[0]) + Encode(s[1..])
  }

  predicate IsScalarValue(cp: int) {
    (0 <= cp < 0xD800) || (0xE000 <= cp < 0x11_0000)
  }

  /**
   * The first character of `b` and the number of bytes it occupies, or None
   * when `b` does not start with a shortest-form encoding of a scalar value.
   */
  function DecodeChar(b: seq<byte>): (r: Option<(char, nat)>)
    ensures r.Some? ==> 1 <= r.value.1 <= |b| && r.value.1 == Width(r.value.0)
  {
    if |b| == 0 then None
    else if b[0] < 0x80 then Some((b[0] as char, 1))
    else if 0xC0 <= b[0] < 0xE0 && |b| >= 2 && IsContinuation(b[1]) then
      var cp := (b[0] as int - 0xC0) * 64 + (b[1] as int - 0x80);
      if 0x80 <= cp then Some((cp as char, 2)) else None
    else if 0xE0 <= b[0] < 0xF0 && |b| >= 3 && IsContinuation(b[1]) && IsContinuation(b[2]) then
      var cp := (b[0] as int - 0xE0) * 4096 + (b[1] as int - 0x80) * 64 + (b[2] as int - 0x80);
      if 0x800 <= cp && IsScalarValue(cp) then Some((cp as char, 3)) else None
    else if 0xF0 <= b[0] < 0xF8 && |b| >= 4
            && IsContinuation(b[1]) && IsContinuation(b[2]) && IsContinuation(b[3]) then
      var cp := (b[0] as int - 0xF0) * 262144 + (b[1] as int - 0x80) * 4096
              + (b[2] as int - 0x80) * 64 + (b[3] as int - 0x80);
      if 0x1_0000 <= cp < 0x11_0000 then Some((cp as char, 4)) else None
    else None
  }

  function Decode(b: seq<byte>): Option<string>
    decreases |b|
  {
    if |b| == 0 then Some([])
    else match DecodeChar(b)
      case None => None
      case Some((c, n)) =>
        match Decode(b[n..])
        case None => None
        case Some(rest) => Some([c] + rest)
  }

  /** Decoding undoes the encoding of a single character, whatever follows it. */
  lemma DecodeEncodeChar(c: char, rest: seq<byte>)
    ensures DecodeChar(EncodeChar(c) + rest) == Some((c, Width(c)))
  {
    var cp := c as int;
    var e := EncodeChar(c);
    var b := e + rest;
    assert b[..|e|] == e;
    if cp < 0x80 {
    } else if cp < 0x800 {
      TwoByteDigits(cp);
      assert b[0] == e[0] && b[1] == e[1];
    } else if cp < 0x1_0000 {
      ThreeByteDigits(cp);
      assert b[0] == e[0] && b[1] == e[1] && b[2] == e[2];
    } else {
      FourByteDigits(cp);
      assert b[0] == e[0] && b[1] == e[1] && b[2] == e[2] && b[3] == e[3];
    }
  }

  lemma TwoByteDigits(cp: int)
    requires 0x80 <= cp < 0x800
    ensures (cp / 64) * 64 + cp % 64 == cp
  {
  }

  lemma ThreeByteDigits(cp: int)
    requires 0x800 <= cp < 0x1_0000
    ensures (cp / 4096) * 4096 + ((cp / 64) % 64) * 64 + cp % 64 == cp
  {
    var q := cp / 64;
    assert q * 64 + cp % 64 == cp;
    assert (q / 64) * 64 + q % 64 == q;
    assert q / 64 == cp / 4096;
  }

  lemma FourByteDigits(cp: int)
    requires 0x1_0000 <= cp < 0x11_0000
    ensures (cp / 262144) * 262144 + ((cp / 4096) % 64) * 4096 + ((cp / 64) % 64) * 64 + cp % 64 == cp
  {
    var q := cp / 64;
    var p := q / 64;
    assert q * 64 + cp % 64 == cp;
    assert p * 64 + q % 64 == q;
    assert (p / 64) * 64 + p % 64 == p;
    assert p == cp / 4096;
    assert p / 64 == cp / 262144;
  }

  /** The encoder is injective: decoding its output gives the original string. */
  lemma {:induction false} DecodeEncode(s: string)
    ensures Decode(Encode(s)) == Some(s)
  {
    if |s| > 0 {
      DecodeEncodeChar(s[0], Encode(s[1..]));
      var b := Encode(s);
      assert b[Width(s[0])..] == Encode(s[1..]);
      DecodeEncode(s[1..]);
      assert [s[0]] + s[1..] == s;
    }
  }

  /** Text made only of ASCII characters takes one byte per character. */
  lemma {:induction false} AsciiLength(s: string)
    requires forall i :: 0 <= i < |s| ==> s[i] as int < 0x80
    ensures |Encode(s)| == |s|
  {
    if |s| > 0 {
      AsciiLength(s[1..]);
    }
  }
}
