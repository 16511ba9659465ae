/**
 * UTF-8 (RFC 3629, section 3): the octets that Node's `Buffer.from(s)` makes of
 * a string before Base64-encoding it. Dafny characters are Unicode scalar
 * values, so every character has an encoding of one to four octets.
 *
 * The decoder is the partner definition: it reads a lead octet, takes as many
 * continuation octets as the lead announces, and inverts the encoder.
 */
module Utf8 {
  import opened Wrappers
  import Base64

  type byte = Base64.byte

  /** The encoding of one character (the table in section 3 of RFC 3629). */
  function EncodeChar(c: char): (r: seq<byte>)
    ensures 1 <= |r| <= 4
    ensures |r| == 1 <==> (c as int) < 0x80
  {
    var cp := c as int;
    if cp < 0x80 then [cp]
    else if cp < 0x800 then [0xC0 + cp / 64, 0x80 + cp % 64]
    else if cp < 0x10000 then [0xE0 + cp / 4096, 0x80 + (cp / 64) % 64, 0x80 + cp % 64]
    else [0xF0 + cp / 262144, 0x80 + (cp / 4096) % 64, 0x80 + (cp / 64) % 64, 0x80 + cp % 64]
  }

  /** The encoding of a string: its characters' encodings in order. */
  function Encode(s: string): (r: seq<byte>)
    ensures |s| <= |r| <= 4 * |s|
    decreases |s|
  {
    if s == "" then [] else EncodeChar(s[0]) + Encode(s[1..])
  }

  /** A string of ASCII characters only. */
  predicate IsAscii(s: string)
  {
    forall i :: 0 <= i < |s| ==> (s[i] as int) < 0x80
  }

  /** ASCII strings are closed under concatenation. */
  lemma AsciiAppend(a: string, b: string)
    requires IsAscii(a) && IsAscii(b)
    ensures IsAscii(a + b)
  {
    forall i | 0 <= i < |a + b| ensures ((a + b)[i] as int) < 0x80 {
      if i >= |a| {
        assert (a + b)[i] == b[i - |a|];
      }
    }
  }

  /** UTF-8 encodes an ASCII string as its code points, octet for octet. */
  lemma {:induction false} AsciiEncoding(s: string)
    requires IsAscii(s)
    ensures |Encode(s)| == |s|
    ensures forall i :: 0 <= i < |s| ==> Encode(s)[i] == s[i] as int
    decreases |s|
  {
    if s != "" {
      assert IsAscii(s[1..]) by {
        forall i | 0 <= i < |s[1..]| ensures (s[1..][i] as int) < 0x80 {
          assert s[1..][i] == s[i + 1];
        }
      }
      AsciiEncoding(s[1..]);
    }
  }

  /** The encoding of a concatenation is the concatenation of the encodings. */
  lemma {:induction false} EncodeAppend(a: string, b: string)
    ensures Encode(a + b) == Encode(a) + Encode(b)
    decreases |a|
  {
    if a == "" {
      assert a + b == b;
    } else {
      assert (a + b)[0] == a[0] && (a + b)[1..] == a[1..] + b;
      EncodeAppend(a[1..], b);
    }
  }

  predicate IsContinuation(b: byte)
  {
    0x80 <= b < 0xC0
  }

  /** How many octets a lead octet announces; 0 for an octet that cannot lead. */
  function SequenceLength(lead: byte): (n: nat)
    ensures n <= 4
  {
    if lead < 0x80 then 1
    else if 0xC2 <= lead < 0xE0 then 2
    else if 0xE0 <= lead < 0xF0 then 3
    else if 0xF0 <= lead < 0xF5 then 4
    else 0
  }

  /** The code point of a well-formed octet group, or None (overlong forms, surrogates and values past U+10FFFF are refused). */
  function DecodeChar(g: seq<byte>): (r: Option<char>)
    requires 1 <= |g| <= 4 && |g| == SequenceLength(g[0])
  {
    if |g| == 1 then Some(g[0] as char)
    else if !(forall i :: 1 <= i < |g| ==> IsContinuation(g[i])) then None
    else
      var cp :=
        if |g| == 2 then (g[0] as int - 0xC0) * 64 + (g[1] as int - 0x80)
        else if |g| == 3 then (g[0] as int - 0xE0) * 4096 + (g[1] as int - 0x80) * 64 + (g[2] as int - 0x80)
        else (g[0] as int - 0xF0) * 262144 + (g[1] as int - 0x80) * 4096 + (g[2] as int - 0x80) * 64 + (g[3] as int - 0x80);
      var least: int := if |g| == 2 then 0x80 else if |g| == 3 then 0x800 else 0x10000;
      if least <= cp <= 0x10FFFF && !(0xD800 <= cp < 0xE000) then Some(cp as char) else None
  }

  /** The decoder: one character per announced group, None on ill-formed input. */
  function Decode(b: seq<byte>): (r: Option<string>)
    decreases |b|
  {
    if b == [] then Some("")
    else
      var n := SequenceLength(b[0]);
      if n == 0 || |b| < n then None
      else
        match DecodeChar(b[..n])
        case None => None
        case Some(c) =>
          match Decode(b[n..])
          case None => None
          case Some(rest) => Some([c] + rest)
  }

  lemma EncodeTwo(c: char)
    requires 0x80 <= c as int < 0x800
    ensures SequenceLength(EncodeChar(c)[0]) == 2
    ensures DecodeChar(EncodeChar(c)) == Some(c)
  {
    var cp := c as int;
    var q, r := cp / 64, cp % 64;
    assert cp == q * 64 + r;
    assert 2 <= q < 32;
    assert EncodeChar(c) == [0xC0 + q, 0x80 + r];
  }

  lemma EncodeThree(c: char)
    requires 0x800 <= c as int < 0x10000
    ensures SequenceLength(EncodeChar(c)[0]) == 3
    ensures DecodeChar(EncodeChar(c)) == Some(c)
  {
    var cp := c as int;
    var q, m, r := cp / 4096, (cp / 64) % 64, cp % 64;
    assert cp / 64 == q * 64 + m;
    assert cp == (cp / 64) * 64 + r;
    assert cp == q * 4096 + m * 64 + r;
    assert q < 16;
    assert EncodeChar(c) == [0xE0 + q, 0x80 + m, 0x80 + r];
  }

  lemma EncodeFour(c: char)
    requires 0x10000 <= c as int
    ensures SequenceLength(EncodeChar(c)[0]) == 4
    ensures DecodeChar(EncodeChar(c)) == Some(c)
  {
    var cp := c as int;
    var q, m1, m2, r := cp / 262144, (cp / 4096) % 64, (cp / 64) % 64, cp % 64;
    assert cp / 4096 == q * 64 + m1;
    assert cp / 64 == (cp / 4096) * 64 + m2;
    assert cp == (cp / 64) * 64 + r;
    assert cp == q * 262144 + m1 * 4096 + m2 * 64 + r;
    assert cp <= 0x10FFFF;
    assert q < 5;
    assert EncodeChar(c) == [0xF0 + q, 0x80 + m1, 0x80 + m2, 0x80 + r];
  }

  /** The lead octet of a character's encoding announces that encoding's length, and the group decodes back. */
  lemma EncodeCharLead(c: char)
    ensures SequenceLength(EncodeChar(c)[0]) == |EncodeChar(c)|
    ensures DecodeChar(EncodeChar(c)) == Some(c)
  {
    var cp := c as int;
    if cp < 0x80 {
    } else if cp < 0x800 {
      EncodeTwo(c);
    } else if cp < 0x10000 {
      EncodeThree(c);
    } else {
      EncodeFour(c);
    }
  }

  /** Decoding undoes encoding. */
  lemma {:induction false} DecodeEncode(s: string)
    ensures Decode(Encode(s)) == Some(s)
    decreases |s|
  {
    if s != "" {
      var head := EncodeChar(s[0]);
      var b := head + Encode(s[1..]);
      EncodeCharLead(s[0]);
      assert b[0] == head[0] && b[..|head|] == head && b[|head|..] == Encode(s[1..]);
      DecodeEncode(s[1..]);
      assert [s[0]] + s[1..] == s;
    }
  }

  /** Distinct strings have distinct encodings. */
  lemma EncodeInjective(a: string, b: string)
    requires Encode(a) == Encode(b)
    ensures a == b
  {
    DecodeEncode(a);
    DecodeEncode(b);
  }
}
