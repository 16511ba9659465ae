/**
 * Base64 as defined in section 4 of RFC 4648: the 64-character alphabet
 * A-Z a-z 0-9 + /, each group of three octets written as four characters,
 * and a final group of one or two octets padded with "=" (section 4, cases
 * (2) and (3)). This is what Node's `Buffer.toString('base64')` produces.
 *
 * The decoder is the partner definition: it accepts only canonical encodings
 * (section 3.5: pad bits must be zero) and inverts the encoder.
 */
module Base64 {
  import opened Wrappers

  type byte = b: int | 0 <= b < 256

  /** A value that one Base64 character carries. */
  type sextet = v: int | 0 <= v < 64

  /** Table 1 of RFC 4648: the character for a 6-bit value. */
  function CharOf(v: sextet): (c: char)
    ensures IsBase64Char(c)
  {
    if v < 26 then (('A' as int) + v) as char
    else if v < 52 then (('a' as int) + (v - 26)) as char
    else if v < 62 then (('0' as int) + (v - 52)) as char
    else if v == 62 then '+'
    else '/'
  }

  predicate IsBase64Char(c: char)
  {
    ('A' <= c <= 'Z') || ('a' <= c <= 'z') || ('0' <= c <= '9') || c == '+' || c == '/'
  }

  /** The inverse of Table 1. */
  function ValueOf(c: char): (v: sextet)
    requires IsBase64Char(c)
  {
    if 'A' <= c <= 'Z' then (c as int) - ('A' as int)
    else if 'a' <= c <= 'z' then (c as int) - ('a' as int) + 26
    else if '0' <= c <= '9' then (c as int) - ('0' as int) + 52
    else if c == '+' then 62
    else 63
  }

  /** Table 1 read both ways: every value has one character, and every alphabet character one value. */
  lemma CharValueInverse(v: sextet, c: char)
    ensures ValueOf(CharOf(v)) == v
    ensures IsBase64Char(c) ==> CharOf(ValueOf(c)) == c
  {
  }

  /** A character that may occur in an encoding: the alphabet or the pad. */
  predicate IsOutputChar(c: char)
  {
    IsBase64Char(c) || c == '='
  }

  /** The four characters for a full group of three octets. */
  function EncodeGroup(b0: byte, b1: byte, b2: byte): (r: string)
  {
    [CharOf(b0 / 4), CharOf((b0 % 4) * 16 + b1 / 16), CharOf((b1 % 16) * 4 + b2 / 64), CharOf(b2 % 64)]
  }

  /** The encoding of an octet sequence, group by group, with a padded final group. */
  function Encode(b: seq<byte>): (r: string)
    ensures |r| == 4 * ((|b| + 2) / 3)
    decreases |b|
  {
    if |b| == 0 then ""
    else if |b| == 1 then [CharOf(b[0] / 4), CharOf((b[0] % 4) * 16), '=', '=']
    else if |b| == 2 then [CharOf(b[0] / 4), CharOf((b[0] % 4) * 16 + b[1] / 16), CharOf((b[1] % 16) * 4), '=']
    else EncodeGroup(b[0], b[1], b[2]) + Encode(b[3..])
  }

  /** Decoding one four-character group into one to three octets; None when it is not canonical. */
  function DecodeGroup(q: string, last: bool): (r: Option<seq<byte>>)
    requires |q| == 4
  {
    if !(IsBase64Char(q[0]) && IsBase64Char(q[1])) then None
    else
      var v0, v1 := ValueOf(q[0]), ValueOf(q[1]);
      if last && q[2] == '=' && q[3] == '=' then
        if v1 % 16 == 0 then Some([v0 * 4 + v1 / 16]) else None
      else if !IsBase64Char(q[2]) then None
      else
        var v2 := ValueOf(q[2]);
        if last && q[3] == '=' then
          if v2 % 4 == 0 then Some([v0 * 4 + v1 / 16, (v1 % 16) * 16 + v2 / 4]) else None
        else if !IsBase64Char(q[3]) then None
        else
          var v3 := ValueOf(q[3]);
          Some([v0 * 4 + v1 / 16, (v1 % 16) * 16 + v2 / 4, (v2 % 4) * 64 + v3])
  }

  /** The strict decoder: length a multiple of four, padding only in the last group, zero pad bits. */
  function Decode(s: string): (r: Option<seq<byte>>)
    decreases |s|
  {
    if |s| == 0 then Some([])
    else if |s| % 4 != 0 then None
    else
      match DecodeGroup(s[..4], |s| == 4)
      case None => None
      case Some(g) =>
        match Decode(s[4..])
        case None => None
        case Some(rest) => Some(g + rest)
  }

  /** The values of the four characters of a group, and how each octet is rebuilt from them. */
  lemma GroupArithmetic(b0: byte, b1: byte, b2: byte)
    ensures ((b0 % 4) * 16 + b1 / 16) / 16 == b0 % 4 && ((b0 % 4) * 16 + b1 / 16) % 16 == b1 / 16
    ensures ((b1 % 16) * 4 + b2 / 64) / 4 == b1 % 16 && ((b1 % 16) * 4 + b2 / 64) % 4 == b2 / 64
    ensures (b0 / 4) * 4 + b0 % 4 == b0
    ensures (b1 / 16) * 16 + b1 % 16 == b1
    ensures (b2 / 64) * 64 + b2 % 64 == b2
  {
  }

  /** A group of four alphabet characters decodes to the three octets its sextets spell. */
  lemma DecodeUnpadded(q: string, last: bool)
    requires |q| == 4 && IsBase64Char(q[0]) && IsBase64Char(q[1]) && IsBase64Char(q[2]) && IsBase64Char(q[3])
    ensures var v0, v1, v2, v3 := ValueOf(q[0]), ValueOf(q[1]), ValueOf(q[2]), ValueOf(q[3]);
      DecodeGroup(q, last) == Some([v0 * 4 + v1 / 16, (v1 % 16) * 16 + v2 / 4, (v2 % 4) * 64 + v3])
  {
    assert q[2] != '=' && q[3] != '=';
  }

  lemma EncodeGroupDecodes(b0: byte, b1: byte, b2: byte, last: bool)
    ensures DecodeGroup(EncodeGroup(b0, b1, b2), last) == Some([b0, b1, b2])
  {
    var q := EncodeGroup(b0, b1, b2);
    var v0, v1, v2, v3 := b0 / 4, (b0 % 4) * 16 + b1 / 16, (b1 % 16) * 4 + b2 / 64, b2 % 64;
    CharValueInverse(v0, q[0]);
    CharValueInverse(v1, q[1]);
    CharValueInverse(v2, q[2]);
    CharValueInverse(v3, q[3]);
    GroupArithmetic(b0, b1, b2);
    DecodeUnpadded(q, last);
    assert v0 * 4 + v1 / 16 == b0;
    assert (v1 % 16) * 16 + v2 / 4 == b1;
    assert (v2 % 4) * 64 + v3 == b2;
  }

  /** A final group with two pad characters decodes to one octet when its pad bits are zero. */
  lemma DecodePaddedTwice(q: string)
    requires |q| == 4 && IsBase64Char(q[0]) && IsBase64Char(q[1]) && q[2] == '=' && q[3] == '='
    ensures var v0, v1 := ValueOf(q[0]), ValueOf(q[1]);
      DecodeGroup(q, true) == if v1 % 16 == 0 then Some([v0 * 4 + v1 / 16]) else None
  {
  }

  /** A final group with one pad character decodes to two octets when its pad bits are zero. */
  lemma DecodePaddedOnce(q: string)
    requires |q| == 4 && IsBase64Char(q[0]) && IsBase64Char(q[1]) && IsBase64Char(q[2]) && q[3] == '='
    ensures var v0, v1, v2 := ValueOf(q[0]), ValueOf(q[1]), ValueOf(q[2]);
      DecodeGroup(q, true) == if v2 % 4 == 0 then Some([v0 * 4 + v1 / 16, (v1 % 16) * 16 + v2 / 4]) else None
  {
    assert q[2] != '=';
  }

  lemma EncodeOneDecodes(b0: byte)
    ensures DecodeGroup(Encode([b0]), true) == Some([b0])
  {
    var v0, v1 := b0 / 4, (b0 % 4) * 16;
    var q := Encode([b0]);
    assert q == [CharOf(v0), CharOf(v1), '=', '='];
    CharValueInverse(v0, 'A');
    CharValueInverse(v1, 'A');
    DecodePaddedTwice(q);
    assert v1 % 16 == 0 && v0 * 4 + v1 / 16 == b0;
  }

  lemma EncodeTwoDecodes(b0: byte, b1: byte)
    ensures DecodeGroup(Encode([b0, b1]), true) == Some([b0, b1])
  {
    var v0, v1, v2 := b0 / 4, (b0 % 4) * 16 + b1 / 16, (b1 % 16) * 4;
    var q := Encode([b0, b1]);
    assert q == [CharOf(v0), CharOf(v1), CharOf(v2), '='];
    CharValueInverse(v0, 'A');
    CharValueInverse(v1, 'A');
    CharValueInverse(v2, 'A');
    DecodePaddedOnce(q);
    assert v2 % 4 == 0;
    assert v0 * 4 + v1 / 16 == b0;
    assert (v1 % 16) * 16 + v2 / 4 == b1;
  }

  /** One step of the decoder: a decodable first group followed by a decodable rest. */
  lemma DecodeStep(s: string, last: bool, g: seq<byte>, rest: seq<byte>)
    requires |s| >= 4 && |s| % 4 == 0 && last == (|s| == 4)
    requires DecodeGroup(s[..4], last) == Some(g)
    requires Decode(s[4..]) == Some(rest)
    ensures Decode(s) == Some(g + rest)
  {
  }

  /** A lone final group decodes as that group. */
  lemma DecodeLast(s: string, g: seq<byte>)
    requires |s| == 4 && DecodeGroup(s, true) == Some(g)
    ensures Decode(s) == Some(g)
  {
    assert s[..4] == s && s[4..] == "";
    DecodeStep(s, true, g, []);
    assert g + [] == g;
  }

  /** The round trip for a final group of one or two octets. */
  lemma DecodeEncodeShort(b: seq<byte>)
    requires 1 <= |b| <= 2
    ensures Decode(Encode(b)) == Some(b)
  {
    if |b| == 1 {
      assert b == [b[0]];
      EncodeOneDecodes(b[0]);
    } else {
      assert b == [b[0], b[1]];
      EncodeTwoDecodes(b[0], b[1]);
    }
    DecodeLast(Encode(b), b);
  }

  /** One more group keeps the length a multiple of four. */
  lemma GroupLength(n: nat)
    requires n % 4 == 0
    ensures (4 + n) % 4 == 0
  {
  }

  /** A decodable group in front of a decodable rest decodes to the two results joined. */
  lemma DecodePrefixGroup(head: string, rest: string, last: bool, g: seq<byte>, r: seq<byte>)
    requires |head| == 4 && |rest| % 4 == 0 && last == (|rest| == 0)
    requires DecodeGroup(head, last) == Some(g)
    requires Decode(rest) == Some(r)
    ensures Decode(head + rest) == Some(g + r)
  {
    var s := head + rest;
    assert s[..4] == head && s[4..] == rest;
    GroupLength(|rest|);
    DecodeStep(s, last, g, r);
  }

  /** A full group in front of a decodable rest decodes to its three octets in front of the rest. */
  lemma DecodeFullGroup(b0: byte, b1: byte, b2: byte, rest: string, r: seq<byte>)
    requires |rest| % 4 == 0
    requires Decode(rest) == Some(r)
    ensures Decode(EncodeGroup(b0, b1, b2) + rest) == Some([b0, b1, b2] + r)
  {
    EncodeGroupDecodes(b0, b1, b2, |rest| == 0);
    DecodePrefixGroup(EncodeGroup(b0, b1, b2), rest, |rest| == 0, [b0, b1, b2], r);
  }

  /** The encoder's first step on three or more octets. */
  lemma EncodeFirstGroup(b: seq<byte>)
    requires |b| >= 3
    ensures Encode(b) == EncodeGroup(b[0], b[1], b[2]) + Encode(b[3..])
  {
  }

  /** An encoding is whole groups of four characters. */
  lemma {:induction false} EncodedLength(b: seq<byte>)
    ensures |Encode(b)| % 4 == 0
    decreases |b|
  {
    if |b| >= 3 {
      EncodeFirstGroup(b);
      EncodedLength(b[3..]);
      GroupLength(|Encode(b[3..])|);
    }
  }

  /** Every character of an encoding is in the alphabet or is the pad. */
  lemma {:induction false} EncodeAlphabet(b: seq<byte>)
    ensures forall i :: 0 <= i < |Encode(b)| ==> IsOutputChar(Encode(b)[i])
    decreases |b|
  {
    if |b| >= 3 {
      var head, rest := EncodeGroup(b[0], b[1], b[2]), Encode(b[3..]);
      EncodeFirstGroup(b);
      EncodeAlphabet(b[3..]);
      forall i | 0 <= i < |head + rest| ensures IsOutputChar((head + rest)[i]) {
        if i >= 4 {
          assert (head + rest)[i] == rest[i - 4];
        }
      }
    }
  }

  /** Three or more octets are their first three followed by the rest. */
  lemma SplitFirstGroup(b: seq<byte>)
    requires |b| >= 3
    ensures [b[0], b[1], b[2]] + b[3..] == b
  {
    assert b[..3] == [b[0], b[1], b[2]];
    assert b[..3] + b[3..] == b;
  }

  /** Decoding undoes encoding. */
  lemma {:induction false} DecodeEncode(b: seq<byte>)
    ensures Decode(Encode(b)) == Some(b)
    decreases |b|
  {
    if |b| == 0 {
    } else if |b| <= 2 {
      DecodeEncodeShort(b);
    } else {
      var tail := b[3..];
      var rest := Encode(tail);
      EncodeFirstGroup(b);
      EncodedLength(tail);
      DecodeEncode(tail);
      DecodeFullGroup(b[0], b[1], b[2], rest, tail);
      SplitFirstGroup(b);
    }
  }

  /** A padded group of two characters decodes to one octet whose encoding it is. */
  lemma DecodeGroupOne(q: string, g: seq<byte>)
    requires |q| == 4 && q[2] == '=' && q[3] == '=' && DecodeGroup(q, true) == Some(g)
    ensures |g| == 1 && Encode(g) == q
  {
    var v0, v1: int := ValueOf(q[0]), ValueOf(q[1]);
    CharValueInverse(v0, q[0]);
    CharValueInverse(v1, q[1]);
    var c0 := v0 * 4 + v1 / 16;
    assert g == [c0];
    assert c0 / 4 == v0 && (c0 % 4) * 16 == v1;
  }

  /** A group padded once decodes to two octets whose encoding it is. */
  lemma DecodeGroupTwo(q: string, g: seq<byte>)
    requires |q| == 4 && q[2] != '=' && q[3] == '=' && DecodeGroup(q, true) == Some(g)
    ensures |g| == 2 && Encode(g) == q
  {
    var v0, v1, v2: int := ValueOf(q[0]), ValueOf(q[1]), ValueOf(q[2]);
    CharValueInverse(v0, q[0]);
    CharValueInverse(v1, q[1]);
    CharValueInverse(v2, q[2]);
    var c0, c1 := v0 * 4 + v1 / 16, (v1 % 16) * 16 + v2 / 4;
    assert g == [c0, c1];
    assert c0 / 4 == v0 && (c0 % 4) * 16 + c1 / 16 == v1 && (c1 % 16) * 4 == v2;
  }

  /** An unpadded group decodes to three octets whose encoding it is. */
  lemma DecodeGroupThree(q: string, last: bool, g: seq<byte>)
    requires |q| == 4 && q[3] != '=' && DecodeGroup(q, last) == Some(g)
    ensures |g| == 3 && EncodeGroup(g[0], g[1], g[2]) == q
  {
    var v0, v1, v2, v3: int := ValueOf(q[0]), ValueOf(q[1]), ValueOf(q[2]), ValueOf(q[3]);
    CharValueInverse(v0, q[0]);
    CharValueInverse(v1, q[1]);
    CharValueInverse(v2, q[2]);
    CharValueInverse(v3, q[3]);
    var c0, c1, c2 := v0 * 4 + v1 / 16, (v1 % 16) * 16 + v2 / 4, (v2 % 4) * 64 + v3;
    assert g == [c0, c1, c2];
    assert c0 / 4 == v0 && (c0 % 4) * 16 + c1 / 16 == v1;
    assert (c1 % 16) * 4 + c2 / 64 == v2 && c2 % 64 == v3;
  }

  /** A group the decoder accepts is the encoding of what it decodes to; only a last group may be short. */
  lemma DecodeGroupEncodes(q: string, last: bool, g: seq<byte>)
    requires |q| == 4 && DecodeGroup(q, last) == Some(g)
    ensures 1 <= |g| <= 3 && (|g| < 3 ==> last)
    ensures |g| == 3 ==> EncodeGroup(g[0], g[1], g[2]) == q
    ensures |g| < 3 ==> Encode(g) == q
  {
    if q[3] != '=' {
      DecodeGroupThree(q, last, g);
    } else if q[2] == '=' {
      assert last;
      DecodeGroupOne(q, g);
    } else {
      assert last;
      DecodeGroupTwo(q, g);
    }
  }

  /** A string of four or more characters is its first group followed by the rest. */
  lemma SplitFirstQuad(s: string)
    requires |s| >= 4
    ensures s[..4] + s[4..] == s
  {
  }

  /** Encoding undoes decoding: the decoder accepts exactly the encoder's outputs. */
  lemma {:induction false} EncodeDecode(s: string, b: seq<byte>)
    requires Decode(s) == Some(b)
    ensures Encode(b) == s
    decreases |s|
  {
    if |s| > 0 {
      var g :| DecodeGroup(s[..4], |s| == 4) == Some(g);
      var rest :| Decode(s[4..]) == Some(rest);
      assert b == g + rest;
      DecodeGroupEncodes(s[..4], |s| == 4, g);
      EncodeDecode(s[4..], rest);
      if |g| == 3 {
        EncodeAppendGroups(g, rest);
        assert g[3..] == [];
        assert Encode(g) == EncodeGroup(g[0], g[1], g[2]);
      } else {
        assert rest == [] && s == s[..4];
        assert b == g;
      }
      SplitFirstQuad(s);
    }
  }

  /** The decoder and the encoder are inverse: a string decodes to `b` exactly when it is `b`'s encoding. */
  lemma DecodeIffEncode(s: string, b: seq<byte>)
    ensures Decode(s) == Some(b) <==> Encode(b) == s
  {
    if Decode(s) == Some(b) {
      EncodeDecode(s, b);
    }
    if Encode(b) == s {
      DecodeEncode(b);
    }
  }

  /** Distinct octet sequences have distinct encodings. */
  lemma EncodeInjective(a: seq<byte>, b: seq<byte>)
    requires Encode(a) == Encode(b)
    ensures a == b
  {
    DecodeEncode(a);
    DecodeEncode(b);
  }

  /** Encoding is a function of whole groups: a prefix of 3k octets encodes to the first 4k characters. */
  lemma {:induction false} EncodeAppendGroups(a: seq<byte>, b: seq<byte>)
    requires |a| % 3 == 0
    ensures Encode(a + b) == Encode(a) + Encode(b)
    decreases |a|
  {
    if |a| > 0 {
      assert (a + b)[3..] == a[3..] + b;
      EncodeAppendGroups(a[3..], b);
    } else {
      assert a + b == b;
    }
  }

  /** The test vectors of section 10 of RFC 4648. */
  lemma TestVectors()
    ensures Encode([]) == ""
    ensures Encode([102]) == "Zg=="
    ensures Encode([102, 111]) == "Zm8="
    ensures Encode([102, 111, 111]) == "Zm9v"
    ensures Encode([102, 111, 111, 98]) == "Zm9vYg=="
    ensures Encode([102, 111, 111, 98, 97]) == "Zm9vYmE="
    ensures Encode([102, 111, 111, 98, 97, 114]) == "Zm9vYmFy"
  {
    assert [102, 111, 111, 98][3..] == [98];
    assert [102, 111, 111, 98, 97][3..] == [98, 97];
    assert [102, 111, 111, 98, 97, 114][3..] == [98, 97, 114];
  }
}
