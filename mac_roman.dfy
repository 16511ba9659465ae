/**
 * The Mac OS Roman character set: one character per byte, ASCII in the
 * lower half. Reading UTF-8 bytes through this table is how the mis-decoded
 * badge labels of the dashboard arise.
 */
module MacRoman {
  import Utf8

  type byte = Utf8.byte

  /** The characters of bytes 0x80 + 16 * r to 0x8F + 16 * r, in byte order. */
  function UpperRow(r: nat): (row: seq<char>)
    requires r < 8
    ensures |row| == 16
  {
    match r
    case 0 => ['\U{00C4}', '\U{00C5}', '\U{00C7}', '\U{00C9}', '\U{00D1}', '\U{00D6}', '\U{00DC}', '\U{00E1}',
              '\U{00E0}', '\U{00E2}', '\U{00E4}', '\U{00E3}', '\U{00E5}', '\U{00E7}', '\U{00E9}', '\U{00E8}']
    case 1 => ['\U{00EA}', '\U{00EB}', '\U{00ED}', '\U{00EC}', '\U{00EE}', '\U{00EF}', '\U{00F1}', '\U{00F3}',
              '\U{00F2}', '\U{00F4}', '\U{00F6}', '\U{00F5}', '\U{00FA}', '\U{00F9}', '\U{00FB}', '\U{00FC}']
    case 2 => ['\U{2020}', '\U{00B0}', '\U{00A2}', '\U{00A3}', '\U{00A7}', '\U{2022}', '\U{00B6}', '\U{00DF}',
              '\U{00AE}', '\U{00A9}', '\U{2122}', '\U{00B4}', '\U{00A8}', '\U{2260}', '\U{00C6}', '\U{00D8}']
    case 3 => ['\U{221E}', '\U{00B1}', '\U{2264}', '\U{2265}', '\U{00A5}', '\U{00B5}', '\U{2202}', '\U{2211}',
              '\U{220F}', '\U{03C0}', '\U{222B}', '\U{00AA}', '\U{00BA}', '\U{03A9}', '\U{00E6}', '\U{00F8}']
    case 4 => ['\U{00BF}', '\U{00A1}', '\U{00AC}', '\U{221A}', '\U{0192}', '\U{2248}', '\U{2206}', '\U{00AB}',
              '\U{00BB}', '\U{2026}', '\U{00A0}', '\U{00C0}', '\U{00C3}', '\U{00D5}', '\U{0152}', '\U{0153}']
    case 5 => ['\U{2013}', '\U{2014}', '\U{201C}', '\U{201D}', '\U{2018}', '\U{2019}', '\U{00F7}', '\U{25CA}',
              '\U{00FF}', '\U{0178}', '\U{2044}', '\U{20AC}', '\U{2039}', '\U{203A}', '\U{FB01}', '\U{FB02}']
    case 6 => ['\U{2021}', '\U{00B7}', '\U{201A}', '\U{201E}', '\U{2030}', '\U{00C2}', '\U{00CA}', '\U{00C1}',
              '\U{00CB}', '\U{00C8}', '\U{00CD}', '\U{00CE}', '\U{00CF}', '\U{00CC}', '\U{00D3}', '\U{00D4}']
    case 7 => ['\U{F8FF}', '\U{00D2}', '\U{00DA}', '\U{00DB}', '\U{00D9}', '\U{0131}', '\U{02C6}', '\U{02DC}',
              '\U{00AF}', '\U{02D8}', '\U{02D9}', '\U{02DA}', '\U{00B8}', '\U{02DD}', '\U{02DB}', '\U{02C7}']
  }

  function DecodeByte(b: byte): (c: char)
    ensures b < 0x80 ==> c as int == b
  {
    if b < 0x80 then b as char else UpperRow((b - 0x80) / 16)[(b - 0x80) % 16]
  }

  /** Read bytes as Mac OS Roman text. */
  function Decode(bs: seq<byte>): (s: string)
    ensures |s| == |bs|
    ensures forall i :: 0 <= i < |bs| ==> s[i] == DecodeByte(bs[i])
  {
    seq(|bs|, i requires 0 <= i < |bs| => DecodeByte(bs[i]))
  }

  lemma DecodeAppend(a: seq<byte>, b: seq<byte>)
    ensures Decode(a + b) == Decode(a) + Decode(b)
  {
    var l, r := Decode(a + b), Decode(a) + Decode(b);
    assert |l| == |r|;
    forall i | 0 <= i < |l| ensures l[i] == r[i] {
      if i < |a| {
        assert (a + b)[i] == a[i];
      } else {
        assert (a + b)[i] == b[i - |a|];
      }
    }
  }

  /** ASCII text survives being encoded as UTF-8 and read back as Mac OS Roman. */
  lemma AsciiUnchanged(s: string)
    requires Utf8.IsAscii(s)
    ensures Decode(Utf8.Encode(s)) == s
  {
    Utf8.AsciiEncoding(s);
  }
}
