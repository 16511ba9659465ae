/**
 * The clock side of the STK-push request: a calendar instant in UTC, the
 * string JavaScript's `Date.prototype.toISOString` makes of it
 * (YYYY-MM-DDTHH:mm:ss.sssZ, or a signed six-digit year outside 0000-9999),
 * and the 14-character M-Pesa timestamp cut from that string.
 */
module IsoTime {

  /** A UTC instant broken into its calendar fields, as a JavaScript Date holds it. */
  datatype DateTime = DateTime(year: int, month: int, day: int, hour: int, minute: int, second: int, millisecond: int)

  predicate IsLeapYear(y: int)
  {
    (y % 4 == 0 && y % 100 != 0) || y % 400 == 0
  }

  function DaysInMonth(y: int, m: int): (n: int)
    requires 1 <= m <= 12
    ensures 28 <= n <= 31
  {
    if m == 2 then (if IsLeapYear(y) then 29 else 28)
    else if m == 4 || m == 6 || m == 9 || m == 11 then 30
    else 31
  }

  /**
   * Well-formed calendar fields with a year from -271821 to 275760, the years
   * a JavaScript Date can reach. The predicate admits whole years, so it is
   * slightly wider than ECMAScript's time-value range, which ends on
   * -271821-04-20 and 275760-09-13.
   */
  predicate Valid(dt: DateTime)
  {
    && -271821 <= dt.year <= 275760
    && 1 <= dt.month <= 12
    && 1 <= dt.day <= DaysInMonth(dt.year, dt.month)
    && 0 <= dt.hour < 24 && 0 <= dt.minute < 60 && 0 <= dt.second < 60
    && 0 <= dt.millisecond < 1000
  }

  function Pow10(w: nat): (p: nat)
    ensures p >= 1
  {
    if w == 0 then 1 else 10 * Pow10(w - 1)
  }

  predicate IsDigit(c: char)
  {
    '0' <= c <= '9'
  }

  predicate AllDigits(s: string)
  {
    forall i :: 0 <= i < |s| ==> IsDigit(s[i])
  }

  /** The last `w` decimal digits of `n`, zero-padded on the left. */
  function Digits(n: nat, w: nat): (s: string)
    ensures |s| == w && AllDigits(s)
  {
    if w == 0 then "" else Digits(n / 10, w - 1) + [('0' as int + n % 10) as char]
  }

  /** The number a string of decimal digits denotes. */
  function Value(s: string): (v: nat)
    requires AllDigits(s)
    ensures v < Pow10(|s|)
  {
    if s == "" then 0 else Value(s[..|s| - 1]) * 10 + ((s[|s| - 1] as int) - ('0' as int))
  }

  /** `Digits` is a faithful decimal writing: reading the digits back gives the number. */
  lemma {:induction false} ValueDigits(n: nat, w: nat)
    requires n < Pow10(w)
    ensures Value(Digits(n, w)) == n
  {
    if w > 0 {
      var s := Digits(n, w);
      assert s[..|s| - 1] == Digits(n / 10, w - 1);
      ValueDigits(n / 10, w - 1);
    }
  }

  /** The year as toISOString writes it: four digits, or a sign and six digits outside 0..9999. */
  function YearText(y: int): (s: string)
    requires -271821 <= y <= 275760
  {
    if 0 <= y <= 9999 then Digits(y, 4)
    else (if y < 0 then "-" else "+") + Digits(if y < 0 then -y else y, 6)
  }

  /** `Date.prototype.toISOString` (section 21.4.4.36 of ECMA-262, format of section 21.4.1.32). */
  function IsoString(dt: DateTime): (s: string)
    requires Valid(dt)
    ensures |s| == (if 0 <= dt.year <= 9999 then 24 else 27)
    ensures s[|s| - 14] == 'T' && s[|s| - 5] == '.' && s[|s| - 1] == 'Z'
  {
    YearText(dt.year) + "-" + Digits(dt.month, 2) + "-" + Digits(dt.day, 2)
      + "T" + Digits(dt.hour, 2) + ":" + Digits(dt.minute, 2) + ":" + Digits(dt.second, 2)
      + "." + Digits(dt.millisecond, 3) + "Z"
  }

  /** `s.replace(/[^0-9]/g, '')`: the decimal digits of `s`, in order. */
  function KeepDigits(s: string): (r: string)
    ensures |r| <= |s|
  {
    if s == "" then ""
    else (if IsDigit(s[0]) then [s[0]] else "") + KeepDigits(s[1..])
  }

  /** `s.slice(0, n)`. */
  function Take(s: string, n: nat): (r: string)
    ensures |r| == if |s| <= n then |s| else n
    ensures r <= s
  {
    if |s| <= n then s else s[..n]
  }

  /** The M-Pesa timestamp: the first 14 digits of an ISO date string. */
  function Timestamp(iso: string): (r: string)
    ensures AllDigits(r) && |r| <= 14
  {
    KeepDigitsAllDigits(iso);
    Take(KeepDigits(iso), 14)
  }

  /** What `KeepDigits` keeps is digits only, and every digit of the input is kept. */
  lemma {:induction false} KeepDigitsAllDigits(s: string)
    ensures AllDigits(KeepDigits(s))
    ensures |KeepDigits(s)| == |s| <==> AllDigits(s)
    decreases |s|
  {
    if s != "" {
      KeepDigitsAllDigits(s[1..]);
      var rest := KeepDigits(s[1..]);
      if IsDigit(s[0]) {
        assert KeepDigits(s) == [s[0]] + rest;
        assert AllDigits(s) <==> AllDigits(s[1..]) by {
          if AllDigits(s[1..]) {
            forall i | 0 <= i < |s| ensures IsDigit(s[i]) {
              if i > 0 { assert s[i] == s[1..][i - 1]; }
            }
          }
        }
      } else {
        assert !AllDigits(s);
      }
    }
  }

  lemma {:induction false} KeepDigitsAppend(a: string, b: string)
    ensures KeepDigits(a + b) == KeepDigits(a) + KeepDigits(b)
    decreases |a|
  {
    if a == "" {
      assert a + b == b;
    } else {
      var head := if IsDigit(a[0]) then [a[0]] else "";
      assert (a + b)[0] == a[0] && (a + b)[1..] == a[1..] + b;
      assert KeepDigits(a + b) == head + KeepDigits(a[1..] + b);
      KeepDigitsAppend(a[1..], b);
      assert KeepDigits(a) == head + KeepDigits(a[1..]);
      assert head + (KeepDigits(a[1..]) + KeepDigits(b)) == (head + KeepDigits(a[1..])) + KeepDigits(b);
    }
  }

  lemma {:induction false} KeepDigitsOfDigits(s: string)
    requires AllDigits(s)
    ensures KeepDigits(s) == s
    decreases |s|
  {
    if s != "" {
      assert AllDigits(s[1..]) by {
        forall i | 0 <= i < |s[1..]| ensures IsDigit(s[1..][i]) {
          assert s[1..][i] == s[i + 1];
        }
      }
      KeepDigitsOfDigits(s[1..]);
    }
  }

  /** A separator followed by a field: only the field's digits are kept. */
  lemma KeepDigitsAfterSeparator(sep: string, ds: string)
    requires |sep| == 1 && !IsDigit(sep[0]) && KeepDigits(ds) == ds
    ensures KeepDigits(sep + ds) == ds
  {
    KeepDigitsAppend(sep, ds);
  }

  /** Appending a one-character separator and a field keeps the field's digits only. */
  lemma KeepDigitsSnoc(a: string, sep: string, f: string)
    requires |sep| == 1 && !IsDigit(sep[0]) && KeepDigits(f) == f
    ensures KeepDigits(a + sep + f) == KeepDigits(a) + f
  {
    var tail := sep + f;
    KeepDigitsAfterSeparator(sep, f);
    assert KeepDigits(tail) == f;
    KeepDigitsAppend(a, tail);
    assert a + sep + f == a + tail;
  }

  lemma KeepDigitsYear(y: int)
    requires -271821 <= y <= 275760
    ensures KeepDigits(YearText(y)) == Digits(if y < 0 then -y else y, if 0 <= y <= 9999 then 4 else 6)
  {
    var ds := Digits(if y < 0 then -y else y, if 0 <= y <= 9999 then 4 else 6);
    KeepDigitsOfDigits(ds);
    if !(0 <= y <= 9999) {
      KeepDigitsAfterSeparator(if y < 0 then "-" else "+", ds);
    }
  }

  /** The digits of any string laid out as toISOString lays out its fields. */
  lemma KeepDigitsIsoLayout(yt: string, y: string, mo: string, d: string, h: string, mi: string, se: string, ms: string)
    requires KeepDigits(yt) == y
    requires KeepDigits(mo) == mo && KeepDigits(d) == d && KeepDigits(h) == h
    requires KeepDigits(mi) == mi && KeepDigits(se) == se && KeepDigits(ms) == ms
    ensures KeepDigits(yt + "-" + mo + "-" + d + "T" + h + ":" + mi + ":" + se + "." + ms + "Z")
      == y + mo + d + h + mi + se + ms
  {
    KeepDigitsSnoc(yt, "-", mo);
    KeepDigitsSnoc(yt + "-" + mo, "-", d);
    KeepDigitsSnoc(yt + "-" + mo + "-" + d, "T", h);
    KeepDigitsSnoc(yt + "-" + mo + "-" + d + "T" + h, ":", mi);
    KeepDigitsSnoc(yt + "-" + mo + "-" + d + "T" + h + ":" + mi, ":", se);
    KeepDigitsSnoc(yt + "-" + mo + "-" + d + "T" + h + ":" + mi + ":" + se, ".", ms);
    var all := yt + "-" + mo + "-" + d + "T" + h + ":" + mi + ":" + se + "." + ms;
    KeepDigitsAppend(all, "Z");
    assert KeepDigits("Z") == "";
  }

  /** The digits of the ISO string: the year's digits followed by the other six fields. */
  lemma IsoDigits(dt: DateTime)
    requires Valid(dt)
    ensures KeepDigits(IsoString(dt)) ==
      Digits(if dt.year < 0 then -dt.year else dt.year, if 0 <= dt.year <= 9999 then 4 else 6)
      + Digits(dt.month, 2) + Digits(dt.day, 2) + Digits(dt.hour, 2)
      + Digits(dt.minute, 2) + Digits(dt.second, 2) + Digits(dt.millisecond, 3)
  {
    KeepDigitsYear(dt.year);
    KeepDigitsOfDigits(Digits(dt.month, 2));
    KeepDigitsOfDigits(Digits(dt.day, 2));
    KeepDigitsOfDigits(Digits(dt.hour, 2));
    KeepDigitsOfDigits(Digits(dt.minute, 2));
    KeepDigitsOfDigits(Digits(dt.second, 2));
    KeepDigitsOfDigits(Digits(dt.millisecond, 3));
    KeepDigitsIsoLayout(YearText(dt.year),
      Digits(if dt.year < 0 then -dt.year else dt.year, if 0 <= dt.year <= 9999 then 4 else 6),
      Digits(dt.month, 2), Digits(dt.day, 2), Digits(dt.hour, 2),
      Digits(dt.minute, 2), Digits(dt.second, 2), Digits(dt.millisecond, 3));
  }

  /** YYYYMMDDHHMMSS: the zero-padded calendar fields down to the second. */
  function CompactTimestamp(dt: DateTime): (s: string)
    requires Valid(dt) && dt.year >= 0
    ensures |s| == 14 && AllDigits(s)
  {
    Digits(dt.year, 4) + Digits(dt.month, 2) + Digits(dt.day, 2)
      + Digits(dt.hour, 2) + Digits(dt.minute, 2) + Digits(dt.second, 2)
  }

  /**
   * For a four-digit year the timestamp cut from the ISO string is exactly
   * YYYYMMDDHHMMSS: fourteen digits, the milliseconds dropped.
   */
  lemma TimestampIsCompact(dt: DateTime)
    requires Valid(dt) && 0 <= dt.year <= 9999
    ensures Timestamp(IsoString(dt)) == CompactTimestamp(dt)
    ensures |Timestamp(IsoString(dt))| == 14 && AllDigits(Timestamp(IsoString(dt)))
  {
    IsoDigits(dt);
    var c := CompactTimestamp(dt);
    var all := c + Digits(dt.millisecond, 3);
    assert KeepDigits(IsoString(dt)) == all;
    assert all[..14] == c;
  }

  /**
   * Outside years 0000-9999 the six-digit year pushes the seconds out of the
   * fourteen characters: the timestamp is YYYYYYMMDDHHMM.
   */
  lemma TimestampExtendedYear(dt: DateTime)
    requires Valid(dt) && !(0 <= dt.year <= 9999)
    ensures Timestamp(IsoString(dt)) ==
      Digits(if dt.year < 0 then -dt.year else dt.year, 6)
      + Digits(dt.month, 2) + Digits(dt.day, 2) + Digits(dt.hour, 2) + Digits(dt.minute, 2)
  {
    IsoDigits(dt);
  }

  /** The calendar fields read back from a 14-digit timestamp, as the provider reads them. */
  datatype Fields = Fields(year: nat, month: nat, day: nat, hour: nat, minute: nat, second: nat)

  function ParseTimestamp(ts: string): (f: Fields)
    requires |ts| == 14 && AllDigits(ts)
  {
    Fields(Value(ts[..4]), Value(ts[4..6]), Value(ts[6..8]), Value(ts[8..10]), Value(ts[10..12]), Value(ts[12..14]))
  }

  /** Slicing YYYYMMDDHHMMSS at the field boundaries gives the fields back. */
  lemma FieldSlices(y: string, mo: string, d: string, h: string, mi: string, se: string)
    requires |y| == 4 && |mo| == 2 && |d| == 2 && |h| == 2 && |mi| == 2 && |se| == 2
    ensures var ts := y + mo + d + h + mi + se;
      ts[..4] == y && ts[4..6] == mo && ts[6..8] == d
      && ts[8..10] == h && ts[10..12] == mi && ts[12..14] == se
  {
  }

  /** The timestamp of a four-digit-year instant carries its fields down to the second, and nothing is lost. */
  lemma ParseTimestampRoundTrip(dt: DateTime)
    requires Valid(dt) && 0 <= dt.year <= 9999
    ensures var ts := Timestamp(IsoString(dt));
      |ts| == 14 && AllDigits(ts) &&
      ParseTimestamp(ts) == Fields(dt.year, dt.month, dt.day, dt.hour, dt.minute, dt.second)
  {
    TimestampIsCompact(dt);
    FieldSlices(Digits(dt.year, 4), Digits(dt.month, 2), Digits(dt.day, 2),
      Digits(dt.hour, 2), Digits(dt.minute, 2), Digits(dt.second, 2));
    assert Pow10(2) == 100 && Pow10(4) == 10000;
    ValueDigits(dt.year, 4);
    ValueDigits(dt.month, 2);
    ValueDigits(dt.day, 2);
    ValueDigits(dt.hour, 2);
    ValueDigits(dt.minute, 2);
    ValueDigits(dt.second, 2);
  }
}
