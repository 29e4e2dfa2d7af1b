/** The conversions between strings and code units that the stream formats use.
    A Rust `String` is a sequence of Unicode scalar values, which is what a Dafny
    `string` is; malformed input decodes to U+FFFD as the lossy conversions do. */
module Text {
  import opened Prim

  const REPLACEMENT: char := '\U{FFFD}'

  // ===== UTF-8 =====

  function Utf8Char(c: char): (r: bytes)
    ensures 1 <= |r| <= 4
  {
    var n := c as int;
    if n < 0x80 then [n]
    else if n < 0x800 then [0xC0 + n / 0x40, 0x80 + n % 0x40]
    else if n < 0x1_0000 then [0xE0 + n / 0x1000, 0x80 + n / 0x40 % 0x40, 0x80 + n % 0x40]
    else [0xF0 + n / 0x4_0000, 0x80 + n / 0x1000 % 0x40, 0x80 + n / 0x40 % 0x40, 0x80 + n % 0x40]
  }

  function Utf8(s: string): bytes {
    if s == [] then [] else Utf8Char(s[0]) + Utf8(s[1..])
  }

  predicate Continues(b: u8) {
    0x80 <= b < 0xC0
  }

  /** The length of the sequence a leading byte announces; zero if it cannot lead. */
  function LeadWidth(b: u8): (w: nat)
    ensures w <= 4
  {
    if b < 0x80 then 1
    else if 0xC2 <= b < 0xE0 then 2
    else if 0xE0 <= b < 0xF0 then 3
    else if 0xF0 <= b < 0xF5 then 4
    else 0
  }

  /** Overlong forms, surrogates and values past U+10FFFF show in the second byte. */
  predicate SecondFits(lead: u8, b: u8) {
    && Continues(b)
    && (lead == 0xE0 ==> 0xA0 <= b)
    && (lead == 0xED ==> b < 0xA0)
    && (lead == 0xF0 ==> 0x90 <= b)
    && (lead == 0xF4 ==> b < 0x90)
  }

  /** The first scalar value of `s`, or a replacement for the longest malformed
      prefix, with the number of bytes it takes. */
  function Utf8First(s: bytes): (r: (char, nat))
    requires s != []
    ensures 1 <= r.1 <= |s|
  {
    var w := LeadWidth(s[0]);
    if w == 0 then (REPLACEMENT, 1)
    else if w == 1 then (s[0] as char, 1)
    else if |s| < 2 || !SecondFits(s[0], s[1]) then (REPLACEMENT, 1)
    else if w == 2 then (((s[0] - 0xC0) as int * 0x40 + (s[1] - 0x80) as int) as char, 2)
    else if |s| < 3 || !Continues(s[2]) then (REPLACEMENT, 2)
    else if w == 3 then
      (((s[0] - 0xE0) as int * 0x1000 + (s[1] - 0x80) as int * 0x40 + (s[2] - 0x80) as int) as char, 3)
    else if |s| < 4 || !Continues(s[3]) then (REPLACEMENT, 3)
    else
      (((s[0] - 0xF0) as int * 0x4_0000 + (s[1] - 0x80) as int * 0x1000
        + (s[2] - 0x80) as int * 0x40 + (s[3] - 0x80) as int) as char, 4)
  }

  /** `String::from_utf8_lossy` */
  function FromUtf8(s: bytes): string {
    if s == [] then [] else var (c, n) := Utf8First(s); [c] + FromUtf8(s[n..])
  }

  lemma Digits3(n: nat)
    requires n < 0x1_0000
    ensures n == n / 0x1000 * 0x1000 + n / 0x40 % 0x40 * 0x40 + n % 0x40
    ensures n / 0x1000 < 0x10
  {
    var m := n / 0x40;
    assert n == m * 0x40 + n % 0x40;
    assert n / 0x1000 == m / 0x40;
    assert m == m / 0x40 * 0x40 + m % 0x40;
  }

  lemma Digits4(n: nat)
    requires n < 0x11_0000
    ensures n == n / 0x4_0000 * 0x4_0000 + n / 0x1000 % 0x40 * 0x1000 + n / 0x40 % 0x40 * 0x40 + n % 0x40
    ensures n / 0x4_0000 < 5
  {
    var m := n / 0x40;
    var k := n / 0x1000;
    assert n == m * 0x40 + n % 0x40;
    assert k == m / 0x40 && m == k * 0x40 + m % 0x40;
    assert n / 0x4_0000 == k / 0x40 && k == k / 0x40 * 0x40 + k % 0x40;
  }

  lemma Utf8First3(c: char, rest: bytes)
    requires 0x800 <= c as int < 0x1_0000
    ensures Utf8First(Utf8Char(c) + rest) == (c, 3)
  {
    var n := c as int;
    var s := Utf8Char(c) + rest;
    Digits3(n);
    assert s[0] == 0xE0 + n / 0x1000 && s[1] == 0x80 + n / 0x40 % 0x40 && s[2] == 0x80 + n % 0x40;
  }

  lemma Utf8First4(c: char, rest: bytes)
    requires 0x1_0000 <= c as int
    ensures Utf8First(Utf8Char(c) + rest) == (c, 4)
  {
    var n := c as int;
    var s := Utf8Char(c) + rest;
    Digits4(n);
    assert s[0] == 0xF0 + n / 0x4_0000 && s[1] == 0x80 + n / 0x1000 % 0x40
        && s[2] == 0x80 + n / 0x40 % 0x40 && s[3] == 0x80 + n % 0x40;
  }

  lemma Utf8FirstOfChar(c: char, rest: bytes)
    ensures Utf8First(Utf8Char(c) + rest) == (c, |Utf8Char(c)|)
  {
    var n := c as int;
    if n < 0x800 {
    } else if n < 0x1_0000 {
      Utf8First3(c, rest);
    } else {
      Utf8First4(c, rest);
    }
  }

  lemma {:induction false} Utf8RoundTrip(s: string)
    ensures FromUtf8(Utf8(s)) == s
  {
    if s != [] {
      Utf8FirstOfChar(s[0], Utf8(s[1..]));
      Utf8RoundTrip(s[1..]);
      assert Utf8(s)[|Utf8Char(s[0])|..] == Utf8(s[1..]);
    }
  }

  /** A one-byte character is in the encoding only where the text has it. */
  lemma {:induction false} Utf8Avoids(s: string, b: u8)
    requires b < 0x80 && b as char !in s
    ensures b !in Utf8(s)
  {
    if s != [] {
      assert s[0] in s && s[0] as int != b;
      assert b !in Utf8Char(s[0]);
      Utf8Avoids(s[1..], b);
    }
  }

  lemma {:induction false} LastUtf8(s: string)
    requires s != []
    ensures |Utf8(s)| >= |Utf8Char(s[|s| - 1])|
  {
    if |s| > 1 {
      LastUtf8(s[1..]);
    }
  }

  /** A character cut short decodes to one replacement. */
  lemma PartialChar(c: char, n: nat)
    requires 0 < n < |Utf8Char(c)|
    ensures FromUtf8(Utf8Char(c)[..n]) == [REPLACEMENT]
  {
    var p := Utf8Char(c)[..n];
    if c as int >= 0x1_0000 {
      Digits4(c as int);
    } else if c as int >= 0x800 {
      Digits3(c as int);
    }
    assert Utf8First(p) == (REPLACEMENT, n);
    assert p[n..] == [];
  }

  /** An encoding cut short gives back the text in one case: the cut falls inside a
      replacement character that ends it. */
  lemma {:induction false} TruncatedUtf8(s: string, n: nat)
    requires n < |Utf8(s)|
    ensures FromUtf8(Utf8(s)[..n]) == s <==> s[|s| - 1] == REPLACEMENT && |Utf8(s)| < n + 3
  {
    hide Utf8Char, Utf8First, LeadWidth;
    var c, tail := s[0], s[1..];
    var w := |Utf8Char(c)|;
    if s[|s| - 1] == REPLACEMENT {
      LastUtf8(s);
      assert |Utf8Char(REPLACEMENT)| == 3 by { ReplacementWidth(); }
      if tail != [] {
        LastUtf8(tail);
      }
    }
    if n >= w {
      assert Utf8(s)[..n] == Utf8Char(c) + Utf8(tail)[..n - w];
      Utf8FirstOfChar(c, Utf8(tail)[..n - w]);
      TruncatedUtf8(tail, n - w);
      assert Utf8(s)[..n][w..] == Utf8(tail)[..n - w];
      assert s == [c] + tail;
    } else if n > 0 {
      assert Utf8(s)[..n] == Utf8Char(c)[..n];
      PartialChar(c, n);
      if s == [REPLACEMENT] {
        assert Utf8(s) == Utf8Char(c);
      }
    }
  }

  lemma ReplacementWidth()
    ensures |Utf8Char(REPLACEMENT)| == 3
  {
  }

  lemma {:induction false} NoNulDecoded(b: bytes)
    requires 0 !in b
    ensures '\0' !in FromUtf8(b)
  {
    if b != [] {
      assert b[0] in b;
      var (c, n) := Utf8First(b);
      assert c != '\0';
      NoNulDecoded(b[n..]);
    }
  }

  // ===== UTF-16 =====

  function Utf16Char(c: char): (r: seq<u16>)
    ensures 1 <= |r| <= 2
  {
    var n := c as int;
    if n < 0x1_0000 then [n]
    else [0xD800 + (n - 0x1_0000) / 0x400, 0xDC00 + (n - 0x1_0000) % 0x400]
  }

  function Utf16(s: string): seq<u16> {
    if s == [] then [] else Utf16Char(s[0]) + Utf16(s[1..])
  }

  function Utf16First(s: seq<u16>): (r: (char, nat))
    requires s != []
    ensures 1 <= r.1 <= |s|
  {
    if s[0] < 0xD800 || 0xE000 <= s[0] then (s[0] as char, 1)
    else if s[0] < 0xDC00 && |s| >= 2 && 0xDC00 <= s[1] < 0xE000 then
      ((0x1_0000 + (s[0] - 0xD800) as int * 0x400 + (s[1] - 0xDC00) as int) as char, 2)
    else (REPLACEMENT, 1)
  }

  /** `String::from_utf16_lossy` */
  function FromUtf16(s: seq<u16>): string {
    if s == [] then [] else var (c, n) := Utf16First(s); [c] + FromUtf16(s[n..])
  }

  lemma {:induction false} Utf16RoundTrip(s: string)
    ensures FromUtf16(Utf16(s)) == s
  {
    if s != [] {
      Utf16RoundTrip(s[1..]);
      assert Utf16(s)[|Utf16Char(s[0])|..] == Utf16(s[1..]);
    }
  }

  // ===== Latin-1 =====

  predicate IsLatin1(s: string) {
    forall i :: 0 <= i < |s| ==> s[i] as int < 0x100
  }

  /** The writer stores '?' for a character outside Latin-1. */
  function Latin1(s: string): (r: bytes)
    ensures |r| == |s|
    ensures forall i :: 0 <= i < |s| ==> r[i] == if s[i] as int < 0x100 then s[i] as int else 0x3F
  {
    seq<u8>(|s|, i requires 0 <= i < |s| => if s[i] as int < 0x100 then s[i] as int else 0x3F)
  }

  function FromLatin1(b: bytes): (r: string)
    ensures |r| == |b|
    ensures forall i :: 0 <= i < |b| ==> r[i] == b[i] as char
  {
    seq<char>(|b|, i requires 0 <= i < |b| => b[i] as char)
  }

  lemma Latin1RoundTrip(s: string)
    ensures FromLatin1(Latin1(s)) == s <==> IsLatin1(s)
  {
    if FromLatin1(Latin1(s)) == s {
      forall i | 0 <= i < |s|
        ensures s[i] as int < 0x100
      {
        assert s[i] == FromLatin1(Latin1(s))[i];
      }
    }
  }
}
