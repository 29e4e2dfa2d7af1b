/** Length-prefixed, bit-complemented strings: src/plasma/safe_string.rs. */
module SafeString {
  import opened Prim
  import opened Text

  datatype Format = AsLatin1 | AsUtf8 | AsUtf16

  function Not8(b: bytes): (r: bytes)
    ensures |r| == |b| && forall i :: 0 <= i < |b| ==> r[i] == 0xFF - b[i]
  {
    seq<u8>(|b|, i requires 0 <= i < |b| => 0xFF - b[i])
  }

  function Not16(b: seq<u16>): (r: seq<u16>)
    ensures |r| == |b| && forall i :: 0 <= i < |b| ==> r[i] == 0xFFFF - b[i]
  {
    seq<u16>(|b|, i requires 0 <= i < |b| => 0xFFFF - b[i])
  }

  /** The reader takes a first unit with its high bit set as the mark of a
      complemented string. */
  function Restore8(b: bytes): bytes {
    if b != [] && b[0] >= 0x80 then Not8(b) else b
  }

  function Restore16(b: seq<u16>): seq<u16> {
    if b != [] && b[0] >= 0x8000 then Not16(b) else b
  }

  // ----- sequences of 16-bit units, also used by vault strings -----

  function UnitBytes(u: seq<u16>): (r: bytes)
    ensures |r| == 2 * |u|
  {
    if u == [] then [] else UnitBytes(u[..|u| - 1]) + U16Bytes(u[|u| - 1])
  }

  function ReadUnits(s: bytes, n: nat): Parsed<seq<u16>> {
    if n == 0 then Done([], s)
    else
      var (init, s1) :- ReadUnits(s, n - 1);
      var (last, s2) :- ReadU16(s1);
      Done(init + [last], s2)
  }

  lemma {:induction false} ReadsUnits(u: seq<u16>, rest: bytes)
    ensures ReadUnits(UnitBytes(u) + rest, |u|) == Done(u, rest)
  {
    if u != [] {
      var init, last := u[..|u| - 1], u[|u| - 1];
      Cat2(UnitBytes(init), U16Bytes(last), rest);
      ReadsUnits(init, U16Bytes(last) + rest);
      ReadsU16(last, rest);
      assert init + [last] == u;
    } else {
      assert UnitBytes(u) + rest == rest;
    }
  }

  // ----- specification -----

  function Units8(value: string, format: Format): bytes
    requires !format.AsUtf16?
  {
    if format.AsUtf8? then Utf8(value) else Latin1(value)
  }

  function Write(value: string, format: Format): Result<bytes> {
    if format.AsUtf16? then
      var units := Utf16(value);
      if |units| > 0x0FFF then Err(TooLarge)
      else Ok(U16Bytes(|units| + 0xF000) + UnitBytes(Not16(units)) + U16Bytes(0))
    else
      var units := Units8(value, format);
      if |units| > 0x0FFF then Err(TooLarge)
      else Ok(U16Bytes(|units| + 0xF000) + Not8(units))
  }

  /** The length word, and the word that the old format has after it. */
  function ReadLength(s: bytes): (r: Parsed<nat>)
    ensures r.Done? ==> r.value < 0x1000
  {
    var (length, s1) :- ReadU16(s);
    if length < 0x1000 then
      var (_, s2) :- ReadU16(s1);
      Done(length, s2)
    else Done(length % 0x1000, s1)
  }

  function Read(s: bytes, format: Format): Parsed<string> {
    var (n, s1) :- ReadLength(s);
    if format.AsUtf16? then
      var (units, s2) :- ReadUnits(s1, n);
      var (_, s3) :- ReadU16(s2);
      Done(FromUtf16(Restore16(units)), s3)
    else
      var (units, s2) :- ReadBytes(s1, n);
      if format.AsUtf8? then Done(FromUtf8(Restore8(units)), s2)
      else Done(FromLatin1(Restore8(units)), s2)
  }

  lemma {:induction false} UnitsShrink(s: bytes, n: nat)
    ensures ReadUnits(s, n).Done? ==> |ReadUnits(s, n).rest| <= |s|
  {
    if n > 0 {
      UnitsShrink(s, n - 1);
    }
  }

  lemma ReadShrinks(s: bytes, format: Format)
    ensures Read(s, format).Done? ==> |Read(s, format).rest| < |s|
  {
    var head := ReadLength(s);
    if head.Done? && format.AsUtf16? {
      UnitsShrink(head.rest, head.value);
    }
  }

  /** Exactly the strings that come back as they were written. */
  predicate Survives(value: string, format: Format) {
    && (format.AsLatin1? ==> IsLatin1(value))
    && (value == [] || value[0] as int < if format.AsUtf16? then 0x8000 else 0x80)
  }

  // ----- the round trip -----

  lemma ReadsLength(n: nat, rest: bytes)
    requires n <= 0x0FFF
    ensures ReadLength(U16Bytes(n + 0xF000) + rest) == Done(n, rest)
  {
    ReadsU16(n + 0xF000, rest);
    assert (n + 0xF000) % 0x1000 == n;
  }

  /** What the writer complements, the reader restores if and only if the first unit
      had its high bit clear. */
  lemma Restored8(b: bytes)
    ensures b == [] || b[0] < 0x80 ==> Restore8(Not8(b)) == b
    ensures b != [] && b[0] >= 0x80 ==> Restore8(Not8(b)) == Not8(b)
  {
  }

  lemma Restored16(b: seq<u16>)
    ensures b == [] || b[0] < 0x8000 ==> Restore16(Not16(b)) == b
    ensures b != [] && b[0] >= 0x8000 ==> Restore16(Not16(b)) == Not16(b)
  {
  }

  /** What comes back for a string that was written. */
  function Returned(value: string, format: Format): string {
    match format
    case AsUtf16 => FromUtf16(Restore16(Not16(Utf16(value))))
    case AsUtf8 => FromUtf8(Restore8(Not8(Utf8(value))))
    case AsLatin1 => FromLatin1(Restore8(Not8(Latin1(value))))
  }

  lemma ReturnedUtf16(value: string)
    ensures Returned(value, AsUtf16) == value <==> Survives(value, AsUtf16)
  {
    var units := Utf16(value);
    Restored16(units);
    if value != [] && value[0] as int >= 0x8000 {
      assert units[0] == Utf16Char(value[0])[0] >= 0x8000;
      assert FromUtf16(Not16(units))[0] == Not16(units)[0] as char;
    } else {
      Utf16RoundTrip(value);
    }
  }

  lemma Returned8(value: string, format: Format)
    requires !format.AsUtf16?
    ensures Returned(value, format) == value <==> Survives(value, format)
  {
    var units := Units8(value, format);
    Restored8(units);
    if format.AsUtf8? {
      Utf8RoundTrip(value);
      if value != [] {
        assert units[0] == Utf8Char(value[0])[0];
        if units[0] >= 0x80 {
          assert FromUtf8(Not8(units))[0] == Not8(units)[0] as char;
        }
      }
    } else {
      Latin1RoundTrip(value);
      if value != [] && units[0] >= 0x80 {
        assert FromLatin1(Not8(units))[0] == Not8(units)[0] as char;
      }
    }
  }

  lemma ReadsBack(value: string, format: Format, rest: bytes)
    requires Write(value, format).Ok?
    ensures Read(Write(value, format).value + rest, format) == Done(Returned(value, format), rest)
  {
    hide U16Bytes, ReadU16, UnitBytes, ReadUnits, Restore8, Restore16, Utf8, Utf16, FromUtf8, FromUtf16, ReadLength;
    if format.AsUtf16? {
      var units := Utf16(value);
      var n := |units|;
      Cat3(U16Bytes(n + 0xF000), UnitBytes(Not16(units)), U16Bytes(0), rest);
      ReadsLength(n, UnitBytes(Not16(units)) + (U16Bytes(0) + rest));
      ReadsUnits(Not16(units), U16Bytes(0) + rest);
      ReadsU16(0, rest);
    } else {
      var units := Units8(value, format);
      var n := |units|;
      Cat2(U16Bytes(n + 0xF000), Not8(units), rest);
      ReadsLength(n, Not8(units) + rest);
      ReadsBytes(Not8(units), rest);
    }
  }

  /** Whatever the string, the reader consumes exactly what was written; the string
      survives if and only if its first unit has the high bit clear and, in Latin-1
      mode, every character is representable. */
  lemma RoundTrip(value: string, format: Format, rest: bytes)
    requires Write(value, format).Ok?
    ensures Read(Write(value, format).value + rest, format) == Done(Returned(value, format), rest)
    ensures Returned(value, format) == value <==> Survives(value, format)
  {
    ReadsBack(value, format, rest);
    if format.AsUtf16? {
      ReturnedUtf16(value);
    } else {
      Returned8(value, format);
    }
  }

  // ----- the source's loops -----

  method ComplementInPlace(buffer: array<u8>)
    modifies buffer
    ensures buffer[..] == Not8(old(buffer[..]))
  {
    for i := 0 to buffer.Length
      invariant forall j :: 0 <= j < i ==> buffer[j] == 0xFF - old(buffer[j])
      invariant forall j :: i <= j < buffer.Length ==> buffer[j] == old(buffer[j])
    {
      buffer[i] := 0xFF - buffer[i];
    }
  }

  method ComplementUnitsInPlace(buffer: array<u16>)
    modifies buffer
    ensures buffer[..] == Not16(old(buffer[..]))
  {
    for i := 0 to buffer.Length
      invariant forall j :: 0 <= j < i ==> buffer[j] == 0xFFFF - old(buffer[j])
      invariant forall j :: i <= j < buffer.Length ==> buffer[j] == old(buffer[j])
    {
      buffer[i] := 0xFFFF - buffer[i];
    }
  }

  method ReadSafeStr(stream: bytes, format: Format) returns (r: Parsed<string>)
    ensures r == Read(stream, format)
  {
    var head := ReadLength(stream);
    if head.Fail? {
      return Fail(head.error);
    }
    if format.AsUtf16? {
      var raw := ReadUnits(head.rest, head.value);
      if raw.Fail? {
        return Fail(raw.error);
      }
      var trailing := ReadU16(raw.rest);
      if trailing.Fail? {
        return Fail(trailing.error);
      }
      var units := raw.value;
      var buffer := new u16[|units|](i requires 0 <= i < |units| => units[i]);
      assert buffer[..] == units;
      if buffer.Length > 0 && buffer[0] >= 0x8000 {
        ComplementUnitsInPlace(buffer);
      }
      return Done(FromUtf16(buffer[..]), trailing.rest);
    }
    var raw := ReadBytes(head.rest, head.value);
    if raw.Fail? {
      return Fail(raw.error);
    }
    var units := raw.value;
    var buffer := new u8[|units|](i requires 0 <= i < |units| => units[i]);
    assert buffer[..] == units;
    if buffer.Length > 0 && buffer[0] >= 0x80 {
      ComplementInPlace(buffer);
    }
    if format.AsUtf8? {
      return Done(FromUtf8(buffer[..]), raw.rest);
    }
    return Done(FromLatin1(buffer[..]), raw.rest);
  }

  method WriteSafeStr(value: string, format: Format) returns (r: Result<bytes>)
    ensures r == Write(value, format)
  {
    if format.AsUtf16? {
      var buffer := Utf16(value);
      if |buffer| > 0x0FFF {
        return Err(TooLarge);
      }
      var out := U16Bytes(|buffer| + 0xF000);
      for i := 0 to |buffer|
        invariant out == U16Bytes(|buffer| + 0xF000) + UnitBytes(Not16(buffer)[..i])
      {
        assert Not16(buffer)[..i + 1][..i] == Not16(buffer)[..i];
        out := out + U16Bytes(0xFFFF - buffer[i]);
      }
      assert Not16(buffer)[..|buffer|] == Not16(buffer);
      return Ok(out + U16Bytes(0));
    }
    var buffer := Not8(Units8(value, format));
    if |buffer| > 0x0FFF {
      return Err(TooLarge);
    }
    return Ok(U16Bytes(|buffer| + 0xF000) + buffer);
  }
}
