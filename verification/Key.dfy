/** Object keys: src/plasma/key.rs. */
module Key {
  import opened Prim
  import SafeString

  datatype Location = Location(sequence: u32, flags: u16)

  datatype Uoid = Uoid(
    location: Location,
    loadMask: u8,
    objType: u16,
    objName: string,
    objId: u32,
    cloneId: u32,
    clonePlayerId: u32)

  const INVALID := Uoid(Location(0xFFFF_FFFF, 0), 0xFF, 0, "", 0, 0, 0)

  predicate HasCloneIds(u: Uoid) {
    u.cloneId != 0 || u.clonePlayerId != 0
  }

  /** The contents byte: clone ids in bit 0, a load mask in bit 1. */
  function Contents(u: Uoid): u8 {
    (if HasCloneIds(u) then 1 else 0) + (if u.loadMask != 0xFF then 2 else 0)
  }

  function LocationBytes(l: Location): bytes {
    U32Bytes(l.sequence) + U16Bytes(l.flags)
  }

  function MaskBytes(u: Uoid): bytes {
    if u.loadMask != 0xFF then [u.loadMask] else []
  }

  function CloneBytes(u: Uoid): bytes {
    if HasCloneIds(u) then U32Bytes(u.cloneId) + U32Bytes(u.clonePlayerId) else []
  }

  function WriteUoid(u: Uoid): Result<bytes> {
    var name :- SafeString.Write(u.objName, SafeString.AsLatin1);
    Ok([Contents(u)] + LocationBytes(u.location)
       + (MaskBytes(u) + U16Bytes(u.objType) + U32Bytes(u.objId)) + name + CloneBytes(u))
  }

  function ReadLocation(s: bytes): Parsed<Location> {
    var (sequence, s1) :- ReadU32(s);
    var (flags, s2) :- ReadU16(s1);
    Done(Location(sequence, flags), s2)
  }

  function ReadMask(s: bytes, contents: u8): Parsed<u8> {
    if contents / 2 % 2 == 1 then ReadU8(s) else Done(0xFF, s)
  }

  function ReadCloneIds(s: bytes, contents: u8): Parsed<(u32, u32)> {
    if contents % 2 == 1 then
      var (id, s1) :- ReadU32(s);
      var (player, s2) :- ReadU32(s1);
      Done((id, player), s2)
    else Done((0, 0), s)
  }

  function ReadUoid(s: bytes): Parsed<Uoid> {
    var (contents, s1) :- ReadU8(s);
    var (location, s2) :- ReadLocation(s1);
    var (mask, s3) :- ReadMask(s2, contents);
    var (objType, s4) :- ReadU16(s3);
    var (objId, s5) :- ReadU32(s4);
    var (name, s6) :- SafeString.Read(s5, SafeString.AsLatin1);
    var (clone, s7) :- ReadCloneIds(s6, contents);
    Done(Uoid(location, mask, objType, name, objId, clone.0, clone.1), s7)
  }

  lemma UoidShrinks(s: bytes)
    ensures ReadUoid(s).Done? ==> |ReadUoid(s).rest| < |s|
  {
    hide SafeString.Read;
    if ReadUoid(s).Done? {
      var s5 := ReadU32(ReadU16(ReadMask(ReadLocation(s[1..]).rest, s[0]).rest).rest).rest;
      SafeString.ReadShrinks(s5, SafeString.AsLatin1);
    }
  }

  predicate Survives(u: Uoid) {
    SafeString.Survives(u.objName, SafeString.AsLatin1)
  }

  lemma ReadsLocation(l: Location, rest: bytes)
    ensures ReadLocation(LocationBytes(l) + rest) == Done(l, rest)
  {
    Cat2(U32Bytes(l.sequence), U16Bytes(l.flags), rest);
    ReadsU32(l.sequence, U16Bytes(l.flags) + rest);
    ReadsU16(l.flags, rest);
  }

  lemma ReadsMask(u: Uoid, rest: bytes)
    ensures ReadMask(MaskBytes(u) + rest, Contents(u)) == Done(u.loadMask, rest)
  {
    assert [] + rest == rest;
  }

  lemma ReadsCloneIds(u: Uoid, rest: bytes)
    ensures ReadCloneIds(CloneBytes(u) + rest, Contents(u)) == Done((u.cloneId, u.clonePlayerId), rest)
  {
    hide U32Bytes, ReadU32;
    if HasCloneIds(u) {
      Cat2(U32Bytes(u.cloneId), U32Bytes(u.clonePlayerId), rest);
      ReadsU32(u.cloneId, U32Bytes(u.clonePlayerId) + rest);
      ReadsU32(u.clonePlayerId, rest);
    } else {
      assert [] + rest == rest;
    }
  }

  /** A key comes back if and only if its object name does. */
  lemma UoidRoundTrip(u: Uoid, rest: bytes)
    requires WriteUoid(u).Ok?
    ensures var r := ReadUoid(WriteUoid(u).value + rest);
            r.Done? && r.rest == rest && (r.value == u <==> Survives(u))
  {
    hide SafeString.Write, SafeString.Read, SafeString.Survives, U32Bytes, U16Bytes, ReadU16, ReadU32, LocationBytes;
    var name := SafeString.Write(u.objName, SafeString.AsLatin1).value;
    var tail4 := CloneBytes(u) + rest;
    var tail3 := name + tail4;
    var ids := MaskBytes(u) + U16Bytes(u.objType) + U32Bytes(u.objId);
    Cat5([Contents(u)], LocationBytes(u.location), ids, name, CloneBytes(u), rest);
    Cat3(MaskBytes(u), U16Bytes(u.objType), U32Bytes(u.objId), tail3);
    ReadsU8(Contents(u), LocationBytes(u.location) + (ids + tail3));
    ReadsLocation(u.location, ids + tail3);
    ReadsMask(u, U16Bytes(u.objType) + (U32Bytes(u.objId) + tail3));
    ReadsU16(u.objType, U32Bytes(u.objId) + tail3);
    ReadsU32(u.objId, tail3);
    SafeString.RoundTrip(u.objName, SafeString.AsLatin1, tail4);
    ReadsCloneIds(u, rest);
  }

  // ----- Key: an optional object id -----

  function WriteKey(k: Option<Uoid>): Result<bytes> {
    match k
    case None => Ok([0])
    case Some(u) => var b :- WriteUoid(u); Ok([1] + b)
  }

  function ReadKey(s: bytes): Parsed<Option<Uoid>> {
    var (present, s1) :- ReadU8(s);
    if present != 0 then
      var (u, s2) :- ReadUoid(s1);
      Done(Some(u), s2)
    else Done(None, s1)
  }

  predicate KeySurvives(k: Option<Uoid>) {
    k.Some? ==> Survives(k.value)
  }

  /** A key that was written is read completely, and as itself if and only if it
      survives. */
  lemma KeyRoundTrip(k: Option<Uoid>, rest: bytes)
    requires WriteKey(k).Ok?
    ensures var r := ReadKey(WriteKey(k).value + rest);
            r.Done? && r.rest == rest && (r.value == k <==> KeySurvives(k))
  {
    hide WriteUoid, ReadUoid, Survives;
    if k.Some? {
      var b := WriteUoid(k.value).value;
      Cat2([1], b, rest);
      ReadsU8(1, b + rest);
      UoidRoundTrip(k.value, rest);
    } else {
      ReadsU8(0, rest);
    }
  }
}
