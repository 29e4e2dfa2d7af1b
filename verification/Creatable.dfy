/** Trees of creatables: src/plasma/factory.rs, the messages under
    src/plasma/messages and src/plasma/net_common/generic_value.rs.
    Floats are kept as their bit patterns. */
module Creatable {
  import opened Prim
  import Key
  import BitVector
  import SafeString

  // ===== data =====

  datatype Message = Message(
    sender: Option<Key.Uoid>,
    receivers: seq<Option<Key.Uoid>>,
    timestamp: u64,
    bcastFlags: u32)

  datatype AnimParams = AnimParams(
    begin: u32, end: u32, loopEnd: u32, loopBegin: u32,
    speed: u32, speedChangeRate: u32, time: u32)

  datatype GenericType =
    | Int(i: i32) | Float(f: u32) | Bool(b: bool) | Str(s: string)
    | Char(c: u8) | Any(s: string) | UInt(u: u32) | Double(d: u64) | Nothing

  datatype Creatable =
    | MessageWithCallbacks(base: Message, callbacks: seq<Creatable>)
    | AnimCmdMsg(base: Message, callbacks: seq<Creatable>, cmdBits: seq<u32>, params: AnimParams,
                 animName: string, loopName: string)
    | LinkingMgrMsg(base: Message, contentFlags: seq<u32>, cmd: u8, args: CreatableList)
    | GenericValue(value: GenericType)

  datatype CreatableList = CreatableList(flags: u8, items: seq<Item>)

  datatype Item = Item(id: u16, creatable: Creatable)

  const DEFAULT_LIST := CreatableList(1, [])

  const HAVE_COMMAND := 0
  const HAVE_ARGS := 1
  const COMPRESS_THRESHOLD := 256

  /** The zlib codec the library supplies. */
  datatype Zlib = Zlib(deflate: bytes -> bytes, inflate: bytes -> Option<bytes>)

  ghost predicate Lossless(z: Zlib) {
    forall b: bytes :: z.inflate(z.deflate(b)) == Some(b)
  }

  function ClassId(c: Creatable): u16 {
    match c
    case AnimCmdMsg(_, _, _, _, _, _) => 0x0206
    case MessageWithCallbacks(_, _) => 0x0283
    case LinkingMgrMsg(_, _, _, _) => 0x034B
    case GenericValue(_) => 0x038C
  }

  const NIL_CLASS: u16 := 0x8000

  /** `have_interface(ClassID::Message)` */
  predicate IsMessage(c: Creatable) {
    !c.GenericValue?
  }

  // ===== the message base =====

  function WriteKeys(ks: seq<Option<Key.Uoid>>): Result<bytes> {
    if ks == [] then Ok([])
    else
      var init :- WriteKeys(ks[..|ks| - 1]);
      var last :- Key.WriteKey(ks[|ks| - 1]);
      Ok(init + last)
  }

  function ReadKeys(s: bytes, n: nat): Parsed<seq<Option<Key.Uoid>>> {
    if n == 0 then Done([], s)
    else
      var (init, s1) :- ReadKeys(s, n - 1);
      var (last, s2) :- Key.ReadKey(s1);
      Done(init + [last], s2)
  }

  function WriteMessage(m: Message): Result<bytes> {
    var sender :- Key.WriteKey(m.sender);
    if |m.receivers| >= 0x1_0000_0000 then Err(TooLarge)
    else
      var receivers :- WriteKeys(m.receivers);
      Ok(sender + U32Bytes(|m.receivers|) + receivers + U64Bytes(m.timestamp) + U32Bytes(m.bcastFlags))
  }

  function ReadMessage(s: bytes): Parsed<Message> {
    var (sender, s1) :- Key.ReadKey(s);
    var (count, s2) :- ReadU32(s1);
    var (receivers, s3) :- ReadKeys(s2, count);
    var (timestamp, s4) :- ReadU64(s3);
    var (flags, s5) :- ReadU32(s4);
    Done(Message(sender, receivers, timestamp, flags), s5)
  }

  predicate MessageSurvives(m: Message) {
    Key.KeySurvives(m.sender) && forall i :: 0 <= i < |m.receivers| ==> Key.KeySurvives(m.receivers[i])
  }

  lemma {:induction false} KeysRoundTrip(ks: seq<Option<Key.Uoid>>, rest: bytes)
    requires WriteKeys(ks).Ok?
    ensures var r := ReadKeys(WriteKeys(ks).value + rest, |ks|);
            r.Done? && r.rest == rest && (r.value == ks <==> forall i :: 0 <= i < |ks| ==> Key.KeySurvives(ks[i]))
  {
    hide Key.WriteKey, Key.ReadKey, Key.KeySurvives;
    if ks != [] {
      var init, last := ks[..|ks| - 1], ks[|ks| - 1];
      var a, b := WriteKeys(init).value, Key.WriteKey(last).value;
      Cat2(a, b, rest);
      KeysRoundTrip(init, b + rest);
      Key.KeyRoundTrip(last, rest);
      assert init + [last] == ks;
    } else {
      assert WriteKeys(ks).value + rest == rest;
    }
  }

  lemma MessageRoundTrip(m: Message, rest: bytes)
    requires WriteMessage(m).Ok?
    ensures var r := ReadMessage(WriteMessage(m).value + rest);
            r.Done? && r.rest == rest && (r.value == m <==> MessageSurvives(m))
  {
    hide Key.WriteKey, Key.ReadKey, Key.KeySurvives, WriteKeys, ReadKeys, U32Bytes, U64Bytes, ReadU32, ReadU64;
    var sender, receivers := Key.WriteKey(m.sender).value, WriteKeys(m.receivers).value;
    var n, time, flags := U32Bytes(|m.receivers|), U64Bytes(m.timestamp), U32Bytes(m.bcastFlags);
    Cat5(sender, n, receivers, time, flags, rest);
    Key.KeyRoundTrip(m.sender, n + (receivers + (time + (flags + rest))));
    ReadsU32(|m.receivers|, receivers + (time + (flags + rest)));
    KeysRoundTrip(m.receivers, time + (flags + rest));
    ReadsU64(m.timestamp, flags + rest);
    ReadsU32(m.bcastFlags, rest);
  }

  // ===== generic values =====

  function WriteGeneric(v: GenericType): Result<bytes> {
    match v
    case Int(i) => Ok([0] + U32Bytes(I32Bits(i)))
    case Float(f) => Ok([1] + U32Bytes(f))
    case Bool(b) => Ok([2] + [if b then 1 else 0])
    case Str(s) => var t :- SafeString.Write(s, SafeString.AsLatin1); Ok([3] + t)
    case Char(c) => Ok([4] + [c])
    case Any(s) => var t :- SafeString.Write(s, SafeString.AsLatin1); Ok([5] + t)
    case UInt(u) => Ok([6] + U32Bytes(u))
    case Double(d) => Ok([7] + U64Bytes(d))
    case Nothing => Ok([0xFF] + [])
  }

  function ReadGeneric(s: bytes): Parsed<GenericType> {
    var (id, s1) :- ReadU8(s);
    match id
    case 0 => var (x, s2) :- ReadU32(s1); Done(Int(BitsI32(x)), s2)
    case 1 => var (x, s2) :- ReadU32(s1); Done(Float(x), s2)
    case 2 => var (x, s2) :- ReadU8(s1); Done(Bool(x != 0), s2)
    case 3 => var (x, s2) :- SafeString.Read(s1, SafeString.AsLatin1); Done(Str(x), s2)
    case 4 => var (x, s2) :- ReadU8(s1); Done(Char(x), s2)
    case 5 => var (x, s2) :- SafeString.Read(s1, SafeString.AsLatin1); Done(Any(x), s2)
    case 6 => var (x, s2) :- ReadU32(s1); Done(UInt(x), s2)
    case 7 => var (x, s2) :- ReadU64(s1); Done(Double(x), s2)
    case 0xFF => Done(Nothing, s1)
    case _ => Fail(Malformed)
  }

  predicate GenericSurvives(v: GenericType) {
    (v.Str? || v.Any?) ==> SafeString.Survives(v.s, SafeString.AsLatin1)
  }

  /** A value that was written is read completely, and as itself if and only if it
      survives. */
  lemma GenericRoundTrip(v: GenericType, rest: bytes)
    requires WriteGeneric(v).Ok?
    ensures var r := ReadGeneric(WriteGeneric(v).value + rest);
            r.Done? && r.rest == rest && (r.value == v <==> GenericSurvives(v))
  {
    hide SafeString.Write, SafeString.Read, SafeString.Survives, SafeString.Returned, U32Bytes, U64Bytes, ReadU32,
      ReadU64;
    if v.Str? || v.Any? {
      GenericText(v, rest);
    } else {
      GenericNumber(v, rest);
    }
  }

  lemma GenericText(v: GenericType, rest: bytes)
    requires (v.Str? || v.Any?) && WriteGeneric(v).Ok?
    ensures var r := ReadGeneric(WriteGeneric(v).value + rest);
            r.Done? && r.rest == rest && (r.value == v <==> GenericSurvives(v))
  {
    hide SafeString.Write, SafeString.Read, SafeString.Survives, SafeString.Returned, U32Bytes, U64Bytes, ReadU32,
      ReadU64;
    var id: u8 := if v.Str? then 3 else 5;
    var t := SafeString.Write(v.s, SafeString.AsLatin1).value;
    Cat2([id], t, rest);
    ReadsU8(id, t + rest);
    SafeString.RoundTrip(v.s, SafeString.AsLatin1, rest);
  }

  lemma GenericNumber(v: GenericType, rest: bytes)
    requires !v.Str? && !v.Any?
    ensures WriteGeneric(v).Ok? && ReadGeneric(WriteGeneric(v).value + rest) == Done(v, rest)
  {
    hide SafeString.Write, SafeString.Read, U32Bytes, U64Bytes, ReadU32, ReadU64;
    var b := WriteGeneric(v).value;
    assert b == [b[0]] + b[1..];
    Cat2([b[0]], b[1..], rest);
    if v.Int? {
      ReadsU32(I32Bits(v.i), rest);
    } else if v.Float? {
      ReadsU32(v.f, rest);
    } else if v.Bool? {
      ReadsU8(if v.b then 1 else 0, rest);
    } else if v.Char? {
      ReadsU8(v.c, rest);
    } else if v.UInt? {
      ReadsU32(v.u, rest);
    } else if v.Double? {
      ReadsU64(v.d, rest);
    } else {
      assert [] + rest == rest;
    }
  }

  // ===== writing a tree =====

  function ParamBytes(p: AnimParams): bytes {
    U32Bytes(p.begin) + U32Bytes(p.end) + U32Bytes(p.loopEnd) + U32Bytes(p.loopBegin)
    + (U32Bytes(p.speed) + U32Bytes(p.speedChangeRate) + U32Bytes(p.time))
  }

  /** `stream_write` of the creatable itself, without its class id. */
  function WriteBody(z: Zlib, c: Creatable): Result<bytes>
    decreases c, 1, 0
  {
    match c
    case MessageWithCallbacks(base, callbacks) => WriteWithCallbacks(z, base, callbacks)
    case AnimCmdMsg(base, callbacks, cmdBits, params, animName, loopName) =>
      var head :- WriteWithCallbacks(z, base, callbacks);
      var cmd :- BitVector.Write(cmdBits);
      var anim :- SafeString.Write(animName, SafeString.AsLatin1);
      var loop :- SafeString.Write(loopName, SafeString.AsLatin1);
      Ok(head + cmd + ParamBytes(params) + anim + loop)
    case LinkingMgrMsg(base, flags, cmd, args) =>
      var head :- WriteMessage(base);
      var bits :- BitVector.Write(flags);
      var list :- if BitVector.Get(flags, HAVE_ARGS) then WriteList(z, args) else Ok([]);
      Ok(head + bits + (if BitVector.Get(flags, HAVE_COMMAND) then [cmd] else []) + list)
    case GenericValue(value) => WriteGeneric(value)
  }

  function WriteWithCallbacks(z: Zlib, base: Message, callbacks: seq<Creatable>): Result<bytes>
    decreases callbacks, 3, 0
  {
    if |callbacks| >= 0x1_0000_0000 then Err(TooLarge)
    else
      var head :- WriteMessage(base);
      var list :- WriteAll(z, callbacks);
      Ok(head + U32Bytes(|callbacks|) + list)
  }

  function WriteAll(z: Zlib, cs: seq<Creatable>): Result<bytes>
    decreases cs, 2, 0
  {
    if cs == [] then Ok([])
    else
      var init :- WriteAll(z, cs[..|cs| - 1]);
      var last :- WriteCreatable(z, cs[|cs| - 1]);
      Ok(init + last)
  }

  /** `Factory::write_creatable` of a present object. */
  function WriteCreatable(z: Zlib, c: Creatable): Result<bytes>
    decreases c, 2, 0
  {
    var body :- WriteBody(z, c);
    Ok(U16Bytes(ClassId(c)) + body)
  }

  function WriteItems(z: Zlib, items: seq<Item>): Result<bytes>
    decreases items, 2, 0
  {
    if items == [] then Ok([])
    else
      var init :- WriteItems(z, items[..|items| - 1]);
      var last :- WriteItem(z, items[|items| - 1]);
      Ok(init + last)
  }

  function WriteItem(z: Zlib, item: Item): Result<bytes>
    decreases item, 3, 0
  {
    var body :- WriteCreatable(z, item.creatable);
    Ok(U16Bytes(item.id) + body)
  }

  function WithoutCompressed(flags: u8): u8 {
    if flags / 2 % 2 == 1 then flags - 2 else flags
  }

  /** The stored form of an item buffer: compressed when that is asked for, worth
      trying and an improvement. */
  function Pack(z: Zlib, flags: u8, buffer: bytes): bytes
    requires |buffer| < 0x1_0000_0000
  {
    var f := WithoutCompressed(flags);
    var packed := z.deflate(buffer);
    if f % 2 == 1 && |buffer| >= COMPRESS_THRESHOLD && |packed| < |buffer| then
      [f + 2] + U32Bytes(|buffer|) + U32Bytes(|packed|) + packed
    else
      [f] + U32Bytes(|buffer|) + buffer
  }

  function WriteList(z: Zlib, l: CreatableList): Result<bytes>
    decreases l, 1, 0
  {
    if |l.items| >= 0x1_0000 then Err(TooLarge)
    else
      var items :- WriteItems(z, l.items);
      var buffer := U16Bytes(|l.items|) + items;
      if |buffer| >= 0x1_0000_0000 then Err(TooLarge) else Ok(Pack(z, l.flags, buffer))
  }

  // ===== reading a tree =====

  function ReadParams(s: bytes): Parsed<AnimParams> {
    var (begin, s1) :- ReadU32(s);
    var (end, s2) :- ReadU32(s1);
    var (loopEnd, s3) :- ReadU32(s2);
    var (loopBegin, s4) :- ReadU32(s3);
    var (speed, s5) :- ReadU32(s4);
    var (rate, s6) :- ReadU32(s5);
    var (time, s7) :- ReadU32(s6);
    Done(AnimParams(begin, end, loopEnd, loopBegin, speed, rate, time), s7)
  }

  /** `Factory::read_creatable_as`.  Decompression can make input grow, so nesting is
      bounded by `depth` instead of by the length of the stream. */
  function ReadAs(z: Zlib, s: bytes, id: u16, depth: nat): Parsed<Option<Creatable>>
    decreases depth, 0, 0
  {
    if id == NIL_CLASS then Done(None, s)
    else if id == 0x038C then
      var (v, s1) :- ReadGeneric(s);
      Done(Some(GenericValue(v)), s1)
    else if depth == 0 then
      if id == 0x0206 || id == 0x0283 || id == 0x034B then Fail(StackOverflow) else Fail(Malformed)
    else if id == 0x0283 then
      var (m, s1) :- ReadWithCallbacks(z, s, depth - 1);
      Done(Some(MessageWithCallbacks(m.0, m.1)), s1)
    else if id == 0x0206 then
      var (m, s1) :- ReadWithCallbacks(z, s, depth - 1);
      var (cmd, s2) :- BitVector.Read(s1);
      var (params, s3) :- ReadParams(s2);
      var (anim, s4) :- SafeString.Read(s3, SafeString.AsLatin1);
      var (loop, s5) :- SafeString.Read(s4, SafeString.AsLatin1);
      Done(Some(AnimCmdMsg(m.0, m.1, cmd, params, anim, loop)), s5)
    else if id == 0x034B then
      var (m, s1) :- ReadMessage(s);
      var (flags, s2) :- BitVector.Read(s1);
      var (cmd, s3) :- if BitVector.Get(flags, HAVE_COMMAND) then ReadU8(s2) else Done(0, s2);
      var (args, s4) :- if BitVector.Get(flags, HAVE_ARGS) then ReadList(z, s3, depth - 1) else Done(DEFAULT_LIST, s3);
      Done(Some(LinkingMgrMsg(m, flags, cmd, args)), s4)
    else Fail(Malformed)
  }

  function ReadCreatable(z: Zlib, s: bytes, depth: nat): Parsed<Option<Creatable>>
    decreases depth, 1, 0
  {
    var (id, s1) :- ReadU16(s);
    ReadAs(z, s1, id, depth)
  }

  function ReadWithCallbacks(z: Zlib, s: bytes, depth: nat): Parsed<(Message, seq<Creatable>)>
    decreases depth, 3, 0
  {
    var (base, s1) :- ReadMessage(s);
    var (n, s2) :- ReadU32(s1);
    var (cs, s3) :- ReadCallbacks(z, s2, n, depth);
    Done((base, cs), s3)
  }

  function ReadCallbacks(z: Zlib, s: bytes, n: nat, depth: nat): Parsed<seq<Creatable>>
    decreases depth, 2, n
  {
    if n == 0 then Done([], s)
    else
      var (init, s1) :- ReadCallbacks(z, s, n - 1, depth);
      var (last, s2) :- ReadCreatable(z, s1, depth);
      if last.Some? && IsMessage(last.value) then Done(init + [last.value], s2) else Fail(Malformed)
  }

  function ReadItems(z: Zlib, s: bytes, n: nat, depth: nat): Parsed<seq<Item>>
    decreases depth, 2, n
  {
    if n == 0 then Done([], s)
    else
      var (init, s1) :- ReadItems(z, s, n - 1, depth);
      var (last, s2) :- ReadItem(z, s1, depth);
      Done(init + [last], s2)
  }

  function ReadItem(z: Zlib, s: bytes, depth: nat): Parsed<Item>
    decreases depth, 2, 0
  {
    var (id, s1) :- ReadU16(s);
    var (c, s2) :- ReadCreatable(z, s1, depth);
    if c.Some? then Done(Item(id, c.value), s2) else Fail(Malformed)
  }

  function Unpack(z: Zlib, s: bytes): Parsed<(u8, bytes)> {
    var (flags, s1) :- ReadU8(s);
    var (size, s2) :- ReadU32(s1);
    if flags / 2 % 2 == 1 then
      var (packedSize, s3) :- ReadU32(s2);
      var (packed, s4) :- ReadBytes(s3, packedSize);
      match z.inflate(packed)
      case None => Fail(Malformed)
      case Some(buffer) => if |buffer| != size then Fail(Malformed) else Done((flags - 2, buffer), s4)
    else
      var (buffer, s3) :- ReadBytes(s2, size);
      Done((flags, buffer), s3)
  }

  function ReadList(z: Zlib, s: bytes, depth: nat): Parsed<CreatableList>
    decreases depth, 3, 0
  {
    var (packed, s1) :- Unpack(z, s);
    var (n, b1) :- ReadU16(packed.1);
    var (items, _) :- ReadItems(z, b1, n, depth);
    Done(CreatableList(packed.0, items), s1)
  }

  // ===== the round trip =====

  /** What a tree must satisfy for its stream form to determine it: strings that come
      back, callbacks that are messages, and fields without a flag at their default. */
  predicate Survives(c: Creatable)
    decreases c, 0
  {
    match c
    case MessageWithCallbacks(base, callbacks) => MessageSurvives(base) && CallbacksSurvive(callbacks)
    case AnimCmdMsg(base, callbacks, _, _, animName, loopName) =>
      && MessageSurvives(base) && CallbacksSurvive(callbacks)
      && SafeString.Survives(animName, SafeString.AsLatin1)
      && SafeString.Survives(loopName, SafeString.AsLatin1)
    case LinkingMgrMsg(base, flags, cmd, args) =>
      && MessageSurvives(base)
      && (BitVector.Get(flags, HAVE_COMMAND) || cmd == 0)
      && (if BitVector.Get(flags, HAVE_ARGS) then ListSurvives(args) else args == DEFAULT_LIST)
    case GenericValue(value) => GenericSurvives(value)
  }

  predicate CallbacksSurvive(cs: seq<Creatable>)
    decreases cs, 1
  {
    forall i :: 0 <= i < |cs| ==> IsMessage(cs[i]) && Survives(cs[i])
  }

  predicate ItemsSurvive(items: seq<Item>)
    decreases items, 1
  {
    forall i :: 0 <= i < |items| ==> ItemSurvives(items[i])
  }

  predicate ItemSurvives(item: Item)
    decreases item, 2
  {
    Survives(item.creatable)
  }

  predicate ListSurvives(l: CreatableList)
    decreases l, 0
  {
    l.flags / 2 % 2 == 0 && ItemsSurvive(l.items)
  }

  /** How many messages enclose one another at the deepest point. */
  function Depth(c: Creatable): nat
    decreases c, 0
  {
    match c
    case MessageWithCallbacks(_, callbacks) => 1 + DepthAll(callbacks)
    case AnimCmdMsg(_, callbacks, _, _, _, _) => 1 + DepthAll(callbacks)
    case LinkingMgrMsg(_, _, _, args) => 1 + DepthItems(args.items)
    case GenericValue(_) => 0
  }

  function DepthAll(cs: seq<Creatable>): (d: nat)
    ensures forall i :: 0 <= i < |cs| ==> Depth(cs[i]) <= d
    decreases cs, 1
  {
    if cs == [] then 0
    else
      var a, b := DepthAll(cs[..|cs| - 1]), Depth(cs[|cs| - 1]);
      if a < b then b else a
  }

  function DepthItems(items: seq<Item>): (d: nat)
    ensures forall i :: 0 <= i < |items| ==> DepthItem(items[i]) <= d
    decreases items, 1
  {
    if items == [] then 0
    else
      var a, b := DepthItems(items[..|items| - 1]), DepthItem(items[|items| - 1]);
      if a < b then b else a
  }

  function DepthItem(item: Item): nat
    decreases item, 2
  {
    Depth(item.creatable)
  }

  lemma ParamsRoundTrip(p: AnimParams, rest: bytes)
    ensures ReadParams(ParamBytes(p) + rest) == Done(p, rest)
  {
    hide U32Bytes, ReadU32;
    var t2 := U32Bytes(p.speed) + U32Bytes(p.speedChangeRate) + U32Bytes(p.time);
    Cat5(U32Bytes(p.begin), U32Bytes(p.end), U32Bytes(p.loopEnd), U32Bytes(p.loopBegin), t2, rest);
    Cat3(U32Bytes(p.speed), U32Bytes(p.speedChangeRate), U32Bytes(p.time), rest);
    ReadsU32(p.begin, U32Bytes(p.end) + (U32Bytes(p.loopEnd) + (U32Bytes(p.loopBegin) + (t2 + rest))));
    ReadsU32(p.end, U32Bytes(p.loopEnd) + (U32Bytes(p.loopBegin) + (t2 + rest)));
    ReadsU32(p.loopEnd, U32Bytes(p.loopBegin) + (t2 + rest));
    ReadsU32(p.loopBegin, t2 + rest);
    ReadsU32(p.speed, U32Bytes(p.speedChangeRate) + (U32Bytes(p.time) + rest));
    ReadsU32(p.speedChangeRate, U32Bytes(p.time) + rest);
    ReadsU32(p.time, rest);
  }

  /** A list is stored compressed, which bit 1 of its first byte says, if and only if bit
      0 asks for it, it has 256 bytes or more, and compressed it has fewer. */
  lemma PackedIff(z: Zlib, flags: u8, buffer: bytes)
    requires |buffer| < 0x1_0000_0000
    ensures var b := Pack(z, flags, buffer);
            var compressed := flags % 2 == 1 && |buffer| >= 256 && |z.deflate(buffer)| < |buffer|;
            && b != [] && b[0] % 2 == flags % 2 && (b[0] / 2 % 2 == 1 <==> compressed)
            && b[1..5] == U32Bytes(|buffer|)
            && b[5..] == if compressed then U32Bytes(|z.deflate(buffer)|) + z.deflate(buffer) else buffer
  {
    hide U32Bytes;
    var b, packed := Pack(z, flags, buffer), z.deflate(buffer);
    assert WithoutCompressed(flags) % 2 == flags % 2 && WithoutCompressed(flags) / 2 % 2 == 0;
    if flags % 2 == 1 && |buffer| >= 256 && |packed| < |buffer| {
      assert b == [b[0]] + U32Bytes(|buffer|) + (U32Bytes(|packed|) + packed);
    }
  }

  /** The list's own record of being compressed is dropped; all else comes back. */
  lemma UnpackPack(z: Zlib, flags: u8, buffer: bytes, rest: bytes)
    requires Lossless(z) && |buffer| < 0x1_0000_0000
    ensures Unpack(z, Pack(z, flags, buffer) + rest) == Done((WithoutCompressed(flags), buffer), rest)
  {
    hide U32Bytes, ReadU32;
    var packed, size, f := z.deflate(buffer), U32Bytes(|buffer|), WithoutCompressed(flags);
    if f % 2 == 1 && |buffer| >= COMPRESS_THRESHOLD && |packed| < |buffer| {
      var packedSize := U32Bytes(|packed|);
      Cat4([f + 2], size, packedSize, packed, rest);
      ReadsU8(f + 2, size + (packedSize + (packed + rest)));
      ReadsU32(|buffer|, packedSize + (packed + rest));
      ReadsU32(|packed|, packed + rest);
      ReadsBytes(packed, rest);
    } else {
      Cat3([f], size, buffer, rest);
      ReadsU8(f, size + (buffer + rest));
      ReadsU32(|buffer|, buffer + rest);
      ReadsBytes(buffer, rest);
    }
  }

  /** Of the same class, if anything was read. */
  predicate SameClass(r: Parsed<Option<Creatable>>, c: Creatable) {
    r.Done? ==> r.value.Some? && ClassId(r.value.value) == ClassId(c)
  }

  /** Reading back what `write_creatable` wrote consumes exactly those bytes, and gives
      the same tree if and only if the tree survives and the depth bound admits it. */
  lemma {:induction false} RoundTrip(z: Zlib, c: Creatable, rest: bytes, depth: nat)
    requires Lossless(z) && WriteCreatable(z, c).Ok?
    ensures var r := ReadCreatable(z, WriteCreatable(z, c).value + rest, depth);
            SameClass(r, c) && Exact(r, Some(c), rest, Survives(c) && Depth(c) <= depth)
    decreases c, 2, 0
  {
    hide WriteBody, ReadAs, Survives, Depth, U16Bytes;
    var body := WriteBody(z, c).value;
    Cat2(U16Bytes(ClassId(c)), body, rest);
    ReadsU16(ClassId(c), body + rest);
    BodyRoundTrip(z, c, rest, depth);
  }

  lemma {:induction false} BodyRoundTrip(z: Zlib, c: Creatable, rest: bytes, depth: nat)
    requires Lossless(z) && WriteBody(z, c).Ok?
    ensures var r := ReadAs(z, WriteBody(z, c).value + rest, ClassId(c), depth);
            SameClass(r, c) && Exact(r, Some(c), rest, Survives(c) && Depth(c) <= depth)
    decreases c, 1, 0
  {
    hide WriteWithCallbacks, ReadWithCallbacks, WriteGeneric, ReadGeneric, GenericSurvives, MessageSurvives,
      CallbacksSurvive, ReadList, WriteList, ReadMessage, WriteMessage;
    match c
    case MessageWithCallbacks(base, callbacks) =>
      if depth > 0 {
        WithCallbacksRoundTrip(z, base, callbacks, rest, depth - 1);
      }
    case AnimCmdMsg(_, _, _, _, _, _) => AnimRoundTrip(z, c, rest, depth);
    case LinkingMgrMsg(_, _, _, _) => LinkingRoundTrip(z, c, rest, depth);
    case GenericValue(value) => GenericRoundTrip(value, rest);
  }

  lemma {:induction false} AnimRoundTrip(z: Zlib, c: Creatable, rest: bytes, depth: nat)
    requires c.AnimCmdMsg?
    requires Lossless(z) && WriteBody(z, c).Ok?
    ensures var r := ReadAs(z, WriteBody(z, c).value + rest, ClassId(c), depth);
            SameClass(r, c) && Exact(r, Some(c), rest, Survives(c) && Depth(c) <= depth)
    decreases c, 0, 0
  {
    hide WriteWithCallbacks, ReadWithCallbacks, BitVector.Write, BitVector.Read, SafeString.Write, SafeString.Read,
      SafeString.Survives, ParamBytes, ReadParams, MessageSurvives, CallbacksSurvive, DepthAll;
    var head, cmd := WriteWithCallbacks(z, c.base, c.callbacks).value, BitVector.Write(c.cmdBits).value;
    var anim := SafeString.Write(c.animName, SafeString.AsLatin1).value;
    var loop := SafeString.Write(c.loopName, SafeString.AsLatin1).value;
    var params := ParamBytes(c.params);
    Cat5(head, cmd, params, anim, loop, rest);
    if depth > 0 {
      WithCallbacksRoundTrip(z, c.base, c.callbacks, cmd + (params + (anim + (loop + rest))), depth - 1);
    }
    BitVector.RoundTrip(c.cmdBits, params + (anim + (loop + rest)));
    ParamsRoundTrip(c.params, anim + (loop + rest));
    SafeString.RoundTrip(c.animName, SafeString.AsLatin1, loop + rest);
    SafeString.RoundTrip(c.loopName, SafeString.AsLatin1, rest);
  }

  lemma {:induction false} LinkingRoundTrip(z: Zlib, c: Creatable, rest: bytes, depth: nat)
    requires c.LinkingMgrMsg?
    requires Lossless(z) && WriteBody(z, c).Ok?
    ensures var r := ReadAs(z, WriteBody(z, c).value + rest, ClassId(c), depth);
            SameClass(r, c) && Exact(r, Some(c), rest, Survives(c) && Depth(c) <= depth)
    decreases c, 0, 0
  {
    hide WriteMessage, ReadMessage, MessageSurvives, BitVector.Write, BitVector.Read, BitVector.Get, WriteList,
      ReadList, ListSurvives, DepthItems;
    var head, bits := WriteMessage(c.base).value, BitVector.Write(c.contentFlags).value;
    var cmd := if BitVector.Get(c.contentFlags, HAVE_COMMAND) then [c.cmd] else [];
    var list := if BitVector.Get(c.contentFlags, HAVE_ARGS) then WriteList(z, c.args).value else [];
    Cat4(head, bits, cmd, list, rest);
    MessageRoundTrip(c.base, bits + (cmd + (list + rest)));
    BitVector.RoundTrip(c.contentFlags, cmd + (list + rest));
    if cmd == [] {
      assert cmd + (list + rest) == list + rest;
    } else {
      ReadsU8(c.cmd, list + rest);
    }
    if BitVector.Get(c.contentFlags, HAVE_ARGS) {
      if depth > 0 {
        ListRoundTrip(z, c.args, rest, depth - 1);
      }
    } else {
      assert list + rest == rest;
      NoItems();
    }
  }

  lemma NoItems()
    ensures ItemsSurvive([]) && DepthItems([]) == 0
  {
  }

  lemma {:induction false} WithCallbacksRoundTrip(z: Zlib, base: Message, cs: seq<Creatable>, rest: bytes, depth: nat)
    requires Lossless(z) && WriteWithCallbacks(z, base, cs).Ok?
    ensures Exact(ReadWithCallbacks(z, WriteWithCallbacks(z, base, cs).value + rest, depth), (base, cs), rest,
                  MessageSurvives(base) && CallbacksSurvive(cs) && DepthAll(cs) <= depth)
    decreases cs, 4, 0
  {
    hide WriteMessage, ReadMessage, MessageSurvives, CallbacksSurvive, DepthAll, U32Bytes, ReadU32, WriteAll,
      ReadCallbacks;
    var head, n, list := WriteMessage(base).value, U32Bytes(|cs|), WriteAll(z, cs).value;
    Cat3(head, n, list, rest);
    MessageRoundTrip(base, n + (list + rest));
    ReadsU32(|cs|, list + rest);
    CallbacksRoundTrip(z, cs, rest, depth);
  }

  lemma {:induction false} CallbacksRoundTrip(z: Zlib, cs: seq<Creatable>, rest: bytes, depth: nat)
    requires Lossless(z) && WriteAll(z, cs).Ok?
    ensures Exact(ReadCallbacks(z, WriteAll(z, cs).value + rest, |cs|, depth), cs, rest,
                  CallbacksSurvive(cs) && DepthAll(cs) <= depth)
    ensures var r := ReadCallbacks(z, WriteAll(z, cs).value + rest, |cs|, depth); r.Done? ==> |r.value| == |cs|
    decreases cs, 3, 0
  {
    hide WriteCreatable, ReadCreatable, Survives, Depth, CallbacksSurvive, ClassId, IsMessage;
    if cs != [] {
      var init, last := cs[..|cs| - 1], cs[|cs| - 1];
      var a, b := WriteAll(z, init).value, WriteCreatable(z, last).value;
      Cat2(a, b, rest);
      CallbacksRoundTrip(z, init, b + rest, depth);
      RoundTrip(z, last, rest, depth);
      assert init + [last] == cs;
      CallbacksSplit(cs);
      var r, l := ReadCallbacks(z, a + (b + rest), |init|, depth), ReadCreatable(z, b + rest, depth);
      ExactAppend(r, l, init, last, b + rest, rest, CallbacksSurvive(init) && DepthAll(init) <= depth,
                  Survives(last) && Depth(last) <= depth);
    } else {
      assert WriteAll(z, cs).value + rest == rest;
      NoCallbacks();
    }
  }

  lemma NoCallbacks()
    ensures CallbacksSurvive([])
  {
  }

  lemma CallbacksSplit(cs: seq<Creatable>)
    requires cs != []
    ensures var init, last := cs[..|cs| - 1], cs[|cs| - 1];
            CallbacksSurvive(cs) <==> CallbacksSurvive(init) && IsMessage(last) && Survives(last)
  {
    hide IsMessage, Survives;
    var init := cs[..|cs| - 1];
    if CallbacksSurvive(init) && IsMessage(cs[|cs| - 1]) && Survives(cs[|cs| - 1]) {
      forall i | 0 <= i < |cs|
        ensures IsMessage(cs[i]) && Survives(cs[i])
      {
        assert i < |init| ==> cs[i] == init[i];
      }
    }
  }

  /** The step of a loop that reads one more element. */
  lemma ExactAppend(r: Parsed<seq<Creatable>>, l: Parsed<Option<Creatable>>, init: seq<Creatable>, last: Creatable,
                    middle: bytes, rest: bytes, initOk: bool, lastOk: bool)
    requires Exact(r, init, middle, initOk) && Exact(l, Some(last), rest, lastOk) && SameClass(l, last)
    requires r.Done? ==> |r.value| == |init|
    ensures if r.Done? && l.Done? then
              && IsMessage(l.value.value) == IsMessage(last)
              && Exact(Done(r.value + [l.value.value], l.rest), init + [last], rest, initOk && lastOk)
            else !(initOk && lastOk)
  {
    if r.Done? && l.Done? {
      SplitEqual(r.value, l.value.value, init, last);
    }
  }

  lemma {:induction false} ItemsRoundTrip(z: Zlib, items: seq<Item>, rest: bytes, depth: nat)
    requires Lossless(z) && WriteItems(z, items).Ok?
    ensures Exact(ReadItems(z, WriteItems(z, items).value + rest, |items|, depth), items, rest,
                  ItemsSurvive(items) && DepthItems(items) <= depth)
    ensures var r := ReadItems(z, WriteItems(z, items).value + rest, |items|, depth); r.Done? ==> |r.value| == |items|
    decreases items, 3, 0
  {
    hide WriteItem, ReadItem, ItemSurvives, DepthItem, ItemsSurvive;
    if items != [] {
      var init, last := items[..|items| - 1], items[|items| - 1];
      var a, b := WriteItems(z, init).value, WriteItem(z, last).value;
      Cat2(a, b, rest);
      ItemsRoundTrip(z, init, b + rest, depth);
      ItemRoundTrip(z, last, rest, depth);
      assert init + [last] == items;
      ItemsSplit(items);
      var r := ReadItems(z, a + (b + rest), |init|, depth);
      if r.Done? {
        var l := ReadItem(z, b + rest, depth);
        if l.Done? {
          SplitEqual(r.value, l.value, init, last);
        }
      }
    } else {
      assert WriteItems(z, items).value + rest == rest;
      NoItems();
    }
  }

  lemma ItemsSplit(items: seq<Item>)
    requires items != []
    ensures ItemsSurvive(items) <==> ItemsSurvive(items[..|items| - 1]) && ItemSurvives(items[|items| - 1])
  {
    hide ItemSurvives;
    var init := items[..|items| - 1];
    if ItemsSurvive(init) && ItemSurvives(items[|items| - 1]) {
      forall i | 0 <= i < |items|
        ensures ItemSurvives(items[i])
      {
        assert i < |init| ==> items[i] == init[i];
      }
    }
  }

  lemma {:induction false} ItemRoundTrip(z: Zlib, item: Item, rest: bytes, depth: nat)
    requires Lossless(z) && WriteItem(z, item).Ok?
    ensures Exact(ReadItem(z, WriteItem(z, item).value + rest, depth), item, rest,
                  ItemSurvives(item) && DepthItem(item) <= depth)
    decreases item, 4, 0
  {
    hide WriteCreatable, ReadCreatable, Survives, Depth, U16Bytes, ReadU16;
    var id, body := U16Bytes(item.id), WriteCreatable(z, item.creatable).value;
    Cat2(id, body, rest);
    ReadsU16(item.id, body + rest);
    RoundTrip(z, item.creatable, rest, depth);
  }

  lemma {:induction false} ListRoundTrip(z: Zlib, l: CreatableList, rest: bytes, depth: nat)
    requires Lossless(z) && WriteList(z, l).Ok?
    ensures Exact(ReadList(z, WriteList(z, l).value + rest, depth), l, rest,
                  ListSurvives(l) && DepthItems(l.items) <= depth)
    decreases l, 0, 0
  {
    hide WriteItems, ReadItems, ItemsSurvive, DepthItems, U16Bytes, ReadU16, Pack, Unpack, Lossless;
    var items := WriteItems(z, l.items).value;
    var n := U16Bytes(|l.items|);
    UnpackPack(z, l.flags, n + items, rest);
    ReadsU16(|l.items|, items);
    ItemsRoundTrip(z, l.items, [], depth);
    assert items + [] == items;
  }

  // ===== the depth bound =====

  /** A larger bound changes no outcome but the overflow itself. */
  lemma {:induction false} DepthIrrelevant(z: Zlib, s: bytes, id: u16, d: nat)
    ensures ReadAs(z, s, id, d) != Fail(StackOverflow) ==> ReadAs(z, s, id, d + 1) == ReadAs(z, s, id, d)
    decreases d, 0, 1
  {
    hide ReadGeneric, ReadMessage, BitVector.Read, BitVector.Get, SafeString.Read, ReadParams, ReadWithCallbacks,
      ReadList, ReadU8;
    if d > 0 {
      if id == 0x0283 || id == 0x0206 {
        WithCallbacksDepth(z, s, d - 1);
      } else if id == 0x034B {
        LinkingDepth(z, s, d);
      }
    }
  }

  lemma {:induction false} LinkingDepth(z: Zlib, s: bytes, d: nat)
    requires d > 0
    ensures ReadAs(z, s, 0x034B, d) != Fail(StackOverflow) ==> ReadAs(z, s, 0x034B, d + 1) == ReadAs(z, s, 0x034B, d)
    decreases d, 0, 0
  {
    hide ReadGeneric, ReadMessage, BitVector.Read, BitVector.Get, ReadList;
    var m := ReadMessage(s);
    if m.Done? {
      var flags := BitVector.Read(m.rest);
      if flags.Done? {
        var cmd := if BitVector.Get(flags.value, HAVE_COMMAND) then ReadU8(flags.rest) else Done(0, flags.rest);
        if cmd.Done? {
          ListDepth(z, cmd.rest, d - 1);
        }
      }
    }
  }

  lemma {:induction false} WithCallbacksDepth(z: Zlib, s: bytes, d: nat)
    ensures var r := ReadWithCallbacks(z, s, d); r != Fail(StackOverflow) ==> ReadWithCallbacks(z, s, d + 1) == r
    decreases d, 3, 0
  {
    hide ReadMessage, ReadCallbacks, ReadU32;
    var head := ReadMessage(s);
    if head.Done? {
      var n := ReadU32(head.rest);
      if n.Done? {
        CallbacksDepth(z, n.rest, n.value, d);
      }
    }
  }

  lemma {:induction false} CallbacksDepth(z: Zlib, s: bytes, n: nat, d: nat)
    ensures var r := ReadCallbacks(z, s, n, d); r != Fail(StackOverflow) ==> ReadCallbacks(z, s, n, d + 1) == r
    decreases d, 2, n
  {
    hide ReadAs, ReadU16, IsMessage;
    if n > 0 {
      CallbacksDepth(z, s, n - 1, d);
      var init := ReadCallbacks(z, s, n - 1, d);
      if init.Done? {
        var id := ReadU16(init.rest);
        if id.Done? {
          DepthIrrelevant(z, id.rest, id.value, d);
        }
      }
    }
  }

  lemma {:induction false} ItemsDepth(z: Zlib, s: bytes, n: nat, d: nat)
    ensures ReadItems(z, s, n, d) != Fail(StackOverflow) ==> ReadItems(z, s, n, d + 1) == ReadItems(z, s, n, d)
    decreases d, 2, n
  {
    hide ReadItem;
    if n > 0 {
      ItemsDepth(z, s, n - 1, d);
      var init := ReadItems(z, s, n - 1, d);
      if init.Done? {
        ItemDepth(z, init.rest, d);
      }
    }
  }

  lemma {:induction false} ItemDepth(z: Zlib, s: bytes, d: nat)
    ensures ReadItem(z, s, d) != Fail(StackOverflow) ==> ReadItem(z, s, d + 1) == ReadItem(z, s, d)
    decreases d, 1, 0
  {
    hide ReadAs, ReadU16;
    var id := ReadU16(s);
    if id.Done? {
      var classId := ReadU16(id.rest);
      if classId.Done? {
        DepthIrrelevant(z, classId.rest, classId.value, d);
      }
    }
  }

  lemma {:induction false} ListDepth(z: Zlib, s: bytes, d: nat)
    ensures ReadList(z, s, d) != Fail(StackOverflow) ==> ReadList(z, s, d + 1) == ReadList(z, s, d)
    decreases d, 3, 0
  {
    hide Unpack, ReadU16, ReadItems;
    var packed := Unpack(z, s);
    if packed.Done? {
      var n := ReadU16(packed.value.1);
      if n.Done? {
        ItemsDepth(z, n.rest, n.value, d);
      }
    }
  }

  // ===== network safety =====

  /** `make_net_safe`, which only examines; a creatable without the interface passes. */
  predicate NetSafe(c: Creatable)
    decreases c, 0
  {
    match c
    case MessageWithCallbacks(_, callbacks) => AllNetSafe(callbacks)
    case AnimCmdMsg(_, callbacks, _, _, _, _) => AllNetSafe(callbacks)
    case LinkingMgrMsg(_, _, _, _) => false
    case GenericValue(_) => true
  }

  predicate AllNetSafe(cs: seq<Creatable>)
    decreases cs, 1
  {
    forall i :: 0 <= i < |cs| ==> NetSafe(cs[i])
  }

  function CallbacksOf(c: Creatable): seq<Creatable> {
    if c.MessageWithCallbacks? || c.AnimCmdMsg? then c.callbacks else []
  }

  /** The creatable reached from `c` by following callbacks at these positions. */
  function Reached(c: Creatable, path: seq<nat>): Option<Creatable> {
    if path == [] then Some(c)
    else if path[0] < |CallbacksOf(c)| then Reached(CallbacksOf(c)[path[0]], path[1..])
    else None
  }

  ghost predicate NoLinkReached(c: Creatable) {
    forall path: seq<nat> :: Reached(c, path).Some? ==> !Reached(c, path).value.LinkingMgrMsg?
  }

  lemma {:induction false} SafeReachesNoLink(c: Creatable, path: seq<nat>)
    requires NetSafe(c) && Reached(c, path).Some?
    ensures !Reached(c, path).value.LinkingMgrMsg?
    decreases path
  {
    if path != [] {
      var i := path[0];
      assert NetSafe(CallbacksOf(c)[i]);
      SafeReachesNoLink(CallbacksOf(c)[i], path[1..]);
    }
  }

  lemma {:induction false} UnsafeReachesLink(c: Creatable) returns (path: seq<nat>)
    requires !NetSafe(c)
    ensures Reached(c, path).Some? && Reached(c, path).value.LinkingMgrMsg?
    decreases c
  {
    if c.LinkingMgrMsg? {
      path := [];
    } else {
      var cs := CallbacksOf(c);
      var i: nat :| i < |cs| && !NetSafe(cs[i]);
      var tail := UnsafeReachesLink(cs[i]);
      path := [i] + tail;
      assert path[1..] == tail;
    }
  }

  /** A message is safe if and only if neither it nor any transitive callback is a
      linking-manager message. */
  lemma NetSafeIffNoLink(c: Creatable)
    ensures NetSafe(c) <==> NoLinkReached(c)
  {
    if NetSafe(c) {
      forall path: seq<nat> | Reached(c, path).Some?
        ensures !Reached(c, path).value.LinkingMgrMsg?
      {
        SafeReachesNoLink(c, path);
      }
    } else {
      var path := UnsafeReachesLink(c);
    }
  }

  method MakeNetSafe(c: Creatable) returns (safe: bool)
    ensures safe == NetSafe(c)
    decreases c
  {
    match c
    case LinkingMgrMsg(_, _, _, _) => return false;
    case GenericValue(_) => return true;
    case _ =>
      for i := 0 to |c.callbacks|
        invariant forall j :: 0 <= j < i ==> NetSafe(c.callbacks[j])
      {
        var ok := MakeNetSafe(c.callbacks[i]);
        if !ok {
          return false;
        }
      }
      return true;
  }

  // ===== the source's loops =====

  lemma {:induction false} CallbacksStop(z: Zlib, s: bytes, i: nat, n: nat, depth: nat)
    requires i <= n && ReadCallbacks(z, s, i, depth).Fail?
    ensures ReadCallbacks(z, s, n, depth) == Fail(ReadCallbacks(z, s, i, depth).error)
    decreases n
  {
    if i < n {
      CallbacksStop(z, s, i, n - 1, depth);
    }
  }

  method ReadCallbackLoop(z: Zlib, stream: bytes, count: u32, depth: nat) returns (r: Parsed<seq<Creatable>>)
    ensures r == ReadCallbacks(z, stream, count, depth)
  {
    hide ReadCreatable;
    var callbacks, rest := [], stream;
    for i := 0 to count
      invariant ReadCallbacks(z, stream, i, depth) == Done(callbacks, rest)
    {
      var next := ReadCreatable(z, rest, depth);
      if next.Fail? {
        CallbacksStop(z, stream, i + 1, count, depth);
        return Fail(next.error);
      }
      if next.value.None? || !IsMessage(next.value.value) {
        CallbacksStop(z, stream, i + 1, count, depth);
        return Fail(Malformed);
      }
      callbacks, rest := callbacks + [next.value.value], next.rest;
    }
    return Done(callbacks, rest);
  }

  lemma {:induction false} ItemsStop(z: Zlib, s: bytes, i: nat, n: nat, depth: nat)
    requires i <= n && ReadItems(z, s, i, depth).Fail?
    ensures ReadItems(z, s, n, depth) == Fail(ReadItems(z, s, i, depth).error)
    decreases n
  {
    if i < n {
      ItemsStop(z, s, i, n - 1, depth);
    }
  }

  method ReadItemLoop(z: Zlib, stream: bytes, count: u16, depth: nat) returns (r: Parsed<seq<Item>>)
    ensures r == ReadItems(z, stream, count, depth)
  {
    hide ReadItem;
    var items, rest := [], stream;
    for i := 0 to count
      invariant ReadItems(z, stream, i, depth) == Done(items, rest)
    {
      var next := ReadItem(z, rest, depth);
      if next.Fail? {
        ItemsStop(z, stream, i + 1, count, depth);
        return Fail(next.error);
      }
      items, rest := items + [next.value], next.rest;
    }
    return Done(items, rest);
  }

  lemma {:induction false} WriteAllStop(z: Zlib, cs: seq<Creatable>, i: nat)
    requires i <= |cs| && WriteAll(z, cs[..i]).Err?
    ensures WriteAll(z, cs) == Err(WriteAll(z, cs[..i]).error)
    decreases |cs|
  {
    if i == |cs| {
      assert cs[..i] == cs;
    } else {
      assert cs[..|cs| - 1][..i] == cs[..i];
      WriteAllStop(z, cs[..|cs| - 1], i);
    }
  }

  method WriteCallbackLoop(z: Zlib, callbacks: seq<Creatable>) returns (r: Result<bytes>)
    ensures r == WriteAll(z, callbacks)
  {
    hide WriteCreatable;
    var out: bytes := [];
    for i := 0 to |callbacks|
      invariant WriteAll(z, callbacks[..i]) == Ok(out)
    {
      assert callbacks[..i + 1][..i] == callbacks[..i];
      var next := WriteCreatable(z, callbacks[i]);
      if next.Err? {
        WriteAllStop(z, callbacks, i + 1);
        return Err(next.error);
      }
      out := out + next.value;
    }
    assert callbacks[..|callbacks|] == callbacks;
    return Ok(out);
  }
}
