/** The stream form of single SDL values: the element cases of `read_simple` and
    `write_simple` in src/sdl/state_variable.rs. */
module SdlValues {
  import opened Prim
  import opened Text
  import opened SdlTypes
  import K = Key
  import C = Creatable

  /** What the codec takes from its surroundings: the compression library, a bound on
      message nesting and the clock. */
  datatype Env = Env(zlib: C.Zlib, depth: nat, now: UnifiedTime)

  // ----- writing -----

  function Words2(a: u32, b: u32): bytes {
    U32Bytes(a) + U32Bytes(b)
  }

  function Words3(a: u32, b: u32, c: u32): bytes {
    U32Bytes(a) + U32Bytes(b) + U32Bytes(c)
  }

  function Words4(a: u32, b: u32, c: u32, d: u32): bytes {
    U32Bytes(a) + U32Bytes(b) + U32Bytes(c) + U32Bytes(d)
  }

  /** Thirty-one bytes of text, zero-filled, and a forced terminator. */
  function String32Bytes(s: string): (r: bytes)
    ensures |r| == 32
  {
    var u := Utf8(s);
    if |u| >= 31 then u[..31] + [0] else u + seq<u8>(32 - |u|, _ => 0)
  }

  function WriteCreatable(env: Env, o: Option<C.Creatable>): Result<bytes> {
    match o
    case None => Ok(U16Bytes(C.NIL_CLASS))
    case Some(c) =>
      var body :- C.WriteBody(env.zlib, c);
      if |body| >= 0x1_0000_0000 then Err(TooLarge)
      else Ok(U16Bytes(C.ClassId(c)) + U32Bytes(|body|) + body)
  }

  function WriteScalar(env: Env, t: VarType, e: Scalar): Result<bytes>
    requires HasType(e, t)
  {
    match t
    case Bool => Ok([if e.b then 1 else 0])
    case Byte => Ok([e.y])
    case Creatable => WriteCreatable(env, e.o)
    case Double => Ok(U64Bytes(e.d))
    case Float => Ok(U32Bytes(e.f))
    case Int => Ok(U32Bytes(I32Bits(e.i)))
    case Key => K.WriteUoid(e.u)
    case Point3 => Ok(Words3(e.v.x, e.v.y, e.v.z))
    case Vector3 => Ok(Words3(e.v.x, e.v.y, e.v.z))
    case Quat => Ok(Words4(e.q.x, e.q.y, e.q.z, e.q.w))
    case Rgb => Ok(Words3(e.c.r, e.c.g, e.c.b))
    case Rgb8 => Ok([e.k.b, e.k.g, e.k.r])
    case Rgba => Ok(Words4(e.c.r, e.c.g, e.c.b, e.c.a))
    case Rgba8 => Ok([e.k.b, e.k.g, e.k.r, e.k.a])
    case Short => Ok(U16Bytes(I16Bits(e.h)))
    case String32 => Ok(String32Bytes(e.s))
    case Time => Ok(Words2(e.t.secs, e.t.micros))
  }

  // ----- reading -----

  function Read2(s: bytes): Parsed<(u32, u32)> {
    var (a, s1) :- ReadU32(s);
    var (b, s2) :- ReadU32(s1);
    Done((a, b), s2)
  }

  function Read3(s: bytes): Parsed<(u32, u32, u32)> {
    var (a, s1) :- ReadU32(s);
    var (b, s2) :- Read2(s1);
    Done((a, b.0, b.1), s2)
  }

  function Read4(s: bytes): Parsed<(u32, u32, u32, u32)> {
    var (a, s1) :- ReadU32(s);
    var (b, s2) :- Read3(s1);
    Done((a, b.0, b.1, b.2), s2)
  }

  function BeforeNul(b: bytes): bytes {
    if b == [] || b[0] == 0 then [] else [b[0]] + BeforeNul(b[1..])
  }

  function ReadCreatable(env: Env, s: bytes): Parsed<Option<C.Creatable>> {
    var (id, s1) :- ReadU16(s);
    if id == C.NIL_CLASS then Done(None, s1)
    else
      var (size, s2) :- ReadU32(s1);
      var (buffer, s3) :- ReadBytes(s2, size);
      var (o, _) :- C.ReadAs(env.zlib, buffer, id, env.depth);
      Done(o, s3)
  }

  function ReadScalar(env: Env, t: VarType, s: bytes): (r: Parsed<Scalar>)
    requires IsScalar(t)
    ensures r.Done? ==> HasType(r.value, t)
  {
    match t
    case Bool => var (x, r) :- ReadU8(s); Done(BoolValue(x != 0), r)
    case Byte => var (x, r) :- ReadU8(s); Done(ByteValue(x), r)
    case Creatable => var (x, r) :- ReadCreatable(env, s); Done(CreatableValue(x), r)
    case Double => var (x, r) :- ReadU64(s); Done(DoubleValue(x), r)
    case Float => var (x, r) :- ReadU32(s); Done(FloatValue(x), r)
    case Int => var (x, r) :- ReadU32(s); Done(IntValue(BitsI32(x)), r)
    case Key => var (x, r) :- K.ReadUoid(s); Done(KeyValue(x), r)
    case Point3 => var (x, r) :- Read3(s); Done(VectorValue(Vector(x.0, x.1, x.2)), r)
    case Vector3 => var (x, r) :- Read3(s); Done(VectorValue(Vector(x.0, x.1, x.2)), r)
    case Quat => var (x, r) :- Read4(s); Done(QuatValue(Quaternion(x.0, x.1, x.2, x.3)), r)
    case Rgb => var (x, r) :- Read3(s); Done(ColorValue(ColorRGBA(x.0, x.1, x.2, FLOAT_ONE)), r)
    case Rgb8 => var (x, r) :- ReadBytes(s, 3); Done(Color32Value(Color32(x[0], x[1], x[2], 255)), r)
    case Rgba => var (x, r) :- Read4(s); Done(ColorValue(ColorRGBA(x.0, x.1, x.2, x.3)), r)
    case Rgba8 => var (x, r) :- ReadBytes(s, 4); Done(Color32Value(Color32(x[0], x[1], x[2], x[3])), r)
    case Short => var (x, r) :- ReadU16(s); Done(ShortValue(BitsI16(x)), r)
    case String32 => var (x, r) :- ReadBytes(s, 32); Done(StringValue(FromUtf8(BeforeNul(x))), r)
    case Time => var (x, r) :- Read2(s); Done(TimeValue(UnifiedTime(x.0, x.1)), r)
  }

  lemma ScalarShrinks(env: Env, t: VarType, s: bytes)
    requires IsScalar(t)
    ensures ReadScalar(env, t, s).Done? ==> |ReadScalar(env, t, s).rest| <= |s|
  {
    hide C.ReadAs, K.ReadUoid, FromUtf8, BeforeNul;
    K.UoidShrinks(s);
  }

  // ----- the round trip -----

  /** A text of up to 31 bytes, or one that is cut inside a replacement character at
      its end, which the reader then supplies again. */
  predicate Fits32(s: string) {
    && '\0' !in s
    && (|Utf8(s)| <= 31 || (s != [] && s[|s| - 1] == REPLACEMENT && |Utf8(s)| <= 33))
  }

  /** What an element must satisfy to come back: a representable alpha in the colours
      that do not store it, a text that fits, and names that survive. */
  predicate Survives(env: Env, t: VarType, e: Scalar) {
    && HasType(e, t)
    && (t.Rgb? ==> e.c.a == FLOAT_ONE)
    && (t.Rgb8? ==> e.k.a == 255)
    && (t.String32? ==> Fits32(e.s))
    && (t.Key? ==> K.Survives(e.u))
    && (t.Creatable? && e.o.Some? ==> C.Survives(e.o.value) && C.Depth(e.o.value) <= env.depth)
  }

  lemma Reads2(a: u32, b: u32, rest: bytes)
    ensures Read2(Words2(a, b) + rest) == Done((a, b), rest)
  {
    hide U32Bytes, ReadU32;
    Cat2(U32Bytes(a), U32Bytes(b), rest);
    ReadsU32(a, U32Bytes(b) + rest);
    ReadsU32(b, rest);
  }

  lemma Reads3(a: u32, b: u32, c: u32, rest: bytes)
    ensures Read3(Words3(a, b, c) + rest) == Done((a, b, c), rest)
  {
    hide U32Bytes, ReadU32, Read2;
    Cat3(U32Bytes(a), U32Bytes(b), U32Bytes(c), rest);
    Cat2(U32Bytes(b), U32Bytes(c), rest);
    ReadsU32(a, U32Bytes(b) + (U32Bytes(c) + rest));
    Reads2(b, c, rest);
  }

  lemma Reads4(a: u32, b: u32, c: u32, d: u32, rest: bytes)
    ensures Read4(Words4(a, b, c, d) + rest) == Done((a, b, c, d), rest)
  {
    hide U32Bytes, ReadU32, Read3;
    Cat4(U32Bytes(a), U32Bytes(b), U32Bytes(c), U32Bytes(d), rest);
    Cat3(U32Bytes(b), U32Bytes(c), U32Bytes(d), rest);
    ReadsU32(a, U32Bytes(b) + (U32Bytes(c) + (U32Bytes(d) + rest)));
    Reads3(b, c, d, rest);
  }

  lemma {:induction false} BeforeNulOf(u: bytes, pad: bytes)
    requires 0 !in u && pad != [] && pad[0] == 0
    ensures BeforeNul(u + pad) == u
  {
    if u == [] {
      assert u + pad == pad;
    } else {
      assert (u + pad)[1..] == u[1..] + pad;
      assert u[0] in u;
      BeforeNulOf(u[1..], pad);
    }
  }

  lemma {:induction false} BeforeNulClean(b: bytes)
    ensures 0 !in BeforeNul(b)
  {
    if b != [] && b[0] != 0 {
      BeforeNulClean(b[1..]);
    }
  }

  lemma String32Reads(s: string, rest: bytes)
    ensures ReadBytes(String32Bytes(s) + rest, 32) == Done(String32Bytes(s), rest)
    ensures FromUtf8(BeforeNul(String32Bytes(s))) == s <==> Fits32(s)
  {
    var u := Utf8(s);
    ReadsBytes(String32Bytes(s), rest);
    if '\0' in s {
      BeforeNulClean(String32Bytes(s));
      NoNulDecoded(BeforeNul(String32Bytes(s)));
    } else {
      Utf8Avoids(s, 0);
      if |u| < 31 {
        BeforeNulOf(u, seq<u8>(32 - |u|, _ => 0));
        Utf8RoundTrip(s);
      } else {
        BeforeNulOf(u[..31], [0]);
        if |u| == 31 {
          assert u[..31] == u;
          Utf8RoundTrip(s);
        } else {
          TruncatedUtf8(s, 31);
        }
      }
    }
  }

  predicate CreatableSurvives(env: Env, o: Option<C.Creatable>) {
    o.Some? ==> C.Survives(o.value) && C.Depth(o.value) <= env.depth
  }

  lemma CreatableReads(env: Env, o: Option<C.Creatable>, rest: bytes)
    requires C.Lossless(env.zlib) && WriteCreatable(env, o).Ok?
    ensures Exact(ReadCreatable(env, WriteCreatable(env, o).value + rest), o, rest, CreatableSurvives(env, o))
  {
    hide U16Bytes, U32Bytes, ReadU16, ReadU32, C.WriteBody, C.ReadAs, C.Survives, C.Depth;
    match o
    case None => ReadsU16(C.NIL_CLASS, rest);
    case Some(c) =>
      var body := C.WriteBody(env.zlib, c).value;
      Cat3(U16Bytes(C.ClassId(c)), U32Bytes(|body|), body, rest);
      ReadsU16(C.ClassId(c), U32Bytes(|body|) + (body + rest));
      ReadsU32(|body|, body + rest);
      ReadsBytes(body, rest);
      assert body + [] == body;
      C.BodyRoundTrip(env.zlib, c, [], env.depth);
  }

  /** An element that was written comes back if and only if it survives, and if
      anything is read at all then exactly the bytes that were written are consumed. */
  lemma ScalarRoundTrip(env: Env, t: VarType, e: Scalar, rest: bytes)
    requires C.Lossless(env.zlib) && HasType(e, t) && WriteScalar(env, t, e).Ok?
    ensures Exact(ReadScalar(env, t, WriteScalar(env, t, e).value + rest), e, rest, Survives(env, t, e))
  {
    hide U16Bytes, U32Bytes, U64Bytes, ReadU16, ReadU32, ReadU64, Words2, Words3, Words4, Read2, Read3, Read4,
      K.WriteUoid, K.ReadUoid, K.Survives, WriteCreatable, ReadCreatable, C.Survives, C.Depth, C.Lossless,
      String32Bytes, BeforeNul, FromUtf8, Fits32;
    match t
    case Bool => ReadsU8(if e.b then 1 else 0, rest);
    case Byte => ReadsU8(e.y, rest);
    case Creatable => CreatableReads(env, e.o, rest);
    case Double => ReadsU64(e.d, rest);
    case Float => ReadsU32(e.f, rest);
    case Int => ReadsU32(I32Bits(e.i), rest);
    case Key => K.UoidRoundTrip(e.u, rest);
    case Point3 => Reads3(e.v.x, e.v.y, e.v.z, rest);
    case Vector3 => Reads3(e.v.x, e.v.y, e.v.z, rest);
    case Quat => Reads4(e.q.x, e.q.y, e.q.z, e.q.w, rest);
    case Rgb => Reads3(e.c.r, e.c.g, e.c.b, rest);
    case Rgb8 => ReadsBytes([e.k.b, e.k.g, e.k.r], rest);
    case Rgba => Reads4(e.c.r, e.c.g, e.c.b, e.c.a, rest);
    case Rgba8 => ReadsBytes([e.k.b, e.k.g, e.k.r, e.k.a], rest);
    case Short => ReadsU16(I16Bits(e.h), rest);
    case String32 => String32Reads(e.s, rest);
    case Time => Reads2(e.t.secs, e.t.micros, rest);
  }

  // ----- runs of values -----

  predicate AllTyped(es: seq<Scalar>, t: VarType) {
    forall i :: 0 <= i < |es| ==> HasType(es[i], t)
  }

  predicate AllSurvive(env: Env, t: VarType, es: seq<Scalar>) {
    forall i :: 0 <= i < |es| ==> Survives(env, t, es[i])
  }

  function WriteScalars(env: Env, t: VarType, es: seq<Scalar>): Result<bytes>
    requires AllTyped(es, t)
  {
    if es == [] then Ok([])
    else
      var init :- WriteScalars(env, t, es[..|es| - 1]);
      var last :- WriteScalar(env, t, es[|es| - 1]);
      Ok(init + last)
  }

  function ReadScalars(env: Env, t: VarType, s: bytes, n: nat): (r: Parsed<seq<Scalar>>)
    requires IsScalar(t)
    ensures r.Done? ==> |r.value| == n && AllTyped(r.value, t)
  {
    if n == 0 then Done([], s)
    else
      var (init, s1) :- ReadScalars(env, t, s, n - 1);
      var (last, s2) :- ReadScalar(env, t, s1);
      Done(init + [last], s2)
  }

  lemma {:induction false} ScalarsShrink(env: Env, t: VarType, s: bytes, n: nat)
    requires IsScalar(t)
    ensures ReadScalars(env, t, s, n).Done? ==> |ReadScalars(env, t, s, n).rest| <= |s|
  {
    hide ReadScalar;
    if n > 0 {
      ScalarsShrink(env, t, s, n - 1);
      var init := ReadScalars(env, t, s, n - 1);
      if init.Done? {
        ScalarShrinks(env, t, init.rest);
      }
    }
  }

  lemma {:induction false} ScalarsRoundTrip(env: Env, t: VarType, es: seq<Scalar>, rest: bytes)
    requires C.Lossless(env.zlib) && IsScalar(t) && AllTyped(es, t) && WriteScalars(env, t, es).Ok?
    ensures Exact(ReadScalars(env, t, WriteScalars(env, t, es).value + rest, |es|), es, rest, AllSurvive(env, t, es))
  {
    hide WriteScalar, ReadScalar, Survives, HasType, C.Lossless, AllSurvive;
    AllSurviveSplit(env, t, es);
    if es != [] {
      var init, last := es[..|es| - 1], es[|es| - 1];
      var a, b := WriteScalars(env, t, init).value, WriteScalar(env, t, last).value;
      Cat2(a, b, rest);
      ScalarsRoundTrip(env, t, init, b + rest);
      ScalarRoundTrip(env, t, last, rest);
      assert init + [last] == es;
      var r, l := ReadScalars(env, t, a + (b + rest), |init|), ReadScalar(env, t, b + rest);
      if r.Done? && l.Done? {
        SplitEqual(r.value, l.value, init, last);
      }
    } else {
      assert WriteScalars(env, t, es).value + rest == rest;
    }
  }

  lemma AllSurviveSplit(env: Env, t: VarType, es: seq<Scalar>)
    ensures AllSurvive(env, t, es) <==>
              es == [] || (AllSurvive(env, t, es[..|es| - 1]) && Survives(env, t, es[|es| - 1]))
  {
    hide Survives;
    if es != [] {
      var init := es[..|es| - 1];
      if AllSurvive(env, t, init) && Survives(env, t, es[|es| - 1]) {
        forall i | 0 <= i < |es|
          ensures Survives(env, t, es[i])
        {
          assert i < |init| ==> es[i] == init[i];
        }
      }
    }
  }
}
