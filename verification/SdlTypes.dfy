/** State descriptors and the descriptor database: src/sdl/descriptor.rs and
    src/sdl/descriptor_db.rs. */
module SdlTypes {
  import opened Prim
  import K = Key
  import C = Creatable

  // ===== values =====

  datatype UnifiedTime = UnifiedTime(secs: u32, micros: u32)

  const ZERO_TIME := UnifiedTime(0, 0)

  datatype Vector = Vector(x: u32, y: u32, z: u32)
  datatype Quaternion = Quaternion(x: u32, y: u32, z: u32, w: u32)
  datatype ColorRGBA = ColorRGBA(r: u32, g: u32, b: u32, a: u32)
  datatype Color32 = Color32(b: u8, g: u8, r: u8, a: u8)

  const FLOAT_ONE: u32 := 0x3F80_0000

  datatype VarType =
    | AgeTimeOfDay | Bool | Byte | Creatable | Double | Float | Int | Key | Point3
    | Quat | Rgb | Rgb8 | Rgba | Rgba8 | Short | String32 | Time | Vector3
    | StateDesc(name: string)

  datatype VarDefault =
    | DefaultBool(b: bool) | DefaultByte(y: u8) | DefaultShort(h: i16) | DefaultInt(i: i32)
    | DefaultFloat(f: u32) | DefaultDouble(d: u64) | DefaultString(s: string)
    | DefaultTime(t: UnifiedTime) | DefaultQuat(q: Quaternion) | DefaultVector(v: Vector)
    | DefaultRgba(c: ColorRGBA) | DefaultRgba8(k: Color32)

  datatype VarDescriptor = VarDescriptor(
    name: string, varType: VarType, count: Option<nat>, default: Option<VarDefault>)

  datatype StateDescriptor = StateDescriptor(name: string, version: u16, vars: seq<VarDescriptor>)

  /** One element of a variable.  `Point3` and `Vector3` share a representation, as do
      the two kinds of float colour and of byte colour. */
  datatype Scalar =
    | BoolValue(b: bool) | ByteValue(y: u8) | CreatableValue(o: Option<C.Creatable>)
    | DoubleValue(d: u64) | FloatValue(f: u32) | IntValue(i: i32) | KeyValue(u: K.Uoid)
    | VectorValue(v: Vector) | QuatValue(q: Quaternion) | ColorValue(c: ColorRGBA)
    | Color32Value(k: Color32) | ShortValue(h: i16) | StringValue(s: string)
    | TimeValue(t: UnifiedTime)

  /** The element type that the source's typed vectors fix statically. */
  predicate HasType(e: Scalar, t: VarType) {
    match t
    case Bool => e.BoolValue?
    case Byte => e.ByteValue?
    case Creatable => e.CreatableValue?
    case Double => e.DoubleValue?
    case Float => e.FloatValue?
    case Int => e.IntValue?
    case Key => e.KeyValue?
    case Point3 => e.VectorValue?
    case Vector3 => e.VectorValue?
    case Quat => e.QuatValue?
    case Rgb => e.ColorValue?
    case Rgba => e.ColorValue?
    case Rgb8 => e.Color32Value?
    case Rgba8 => e.Color32Value?
    case Short => e.ShortValue?
    case String32 => e.StringValue?
    case Time => e.TimeValue?
    case AgeTimeOfDay => false
    case StateDesc(_) => false
  }

  predicate IsScalar(t: VarType) {
    !t.AgeTimeOfDay? && !t.StateDesc?
  }

  // ----- comparison: floats compare by value, so zeros are equal and NaN is not -----

  predicate FloatEq(a: u32, b: u32) {
    if a % 0x8000_0000 == 0 then b % 0x8000_0000 == 0
    else a == b && a % 0x8000_0000 <= 0x7F80_0000
  }

  predicate DoubleEq(a: u64, b: u64) {
    if a % 0x8000_0000_0000_0000 == 0 then b % 0x8000_0000_0000_0000 == 0
    else a == b && a % 0x8000_0000_0000_0000 <= 0x7FF0_0000_0000_0000
  }

  predicate ScalarEq(a: Scalar, b: Scalar) {
    match (a, b)
    case (DoubleValue(x), DoubleValue(y)) => DoubleEq(x, y)
    case (FloatValue(x), FloatValue(y)) => FloatEq(x, y)
    case (VectorValue(x), VectorValue(y)) => FloatEq(x.x, y.x) && FloatEq(x.y, y.y) && FloatEq(x.z, y.z)
    case (QuatValue(x), QuatValue(y)) =>
      FloatEq(x.x, y.x) && FloatEq(x.y, y.y) && FloatEq(x.z, y.z) && FloatEq(x.w, y.w)
    case (ColorValue(x), ColorValue(y)) =>
      FloatEq(x.r, y.r) && FloatEq(x.g, y.g) && FloatEq(x.b, y.b) && FloatEq(x.a, y.a)
    case (CreatableValue(x), CreatableValue(y)) => x.None? && y.None?
    case _ => a == b
  }

  // ----- defaults -----

  /** The default a descriptor carries is of the variant its type expects; with any
      other, the source's `unreachable!` arms would be reached.  Four types do not look
      at it. */
  predicate TypedDefault(d: VarDescriptor) {
    d.default.None? ||
    match d.varType
    case Bool => d.default.value.DefaultBool?
    case Byte => d.default.value.DefaultByte?
    case Double => d.default.value.DefaultDouble?
    case Float => d.default.value.DefaultFloat?
    case Int => d.default.value.DefaultInt?
    case Point3 => d.default.value.DefaultVector?
    case Vector3 => d.default.value.DefaultVector?
    case Quat => d.default.value.DefaultQuat?
    case Rgb => d.default.value.DefaultRgba?
    case Rgba => d.default.value.DefaultRgba?
    case Rgb8 => d.default.value.DefaultRgba8?
    case Rgba8 => d.default.value.DefaultRgba8?
    case Short => d.default.value.DefaultShort?
    case String32 => d.default.value.DefaultString?
    case Time => d.default.value.DefaultTime?
    case _ => true
  }

  /** The types that a text can give a default. */
  predicate TakesDefault(t: VarType) {
    !t.Key? && !t.Creatable? && !t.AgeTimeOfDay? && !t.StateDesc?
  }

  function DefaultOf(d: VarDescriptor): (e: Scalar)
    requires TypedDefault(d) && IsScalar(d.varType)
    ensures HasType(e, d.varType)
  {
    match d.varType
    case Bool => BoolValue(if d.default.None? then false else d.default.value.b)
    case Byte => ByteValue(if d.default.None? then 0 else d.default.value.y)
    case Creatable => CreatableValue(None)
    case Double => DoubleValue(if d.default.None? then 0 else d.default.value.d)
    case Float => FloatValue(if d.default.None? then 0 else d.default.value.f)
    case Int => IntValue(if d.default.None? then 0 else d.default.value.i)
    case Key => KeyValue(K.INVALID)
    case Point3 => VectorValue(if d.default.None? then Vector(0, 0, 0) else d.default.value.v)
    case Vector3 => VectorValue(if d.default.None? then Vector(0, 0, 0) else d.default.value.v)
    case Quat => QuatValue(if d.default.None? then Quaternion(0, 0, 0, FLOAT_ONE) else d.default.value.q)
    case Rgb => ColorValue(if d.default.None? then ColorRGBA(0, 0, 0, FLOAT_ONE) else d.default.value.c)
    case Rgba => ColorValue(if d.default.None? then ColorRGBA(0, 0, 0, FLOAT_ONE) else d.default.value.c)
    case Rgb8 => Color32Value(if d.default.None? then Color32(0, 0, 0, 255) else d.default.value.k)
    case Rgba8 => Color32Value(if d.default.None? then Color32(0, 0, 0, 255) else d.default.value.k)
    case Short => ShortValue(if d.default.None? then 0 else d.default.value.h)
    case String32 => StringValue(if d.default.None? then "" else d.default.value.s)
    case Time => TimeValue(if d.default.None? then ZERO_TIME else d.default.value.t)
  }

  // ===== the database =====

  /** Case-insensitive comparison of names, for the ASCII names that identifiers are. */
  function Fold(s: string): (r: string)
    ensures |r| == |s|
  {
    seq<char>(|s|, i requires 0 <= i < |s| => if 'A' <= s[i] <= 'Z' then (s[i] as int + 32) as char else s[i])
  }

  type Db = map<string, map<u16, StateDescriptor>>

  function GetVersion(db: Db, name: string, version: u16): Option<StateDescriptor> {
    if Fold(name) in db && version in db[Fold(name)] then Some(db[Fold(name)][version]) else None
  }

  predicate IsLargest(s: set<u16>, v: u16) {
    v in s && forall w :: w in s ==> w <= v
  }

  lemma {:induction false} LargestExists(s: set<u16>)
    requires s != {}
    ensures exists v :: IsLargest(s, v)
    decreases |s|
  {
    var x :| x in s;
    var t := s - {x};
    if t == {} {
      assert s == {x};
      assert IsLargest(s, x);
    } else {
      LargestExists(t);
      var v :| IsLargest(t, v);
      assert s == t + {x};
      assert IsLargest(s, if v < x then x else v);
    }
  }

  /** The largest key, as the last entry of an ordered map has it. */
  function Largest(s: set<u16>): (v: u16)
    requires s != {}
    ensures IsLargest(s, v)
  {
    LargestExists(s);
    var v :| IsLargest(s, v);
    v
  }

  function GetLatest(db: Db, name: string): Option<StateDescriptor> {
    var n := Fold(name);
    if n in db && db[n].Keys != {} then Some(db[n][Largest(db[n].Keys)]) else None
  }

  /** One turn of `merge_descriptors`: an entry that exists already is kept. */
  function Merge1(db: Db, d: StateDescriptor): Db {
    var n := Fold(d.name);
    var versions := if n in db then db[n] else map[];
    db[n := if d.version in versions then versions else versions[d.version := d]]
  }

  function Merge(db: Db, descs: seq<StateDescriptor>): Db {
    if descs == [] then db else Merge1(Merge(db, descs[..|descs| - 1]), descs[|descs| - 1])
  }

  method MergeDescriptors(db: Db, descs: seq<StateDescriptor>) returns (r: Db)
    ensures r == Merge(db, descs)
  {
    r := db;
    for i := 0 to |descs|
      invariant r == Merge(db, descs[..i])
    {
      assert descs[..i + 1][..i] == descs[..i];
      r := Merge1(r, descs[i]);
    }
    assert descs[..|descs|] == descs;
  }

  /** Each entry is filed under its own name and version. */
  ghost predicate Filed(db: Db) {
    forall n, v :: n in db && v in db[n] ==> Fold(db[n][v].name) == n && db[n][v].version == v
  }

  /** The latest descriptor can be asked for by its own name and version. */
  lemma LatestFiled(db: Db, name: string)
    requires Filed(db) && GetLatest(db, name).Some?
    ensures var d := GetLatest(db, name).value; GetVersion(db, d.name, d.version) == Some(d)
  {
    var n := Fold(name);
    assert Largest(db[n].Keys) in db[n];
  }

  lemma {:induction false} MergeKeepsFiled(db: Db, descs: seq<StateDescriptor>)
    requires Filed(db)
    ensures Filed(Merge(db, descs))
  {
    if descs != [] {
      MergeKeepsFiled(db, descs[..|descs| - 1]);
    }
  }

  predicate SameKey(d: StateDescriptor, e: StateDescriptor) {
    Fold(d.name) == Fold(e.name) && d.version == e.version
  }

  /** Of several descriptors with one name and version, the database returns the one
      it met first, in spite of later files. */
  lemma {:induction false} MergeFirstWins(db: Db, descs: seq<StateDescriptor>, i: nat)
    requires i < |descs|
    requires GetVersion(db, descs[i].name, descs[i].version).None?
    requires forall j :: 0 <= j < i ==> !SameKey(descs[j], descs[i])
    ensures GetVersion(Merge(db, descs), descs[i].name, descs[i].version) == Some(descs[i])
    decreases |descs|
  {
    var init := descs[..|descs| - 1];
    if i < |init| {
      MergeFirstWins(db, init, i);
    } else {
      MergeAbsent(db, init, descs[i]);
    }
  }

  lemma {:induction false} MergeAbsent(db: Db, descs: seq<StateDescriptor>, d: StateDescriptor)
    requires GetVersion(db, d.name, d.version).None?
    requires forall j :: 0 <= j < |descs| ==> !SameKey(descs[j], d)
    ensures GetVersion(Merge(db, descs), d.name, d.version).None?
  {
    if descs != [] {
      MergeAbsent(db, descs[..|descs| - 1], d);
    }
  }
}
