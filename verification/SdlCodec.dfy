/** The delta-encoded stream form of SDL states: `read`, `write`, `from_blob` and
    `to_blob` of src/sdl/state.rs and the readers and writers of
    src/sdl/state_variable.rs. */
module SdlCodec {
  import opened Prim
  import opened SdlTypes
  import opened SdlValues
  import opened SdlDefaults
  import SafeString
  import K = Key

  const IO_VERSION: u8 := 6
  const MAX_ELEMENTS := 10000

  // flag bits of src/sdl/mod.rs, as positions
  const HAS_NOTIFICATION_INFO := 1
  const HAS_TIMESTAMP := 2
  const SAME_AS_DEFAULT := 3
  const HAS_DIRTY_FLAG := 4
  const WANT_TIMESTAMP := 5

  predicate Flag(flags: u8, bit: nat)
    requires bit < 8
  {
    match bit
    case 0 => flags % 2 == 1
    case 1 => flags / 2 % 2 == 1
    case 2 => flags / 4 % 2 == 1
    case 3 => flags / 8 % 2 == 1
    case 4 => flags / 16 % 2 == 1
    case 5 => flags / 32 % 2 == 1
    case 6 => flags / 64 % 2 == 1
    case 7 => flags / 128 % 2 == 1
  }

  // ===== sizes whose width follows a hint =====

  function WriteSize(hint: nat, value: nat): Result<bytes> {
    if hint < 0x100 then if value < 0x100 then Ok([value]) else Err(TooLarge)
    else if hint < 0x1_0000 then if value < 0x1_0000 then Ok(U16Bytes(value)) else Err(TooLarge)
    else if value < 0x1_0000_0000 then Ok(U32Bytes(value)) else Err(TooLarge)
  }

  function ReadSize(hint: nat, s: bytes): (r: Parsed<nat>)
    ensures r.Done? ==> |r.rest| < |s|
  {
    if hint < 0x100 then var (x, s1) :- ReadU8(s); Done(x, s1)
    else if hint < 0x1_0000 then var (x, s1) :- ReadU16(s); Done(x, s1)
    else var (x, s1) :- ReadU32(s); Done(x, s1)
  }

  // ===== writing =====

  function WriteHint(hint: string): Result<bytes> {
    if hint == "" then Ok([0])
    else
      var text :- SafeString.Write(hint, SafeString.AsLatin1);
      Ok([2] + [0] + text)
  }

  function WriteCount(d: VarDescriptor, n: nat): Result<bytes> {
    if n > MAX_ELEMENTS then Err(TooLarge)
    else Ok(if d.count.None? then U32Bytes(n) else [])
  }

  function SimpleFlags(v: Variable, isDefault: bool): u8 {
    (if v.timestamp != ZERO_TIME then 4 else 0) + (if isDefault then 8 else 0) + (if v.dirty then 16 else 0)
  }

  function WriteValues(env: Env, v: Variable): Result<bytes> {
    match v.values
    case TimesOfDay(n) => WriteCount(v.desc, n)
    case Scalars(kind, elems) =>
      if AllTyped(elems, kind) then
        var count :- WriteCount(v.desc, |elems|);
        var body :- WriteScalars(env, kind, elems);
        Ok(count + body)
      else Err(Panic)
    case States(_) => Err(Panic)
  }

  /** The timestamp flag is set when there is one, but no timestamp is written. */
  function WriteSimple(env: Env, v: Variable): Result<bytes> {
    var isDefault :- SimpleIsDefault(v);
    if isDefault then Ok([SimpleFlags(v, true)])
    else
      var values :- WriteValues(env, v);
      Ok([SimpleFlags(v, false)] + values)
  }

  /** The first byte tells, bit by bit, whether there is a timestamp, whether the values
      are the default ones and so left out, and whether the variable is dirty. */
  lemma WrittenFlags(env: Env, v: Variable)
    requires WriteSimple(env, v).Ok?
    ensures var b := WriteSimple(env, v).value;
            && b != [] && b[0] < 32 && b[0] % 4 == 0
            && (b[0] / 4 % 2 == 1 <==> v.timestamp != UnifiedTime(0, 0))
            && (b[0] / 8 % 2 == 1 <==> SimpleIsDefault(v) == Ok(true))
            && (b[0] / 16 % 2 == 1 <==> v.dirty)
            && (SimpleIsDefault(v) == Ok(true) ==> |b| == 1)
  {
    hide WriteValues, SimpleIsDefault;
  }

  function DirtyVars(vars: seq<Variable>): (n: nat)
    ensures n <= |vars|
  {
    if vars == [] then 0 else DirtyVars(vars[..|vars| - 1]) + (if vars[|vars| - 1].dirty then 1 else 0)
  }

  function DirtyStates(states: seq<State>): (n: nat)
    ensures n <= |states|
  {
    if states == [] then 0
    else DirtyStates(states[..|states| - 1]) + (if IsDirty(states[|states| - 1]) then 1 else 0)
  }

  function WriteIndex(hint: nat, indexed: bool, i: nat): Result<bytes> {
    if indexed then WriteSize(hint, i) else Ok([])
  }

  function WriteVar(env: Env, v: Variable): Result<bytes>
    decreases v, 1
  {
    var hint :- WriteHint(v.hint);
    var body :- if v.desc.varType.StateDesc? then WriteNested(env, v) else WriteSimple(env, v);
    Ok(hint + body)
  }

  function WriteNested(env: Env, v: Variable): Result<bytes>
    decreases v, 0
  {
    if !v.values.States? then Err(Panic)
    else if |v.values.states| >= 0x1_0000_0000 then Err(TooLarge)
    else
      var states, hint := v.values.states, CountOf(v.desc);
      var n := DirtyStates(states);
      var count :- WriteSize(hint, n);
      var body :- WriteStates(env, hint, states, n != |states|);
      Ok([0] + (if v.desc.count.None? then U32Bytes(|states|) else []) + count + body)
  }

  function WriteStates(env: Env, hint: nat, states: seq<State>, indexed: bool): Result<bytes>
    decreases states, 2
  {
    if states == [] then Ok([])
    else
      var k := |states| - 1;
      var init :- WriteStates(env, hint, states[..k], indexed);
      if !IsDirty(states[k]) then Ok(init)
      else
        var index :- WriteIndex(hint, indexed, k);
        var body :- WriteState(env, states[k]);
        Ok(init + (index + body))
  }

  function WriteVars(env: Env, hint: nat, vars: seq<Variable>, indexed: bool): Result<bytes>
    decreases vars, 2
  {
    if vars == [] then Ok([])
    else
      var k := |vars| - 1;
      var init :- WriteVars(env, hint, vars[..k], indexed);
      if !vars[k].dirty then Ok(init)
      else
        var index :- WriteIndex(hint, indexed, k);
        var body :- WriteVar(env, vars[k]);
        Ok(init + (index + body))
  }

  function WriteSection(env: Env, hint: nat, vars: seq<Variable>): Result<bytes>
    decreases vars, 3
  {
    var n := DirtyVars(vars);
    var count :- WriteSize(hint, n);
    var body :- WriteVars(env, hint, vars, n != |vars|);
    Ok(count + body)
  }

  function WriteState(env: Env, s: State): Result<bytes>
    decreases s, 1
  {
    var hint := |s.desc.vars|;
    var simple :- WriteSection(env, hint, s.simple);
    var nested :- WriteSection(env, hint, s.nested);
    Ok(U16Bytes(s.flags) + [IO_VERSION] + simple + nested)
  }

  // ===== reading =====

  function ReadHint(s: bytes): (r: Parsed<string>)
    ensures r.Done? ==> |r.rest| < |s|
  {
    var (flags, s1) :- ReadU8(s);
    if Flag(flags, HAS_NOTIFICATION_INFO) then
      var (_, s2) :- ReadU8(s1);
      SafeString.ReadShrinks(s2, SafeString.AsLatin1);
      SafeString.Read(s2, SafeString.AsLatin1)
    else Done("", s1)
  }

  function ReadCount(d: VarDescriptor, s: bytes): (r: Parsed<nat>)
    ensures r.Done? ==> |r.rest| <= |s| && (d.count.Some? ==> r.value == d.count.value)
  {
    var (n, s1) :- if d.count.Some? then Done(d.count.value, s) else (var (x, t) :- ReadU32(s); Done(x as nat, t));
    if n >= MAX_ELEMENTS then Fail(TooLarge) else Done(n, s1)
  }

  function ReadTime(s: bytes): (r: Parsed<UnifiedTime>)
    ensures r.Done? ==> |r.rest| <= |s|
  {
    var (x, s1) :- Read2(s);
    Done(UnifiedTime(x.0, x.1), s1)
  }

  function ReadStamp(env: Env, v: Variable, flags: u8, s: bytes): (r: Parsed<UnifiedTime>)
    ensures r.Done? ==> |r.rest| <= |s|
  {
    if Flag(flags, HAS_TIMESTAMP) then ReadTime(s)
    else if Flag(flags, HAS_DIRTY_FLAG) && Flag(flags, WANT_TIMESTAMP) then Done(env.now, s)
    else Done(v.timestamp, s)
  }

  function ReadValues(env: Env, d: VarDescriptor, s: bytes): (r: Parsed<VarValues>)
    requires !d.varType.StateDesc?
    ensures r.Done? ==> |r.rest| <= |s|
  {
    var (n, s1) :- ReadCount(d, s);
    if d.varType.AgeTimeOfDay? then Done(TimesOfDay(n), s1)
    else
      ScalarsShrink(env, d.varType, s1, n);
      var (elems, s2) :- ReadScalars(env, d.varType, s1, n);
      Done(Scalars(d.varType, elems), s2)
  }

  function ReadSimple(env: Env, v: Variable, s: bytes): (r: Parsed<Variable>)
    requires !v.desc.varType.StateDesc?
    ensures r.Done? ==> |r.rest| <= |s|
  {
    var (flags, s1) :- ReadU8(s);
    var (stamp, s2) :- ReadStamp(env, v, flags, s1);
    if Flag(flags, SAME_AS_DEFAULT) then Done(v.(timestamp := stamp), s2)
    else
      var (values, s3) :- ReadValues(env, v.desc, s2);
      Done(v.(timestamp := stamp, values := values), s3)
  }

  /** The time that a variable gets: the one that follows if bit 2 of the first byte is
      set; else the clock's if bits 4 and 5 both are; else the one it has.  With bit 3, its
      values stay too. */
  lemma ReadFlags(env: Env, v: Variable, flags: u8, s: bytes)
    requires !v.desc.varType.StateDesc? && flags / 8 % 2 == 1
    ensures var r := ReadSimple(env, v, [flags] + s);
            if flags / 4 % 2 == 1 then
              if |s| < 8 then r.Fail?
              else r == Done(v.(timestamp := UnifiedTime(U32At(s), U32At(s[4..]))), s[8..])
            else if flags / 16 % 2 == 1 && flags / 32 % 2 == 1 then r == Done(v.(timestamp := env.now), s)
            else r == Done(v, s)
  {
    assert ([flags] + s)[1..] == s;
    if |s| >= 8 {
      assert s[4..][4..] == s[8..];
    }
  }

  function ReadVar(env: Env, db: Db, v: Variable, s: bytes): (r: Parsed<Variable>)
    requires Sound(db)
    ensures r.Done? ==> |r.rest| < |s| && r.value.desc == v.desc
    decreases |s|, 2, 0
  {
    var (hint, s1) :- ReadHint(s);
    if v.desc.varType.StateDesc? then
      var latest := GetLatest(db, v.desc.varType.name);
      if latest.None? then Fail(NotFound)
      else
        var (states, s2) :- ReadNested(env, db, v.desc, latest.value, s1);
        Done(v.(values := States(states), hint := hint, dirty := true), s2)
    else
      var (v', s2) :- ReadSimple(env, v, s1);
      Done(v'.(hint := hint, dirty := true), s2)
  }

  function FreshStates(latest: StateDescriptor, db: Db, n: nat): (r: seq<State>)
    requires Sound(db) && AllKnown(db, latest.vars)
    ensures |r| == n && forall i :: 0 <= i < n ==> r[i] == StateFromDefaults(latest, db)
  {
    seq(n, _ => StateFromDefaults(latest, db))
  }

  function ReadNested(env: Env, db: Db, d: VarDescriptor, latest: StateDescriptor, s: bytes): (r: Parsed<seq<State>>)
    requires Sound(db) && d.varType.StateDesc? && GetLatest(db, d.varType.name) == Some(latest)
    ensures r.Done? ==> |r.rest| <= |s|
    decreases |s|, 1, 0
  {
    var (_, s1) :- ReadU8(s);
    var (total, s2) :- ReadCount(d, s1);
    var hint := CountOf(d);
    var (n, s3) :- ReadSize(hint, s2);
    Returned(db, d.varType.name, 0);
    ReadStates(env, db, hint, FreshStates(latest, db, total), s3, n, n != total)
  }

  function ReadIndex(hint: nat, indexed: bool, k: nat, s: bytes): (r: Parsed<nat>)
    ensures r.Done? ==> |r.rest| <= |s|
  {
    if indexed then ReadSize(hint, s) else Done(k, s)
  }

  function ReadStates(env: Env, db: Db, hint: nat, states: seq<State>, s: bytes, n: nat, indexed: bool)
    : (r: Parsed<seq<State>>)
    requires Sound(db)
    ensures r.Done? ==> |r.rest| <= |s| && |r.value| == |states|
    decreases |s|, 3, n
  {
    if n == 0 then Done(states, s)
    else
      var (done, s1) :- ReadStates(env, db, hint, states, s, n - 1, indexed);
      var (k, s2) :- ReadIndex(hint, indexed, n - 1, s1);
      if k >= |done| then Fail(Malformed)
      else
        var (state, s3) :- ReadState(env, db, done[k], s2);
        Done(done[k := state], s3)
  }

  function ReadVars(env: Env, db: Db, hint: nat, vars: seq<Variable>, s: bytes, n: nat, indexed: bool)
    : (r: Parsed<seq<Variable>>)
    requires Sound(db)
    ensures r.Done? ==> |r.rest| <= |s| && |r.value| == |vars|
    decreases |s|, 3, n
  {
    if n == 0 then Done(vars, s)
    else
      var (done, s1) :- ReadVars(env, db, hint, vars, s, n - 1, indexed);
      var (k, s2) :- ReadIndex(hint, indexed, n - 1, s1);
      if k >= |done| then Fail(Malformed)
      else
        var (v, s3) :- ReadVar(env, db, done[k], s2);
        Done(done[k := v], s3)
  }

  function ReadSection(env: Env, db: Db, hint: nat, vars: seq<Variable>, s: bytes): (r: Parsed<seq<Variable>>)
    requires Sound(db)
    ensures r.Done? ==> |r.rest| <= |s| && |r.value| == |vars|
    decreases |s|, 4, 0
  {
    var (n, s1) :- ReadSize(hint, s);
    ReadVars(env, db, hint, vars, s1, n, n != |vars|)
  }

  function ReadState(env: Env, db: Db, st: State, s: bytes): (r: Parsed<State>)
    requires Sound(db)
    ensures r.Done? ==> |r.rest| <= |s|
    decreases |s|, 0, 0
  {
    var (flags, s1) :- ReadU16(s);
    var (version, s2) :- ReadU8(s1);
    if version != IO_VERSION then Fail(Malformed)
    else
      var hint := |st.desc.vars|;
      var (simple, s3) :- ReadSection(env, db, hint, st.simple, s2);
      var (nested, s4) :- ReadSection(env, db, hint, st.nested, s3);
      Done(st.(flags := flags, simple := simple, nested := nested), s4)
  }

  // ===== blobs =====

  function WriteObject(uoid: Option<K.Uoid>): Result<bytes> {
    if uoid.None? then Ok([]) else K.WriteUoid(uoid.value)
  }

  function ToBlob(env: Env, s: State): Result<bytes> {
    var name :- SafeString.Write(s.desc.name, SafeString.AsLatin1);
    var uoid :- WriteObject(s.uoid);
    var body :- WriteState(env, s);
    Ok(U16Bytes(if s.uoid.Some? then 0x8001 else 0x8000) + name + U16Bytes(s.desc.version) + uoid + body)
  }

  function ReadObject(flags: u16, s: bytes): Parsed<Option<K.Uoid>> {
    if flags % 2 == 1 then
      var (u, s1) :- K.ReadUoid(s);
      Done(Some(u), s1)
    else Done(None, s)
  }

  /** Bytes after the state are reported by the source and otherwise ignored. */
  function FromBlob(env: Env, db: Db, blob: bytes): Result<State>
    requires Sound(db)
  {
    var flags := ReadU16(blob);
    if flags.Fail? then Err(flags.error)
    else if flags.value < 0x8000 then Err(Malformed)
    else
      var name := SafeString.Read(flags.rest, SafeString.AsLatin1);
      if name.Fail? then Err(name.error)
      else
        var version := ReadU16(name.rest);
        if version.Fail? then Err(version.error)
        else
          var desc := GetVersion(db, name.value, version.value);
          if desc.None? then Err(NotFound)
          else
            var uoid := ReadObject(flags.value, version.rest);
            if uoid.Fail? then Err(uoid.error)
            else
              Returned(db, name.value, version.value);
              var initial := StateFromDefaults(desc.value, db).(uoid := uoid.value);
              var state := ReadState(env, db, initial, uoid.rest);
              if state.Fail? then Err(state.error) else Ok(state.value)
  }
}
