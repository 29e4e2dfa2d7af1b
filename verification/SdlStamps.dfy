/** What becomes of timestamps.  The writer announces one with a flag and leaves it out,
    so that the reader takes eight bytes of something else for it. */
module SdlStamps {
  import opened Prim
  import opened Text
  import opened SdlTypes
  import opened SdlValues
  import opened SdlDefaults
  import opened SdlCodec
  import opened SdlRoundTrip
  import opened SdlRuns
  import opened SdlLoops
  import SafeString
  import K = Key
  import C = Creatable

  // ===== no reader gets a value out of fewer bytes than the writer takes =====

  /** Every type but creatables, which can be packed in more than one way, and nested
      states. */
  predicate Sized(t: VarType) {
    !t.StateDesc? && !t.Creatable?
  }

  function TextSize(s: string): nat {
    2 + |s|
  }

  lemma TextWritten(s: string)
    ensures var r := SafeString.Write(s, SafeString.AsLatin1); r.Ok? ==> |r.value| == TextSize(s)
  {
  }

  lemma TextRead(s: bytes)
    ensures var r := SafeString.Read(s, SafeString.AsLatin1); r.Done? ==> |r.rest| + TextSize(r.value) <= |s|
  {
  }

  function KeySize(u: K.Uoid): nat {
    13 + (if u.loadMask != 0xFF then 1 else 0) + TextSize(u.objName) + (if K.HasCloneIds(u) then 8 else 0)
  }

  lemma KeyWritten(u: K.Uoid)
    ensures var r := K.WriteUoid(u); r.Ok? ==> |r.value| == KeySize(u)
  {
    hide SafeString.Write;
    TextWritten(u.objName);
  }

  lemma KeyRead(s: bytes)
    ensures var r := K.ReadUoid(s); r.Done? ==> |r.rest| + KeySize(r.value) <= |s|
  {
    hide SafeString.Read;
    if K.ReadUoid(s).Done? {
      var s5 := ReadU32(ReadU16(K.ReadMask(K.ReadLocation(s[1..]).rest, s[0]).rest).rest).rest;
      TextRead(s5);
    }
  }

  function Size(t: VarType, e: Scalar): (n: nat)
    requires Sized(t) && HasType(e, t)
    ensures n >= 1
  {
    match t
    case Bool => 1
    case Byte => 1
    case Double => 8
    case Float => 4
    case Int => 4
    case Key => KeySize(e.u)
    case Point3 => 12
    case Vector3 => 12
    case Quat => 16
    case Rgb => 12
    case Rgb8 => 3
    case Rgba => 16
    case Rgba8 => 4
    case Short => 2
    case String32 => 32
    case Time => 8
  }

  lemma ScalarWritten(env: Env, t: VarType, e: Scalar)
    requires Sized(t) && HasType(e, t)
    ensures var r := WriteScalar(env, t, e); r.Ok? ==> |r.value| == Size(t, e)
  {
    hide String32Bytes, I16Bits, I32Bits, K.WriteUoid, KeySize;
    if t.Key? {
      KeyWritten(e.u);
    }
  }

  lemma ScalarRead(env: Env, t: VarType, s: bytes)
    requires Sized(t) && IsScalar(t)
    ensures var r := ReadScalar(env, t, s); r.Done? ==> |r.rest| + Size(t, r.value) <= |s|
  {
    hide FromUtf8, BeforeNul, BitsI16, BitsI32, K.ReadUoid, KeySize;
    if t.Key? {
      KeyRead(s);
    }
  }

  function Sizes(t: VarType, es: seq<Scalar>): nat
    requires Sized(t) && AllTyped(es, t)
  {
    if es == [] then 0 else Sizes(t, es[..|es| - 1]) + Size(t, es[|es| - 1])
  }

  lemma {:induction false} ScalarsWritten(env: Env, t: VarType, es: seq<Scalar>)
    requires Sized(t) && AllTyped(es, t)
    ensures var r := WriteScalars(env, t, es); r.Ok? ==> |r.value| == Sizes(t, es)
  {
    hide WriteScalar, Size, HasType;
    if es != [] {
      ScalarsWritten(env, t, es[..|es| - 1]);
      ScalarWritten(env, t, es[|es| - 1]);
    }
  }

  lemma {:induction false} ScalarsRead(env: Env, t: VarType, s: bytes, n: nat)
    requires Sized(t) && IsScalar(t)
    ensures var r := ReadScalars(env, t, s, n); r.Done? ==> |r.rest| + Sizes(t, r.value) <= |s|
  {
    hide ReadScalar, Size, HasType;
    if n > 0 {
      ScalarsRead(env, t, s, n - 1);
      var init := ReadScalars(env, t, s, n - 1);
      if init.Done? {
        ScalarRead(env, t, init.rest);
        var last := ReadScalar(env, t, init.rest);
        if last.Done? {
          assert (init.value + [last.value])[..n - 1] == init.value;
        }
      }
    }
  }

  function ValuesSize(d: VarDescriptor, values: VarValues): nat
    requires Sized(d.varType)
  {
    (if d.count.None? then 4 else 0) +
    (if values.Scalars? && AllTyped(values.elems, d.varType) then Sizes(d.varType, values.elems) else 0)
  }

  lemma ValuesWritten(env: Env, v: Variable)
    requires Sized(v.desc.varType) && SimpleFormed(v)
    ensures var r := WriteValues(env, v); r.Ok? ==> |r.value| == ValuesSize(v.desc, v.values)
  {
    hide WriteScalars, Sizes, AllTyped;
    if v.values.Scalars? {
      ScalarsWritten(env, v.desc.varType, v.values.elems);
    }
  }

  lemma ValuesRead(env: Env, d: VarDescriptor, s: bytes)
    requires Sized(d.varType)
    ensures var r := ReadValues(env, d, s); r.Done? ==> |r.rest| + ValuesSize(d, r.value) <= |s|
  {
    hide ReadScalars, Sizes, AllTyped, ReadU32;
    var n := ReadCount(d, s);
    if n.Done? {
      CountRead(d, s);
      if !d.varType.AgeTimeOfDay? {
        ScalarsRead(env, d.varType, n.rest, n.value);
      }
    }
  }

  lemma CountRead(d: VarDescriptor, s: bytes)
    requires ReadCount(d, s).Done?
    ensures |ReadCount(d, s).rest| + (if d.count.None? then 4 else 0) == |s|
  {
  }

  // ===== one variable =====

  /** The reader takes eight bytes for the time that the flags announce. */
  predicate Announced(s: bytes) {
    s != [] && Flag(s[0], HAS_TIMESTAMP)
  }

  predicate SaysDefault(s: bytes) {
    s != [] && Flag(s[0], SAME_AS_DEFAULT)
  }

  /** What a read costs. */
  lemma SimpleRead(env: Env, v: Variable, s: bytes)
    requires Sized(v.desc.varType) && ReadSimple(env, v, s).Done?
    ensures var r := ReadSimple(env, v, s);
            && |s| >= |r.rest| + 1 + (if Announced(s) then 8 else 0)
                      + (if SaysDefault(s) then 0 else ValuesSize(v.desc, r.value.values))
            && (SaysDefault(s) ==> r.value.values == v.values)
  {
    hide ReadValues, ValuesSize, Flag;
    var flags := ReadU8(s);
    var stamp := ReadStamp(env, v, flags.value, flags.rest);
    if Announced(s) {
      StampWidth(env, v, s[0], s[1..]);
    }
    if !SaysDefault(s) {
      ValuesRead(env, v.desc, stamp.rest);
    }
  }

  lemma StampWidth(env: Env, v: Variable, flags: u8, s: bytes)
    requires Flag(flags, HAS_TIMESTAMP) && ReadStamp(env, v, flags, s).Done?
    ensures |ReadStamp(env, v, flags, s).rest| + 8 == |s|
  {
  }

  lemma StampAnnounced(env: Env, v: Variable, rest: bytes)
    requires v.timestamp != ZERO_TIME && WriteSimple(env, v).Ok?
    ensures var s := WriteSimple(env, v).value + rest;
            Announced(s) && (SaysDefault(s) <==> SimpleIsDefault(v) == Ok(true))
  {
    hide SimpleIsDefault, WriteValues;
  }

  /** The written values are not also the default ones.  They would be for an empty
      variable of variable length, or for a default that is a NaN. */
  predicate Frugal(v: Variable)
    requires TypedDefault(v.desc) && !v.desc.varType.StateDesc?
  {
    SimpleIsDefault(v) == Ok(false) ==> v.values != SimpleDefaults(v.desc)
  }

  /** The bytes that cannot be spared: none for the values the reader starts from. */
  function ValuesNeed(v: Variable): nat
    requires TypedDefault(v.desc) && Sized(v.desc.varType)
  {
    if v.values == SimpleDefaults(v.desc) then 0 else ValuesSize(v.desc, v.values)
  }

  lemma SimpleWritten(env: Env, v: Variable)
    requires TypedDefault(v.desc) && Sized(v.desc.varType) && SimpleFormed(v) && Frugal(v) && WriteSimple(env, v).Ok?
    ensures |WriteSimple(env, v).value| <= 1 + ValuesNeed(v)
  {
    hide SimpleIsDefault, WriteValues, ValuesSize, SimpleDefaults, TypedDefault;
    ValuesWritten(env, v);
  }

  /** A variable with a timestamp does not come back from the end of a stream, because
      the reader runs out of bytes. */
  lemma StampLost(env: Env, v: Variable)
    requires TypedDefault(v.desc) && Sized(v.desc.varType)
    requires v.dirty && SimpleFormed(v) && v.timestamp != ZERO_TIME && WriteSimple(env, v).Ok?
    ensures var r := ReadSimple(env, SimpleVar(v.desc), WriteSimple(env, v).value);
            r.Done? ==> r.value != v.(hint := "", dirty := false)
  {
    hide SimpleIsDefault, WriteValues, ReadSimple, SimpleDefaults, ValuesSize, TypedDefault, Announced, SaysDefault;
    var b := WriteSimple(env, v).value;
    assert b + [] == b;
    StampAnnounced(env, v, []);
    ValuesWritten(env, v);
    if ReadSimple(env, SimpleVar(v.desc), b).Done? {
      SimpleRead(env, SimpleVar(v.desc), b);
    }
  }

  /** The exact condition for one variable. */
  lemma SimpleIff(env: Env, v: Variable)
    requires C.Lossless(env.zlib) && TypedDefault(v.desc) && Sized(v.desc.varType)
    requires v.dirty && SimpleFormed(v) && WriteSimple(env, v).Ok?
    ensures ReadSimple(env, SimpleVar(v.desc), WriteSimple(env, v).value)
            == Done(v.(hint := "", dirty := false), [])
            <==> v.timestamp == ZERO_TIME && SimpleStorable(env, v)
  {
    hide C.Lossless, WriteSimple, ReadSimple, SimpleStorable, SimpleDefaults, TypedDefault;
    var b := WriteSimple(env, v).value;
    if v.timestamp == ZERO_TIME {
      assert b + [] == b;
      SimpleRoundTrip(env, v, []);
    } else {
      StampLost(env, v);
    }
  }

  // ===== a variable with its hint =====

  function HintSize(hint: string): nat {
    if hint == "" then 1 else 2 + TextSize(hint)
  }

  lemma HintWritten(hint: string)
    ensures WriteHint(hint).Ok? ==> |WriteHint(hint).value| == HintSize(hint)
  {
    hide SafeString.Write;
    TextWritten(hint);
  }

  lemma HintRead(s: bytes)
    ensures ReadHint(s).Done? ==> |ReadHint(s).rest| + HintSize(ReadHint(s).value) <= |s|
  {
    hide SafeString.Read, Flag;
    if |s| >= 2 {
      TextRead(s[2..]);
      assert s[1..][1..] == s[2..];
    }
  }

  /** A variable that is without nested states, and at its default if it is clean. */
  predicate Fresh(v: Variable) {
    Sized(v.desc.varType) && TypedDefault(v.desc) && (!v.dirty ==> v.values == SimpleDefaults(v.desc))
  }

  /** The variable at the front of the stream announces a timestamp. */
  predicate Stamps(s: bytes) {
    ReadHint(s).Done? && Announced(ReadHint(s).rest)
  }

  function VarNeed(v: Variable): nat
    requires Fresh(v)
  {
    if v.dirty then HintSize(v.hint) + 1 + ValuesNeed(v) else 0
  }

  /** Reading a variable costs what it needs beyond what its values needed before. */
  lemma VarRead(env: Env, db: Db, v: Variable, s: bytes)
    requires Sound(db) && Fresh(v) && ReadVar(env, db, v, s).Done?
    ensures var r := ReadVar(env, db, v, s);
            && Fresh(r.value) && r.value.dirty && r.value.desc == v.desc
            && |s| + ValuesNeed(v) >= |r.rest| + VarNeed(r.value) + (if Stamps(s) then 8 else 0)
  {
    hide Sound, ReadHint, ReadSimple, ValuesSize, SimpleDefaults, TypedDefault, Announced, HintSize;
    var h := ReadHint(s);
    HintRead(s);
    SimpleRead(env, v, h.rest);
    SimpleKeeps(env, v, h.rest);
  }

  lemma VarWritten(env: Env, v: Variable)
    requires Fresh(v) && v.dirty && SimpleFormed(v) && Frugal(v) && WriteVar(env, v).Ok?
    ensures |WriteVar(env, v).value| <= VarNeed(v)
  {
    hide WriteHint, WriteSimple, ValuesNeed, HintSize, SimpleIsDefault, SimpleDefaults, TypedDefault;
    HintWritten(v.hint);
    SimpleWritten(env, v);
  }

  lemma VarStamps(env: Env, v: Variable, rest: bytes)
    requires Sized(v.desc.varType) && v.timestamp != ZERO_TIME && WriteVar(env, v).Ok?
    ensures Stamps(WriteVar(env, v).value + rest)
  {
    hide WriteHint, ReadHint, WriteSimple, Announced;
    var hint, body := WriteHint(v.hint).value, WriteSimple(env, v).value;
    Cat2(hint, body, rest);
    HintRoundTrip(v.hint, body + rest);
    StampAnnounced(env, v, rest);
  }

  // ===== a run of variables =====

  function IndexSize(hint: nat, indexed: bool): nat {
    if !indexed then 0 else if hint < 0x100 then 1 else if hint < 0x1_0000 then 2 else 4
  }

  lemma IndexWritten(hint: nat, indexed: bool, i: nat)
    ensures WriteIndex(hint, indexed, i).Ok? ==> |WriteIndex(hint, indexed, i).value| == IndexSize(hint, indexed)
  {
  }

  lemma IndexRead(hint: nat, indexed: bool, k: nat, s: bytes)
    ensures var r := ReadIndex(hint, indexed, k, s); r.Done? ==> |r.rest| + IndexSize(hint, indexed) == |s|
  {
  }

  predicate AllFresh(vars: seq<Variable>) {
    forall i :: 0 <= i < |vars| ==> Fresh(vars[i])
  }

  function Needs(width: nat, vars: seq<Variable>): nat
    requires AllFresh(vars)
  {
    if vars == [] then 0
    else
      var v := vars[|vars| - 1];
      Needs(width, vars[..|vars| - 1]) + (if v.dirty then width + VarNeed(v) else 0)
  }

  /** Reading a variable anew replaces its share. */
  lemma {:induction false} NeedsUpdate(width: nat, vars: seq<Variable>, k: nat, v: Variable)
    requires AllFresh(vars) && k < |vars| && Fresh(v) && v.dirty
    ensures AllFresh(vars[k := v])
    ensures Needs(width, vars[k := v]) + ValuesNeed(vars[k]) <= Needs(width, vars) + width + VarNeed(v)
    decreases |vars|
  {
    hide Fresh, VarNeed, ValuesNeed;
    var last := |vars| - 1;
    if k < last {
      NeedsUpdate(width, vars[..last], k, v);
      assert vars[k := v][..last] == vars[..last][k := v];
    } else {
      assert vars[k := v][..last] == vars[..last];
      ShareCovers(vars[k]);
    }
  }

  lemma ShareCovers(v: Variable)
    requires Fresh(v)
    ensures ValuesNeed(v) <= if v.dirty then VarNeed(v) else 0
  {
    hide ValuesSize, SimpleDefaults, TypedDefault, HintSize;
  }

  /** The read that comes after `k` others is of a variable that announces a timestamp. */
  ghost predicate StampsAt(env: Env, db: Db, hint: nat, initial: seq<Variable>, s: bytes, k: nat, indexed: bool)
    requires Sound(db)
  {
    var done := ReadVars(env, db, hint, initial, s, k, indexed);
    done.Done? && var at := ReadIndex(hint, indexed, k, done.rest); at.Done? && Stamps(at.rest)
  }

  /** Whatever is read, into whichever variables and however often, has cost what the
      dirty variables need, and eight bytes more after an announced timestamp. */
  lemma {:induction false} ReadsCost(env: Env, db: Db, hint: nat, initial: seq<Variable>, s: bytes, n: nat,
                                     indexed: bool, k: nat)
    requires Sound(db) && AllFresh(initial) && Needs(IndexSize(hint, indexed), initial) == 0
    requires ReadVars(env, db, hint, initial, s, n, indexed).Done?
    ensures var r := ReadVars(env, db, hint, initial, s, n, indexed);
            && AllFresh(r.value)
            && |s| >= |r.rest| + Needs(IndexSize(hint, indexed), r.value)
                      + (if k < n && StampsAt(env, db, hint, initial, s, k, indexed) then 8 else 0)
    decreases n
  {
    hide Sound, ReadVar, ReadIndex, Fresh, Needs, VarNeed, ValuesNeed, Stamps, IndexSize;
    if n > 0 {
      var width := IndexSize(hint, indexed);
      ReadsCost(env, db, hint, initial, s, n - 1, indexed, k);
      var done := ReadVars(env, db, hint, initial, s, n - 1, indexed);
      var at := ReadIndex(hint, indexed, n - 1, done.rest);
      IndexRead(hint, indexed, n - 1, done.rest);
      var v := ReadVar(env, db, done.value[at.value], at.rest);
      VarRead(env, db, done.value[at.value], at.rest);
      NeedsUpdate(width, done.value, at.value, v.value);
    }
  }

  /** Variables as a flat section has them. */
  ghost predicate Flat(vars: seq<Variable>) {
    forall i :: 0 <= i < |vars| ==> Fresh(vars[i]) && (vars[i].dirty ==> SimpleFormed(vars[i]) && Frugal(vars[i]))
  }

  lemma {:induction false} VarsWritten(env: Env, hint: nat, vars: seq<Variable>, indexed: bool)
    requires Flat(vars)
    ensures AllFresh(vars)
    ensures var r := WriteVars(env, hint, vars, indexed);
            r.Ok? ==> |r.value| <= Needs(IndexSize(hint, indexed), vars)
    decreases |vars|
  {
    hide WriteVar, WriteIndex, Fresh, SimpleFormed, Frugal, VarNeed, IndexSize;
    if vars != [] {
      var k := |vars| - 1;
      VarsWritten(env, hint, vars[..k], indexed);
      if WriteVars(env, hint, vars, indexed).Ok? && vars[k].dirty {
        IndexWritten(hint, indexed, k);
        VarWritten(env, vars[k]);
      }
    }
  }

  // ===== a section with a timestamp =====

  /** The first of the dirty variables that have a timestamp. */
  predicate FirstStamped(vars: seq<Variable>, j: nat) {
    && j < |vars| && !VarUnstamped(vars[j])
    && forall i :: 0 <= i < j ==> VarUnstamped(vars[i])
  }

  lemma {:induction false} SomeFirst(vars: seq<Variable>, n: nat) returns (j: nat)
    requires n < |vars| && !VarUnstamped(vars[n])
    ensures FirstStamped(vars, j)
    decreases n
  {
    hide VarUnstamped;
    if i :| 0 <= i < n && !VarUnstamped(vars[i]) {
      j := SomeFirst(vars, i);
    } else {
      j := n;
    }
  }

  ghost predicate ReadOver(db: Db, vars: seq<Variable>, initial: seq<Variable>)
    requires Sound(db)
  {
    && |vars| == |initial|
    && forall i :: 0 <= i < |vars| ==> VarInv(db, vars[i]) && initial[i] == VarFromDefaults(vars[i].desc, db)
  }

  /** Up to the first timestamp the reader and the writer agree on where they are. */
  lemma PrefixAligned(env: Env, db: Db, hint: nat, vars: seq<Variable>, initial: seq<Variable>, j: nat, indexed: bool,
                      rest: bytes)
    requires C.Lossless(env.zlib) && Sound(db) && ReadOver(db, vars, initial) && j <= |vars|
    requires (forall i :: 0 <= i < j ==> VarUnstamped(vars[i])) && (!indexed ==> DirtyVars(vars[..j]) == j)
    requires WriteVars(env, hint, vars[..j], indexed).Ok?
    ensures var s := WriteVars(env, hint, vars[..j], indexed).value + rest;
            var r := ReadVars(env, db, hint, initial, s, DirtyVars(vars[..j]), indexed);
            r.Done? ==> r.rest == rest
  {
    hide Sound, C.Lossless, VarInv, VarFromDefaults, VarUnstamped, WriteVars, ReadVars, DirtyVars;
    var xs := vars[..j] + initial[j..];
    forall i | 0 <= i < |xs|
      ensures Known(db, xs[i].desc)
      ensures VarInv(db, xs[i]) && VarUnstamped(xs[i]) && initial[i] == VarFromDefaults(xs[i].desc, db)
    {
      assert VarInv(db, vars[i]);
      InvKnown(db, vars[i]);
      if i >= j {
        InitialInv(db, vars[i]);
      }
    }
    assert VarsReady(db, xs, initial);
    assert xs[..j] == vars[..j];
    VarsRoundTrip(env, db, hint, xs, initial, j, indexed, rest);
  }

  lemma InvKnown(db: Db, v: Variable)
    requires Sound(db) && VarInv(db, v)
    ensures Known(db, v.desc)
  {
  }

  lemma InitialInv(db: Db, v: Variable)
    requires Sound(db) && VarInv(db, v)
    ensures var d := VarFromDefaults(v.desc, db); VarInv(db, d) && VarUnstamped(d) && d.desc == v.desc && !d.dirty
  {
    hide Sound, DefaultValues, ValuesInv;
  }

  lemma {:induction false} WrittenPrefix(env: Env, hint: nat, vars: seq<Variable>, n: nat, indexed: bool)
      returns (tail: bytes)
    requires n <= |vars| && WriteVars(env, hint, vars, indexed).Ok?
    ensures WriteVars(env, hint, vars[..n], indexed).Ok?
    ensures WriteVars(env, hint, vars, indexed).value == WriteVars(env, hint, vars[..n], indexed).value + tail
    decreases |vars|
  {
    hide WriteVar, WriteIndex;
    if n == |vars| {
      assert vars[..n] == vars;
      tail := [];
    } else {
      var k := |vars| - 1;
      var init := WrittenPrefix(env, hint, vars[..k], n, indexed);
      assert vars[..k][..n] == vars[..n];
      var a := WriteVars(env, hint, vars[..n], indexed).value;
      if vars[k].dirty {
        var last := WriteIndex(hint, indexed, k).value + WriteVar(env, vars[k]).value;
        assert a + init + last == a + (init + last);
        tail := init + last;
      } else {
        tail := init;
      }
    }
  }

  lemma {:induction false} DirtyGrows(vars: seq<Variable>, n: nat)
    requires n <= |vars|
    ensures DirtyVars(vars[..n]) <= DirtyVars(vars)
    decreases |vars|
  {
    if n == |vars| {
      assert vars[..n] == vars;
    } else {
      DirtyGrows(vars[..|vars| - 1], n);
      assert vars[..|vars| - 1][..n] == vars[..n];
    }
  }

  /** The read of that variable comes upon the announcement. */
  lemma StampMet(env: Env, db: Db, hint: nat, vars: seq<Variable>, initial: seq<Variable>, j: nat, indexed: bool,
                 rest: bytes)
    requires C.Lossless(env.zlib) && Sound(db) && ReadOver(db, vars, initial)
    requires FirstStamped(vars, j) && vars[j].dirty && vars[j].timestamp != ZERO_TIME && Sized(vars[j].desc.varType)
    requires (!indexed ==> DirtyVars(vars) == |vars|) && WriteVars(env, hint, vars, indexed).Ok?
    requires ReadVars(env, db, hint, initial, WriteVars(env, hint, vars, indexed).value + rest,
                      DirtyVars(vars[..j]), indexed).Done?
    ensures StampsAt(env, db, hint, initial, WriteVars(env, hint, vars, indexed).value + rest,
                     DirtyVars(vars[..j]), indexed)
  {
    hide Sound, C.Lossless, ReadOver, VarUnstamped, ReadVars, WriteVar, WriteIndex, ReadIndex, Stamps, Sized;
    var tail := WrittenPrefix(env, hint, vars, j + 1, indexed);
    assert vars[..j + 1][..j] == vars[..j];
    var a := WriteVars(env, hint, vars[..j], indexed).value;
    var index, body := WriteIndex(hint, indexed, j).value, WriteVar(env, vars[j]).value;
    var s := WriteVars(env, hint, vars, indexed).value + rest;
    assert s == a + (index + (body + (tail + rest)));
    if !indexed {
      AllVarsDirty(vars, j);
    }
    PrefixAligned(env, db, hint, vars, initial, j, indexed, index + (body + (tail + rest)));
    IndexRoundTrip(hint, indexed, j, DirtyVars(vars[..j]), body + (tail + rest));
    VarStamps(env, vars[j], tail + rest);
  }

  lemma InitialFresh(db: Db, width: nat, vars: seq<Variable>, initial: seq<Variable>)
    requires Sound(db) && ReadOver(db, vars, initial) && Flat(vars)
    ensures AllFresh(initial) && Needs(width, initial) == 0
  {
    hide Sound, ValuesInv, Frugal, SimpleFormed, SimpleDefaults, TypedDefault;
    forall i | 0 <= i < |initial|
      ensures Fresh(initial[i]) && !initial[i].dirty
    {
      assert VarInv(db, vars[i]) && Fresh(vars[i]);
      SimpleDefault(db, vars[i].desc);
    }
    NoNeeds(width, initial);
  }

  lemma {:induction false} NoNeeds(width: nat, vars: seq<Variable>)
    requires AllFresh(vars) && forall i :: 0 <= i < |vars| ==> !vars[i].dirty
    ensures Needs(width, vars) == 0
  {
    hide Fresh, VarNeed;
    if vars != [] {
      NoNeeds(width, vars[..|vars| - 1]);
    }
  }

  /** With fewer than eight bytes after it, a flat run of variables of which one has a
      timestamp does not come back. */
  lemma StampedVars(env: Env, db: Db, hint: nat, vars: seq<Variable>, initial: seq<Variable>, j: nat, rest: bytes)
    requires C.Lossless(env.zlib) && Sound(db) && ReadOver(db, vars, initial) && Flat(vars) && FirstStamped(vars, j)
    requires |rest| < 8 && WriteVars(env, hint, vars, DirtyVars(vars) != |vars|).Ok?
    ensures var indexed := DirtyVars(vars) != |vars|;
            var s := WriteVars(env, hint, vars, indexed).value + rest;
            var r := ReadVars(env, db, hint, initial, s, DirtyVars(vars), indexed);
            r.Done? ==> r.value != vars
  {
    hide Sound, C.Lossless, ReadOver, WriteVars, ReadVars, Fresh, Frugal, SimpleFormed, Needs, IndexSize, StampsAt;
    var indexed, n, k := DirtyVars(vars) != |vars|, DirtyVars(vars), DirtyVars(vars[..j]);
    var s := WriteVars(env, hint, vars, indexed).value + rest;
    var r := ReadVars(env, db, hint, initial, s, n, indexed);
    if r.Done? && r.value == vars {
      FirstIs(vars, j);
      assert vars[..j + 1][..j] == vars[..j];
      DirtyGrows(vars, j + 1);
      if ReadVars(env, db, hint, initial, s, k, indexed).Fail? {
        ReadVarsStop(env, db, hint, initial, s, k, n, indexed);
      }
      StampMet(env, db, hint, vars, initial, j, indexed, rest);
      InitialFresh(db, IndexSize(hint, indexed), vars, initial);
      ReadsCost(env, db, hint, initial, s, n, indexed, k);
      VarsWritten(env, hint, vars, indexed);
    }
  }

  lemma FirstIs(vars: seq<Variable>, j: nat)
    requires Flat(vars) && FirstStamped(vars, j)
    ensures vars[j].dirty && vars[j].timestamp != ZERO_TIME && Sized(vars[j].desc.varType)
  {
    hide TypedDefault, SimpleDefaults, Frugal, AllTyped;
    assert Fresh(vars[j]);
  }

  // ===== a state without nested ones =====

  /** No nested states or creatables, and nothing written that the reader would have got
      without it. */
  predicate Plain(s: State) {
    && s.nested == []
    && forall i :: 0 <= i < |s.simple| ==> PlainVar(s.simple[i])
  }

  predicate PlainVar(v: Variable) {
    Sized(v.desc.varType) && TypedDefault(v.desc) && (v.dirty ==> Frugal(v))
  }

  lemma PlainFlat(db: Db, s: State)
    requires Sound(db) && StateInv(db, s) && Plain(s)
    ensures Flat(s.simple)
  {
    hide Sound, Known, Frugal, SimpleDefaults, TypedDefault, ValuesInv, SimpleFormed;
    forall i | 0 <= i < |s.simple|
      ensures Fresh(s.simple[i]) && (s.simple[i].dirty ==> SimpleFormed(s.simple[i]) && Frugal(s.simple[i]))
    {
      var v := s.simple[i];
      assert VarInv(db, v) && PlainVar(v);
      if v.dirty {
        FormedSimple(db, v);
      } else {
        SimpleDefault(db, v.desc);
      }
    }
  }

  lemma StampedSection(env: Env, db: Db, hint: nat, vars: seq<Variable>, ds: seq<VarDescriptor>, rest: bytes)
    requires C.Lossless(env.zlib) && Sound(db) && AllKnown(db, ds) && Matches(vars, ds) && Flat(vars)
    requires forall i :: 0 <= i < |vars| ==> VarInv(db, vars[i])
    requires exists i :: 0 <= i < |vars| && !VarUnstamped(vars[i])
    requires |rest| < 8 && WriteSection(env, hint, vars).Ok?
    ensures var r := ReadSection(env, db, hint, VarsFromDefaults(ds, db), WriteSection(env, hint, vars).value + rest);
            r.Done? ==> r.value != vars
  {
    hide Sound, C.Lossless, WriteSize, ReadSize, WriteVars, ReadVars, VarFromDefaults, VarInv, Known, VarUnstamped,
      Flat;
    var n, initial := DirtyVars(vars), VarsFromDefaults(ds, db);
    var count, body := WriteSize(hint, n).value, WriteVars(env, hint, vars, n != |vars|).value;
    Cat2(count, body, rest);
    SizeRoundTrip(hint, n, body + rest);
    assert ReadOver(db, vars, initial);
    var i :| 0 <= i < |vars| && !VarUnstamped(vars[i]);
    var j := SomeFirst(vars, i);
    StampedVars(env, db, hint, vars, initial, j, rest);
  }

  lemma NoSection(env: Env, hint: nat)
    ensures WriteSection(env, hint, []).Ok? && |WriteSection(env, hint, []).value| <= 4
  {
  }

  lemma StampedState(env: Env, db: Db, s: State)
    requires C.Lossless(env.zlib) && Sound(db) && StateInv(db, s) && Plain(s) && !Unstamped(s) && WriteState(env, s).Ok?
    ensures var r := ReadState(env, db, StateFromDefaults(s.desc, db).(uoid := s.uoid), WriteState(env, s).value);
            r.Done? ==> r.value != s
  {
    hide Sound, C.Lossless, WriteSection, ReadSection, VarsFromDefaults, VarInv, VarUnstamped, Known, U16Bytes, ReadU16,
      Flat, PlainVar;
    var hint := |s.desc.vars|;
    var simple, nested := WriteSection(env, hint, s.simple).value, WriteSection(env, hint, s.nested).value;
    Cat3(U16Bytes(s.flags), [IO_VERSION], simple, nested);
    ReadsU16(s.flags, [IO_VERSION] + (simple + nested));
    ReadsU8(IO_VERSION, simple + nested);
    PlainFlat(db, s);
    NoSection(env, hint);
    StampedSection(env, db, hint, s.simple, SimpleDescs(s.desc.vars), nested);
  }

  /** The blob of such a state, with or without timestamps, reads back as the state if
      and only if it has none and the format can carry the rest. */
  lemma PlainBlobIff(env: Env, db: Db, s: State)
    requires C.Lossless(env.zlib) && Sound(db) && Filed(db)
    requires GetVersion(db, s.desc.name, s.desc.version) == Some(s.desc)
    requires StateInv(db, s) && Plain(s) && ToBlob(env, s).Ok?
    ensures FromBlob(env, db, ToBlob(env, s).value) == Ok(s)
            <==> Unstamped(s) && StateStorable(env, s) && K.KeySurvives(s.uoid)
                 && SafeString.Survives(s.desc.name, SafeString.AsLatin1)
  {
    hide Sound, C.Lossless, WriteState, ReadState, StateFromDefaults, StateStorable, SafeString.Survives,
      K.KeySurvives, Unstamped, ToBlob, FromBlob, VarInv, Known, Filed, GetVersion, Plain;
    if Unstamped(s) {
      BlobRoundTrip(env, db, s);
    } else {
      BlobReads(env, db, s);
      StampedState(env, db, s);
    }
  }
}
