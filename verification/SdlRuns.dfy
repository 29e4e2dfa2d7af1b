/** What every operation on SDL states keeps, and where the stream form falls short. */
module SdlRuns {
  import opened Prim
  import opened SdlTypes
  import opened SdlValues
  import opened SdlDefaults
  import opened SdlCodec
  import opened SdlRoundTrip
  import SafeString
  import K = Key
  import C = Creatable

  // ===== defaults satisfy the invariant =====

  lemma DefaultVarsInv(db: Db, ds: seq<VarDescriptor>)
    requires Sound(db) && AllKnown(db, ds)
    ensures var vars := VarsFromDefaults(ds, db);
            Matches(vars, ds) && forall i :: 0 <= i < |vars| ==> VarInv(db, vars[i])
  {
    hide Sound, Known, DefaultValues, ValuesInv;
    var vars := VarsFromDefaults(ds, db);
    forall i | 0 <= i < |vars|
      ensures vars[i].desc == ds[i] && VarInv(db, vars[i])
    {
      assert vars[i] == VarFromDefaults(ds[i], db);
    }
  }

  lemma DefaultStateInv(db: Db, desc: StateDescriptor)
    requires Sound(db) && AllKnown(db, desc.vars)
    ensures StateInv(db, StateFromDefaults(desc, db))
  {
    hide Sound, Known, VarsFromDefaults, VarInv;
    DefaultVarsInv(db, SimpleDescs(desc.vars));
    DefaultVarsInv(db, NestedDescs(desc.vars));
  }

  lemma DefaultValuesInv(db: Db, d: VarDescriptor)
    requires Sound(db) && Known(db, d)
    ensures ValuesInv(db, d, DefaultValues(d, db))
  {
    hide Sound, StateFromDefaults, GetLatest, DefaultOf, HasType;
    if d.varType.StateDesc? {
      LatestRank(db, d);
      var latest := GetLatest(db, d.varType.name).value;
      DefaultStateInv(db, latest);
      DefaultShape(db, latest);
    } else if !d.varType.AgeTimeOfDay? {
      DefaultTyped(d);
    }
  }

  lemma DefaultTyped(d: VarDescriptor)
    requires TypedDefault(d) && IsScalar(d.varType)
    ensures AllTyped(Copies(DefaultOf(d), CountOf(d)), d.varType)
  {
  }

  /** Clean or dirty, a variable's values have the form its descriptor asks for. */
  lemma ValuesFormed(db: Db, v: Variable)
    requires Sound(db) && VarInv(db, v)
    ensures ValuesInv(db, v.desc, v.values)
  {
    hide Sound, ValuesInv, DefaultValues;
    if !v.dirty {
      DefaultValuesInv(db, v.desc);
    }
  }

  // ===== reads keep the invariant =====

  lemma ReadValuesInv(env: Env, db: Db, d: VarDescriptor, s: bytes)
    requires Sound(db) && Known(db, d) && !d.varType.StateDesc? && ReadValues(env, d, s).Done?
    ensures ValuesInv(db, d, ReadValues(env, d, s).value)
  {
    hide Sound, Known, ReadScalars;
  }

  lemma ReadSimpleInv(env: Env, db: Db, v: Variable, s: bytes)
    requires Sound(db) && VarInv(db, v) && !v.desc.varType.StateDesc? && ReadSimple(env, v, s).Done?
    ensures var r := ReadSimple(env, v, s).value; r.desc == v.desc && ValuesInv(db, v.desc, r.values)
  {
    hide Sound, ValuesInv, ReadValues, ReadStamp, Flag;
    ValuesFormed(db, v);
    var flags := ReadU8(s);
    var stamp := ReadStamp(env, v, flags.value, flags.rest);
    if !Flag(flags.value, SAME_AS_DEFAULT) {
      ReadValuesInv(env, db, v.desc, stamp.rest);
    }
  }

  lemma {:induction false} ReadVarInv(env: Env, db: Db, v: Variable, s: bytes)
    requires Sound(db) && VarInv(db, v) && ReadVar(env, db, v, s).Done?
    ensures VarInv(db, ReadVar(env, db, v, s).value)
    decreases |s|, 2, 0
  {
    hide Sound, ReadHint, ReadNested, ReadSimple, GetLatest;
    var hint := ReadHint(s);
    if v.desc.varType.StateDesc? {
      var latest := GetLatest(db, v.desc.varType.name).value;
      ReadNestedInv(env, db, v.desc, latest, hint.rest);
    } else {
      ReadSimpleInv(env, db, v, hint.rest);
    }
  }

  ghost predicate ChildrenInv(db: Db, latest: StateDescriptor, states: seq<State>)
    requires Sound(db)
  {
    forall i :: 0 <= i < |states| ==> ChildInv(db, latest, states[i])
  }

  lemma {:induction false} ReadNestedInv(env: Env, db: Db, d: VarDescriptor, latest: StateDescriptor, s: bytes)
    requires Sound(db) && d.varType.StateDesc? && GetLatest(db, d.varType.name) == Some(latest)
    requires ReadNested(env, db, d, latest, s).Done?
    ensures var r := ReadNested(env, db, d, latest, s).value; LengthFits(d, |r|) && ChildrenInv(db, latest, r)
    decreases |s|, 1, 0
  {
    hide Sound, ReadStates, ReadSize, GetLatest, StateFromDefaults, StateInv;
    Returned(db, d.varType.name, 0);
    var total := ReadCount(d, s[1..]);
    var n := ReadSize(CountOf(d), total.rest);
    DefaultStateInv(db, latest);
    DefaultShape(db, latest);
    var initial := FreshStates(latest, db, total.value);
    ReadStatesInv(env, db, CountOf(d), latest, initial, n.rest, n.value, n.value != total.value);
  }

  lemma {:induction false} ReadStatesInv(env: Env, db: Db, hint: nat, latest: StateDescriptor, states: seq<State>,
                                         s: bytes, n: nat, indexed: bool)
    requires Sound(db) && ChildrenInv(db, latest, states)
    requires ReadStates(env, db, hint, states, s, n, indexed).Done?
    ensures ChildrenInv(db, latest, ReadStates(env, db, hint, states, s, n, indexed).value)
    decreases |s|, 3, n
  {
    hide Sound, ReadState, ReadIndex, StateInv;
    if n > 0 {
      ReadStatesInv(env, db, hint, latest, states, s, n - 1, indexed);
      var done := ReadStates(env, db, hint, states, s, n - 1, indexed);
      var k := ReadIndex(hint, indexed, n - 1, done.rest);
      ReadStateInv(env, db, done.value[k.value], k.rest);
    }
  }

  ghost predicate VarsInv(db: Db, vars: seq<Variable>)
    requires Sound(db)
  {
    forall i :: 0 <= i < |vars| ==> VarInv(db, vars[i])
  }

  lemma {:induction false} ReadVarsInv(env: Env, db: Db, hint: nat, vars: seq<Variable>, ds: seq<VarDescriptor>,
                                       s: bytes, n: nat, indexed: bool)
    requires Sound(db) && VarsInv(db, vars) && Matches(vars, ds)
    requires ReadVars(env, db, hint, vars, s, n, indexed).Done?
    ensures var r := ReadVars(env, db, hint, vars, s, n, indexed).value; VarsInv(db, r) && Matches(r, ds)
    decreases |s|, 3, n
  {
    hide Sound, ReadVar, ReadIndex, VarInv;
    if n > 0 {
      ReadVarsInv(env, db, hint, vars, ds, s, n - 1, indexed);
      var done := ReadVars(env, db, hint, vars, s, n - 1, indexed);
      var k := ReadIndex(hint, indexed, n - 1, done.rest);
      ReadVarInv(env, db, done.value[k.value], k.rest);
    }
  }

  /** Reading into any state that satisfies the invariant gives one that does, with
      the same descriptor and object. */
  lemma {:induction false} ReadStateInv(env: Env, db: Db, st: State, s: bytes)
    requires Sound(db) && StateInv(db, st) && ReadState(env, db, st, s).Done?
    ensures var r := ReadState(env, db, st, s).value; StateInv(db, r) && r.desc == st.desc && r.uoid == st.uoid
    decreases |s|, 0, 0
  {
    hide Sound, ReadVars, ReadSize, VarInv, Known;
    var hint, ds := |st.desc.vars|, st.desc.vars;
    var s2 := ReadU8(ReadU16(s).rest).rest;
    var n1 := ReadSize(hint, s2);
    ReadVarsInv(env, db, hint, st.simple, SimpleDescs(ds), n1.rest, n1.value, n1.value != |st.simple|);
    var simple := ReadVars(env, db, hint, st.simple, n1.rest, n1.value, n1.value != |st.simple|);
    var n2 := ReadSize(hint, simple.rest);
    ReadVarsInv(env, db, hint, st.nested, NestedDescs(ds), n2.rest, n2.value, n2.value != |st.nested|);
  }

  // ===== runs =====

  datatype Op =
    | Read(stream: bytes)
    | Set(position: nat, index: nat, value: Scalar)   // `set_bool`, `set_byte` or `set_int`

  /** The accessors exist for three types; the others have no setter. */
  function SetterType(value: Scalar): Option<VarType> {
    match value
    case BoolValue(_) => Some(Bool)
    case ByteValue(_) => Some(Byte)
    case IntValue(_) => Some(Int)
    case _ => None
  }

  function SetVar(v: Variable, index: nat, value: Scalar): Result<Variable> {
    if v.values.Scalars? && SetterType(value) == Some(v.values.kind) && index < |v.values.elems| then
      Ok(v.(values := v.values.(elems := v.values.elems[index := value]), dirty := true))
    else Err(Malformed)
  }

  /** A variable is addressed by its place among the simple variables followed by the
      nested ones, the order in which `get_var_mut` searches. */
  function SetAt(s: State, position: nat, index: nat, value: Scalar): Result<State> {
    var k := |s.simple|;
    if position < k then
      var v :- SetVar(s.simple[position], index, value);
      Ok(s.(simple := s.simple[position := v]))
    else if position < k + |s.nested| then
      var v :- SetVar(s.nested[position - k], index, value);
      Ok(s.(nested := s.nested[position - k := v]))
    else Err(NotFound)
  }

  /** A setter that reports an error changes nothing; a failed read ends the run. */
  function Apply(env: Env, db: Db, s: State, op: Op): Result<State>
    requires Sound(db)
  {
    match op
    case Read(stream) =>
      var r := ReadState(env, db, s, stream);
      if r.Done? then Ok(r.value) else Err(r.error)
    case Set(position, index, value) =>
      var r := SetAt(s, position, index, value);
      Ok(if r.Ok? then r.value else s)
  }

  function Run(env: Env, db: Db, desc: StateDescriptor, ops: seq<Op>): Result<State>
    requires Sound(db) && AllKnown(db, desc.vars)
  {
    if ops == [] then Ok(StateFromDefaults(desc, db))
    else
      var s :- Run(env, db, desc, ops[..|ops| - 1]);
      Apply(env, db, s, ops[|ops| - 1])
  }

  lemma SetVarInv(db: Db, v: Variable, index: nat, value: Scalar)
    requires Sound(db) && VarInv(db, v) && SetVar(v, index, value).Ok?
    ensures var r := SetVar(v, index, value).value; VarInv(db, r) && r.desc == v.desc
  {
    hide Sound, DefaultValues;
    ValuesFormed(db, v);
  }

  lemma SetAtInv(db: Db, s: State, position: nat, index: nat, value: Scalar)
    requires Sound(db) && StateInv(db, s) && SetAt(s, position, index, value).Ok?
    ensures var r := SetAt(s, position, index, value).value;
            StateInv(db, r) && r.desc == s.desc && r.uoid == s.uoid
  {
    hide Sound, VarInv, SetVar, Known;
    var k := |s.simple|;
    if position < k {
      SetVarInv(db, s.simple[position], index, value);
    } else {
      SetVarInv(db, s.nested[position - k], index, value);
    }
  }

  /** In every state reached by defaults, successful reads and setters, clean variables
      are exactly default, values agree with their descriptors in variant and length,
      and nested states are at the latest descriptor. */
  lemma {:induction false} RunInv(env: Env, db: Db, desc: StateDescriptor, ops: seq<Op>)
    requires Sound(db) && AllKnown(db, desc.vars)
    ensures var r := Run(env, db, desc, ops);
            r.Ok? ==> StateInv(db, r.value) && r.value.desc == desc && r.value.uoid.None?
  {
    hide Sound, StateInv, ReadState, SetAt, AllKnown, StateFromDefaults;
    if ops == [] {
      DefaultStateInv(db, desc);
      DefaultShape(db, desc);
    } else {
      RunInv(env, db, desc, ops[..|ops| - 1]);
      var s := Run(env, db, desc, ops[..|ops| - 1]);
      if s.Ok? {
        match ops[|ops| - 1]
        case Read(stream) =>
          if ReadState(env, db, s.value, stream).Done? {
            ReadStateInv(env, db, s.value, stream);
          }
        case Set(position, index, value) =>
          if SetAt(s.value, position, index, value).Ok? {
            SetAtInv(db, s.value, position, index, value);
          }
      }
    }
  }

  /** A state that came out of a blob satisfies the invariant too. */
  lemma FromBlobInv(env: Env, db: Db, blob: bytes)
    requires Sound(db)
    ensures var r := FromBlob(env, db, blob); r.Ok? ==> StateInv(db, r.value)
  {
    hide Sound, StateInv, ReadState, StateFromDefaults, SafeString.Read, GetVersion, ReadObject, ReadU16, Known;
    if FromBlob(env, db, blob).Ok? {
      var flags := ReadU16(blob);
      var name := SafeString.Read(flags.rest, SafeString.AsLatin1);
      var version := ReadU16(name.rest);
      var uoid := ReadObject(flags.value, version.rest);
      Returned(db, name.value, version.value);
      var desc := GetVersion(db, name.value, version.value).value;
      DefaultStateInv(db, desc);
      var initial := StateFromDefaults(desc, db).(uoid := uoid.value);
      assert StateInv(db, initial) by { UoidFree(db, StateFromDefaults(desc, db), uoid.value); }
      ReadStateInv(env, db, initial, uoid.rest);
    }
  }

  lemma UoidFree(db: Db, s: State, uoid: Option<K.Uoid>)
    requires Sound(db) && StateInv(db, s)
    ensures StateInv(db, s.(uoid := uoid))
  {
    hide Sound, VarInv, Known;
  }

  /** The central law, over every run: a reachable state without timestamps is what its
      blob reads back as if and only if the format can carry its contents and its
      descriptor's name, and then writing it again gives the same bytes. */
  lemma ReachableRoundTrip(env: Env, db: Db, desc: StateDescriptor, ops: seq<Op>)
    requires C.Lossless(env.zlib) && Sound(db) && Filed(db) && AllKnown(db, desc.vars)
    requires GetVersion(db, desc.name, desc.version) == Some(desc)
    requires Run(env, db, desc, ops).Ok? && Unstamped(Run(env, db, desc, ops).value)
    requires ToBlob(env, Run(env, db, desc, ops).value).Ok?
    ensures var s := Run(env, db, desc, ops).value;
            var back := FromBlob(env, db, ToBlob(env, s).value);
            && (back == Ok(s) <==> StateStorable(env, s) && SafeString.Survives(desc.name, SafeString.AsLatin1))
            && (back == Ok(s) ==> ToBlob(env, back.value) == ToBlob(env, s))
  {
    hide Sound, C.Lossless, StateInv, StateStorable, Unstamped, ToBlob, FromBlob, GetVersion, SafeString.Survives,
      AllKnown, Run, Filed;
    RunInv(env, db, desc, ops);
    BlobRoundTrip(env, db, Run(env, db, desc, ops).value);
  }

  // ===== where the format falls short =====

  /** For a variable that is stored as SAME_AS_DEFAULT the exact condition: no
      timestamp, and values identical to the default, not merely equal to it. */
  lemma DefaultSimpleIff(env: Env, v: Variable)
    requires TypedDefault(v.desc) && !v.desc.varType.StateDesc?
    requires v.dirty && SimpleIsDefault(v) == Ok(true)
    ensures WriteSimple(env, v).Ok?
    ensures ReadSimple(env, SimpleVar(v.desc), WriteSimple(env, v).value)
            == Done(v.(hint := "", dirty := false), [])
            <==> v.timestamp == ZERO_TIME && v.values == SimpleDefaults(v.desc)
    ensures v.timestamp == ZERO_TIME ==>
              ReadSimple(env, SimpleVar(v.desc), WriteSimple(env, v).value)
              == Done(v.(hint := "", dirty := false, values := SimpleDefaults(v.desc)), [])
  {
    hide SimpleDefaults, SimpleIsDefault, ReadValues, TypedDefault;
    var flags := SimpleFlags(v, true);
    assert [flags] + [] == [flags];
    ReadsU8(flags, []);
  }

  /** Negative zero is such a value: it compares equal to a default of zero, is stored
      as the default, and comes back as zero. */
  lemma NegativeZeroLost(env: Env, v: Variable)
    requires v == Variable(VarDescriptor("f", Float, Some(1), None), Scalars(Float, [FloatValue(0x8000_0000)]),
                           ZERO_TIME, "", true)
    ensures SimpleFormed(v) && WriteSimple(env, v).Ok?
    ensures ReadSimple(env, SimpleVar(v.desc), WriteSimple(env, v).value)
            == Done(v.(hint := "", dirty := false, values := Scalars(Float, [FloatValue(0)])), [])
  {
    hide ReadSimple, WriteSimple;
    assert v.values.elems[0] == FloatValue(0x8000_0000);
    assert SimpleIsDefault(v) == Ok(true);
    assert SimpleDefaults(v.desc) == Scalars(Float, [FloatValue(0)]);
    DefaultSimpleIff(env, v);
  }

  /** The writer accepts exactly one element more than the reader. */
  lemma TenThousandElements(d: VarDescriptor, n: nat)
    requires LengthFits(d, n)
    ensures WriteCount(d, n).Ok? <==> n <= 10000
    ensures WriteCount(d, n).Ok? ==>
              ReadCount(d, WriteCount(d, n).value) == if n < 10000 then Done(n, []) else Fail(TooLarge)
  {
    hide U32Bytes, ReadCount;
    if n <= MAX_ELEMENTS {
      assert CountBytes(d, n) + [] == CountBytes(d, n);
      CountRoundTrip(d, n, []);
    }
  }

  function Length(values: VarValues): nat {
    match values
    case TimesOfDay(n) => n
    case Scalars(_, elems) => |elems|
    case States(states) => |states|
  }

  /** So a variable of ten thousand elements is written and cannot be read, while a
      shorter one comes back. */
  lemma LongVariable(env: Env, v: Variable)
    requires C.Lossless(env.zlib) && TypedDefault(v.desc) && !v.desc.varType.StateDesc?
    requires v.dirty && SimpleFormed(v) && v.timestamp == ZERO_TIME && SimpleIsDefault(v) == Ok(false)
    requires v.values.Scalars? ==> AllSurvive(env, v.values.kind, v.values.elems)
    ensures WriteSimple(env, v).Ok? <==>
              && Length(v.values) <= 10000
              && (v.values.Scalars? ==> WriteScalars(env, v.values.kind, v.values.elems).Ok?)
    ensures WriteSimple(env, v).Ok? ==>
              (ReadSimple(env, SimpleVar(v.desc), WriteSimple(env, v).value)
               == Done(v.(hint := "", dirty := false), [])
               <==> Length(v.values) < 10000)
  {
    hide C.Lossless, ReadSimple, AllSurvive, AllTyped, SimpleDefaults, SimpleIsDefault, WriteScalars, ScalarsStorable,
      TypedDefault;
    StorableValues(env, v);
    if WriteSimple(env, v).Ok? {
      var b := WriteSimple(env, v).value;
      assert b + [] == b;
      SimpleRoundTrip(env, v, []);
    }
  }

  /** Each dirty state can be written and, where indices are stored, its index fits. */
  predicate StatesFit(env: Env, hint: nat, states: seq<State>, indexed: bool) {
    forall i :: 0 <= i < |states| && IsDirty(states[i]) ==>
      WriteState(env, states[i]).Ok? && (indexed ==> WriteSize(hint, i).Ok?)
  }

  lemma {:induction false} StatesWritten(env: Env, hint: nat, states: seq<State>, indexed: bool)
    ensures WriteStates(env, hint, states, indexed).Ok? <==> StatesFit(env, hint, states, indexed)
    decreases |states|
  {
    hide IsDirty, WriteState, WriteSize;
    if states != [] {
      var k := |states| - 1;
      var init := states[..k];
      StatesWritten(env, hint, init, indexed);
      assert forall i :: 0 <= i < k ==> init[i] == states[i];
    }
  }

  predicate AllWritable(env: Env, states: seq<State>) {
    forall i :: 0 <= i < |states| && IsDirty(states[i]) ==> WriteState(env, states[i]).Ok?
  }

  /** A variable-length run of nested states uses one-byte sizes: it can be written if
      and only if its dirty states number at most 255 and, when some are clean, none of
      them is beyond the first 256. */
  lemma NestedIndexLimit(env: Env, v: Variable)
    requires v.desc.count.None? && v.values.States? && |v.values.states| < 0x1_0000_0000
    ensures var states := v.values.states;
            WriteNested(env, v).Ok? <==>
              && AllWritable(env, states) && DirtyStates(states) < 0x100
              && (DirtyStates(states) == |states| || forall i :: 0x100 <= i < |states| ==> !IsDirty(states[i]))
  {
    hide IsDirty, WriteState, WriteStates, DirtyStates;
    var states := v.values.states;
    StatesWritten(env, 0, states, DirtyStates(states) != |states|);
  }

  /** With a fixed count there is no such limit. */
  lemma FixedCountWritten(env: Env, v: Variable)
    requires v.desc.count.Some? && v.values.States? && LengthFits(v.desc, |v.values.states|)
    requires |v.values.states| < 0x1_0000_0000
    ensures WriteNested(env, v).Ok? <==> AllWritable(env, v.values.states)
  {
    hide IsDirty, WriteState, WriteStates;
    var states := v.values.states;
    StatesWritten(env, |states|, states, DirtyStates(states) != |states|);
  }
}
