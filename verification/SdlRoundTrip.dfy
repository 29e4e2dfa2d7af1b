/** The invariant of SDL states and the round trip of their blobs. */
module SdlRoundTrip {
  import opened Prim
  import opened SdlTypes
  import opened SdlValues
  import opened SdlDefaults
  import opened SdlCodec
  import SafeString
  import K = Key
  import C = Creatable

  // ===== the invariant that every operation keeps =====

  predicate LengthFits(d: VarDescriptor, n: nat) {
    d.count.Some? ==> n == d.count.value
  }

  /** Variant, length and, for nested states, descriptor agree with the variable. */
  ghost predicate ValuesInv(db: Db, d: VarDescriptor, values: VarValues)
    requires Sound(db)
    decreases values, 1
  {
    && Known(db, d)
    && match d.varType
       case AgeTimeOfDay => values.TimesOfDay? && LengthFits(d, values.n)
       case StateDesc(name) =>
         && values.States? && LengthFits(d, |values.states|)
         && forall i :: 0 <= i < |values.states| ==> ChildInv(db, GetLatest(db, name).value, values.states[i])
       case t => values.Scalars? && values.kind == t && AllTyped(values.elems, t) && LengthFits(d, |values.elems|)
  }

  ghost predicate ChildInv(db: Db, latest: StateDescriptor, s: State)
    requires Sound(db)
    decreases s, 2
  {
    s.desc == latest && s.uoid.None? && StateInv(db, s)
  }

  /** A clean variable is exactly the default one. */
  ghost predicate VarInv(db: Db, v: Variable)
    requires Sound(db)
    decreases v, 1
  {
    && Known(db, v.desc)
    && if v.dirty then ValuesInv(db, v.desc, v.values) else v == VarFromDefaults(v.desc, db)
  }

  predicate Matches(vars: seq<Variable>, ds: seq<VarDescriptor>) {
    |vars| == |ds| && forall i :: 0 <= i < |vars| ==> vars[i].desc == ds[i]
  }

  ghost predicate StateInv(db: Db, s: State)
    requires Sound(db)
    decreases s, 1
  {
    && AllKnown(db, s.desc.vars)
    && Matches(s.simple, SimpleDescs(s.desc.vars)) && Matches(s.nested, NestedDescs(s.desc.vars))
    && (forall i :: 0 <= i < |s.simple| ==> VarInv(db, s.simple[i]))
    && (forall i :: 0 <= i < |s.nested| ==> VarInv(db, s.nested[i]))
  }

  // ===== contents that the stream form can carry =====

  predicate HintStorable(hint: string) {
    SafeString.Survives(hint, SafeString.AsLatin1)
  }

  /** Under SAME_AS_DEFAULT nothing is stored, so values that compare equal to the
      default must be identical to it; otherwise each must survive. */
  predicate ScalarsStorable(env: Env, v: Variable)
    requires v.values.Scalars?
  {
    if SimpleIsDefault(v) == Ok(true) then
      && TypedDefault(v.desc) && IsScalar(v.desc.varType)
      && forall i :: 0 <= i < |v.values.elems| ==> v.values.elems[i] == DefaultOf(v.desc)
    else AllSurvive(env, v.values.kind, v.values.elems) && |v.values.elems| < MAX_ELEMENTS
  }

  predicate VarStorable(env: Env, v: Variable)
    decreases v, 1
  {
    v.dirty ==>
      && HintStorable(v.hint) && v.timestamp == ZERO_TIME
      && match v.values
         case TimesOfDay(n) => v.desc.count.Some? || n < MAX_ELEMENTS
         case Scalars(_, _) => ScalarsStorable(env, v)
         case States(states) => |states| < MAX_ELEMENTS && ChildrenStorable(env, states)
  }

  predicate ChildrenStorable(env: Env, states: seq<State>)
    decreases states, 0
  {
    forall i :: 0 <= i < |states| ==> ChildStorable(env, states[i])
  }

  /** A nested state without a dirty variable is not written, and its flags with it. */
  predicate ChildStorable(env: Env, s: State)
    decreases s, 2
  {
    if IsDirty(s) then StateStorable(env, s) else s.flags == 0
  }

  predicate StateStorable(env: Env, s: State)
    decreases s, 1
  {
    && (forall i :: 0 <= i < |s.simple| ==> VarStorable(env, s.simple[i]))
    && (forall i :: 0 <= i < |s.nested| ==> VarStorable(env, s.nested[i]))
  }

  predicate SimpleStorable(env: Env, v: Variable)
    requires !v.values.States?
  {
    match v.values
    case TimesOfDay(n) => v.desc.count.Some? || n < MAX_ELEMENTS
    case Scalars(_, _) => ScalarsStorable(env, v)
  }

  /** No timestamp that a stream would have to carry.  The writer announces one with a
      flag and leaves it out, so that the reader takes the bytes after it instead. */
  predicate VarUnstamped(v: Variable)
    decreases v, 1
  {
    v.dirty ==> if v.values.States? then ChildrenUnstamped(v.values.states) else v.timestamp == ZERO_TIME
  }

  predicate ChildrenUnstamped(states: seq<State>)
    decreases states, 0
  {
    forall i :: 0 <= i < |states| ==> Unstamped(states[i])
  }

  predicate Unstamped(s: State)
    decreases s, 1
  {
    && (forall i :: 0 <= i < |s.simple| ==> VarUnstamped(s.simple[i]))
    && (forall i :: 0 <= i < |s.nested| ==> VarUnstamped(s.nested[i]))
  }

  // ===== pieces of the round trip =====

  lemma SizeRoundTrip(hint: nat, value: nat, rest: bytes)
    requires WriteSize(hint, value).Ok?
    ensures ReadSize(hint, WriteSize(hint, value).value + rest) == Done(value, rest)
  {
    hide U16Bytes, U32Bytes, ReadU16, ReadU32;
    if hint < 0x100 {
      ReadsU8(value, rest);
    } else if hint < 0x1_0000 {
      ReadsU16(value, rest);
    } else {
      ReadsU32(value, rest);
    }
  }

  lemma IndexRoundTrip(hint: nat, indexed: bool, i: nat, k: nat, rest: bytes)
    requires WriteIndex(hint, indexed, i).Ok? && (!indexed ==> k == i)
    ensures ReadIndex(hint, indexed, k, WriteIndex(hint, indexed, i).value + rest) == Done(i, rest)
  {
    hide WriteSize, ReadSize;
    if indexed {
      SizeRoundTrip(hint, i, rest);
    } else {
      assert [] + rest == rest;
    }
  }

  lemma HintRoundTrip(hint: string, rest: bytes)
    requires WriteHint(hint).Ok?
    ensures var r := ReadHint(WriteHint(hint).value + rest);
            r.Done? && r.rest == rest && (r.value == hint <==> HintStorable(hint))
  {
    hide SafeString.Write, SafeString.Read, SafeString.Survives, SafeString.Returned;
    if hint == "" {
      ReadsU8(0, rest);
      EmptyStorable();
    } else {
      var text := SafeString.Write(hint, SafeString.AsLatin1).value;
      Cat3([2], [0], text, rest);
      ReadsU8(2, [0] + (text + rest));
      ReadsU8(0, text + rest);
      SafeString.RoundTrip(hint, SafeString.AsLatin1, rest);
    }
  }

  lemma EmptyStorable()
    ensures HintStorable("")
  {
  }

  function CountBytes(d: VarDescriptor, n: u32): bytes {
    if d.count.None? then U32Bytes(n) else []
  }

  lemma CountRoundTrip(d: VarDescriptor, n: u32, rest: bytes)
    requires LengthFits(d, n)
    ensures ReadCount(d, CountBytes(d, n) + rest) == if n < MAX_ELEMENTS then Done(n, rest) else Fail(TooLarge)
  {
    hide U32Bytes, ReadU32;
    if d.count.None? {
      ReadsU32(n, rest);
    } else {
      assert [] + rest == rest;
    }
  }

  lemma FlagsWritten(v: Variable, isDefault: bool)
    requires v.dirty && v.timestamp == ZERO_TIME
    ensures var f := SimpleFlags(v, isDefault);
            && !Flag(f, HAS_TIMESTAMP) && !Flag(f, WANT_TIMESTAMP) && (Flag(f, SAME_AS_DEFAULT) <==> isDefault)
  {
  }

  /** Values in the form that a variable without nested states asks for. */
  predicate SimpleFormed(v: Variable) {
    if v.desc.varType.AgeTimeOfDay? then v.values.TimesOfDay? && LengthFits(v.desc, v.values.n)
    else
      && v.values.Scalars? && v.values.kind == v.desc.varType && AllTyped(v.values.elems, v.desc.varType)
      && LengthFits(v.desc, |v.values.elems|)
  }

  predicate ValuesStorable(env: Env, v: Variable)
    requires !v.values.States?
  {
    match v.values
    case TimesOfDay(n) => n < MAX_ELEMENTS
    case Scalars(kind, elems) => AllSurvive(env, kind, elems) && |elems| < MAX_ELEMENTS
  }

  lemma ValuesRoundTrip(env: Env, v: Variable, rest: bytes)
    requires C.Lossless(env.zlib) && !v.desc.varType.StateDesc? && SimpleFormed(v) && WriteValues(env, v).Ok?
    ensures Exact(ReadValues(env, v.desc, WriteValues(env, v).value + rest), v.values, rest, ValuesStorable(env, v))
  {
    hide ReadCount, WriteScalars, ReadScalars, AllSurvive, C.Lossless, AllTyped, U32Bytes;
    if v.values.TimesOfDay? {
      CountRoundTrip(v.desc, v.values.n, rest);
    } else {
      var elems := v.values.elems;
      var count, body := CountBytes(v.desc, |elems|), WriteScalars(env, v.values.kind, elems).value;
      Cat2(count, body, rest);
      CountRoundTrip(v.desc, |elems|, body + rest);
      ScalarsRoundTrip(env, v.values.kind, elems, rest);
    }
  }

  /** When nothing is stored, the default the reader starts from is the value if and
      only if the elements are identical to the default. */
  lemma DefaultKept(env: Env, v: Variable)
    requires TypedDefault(v.desc) && !v.desc.varType.StateDesc?
    requires SimpleFormed(v) && SimpleIsDefault(v) == Ok(true)
    ensures SimpleDefaults(v.desc) == v.values <==> SimpleStorable(env, v)
  {
    hide ScalarEq, DefaultOf, HasType;
    if !v.desc.varType.AgeTimeOfDay? {
      var copies := Copies(DefaultOf(v.desc), CountOf(v.desc));
      if SimpleStorable(env, v) {
        assert v.values.elems == copies;
      } else {
        assert v.values.elems != copies;
      }
    }
  }

  lemma StorableValues(env: Env, v: Variable)
    requires !v.values.States? && SimpleFormed(v) && SimpleIsDefault(v) == Ok(false)
    ensures ValuesStorable(env, v) <==> SimpleStorable(env, v)
  {
    hide AllTyped, AllSurvive;
  }

  lemma FormedSimple(db: Db, v: Variable)
    requires Sound(db) && !v.desc.varType.StateDesc? && ValuesInv(db, v.desc, v.values)
    ensures SimpleFormed(v)
  {
    hide Sound, Known, AllTyped;
  }

  lemma SimpleRoundTrip(env: Env, v: Variable, rest: bytes)
    requires C.Lossless(env.zlib) && TypedDefault(v.desc) && !v.desc.varType.StateDesc?
    requires v.dirty && SimpleFormed(v) && v.timestamp == ZERO_TIME && WriteSimple(env, v).Ok?
    ensures Exact(ReadSimple(env, SimpleVar(v.desc), WriteSimple(env, v).value + rest),
                  v.(hint := "", dirty := false), rest, SimpleStorable(env, v))
  {
    hide C.Lossless, WriteValues, ReadValues, SimpleIsDefault, SimpleFlags, Flag, SimpleDefaults, TypedDefault,
      SimpleStorable, ValuesStorable, AllTyped;
    var isDefault := SimpleIsDefault(v).value;
    var flags := SimpleFlags(v, isDefault);
    FlagsWritten(v, isDefault);
    if isDefault {
      ReadsU8(flags, rest);
      DefaultKept(env, v);
    } else {
      var values := WriteValues(env, v).value;
      Cat2([flags], values, rest);
      ReadsU8(flags, values + rest);
      StorableValues(env, v);
      ValuesRoundTrip(env, v, rest);
    }
  }

  /** A nested state that is not written is the default one, but for its flags. */
  lemma CleanIsDefault(db: Db, s: State)
    requires Sound(db) && StateInv(db, s) && !IsDirty(s) && s.uoid.None?
    ensures s == StateFromDefaults(s.desc, db) <==> s.flags == 0
  {
    hide Sound, Known, VarFromDefaults, ValuesInv;
    assert s.simple == VarsFromDefaults(SimpleDescs(s.desc.vars), db);
    assert s.nested == VarsFromDefaults(NestedDescs(s.desc.vars), db);
  }

  // ===== the recursion =====

  /** The readers fill in one variable or state after another over default ones.  When
      the first `k` have been handled, the others are untouched. */
  ghost predicate ExactTo<T>(r: Parsed<seq<T>>, xs: seq<T>, ys: seq<T>, k: nat, rest: bytes, ok: bool)
    requires k <= |xs| == |ys|
  {
    && Exact(r, xs[..k] + ys[k..], rest, ok)
    && (r.Done? ==> |r.value| == |xs| && r.value[k..] == ys[k..])
  }

  /** The turn that reads one more element. */
  lemma ReadOne<T>(r: Parsed<seq<T>>, l: Parsed<T>, xs: seq<T>, ys: seq<T>, k: nat, middle: bytes, rest: bytes,
                   initOk: bool, lastOk: bool)
    requires k < |xs| == |ys| && ExactTo(r, xs, ys, k, middle, initOk) && Exact(l, xs[k], rest, lastOk)
    ensures if r.Done? && l.Done? then
              |r.value| == |xs| && ExactTo(Done(r.value[k := l.value], l.rest), xs, ys, k + 1, rest, initOk && lastOk)
            else !(initOk && lastOk)
  {
    if r.Done? && l.Done? {
      var before, after := r.value, r.value[k := l.value];
      assert after[k + 1..] == ys[k + 1..] by { assert after[k + 1..] == before[k..][1..]; }
      assert before == before[..k] + ys[k..];
      assert after == before[..k] + [l.value] + ys[k + 1..];
      assert xs[..k + 1] + ys[k + 1..] == xs[..k] + [xs[k]] + ys[k + 1..];
      if after == xs[..k + 1] + ys[k + 1..] {
        assert l.value == after[k] == xs[k];
        assert before[..k] == after[..k] == xs[..k];
      }
      if before == xs[..k] + ys[k..] {
        assert before[..k] == xs[..k];
      }
    }
  }

  /** The element that was not written and is not read. */
  lemma SkipOne<T>(r: Parsed<seq<T>>, xs: seq<T>, ys: seq<T>, k: nat, rest: bytes, ok: bool)
    requires k < |xs| == |ys| && ExactTo(r, xs, ys, k, rest, ok)
    ensures ExactTo(r, xs, ys, k + 1, rest, ok && xs[k] == ys[k])
  {
    if r.Done? {
      assert r.value[k + 1..] == r.value[k..][1..] == ys[k + 1..];
      assert r.value[k] == r.value[k..][0] == ys[k];
      if xs[k] == ys[k] {
        assert xs[..k + 1] + ys[k + 1..] == xs[..k] + ys[k..];
      } else {
        assert (xs[..k + 1] + ys[k + 1..])[k] == xs[k];
      }
    } else if xs[k] == ys[k] {
      assert xs[..k + 1] + ys[k + 1..] == xs[..k] + ys[k..];
    }
  }

  lemma {:induction false} VarRoundTrip(env: Env, db: Db, v: Variable, rest: bytes)
    requires C.Lossless(env.zlib) && Sound(db)
    requires v.dirty && VarInv(db, v) && VarUnstamped(v) && WriteVar(env, v).Ok?
    ensures Exact(ReadVar(env, db, VarFromDefaults(v.desc, db), WriteVar(env, v).value + rest), v, rest,
                  VarStorable(env, v))
    decreases v, 1
  {
    hide Sound, C.Lossless, WriteHint, ReadHint, HintStorable, WriteNested, ReadNested, WriteSimple, ReadSimple,
      ValuesInv, DefaultValues, ScalarsStorable, ChildrenStorable, ChildrenUnstamped;
    var hint := WriteHint(v.hint).value;
    if v.desc.varType.StateDesc? {
      var body := WriteNested(env, v).value;
      Cat2(hint, body, rest);
      HintRoundTrip(v.hint, body + rest);
      NestedRoundTrip(env, db, v, rest);
    } else {
      var body := WriteSimple(env, v).value;
      Cat2(hint, body, rest);
      HintRoundTrip(v.hint, body + rest);
      FormedSimple(db, v);
      SimpleDefault(db, v.desc);
      SimpleRoundTrip(env, v, rest);
      SimpleKeeps(env, VarFromDefaults(v.desc, db), body + rest);
    }
  }

  lemma SimpleDefault(db: Db, d: VarDescriptor)
    requires Sound(db) && Known(db, d) && !d.varType.StateDesc?
    ensures TypedDefault(d) && VarFromDefaults(d, db) == SimpleVar(d)
  {
    hide Sound;
  }

  lemma SimpleKeeps(env: Env, v: Variable, s: bytes)
    requires !v.desc.varType.StateDesc?
    ensures var r := ReadSimple(env, v, s);
            r.Done? ==> r.value.desc == v.desc && r.value.hint == v.hint && r.value.dirty == v.dirty
  {
  }

  lemma {:induction false} NestedRoundTrip(env: Env, db: Db, v: Variable, rest: bytes)
    requires C.Lossless(env.zlib) && Sound(db) && v.desc.varType.StateDesc?
    requires v.dirty && VarInv(db, v) && VarUnstamped(v) && WriteNested(env, v).Ok?
    ensures v.values.States?
    ensures Exact(ReadNested(env, db, v.desc, GetLatest(db, v.desc.varType.name).value,
                             WriteNested(env, v).value + rest),
                  v.values.states, rest, |v.values.states| < MAX_ELEMENTS && ChildrenStorable(env, v.values.states))
    decreases v, 0
  {
    hide Sound, C.Lossless, U32Bytes, ReadU32, WriteSize, ReadSize, WriteStates, ReadStates, ReadCount,
      GetLatest, ChildInv, ChildStorable, Unstamped, ChildrenStorable;
    var states, d := v.values.states, v.desc;
    var latest, k, n := GetLatest(db, d.varType.name).value, CountOf(d), DirtyStates(states);
    var total := CountBytes(d, |states|);
    var count, body := WriteSize(k, n).value, WriteStates(env, k, states, n != |states|).value;
    Cat4([0], total, count, body, rest);
    ReadsU8(0, total + (count + (body + rest)));
    CountRoundTrip(d, |states|, count + (body + rest));
    SizeRoundTrip(k, n, body + rest);
    LatestRank(db, d);
    var initial := FreshStates(latest, db, |states|);
    assert states[..|states|] == states;
    assert StatesReady(db, latest, states, initial);
    StatesRoundTrip(env, db, k, latest, states, initial, |states|, n != |states|, rest);
    assert states + initial[|states|..] == states;
  }

  lemma {:induction false} AllDirty(states: seq<State>, n: nat)
    requires n <= |states| && DirtyStates(states) == |states|
    ensures DirtyStates(states[..n]) == n && forall i :: 0 <= i < n ==> IsDirty(states[i])
    decreases |states|
  {
    hide IsDirty;
    if n == |states| {
      assert states[..n] == states;
      if n > 0 {
        AllDirty(states[..n - 1], n - 1);
      }
    } else {
      AllDirty(states[..|states| - 1], n);
      assert states[..|states| - 1][..n] == states[..n];
    }
  }

  /** Default states to read over, one for each of the states to be read. */
  ghost predicate StatesReady(db: Db, latest: StateDescriptor, states: seq<State>, initial: seq<State>)
    requires Sound(db)
  {
    && AllKnown(db, latest.vars)
    && |states| == |initial|
    && forall i :: 0 <= i < |states| ==>
         ChildInv(db, latest, states[i]) && Unstamped(states[i]) && initial[i] == StateFromDefaults(latest, db)
  }

  lemma StateReadyAt(env: Env, db: Db, latest: StateDescriptor, states: seq<State>, initial: seq<State>, k: nat)
    requires Sound(db) && StatesReady(db, latest, states, initial) && k < |states|
    ensures var s := states[k];
            && StateInv(db, s) && Unstamped(s) && initial[k] == StateFromDefaults(s.desc, db).(uoid := s.uoid)
            && (ChildStorable(env, s) <==> if IsDirty(s) then StateStorable(env, s) else s == initial[k])
  {
    hide Sound, StateInv, IsDirty, StateStorable, Known, Unstamped;
    assert ChildInv(db, latest, states[k]) && Unstamped(states[k]);
    if !IsDirty(states[k]) {
      CleanIsDefault(db, states[k]);
    }
  }

  lemma ChildrenSplit(env: Env, states: seq<State>, k: nat)
    requires k < |states|
    ensures ChildrenStorable(env, states[..k + 1]) <==>
              ChildrenStorable(env, states[..k]) && ChildStorable(env, states[k])
  {
    hide ChildStorable;
    var a, b := states[..k], states[..k + 1];
    assert b[k] == states[k];
    assert forall i :: 0 <= i < k ==> a[i] == b[i];
  }

  lemma NoChildren(env: Env)
    ensures ChildrenStorable(env, [])
  {
  }

  /** One more turn of the reading loop. */
  lemma StatesStep(env: Env, db: Db, hint: nat, states: seq<State>, initial: seq<State>, k: nat, indexed: bool,
                   s: bytes, s1: bytes, s2: bytes, rest: bytes, initOk: bool, lastOk: bool)
    requires Sound(db) && k < |states| == |initial| && IsDirty(states[k])
    requires ExactTo(ReadStates(env, db, hint, initial, s, DirtyStates(states[..k]), indexed), states, initial, k,
                     s1, initOk)
    requires ReadIndex(hint, indexed, DirtyStates(states[..k]), s1) == Done(k, s2)
    requires Exact(ReadState(env, db, initial[k], s2), states[k], rest, lastOk)
    ensures ExactTo(ReadStates(env, db, hint, initial, s, DirtyStates(states[..k + 1]), indexed), states, initial,
                    k + 1, rest, initOk && lastOk)
  {
    hide Sound, ReadIndex, ReadState, IsDirty;
    assert states[..k + 1][..k] == states[..k];
    var r := ReadStates(env, db, hint, initial, s, DirtyStates(states[..k]), indexed);
    if r.Done? {
      assert r.value[k] == r.value[k..][0] == initial[k];
    }
    ReadOne(r, ReadState(env, db, initial[k], s2), states, initial, k, s1, rest, initOk, lastOk);
  }

  /** After the dirty states among the first `n` have been read over default states,
      those `n` are the original ones if and only if they can be stored, and the others
      are still default. */
  lemma {:induction false} StatesRoundTrip(env: Env, db: Db, hint: nat, latest: StateDescriptor, states: seq<State>,
                                           initial: seq<State>, n: nat, indexed: bool, rest: bytes)
    requires C.Lossless(env.zlib) && Sound(db) && StatesReady(db, latest, states, initial)
    requires n <= |states| == |initial| && (!indexed ==> DirtyStates(states) == |states|)
    requires WriteStates(env, hint, states[..n], indexed).Ok?
    ensures ExactTo(ReadStates(env, db, hint, initial, WriteStates(env, hint, states[..n], indexed).value + rest,
                               DirtyStates(states[..n]), indexed),
                    states, initial, n, rest, ChildrenStorable(env, states[..n]))
    decreases states, 3, n
  {
    hide Sound, C.Lossless, WriteIndex, ReadIndex, WriteState, ReadState, ReadStates, StateFromDefaults, IsDirty,
      StateInv, StateStorable, StatesReady, Unstamped, ChildStorable, ChildrenStorable;
    if n == 0 {
      assert states[..0] + initial[0..] == initial;
      ReadNoStates(env, db, hint, initial, rest, indexed);
      assert WriteStates(env, hint, states[..0], indexed).value + rest == rest;
      NoChildren(env);
    } else {
      var k := n - 1;
      assert states[..n][..k] == states[..k];
      var a := WriteStates(env, hint, states[..k], indexed).value;
      StateReadyAt(env, db, latest, states, initial, k);
      ChildrenSplit(env, states, k);
      if IsDirty(states[k]) {
        var index, body := WriteIndex(hint, indexed, k).value, WriteState(env, states[k]).value;
        Cat2(a, index + body, rest);
        Cat2(index, body, rest);
        StatesRoundTrip(env, db, hint, latest, states, initial, k, indexed, index + (body + rest));
        if !indexed {
          AllDirty(states, k);
        }
        IndexRoundTrip(hint, indexed, k, DirtyStates(states[..k]), body + rest);
        StateRoundTrip(env, db, states[k], rest);
        StatesStep(env, db, hint, states, initial, k, indexed, a + (index + (body + rest)), index + (body + rest),
                   body + rest, rest, ChildrenStorable(env, states[..k]), StateStorable(env, states[k]));
      } else {
        StatesRoundTrip(env, db, hint, latest, states, initial, k, indexed, rest);
        SkipOne(ReadStates(env, db, hint, initial, a + rest, DirtyStates(states[..k]), indexed), states, initial, k,
                rest, ChildrenStorable(env, states[..k]));
      }
    }
  }

  lemma ReadNoStates(env: Env, db: Db, hint: nat, initial: seq<State>, s: bytes, indexed: bool)
    requires Sound(db)
    ensures ReadStates(env, db, hint, initial, s, 0, indexed) == Done(initial, s)
  {
  }

  lemma ReadNoVars(env: Env, db: Db, hint: nat, initial: seq<Variable>, s: bytes, indexed: bool)
    requires Sound(db)
    ensures ReadVars(env, db, hint, initial, s, 0, indexed) == Done(initial, s)
  {
  }

  lemma {:induction false} AllVarsDirty(vars: seq<Variable>, n: nat)
    requires n <= |vars| && DirtyVars(vars) == |vars|
    ensures DirtyVars(vars[..n]) == n
    decreases |vars|
  {
    if n == |vars| {
      assert vars[..n] == vars;
    } else {
      AllVarsDirty(vars[..|vars| - 1], n);
      assert vars[..|vars| - 1][..n] == vars[..n];
    }
  }

  ghost predicate VarsReady(db: Db, vars: seq<Variable>, initial: seq<Variable>)
    requires Sound(db)
  {
    && |vars| == |initial|
    && forall i :: 0 <= i < |vars| ==>
         VarInv(db, vars[i]) && VarUnstamped(vars[i]) && initial[i] == VarFromDefaults(vars[i].desc, db)
  }

  lemma VarReadyAt(env: Env, db: Db, vars: seq<Variable>, initial: seq<Variable>, k: nat)
    requires Sound(db) && VarsReady(db, vars, initial) && k < |vars|
    ensures VarInv(db, vars[k]) && VarUnstamped(vars[k]) && initial[k] == VarFromDefaults(vars[k].desc, db)
    ensures !vars[k].dirty ==> vars[k] == initial[k] && VarStorable(env, vars[k])
  {
    hide Sound, VarFromDefaults, ValuesInv, Known, ChildrenUnstamped, ChildrenStorable, ScalarsStorable;
    assert VarInv(db, vars[k]);
  }

  predicate VarsStorable(env: Env, vars: seq<Variable>) {
    forall i :: 0 <= i < |vars| ==> VarStorable(env, vars[i])
  }

  lemma VarsSplit(env: Env, vars: seq<Variable>, k: nat)
    requires k < |vars|
    ensures VarsStorable(env, vars[..k + 1]) <==> VarsStorable(env, vars[..k]) && VarStorable(env, vars[k])
  {
    hide VarStorable;
    var a, b := vars[..k], vars[..k + 1];
    assert b[k] == vars[k];
    assert forall i :: 0 <= i < k ==> a[i] == b[i];
  }

  /** One more turn of the reading loop. */
  lemma VarsStep(env: Env, db: Db, hint: nat, vars: seq<Variable>, initial: seq<Variable>, k: nat, indexed: bool,
                 s: bytes, s1: bytes, s2: bytes, rest: bytes, initOk: bool, lastOk: bool)
    requires Sound(db) && k < |vars| == |initial| && vars[k].dirty
    requires ExactTo(ReadVars(env, db, hint, initial, s, DirtyVars(vars[..k]), indexed), vars, initial, k, s1, initOk)
    requires ReadIndex(hint, indexed, DirtyVars(vars[..k]), s1) == Done(k, s2)
    requires Exact(ReadVar(env, db, initial[k], s2), vars[k], rest, lastOk)
    ensures ExactTo(ReadVars(env, db, hint, initial, s, DirtyVars(vars[..k + 1]), indexed), vars, initial, k + 1,
                    rest, initOk && lastOk)
  {
    hide Sound, ReadIndex, ReadVar;
    assert vars[..k + 1][..k] == vars[..k];
    var r := ReadVars(env, db, hint, initial, s, DirtyVars(vars[..k]), indexed);
    if r.Done? {
      assert r.value[k] == r.value[k..][0] == initial[k];
    }
    ReadOne(r, ReadVar(env, db, initial[k], s2), vars, initial, k, s1, rest, initOk, lastOk);
  }

  lemma {:induction false} VarsRoundTrip(env: Env, db: Db, hint: nat, vars: seq<Variable>, initial: seq<Variable>,
                                         n: nat, indexed: bool, rest: bytes)
    requires C.Lossless(env.zlib) && Sound(db) && VarsReady(db, vars, initial)
    requires n <= |vars| == |initial| && (!indexed ==> DirtyVars(vars[..n]) == n)
    requires WriteVars(env, hint, vars[..n], indexed).Ok?
    ensures ExactTo(ReadVars(env, db, hint, initial, WriteVars(env, hint, vars[..n], indexed).value + rest,
                             DirtyVars(vars[..n]), indexed),
                    vars, initial, n, rest, VarsStorable(env, vars[..n]))
    decreases vars, 2, n
  {
    hide Sound, C.Lossless, WriteIndex, ReadIndex, WriteVar, ReadVar, ReadVars, VarFromDefaults, VarInv, VarStorable,
      VarsReady, VarUnstamped, VarsStorable;
    if n == 0 {
      assert vars[..0] + initial[0..] == initial;
      ReadNoVars(env, db, hint, initial, rest, indexed);
      assert WriteVars(env, hint, vars[..0], indexed).value + rest == rest;
      NoVars(env);
    } else {
      var k := n - 1;
      assert vars[..n][..k] == vars[..k];
      var a := WriteVars(env, hint, vars[..k], indexed).value;
      VarReadyAt(env, db, vars, initial, k);
      VarsSplit(env, vars, k);
      if vars[k].dirty {
        var index, body := WriteIndex(hint, indexed, k).value, WriteVar(env, vars[k]).value;
        Cat2(a, index + body, rest);
        Cat2(index, body, rest);
        if !indexed {
          AllVarsDirty(vars[..n], k);
        }
        VarsRoundTrip(env, db, hint, vars, initial, k, indexed, index + (body + rest));
        IndexRoundTrip(hint, indexed, k, DirtyVars(vars[..k]), body + rest);
        VarRoundTrip(env, db, vars[k], rest);
        VarsStep(env, db, hint, vars, initial, k, indexed, a + (index + (body + rest)), index + (body + rest),
                 body + rest, rest, VarsStorable(env, vars[..k]), VarStorable(env, vars[k]));
      } else {
        VarsRoundTrip(env, db, hint, vars, initial, k, indexed, rest);
        SkipOne(ReadVars(env, db, hint, initial, a + rest, DirtyVars(vars[..k]), indexed), vars, initial, k, rest,
                VarsStorable(env, vars[..k]));
      }
    }
  }

  lemma NoVars(env: Env)
    ensures VarsStorable(env, [])
  {
  }

  lemma {:induction false} SectionRoundTrip(env: Env, db: Db, hint: nat, vars: seq<Variable>, ds: seq<VarDescriptor>,
                                            rest: bytes)
    requires C.Lossless(env.zlib) && Sound(db) && AllKnown(db, ds) && Matches(vars, ds)
    requires forall i :: 0 <= i < |vars| ==> VarInv(db, vars[i]) && VarUnstamped(vars[i])
    requires WriteSection(env, hint, vars).Ok?
    ensures Exact(ReadSection(env, db, hint, VarsFromDefaults(ds, db), WriteSection(env, hint, vars).value + rest),
                  vars, rest, VarsStorable(env, vars))
    decreases vars, 3, 0
  {
    hide Sound, C.Lossless, WriteSize, ReadSize, WriteVars, ReadVars, VarFromDefaults, VarInv, VarStorable, Known,
      VarUnstamped, VarsStorable;
    var n, initial := DirtyVars(vars), VarsFromDefaults(ds, db);
    var count, body := WriteSize(hint, n).value, WriteVars(env, hint, vars, n != |vars|).value;
    Cat2(count, body, rest);
    SizeRoundTrip(hint, n, body + rest);
    assert vars[..|vars|] == vars;
    assert VarsReady(db, vars, initial);
    VarsRoundTrip(env, db, hint, vars, initial, |vars|, n != |vars|, rest);
    assert vars + initial[|vars|..] == vars;
  }

  /** A state without timestamps comes back from its stream form, when it is read over
      the defaults of its own descriptor, if and only if its contents can be stored. */
  lemma {:induction false} StateRoundTrip(env: Env, db: Db, s: State, rest: bytes)
    requires C.Lossless(env.zlib) && Sound(db)
    requires StateInv(db, s) && Unstamped(s) && WriteState(env, s).Ok?
    ensures Exact(ReadState(env, db, StateFromDefaults(s.desc, db).(uoid := s.uoid), WriteState(env, s).value + rest),
                  s, rest, StateStorable(env, s))
    decreases s, 1, 0
  {
    hide Sound, C.Lossless, WriteSection, ReadSection, VarsFromDefaults, VarInv, VarStorable, Known, U16Bytes, ReadU16,
      VarUnstamped;
    var hint := |s.desc.vars|;
    var simple, nested := WriteSection(env, hint, s.simple).value, WriteSection(env, hint, s.nested).value;
    Cat4(U16Bytes(s.flags), [IO_VERSION], simple, nested, rest);
    ReadsU16(s.flags, [IO_VERSION] + (simple + (nested + rest)));
    ReadsU8(IO_VERSION, simple + (nested + rest));
    SectionRoundTrip(env, db, hint, s.simple, SimpleDescs(s.desc.vars), nested + rest);
    SectionRoundTrip(env, db, hint, s.nested, NestedDescs(s.desc.vars), rest);
  }

  lemma UoidRoundTrip(uoid: Option<K.Uoid>, flags: u16, rest: bytes)
    requires WriteObject(uoid).Ok? && (flags % 2 == 1 <==> uoid.Some?)
    ensures var r := ReadObject(flags, WriteObject(uoid).value + rest);
            r.Done? && r.rest == rest && (r.value == uoid <==> K.KeySurvives(uoid))
  {
    hide K.WriteUoid, K.ReadUoid, K.Survives;
    if uoid.Some? {
      K.UoidRoundTrip(uoid.value, rest);
    } else {
      assert [] + rest == rest;
    }
  }

  /** A name that comes back changed differs in more than the case of its letters. */
  lemma ReturnedFold(name: string)
    requires Fold(SafeString.Returned(name, SafeString.AsLatin1)) == Fold(name)
    ensures SafeString.Returned(name, SafeString.AsLatin1) == name
  {
    var back := SafeString.Returned(name, SafeString.AsLatin1);
    forall i | 0 <= i < |name|
      ensures back[i] == name[i]
    {
      assert Fold(back)[i] == Fold(name)[i];
    }
  }

  lemma DefaultShape(db: Db, desc: StateDescriptor)
    requires Sound(db) && AllKnown(db, desc.vars)
    ensures var s := StateFromDefaults(desc, db); s.desc == desc && s.uoid.None? && s.flags == 0
  {
  }

  lemma ReadKeeps(env: Env, db: Db, st: State, s: bytes)
    requires Sound(db)
    ensures var r := ReadState(env, db, st, s); r.Done? ==> r.value.desc == st.desc && r.value.uoid == st.uoid
  {
  }

  /** What is left to ask of a blob: that the body of the state comes back. */
  lemma BlobReads(env: Env, db: Db, s: State)
    requires Sound(db) && Filed(db) && AllKnown(db, s.desc.vars)
    requires GetVersion(db, s.desc.name, s.desc.version) == Some(s.desc) && ToBlob(env, s).Ok?
    ensures WriteState(env, s).Ok?
    ensures var r := ReadState(env, db, StateFromDefaults(s.desc, db).(uoid := s.uoid), WriteState(env, s).value);
            FromBlob(env, db, ToBlob(env, s).value) == Ok(s)
            <==> r.Done? && r.value == s && K.KeySurvives(s.uoid)
                 && SafeString.Survives(s.desc.name, SafeString.AsLatin1)
  {
    hide Sound, WriteState, ReadState, StateFromDefaults, Known, SafeString.Write, SafeString.Read,
      SafeString.Survives, SafeString.Returned, U16Bytes, ReadU16, WriteObject, ReadObject, K.KeySurvives, Fold;
    var flags: u16 := if s.uoid.Some? then 0x8001 else 0x8000;
    var name, uoid := SafeString.Write(s.desc.name, SafeString.AsLatin1).value, WriteObject(s.uoid).value;
    var version, body := U16Bytes(s.desc.version), WriteState(env, s).value;
    Cat4(U16Bytes(flags), name, version, uoid, body);
    ReadsU16(flags, name + (version + (uoid + body)));
    SafeString.RoundTrip(s.desc.name, SafeString.AsLatin1, version + (uoid + body));
    ReadsU16(s.desc.version, uoid + body);
    UoidRoundTrip(s.uoid, flags, body);
    var back := SafeString.Returned(s.desc.name, SafeString.AsLatin1);
    var desc := GetVersion(db, back, s.desc.version);
    if desc.Some? {
      Returned(db, back, s.desc.version);
      DefaultShape(db, desc.value);
      var found := ReadObject(flags, uoid + body).value;
      ReadKeeps(env, db, StateFromDefaults(desc.value, db).(uoid := found), body);
      if back != s.desc.name {
        assert Fold(desc.value.name) == Fold(back);
        if Fold(back) == Fold(s.desc.name) {
          ReturnedFold(s.desc.name);
        }
      }
    }
  }

  /** `from_blob` undoes `to_blob`: dirty flags, hints, values and nested states all
      come back, for every state without timestamps that satisfies the invariant, if and
      only if its contents, its object and its descriptor's name are such that the
      format can carry them. */
  lemma BlobRoundTrip(env: Env, db: Db, s: State)
    requires C.Lossless(env.zlib) && Sound(db) && Filed(db)
    requires GetVersion(db, s.desc.name, s.desc.version) == Some(s.desc)
    requires StateInv(db, s) && Unstamped(s) && ToBlob(env, s).Ok?
    ensures FromBlob(env, db, ToBlob(env, s).value) == Ok(s)
            <==> StateStorable(env, s) && K.KeySurvives(s.uoid) && SafeString.Survives(s.desc.name, SafeString.AsLatin1)
  {
    hide Sound, C.Lossless, WriteState, ReadState, StateFromDefaults, StateStorable, SafeString.Survives,
      K.KeySurvives, Unstamped, ToBlob, FromBlob, VarInv, Known, Filed, GetVersion;
    BlobReads(env, db, s);
    var body := WriteState(env, s).value;
    assert body + [] == body;
    StateRoundTrip(env, db, s, []);
  }
}
