/** What a default state holds, said of the state itself: src/sdl/state.rs and
    src/sdl/state_variable.rs. */
module SdlInitial {
  import opened Prim
  import opened SdlTypes
  import opened SdlDefaults
  import opened SdlBuild
  import K = Key

  /** The element is what a variable of this type and default starts with.  Without a
      default that is zero, except for rotations, which start as the identity, and
      colours, which start as opaque black. */
  predicate Starts(t: VarType, default: Option<VarDefault>, e: Scalar) {
    match t
    case Creatable => e == CreatableValue(None)
    case Key => e == KeyValue(K.INVALID)
    case AgeTimeOfDay => false
    case StateDesc(_) => false
    case _ => if default.None? then StartsBlank(t, e) else StartsGiven(t, default.value, e)
  }

  predicate StartsBlank(t: VarType, e: Scalar) {
    match t
    case Bool => e == BoolValue(false)
    case Byte => e == ByteValue(0)
    case Short => e == ShortValue(0)
    case Int => e == IntValue(0)
    case Float => e == FloatValue(0)
    case Double => e == DoubleValue(0)
    case String32 => e == StringValue("")
    case Time => e == TimeValue(UnifiedTime(0, 0))
    case Point3 => e == VectorValue(Vector(0, 0, 0))
    case Vector3 => e == VectorValue(Vector(0, 0, 0))
    case Quat => e == QuatValue(Quaternion(0, 0, 0, 0x3F80_0000))
    case Rgb => e == ColorValue(ColorRGBA(0, 0, 0, 0x3F80_0000))
    case Rgba => e == ColorValue(ColorRGBA(0, 0, 0, 0x3F80_0000))
    case Rgb8 => e == Color32Value(Color32(0, 0, 0, 255))
    case Rgba8 => e == Color32Value(Color32(0, 0, 0, 255))
    case _ => false
  }

  predicate StartsGiven(t: VarType, d: VarDefault, e: Scalar) {
    match d
    case DefaultBool(b) => t.Bool? && e == BoolValue(b)
    case DefaultByte(y) => t.Byte? && e == ByteValue(y)
    case DefaultShort(h) => t.Short? && e == ShortValue(h)
    case DefaultInt(i) => t.Int? && e == IntValue(i)
    case DefaultFloat(f) => t.Float? && e == FloatValue(f)
    case DefaultDouble(x) => t.Double? && e == DoubleValue(x)
    case DefaultString(s) => t.String32? && e == StringValue(s)
    case DefaultTime(time) => t.Time? && e == TimeValue(time)
    case DefaultQuat(q) => t.Quat? && e == QuatValue(q)
    case DefaultVector(v) => (t.Point3? || t.Vector3?) && e == VectorValue(v)
    case DefaultRgba(c) => (t.Rgb? || t.Rgba?) && e == ColorValue(c)
    case DefaultRgba8(k) => (t.Rgb8? || t.Rgba8?) && e == Color32Value(k)
  }

  /** The variables are those of the descriptor, in its order, with nested states apart. */
  predicate Divides(ds: seq<VarDescriptor>, simple: seq<Variable>, nested: seq<Variable>) {
    if ds == [] then simple == [] && nested == []
    else
      var init, d, m, n := ds[..|ds| - 1], ds[|ds| - 1], |simple|, |nested|;
      if d.varType.StateDesc? then n > 0 && nested[n - 1].desc == d && Divides(init, simple, nested[..n - 1])
      else m > 0 && simple[m - 1].desc == d && Divides(init, simple[..m - 1], nested)
  }

  /** As many elements as the descriptor asks for; none if it leaves the number open. */
  predicate Counted(d: VarDescriptor, n: nat) {
    n == if d.count.Some? then d.count.value else 0
  }

  /** The state is untouched, and so is every state nested in it: those are of the
      latest version of their descriptor. */
  ghost predicate Initial(db: Db, desc: StateDescriptor, st: State)
    decreases st, 0
  {
    && st.desc == desc && st.uoid.None? && st.flags == 0 && Divides(desc.vars, st.simple, st.nested)
    && (forall v :: v in st.simple ==> InitialVar(db, v))
    && (forall v :: v in st.nested ==> InitialVar(db, v))
  }

  ghost predicate InitialVar(db: Db, v: Variable)
    decreases v, 0
  {
    v.timestamp == UnifiedTime(0, 0) && v.hint == "" && !v.dirty &&
    match v.values
    case TimesOfDay(n) => v.desc.varType.AgeTimeOfDay? && Counted(v.desc, n)
    case Scalars(kind, elems) =>
      && kind == v.desc.varType && Counted(v.desc, |elems|)
      && exists e :: Starts(kind, v.desc.default, e) && forall i :: 0 <= i < |elems| ==> elems[i] == e
    case States(states) =>
      && v.desc.varType.StateDesc? && Counted(v.desc, |states|)
      && var latest := GetLatest(db, v.desc.varType.name);
         latest.Some? && forall s :: s in states ==> Initial(db, latest.value, s)
  }

  lemma DefaultStarts(d: VarDescriptor)
    requires TypedDefault(d) && IsScalar(d.varType)
    ensures Starts(d.varType, d.default, DefaultOf(d))
  {
  }

  /** What `from_defaults` builds, on any database and at any depth, is such a state. */
  lemma {:induction false} BuiltInitial(depth: nat, desc: StateDescriptor, db: Db)
    requires Build(depth, desc, db).Ok?
    ensures Initial(db, desc, Build(depth, desc, db).value)
    decreases depth, 3, 0
  {
    hide BuildVars, Divides, InitialVar;
    BuiltVars(depth, desc.vars, db);
  }

  lemma {:induction false} BuiltVars(depth: nat, ds: seq<VarDescriptor>, db: Db)
    requires BuildVars(depth, ds, db).Ok?
    ensures var (simple, nested) := BuildVars(depth, ds, db).value;
            && Divides(ds, simple, nested)
            && (forall v :: v in simple ==> InitialVar(db, v)) && (forall v :: v in nested ==> InitialVar(db, v))
    decreases depth, 2, |ds|
  {
    hide BuildVar, InitialVar;
    if ds != [] {
      var init, d := ds[..|ds| - 1], ds[|ds| - 1];
      BuiltVars(depth, init, db);
      BuiltVar(depth, d, db);
      var (simple, nested) := BuildVars(depth, init, db).value;
      var v := BuildVar(depth, d, db).value;
      assert (simple + [v])[..|simple|] == simple && (nested + [v])[..|nested|] == nested;
    }
  }

  lemma {:induction false} BuiltVar(depth: nat, d: VarDescriptor, db: Db)
    requires BuildVar(depth, d, db).Ok?
    ensures InitialVar(db, BuildVar(depth, d, db).value)
    decreases depth, 1, 0
  {
    hide BuildStates, TypedDefault, DefaultOf, Initial, Starts, GetLatest;
    if d.varType.StateDesc? {
      BuiltStates(depth, GetLatest(db, d.varType.name).value, CountOf(d), db);
    } else if !d.varType.AgeTimeOfDay? {
      DefaultStarts(d);
    }
  }

  lemma {:induction false} BuiltStates(depth: nat, desc: StateDescriptor, n: nat, db: Db)
    requires BuildStates(depth, desc, n, db).Ok?
    ensures var states := BuildStates(depth, desc, n, db).value;
            |states| == n && forall s :: s in states ==> Initial(db, desc, s)
    decreases depth, 0, n
  {
    hide Build, Initial;
    if n > 0 {
      BuiltStates(depth, desc, n - 1, db);
      BuiltInitial(depth - 1, desc, db);
    }
  }

  // ===== there is only one =====

  lemma BlankOne(t: VarType, e: Scalar, f: Scalar)
    requires StartsBlank(t, e) && StartsBlank(t, f)
    ensures e == f
  {
  }

  lemma GivenOne(t: VarType, d: VarDefault, e: Scalar, f: Scalar)
    requires StartsGiven(t, d, e) && StartsGiven(t, d, f)
    ensures e == f
  {
  }

  lemma StartsOne(t: VarType, d: Option<VarDefault>, e: Scalar, f: Scalar)
    requires Starts(t, d, e) && Starts(t, d, f)
    ensures e == f
  {
    hide StartsBlank, StartsGiven;
    if t.Creatable? || t.Key? {
    } else if d.None? {
      BlankOne(t, e, f);
    } else {
      GivenOne(t, d.value, e, f);
    }
  }

  lemma {:induction false} VarOnly(db: Db, u: Variable, v: Variable)
    requires InitialVar(db, u) && InitialVar(db, v) && u.desc == v.desc
    ensures u == v
    decreases u, 0
  {
    hide Starts, Initial, GetLatest;
    SameForm(db, u, v);
    if u.values.Scalars? {
      var a, b, t, d := u.values.elems, v.values.elems, u.values.kind, u.desc.default;
      var e :| Starts(t, d, e) && forall i :: 0 <= i < |a| ==> a[i] == e;
      var f :| Starts(t, d, f) && forall i :: 0 <= i < |b| ==> b[i] == f;
      StartsOne(t, d, e, f);
      assert a == b;
    } else if u.values.States? {
      var latest := GetLatest(db, u.desc.varType.name).value;
      forall i | 0 <= i < |u.values.states|
        ensures u.values.states[i] == v.values.states[i]
      {
        InitialOnly(db, latest, u.values.states[i], v.values.states[i]);
      }
      assert u.values.states == v.values.states;
    }
  }

  lemma SameForm(db: Db, u: Variable, v: Variable)
    requires InitialVar(db, u) && InitialVar(db, v) && u.desc == v.desc
    ensures u.values.Scalars? == v.values.Scalars? && u.values.States? == v.values.States?
  {
    hide Initial, GetLatest;
  }

  lemma {:induction false} SameDescs(ds: seq<VarDescriptor>, a: seq<Variable>, b: seq<Variable>, a': seq<Variable>,
                                     b': seq<Variable>)
    requires Divides(ds, a, b) && Divides(ds, a', b')
    ensures |a| == |a'| && forall i :: 0 <= i < |a| ==> a[i].desc == a'[i].desc
    ensures |b| == |b'| && forall i :: 0 <= i < |b| ==> b[i].desc == b'[i].desc
    decreases |ds|
  {
    if ds != [] {
      var init, m, n := ds[..|ds| - 1], |a|, |b|;
      if ds[|ds| - 1].varType.StateDesc? {
        SameDescs(init, a, b[..n - 1], a', b'[..|b'| - 1]);
      } else {
        SameDescs(init, a[..m - 1], b, a'[..|a'| - 1], b');
      }
    }
  }

  /** So the state that is built is determined by what is said of it. */
  lemma {:induction false} InitialOnly(db: Db, desc: StateDescriptor, st: State, other: State)
    requires Initial(db, desc, st) && Initial(db, desc, other)
    ensures st == other
    decreases st, 0
  {
    hide InitialVar, Divides;
    SameDescs(desc.vars, st.simple, st.nested, other.simple, other.nested);
    forall i | 0 <= i < |st.simple|
      ensures st.simple[i] == other.simple[i]
    {
      VarOnly(db, st.simple[i], other.simple[i]);
    }
    forall i | 0 <= i < |st.nested|
      ensures st.nested[i] == other.nested[i]
    {
      VarOnly(db, st.nested[i], other.nested[i]);
    }
  }

  /** The method itself. */
  method DefaultState(depth: nat, desc: StateDescriptor, db: Db) returns (r: Result<State>)
    ensures r.Ok? ==> Initial(db, desc, r.value) && forall st :: Initial(db, desc, st) ==> st == r.value
    ensures r.Err? && Sound(db) && AllKnown(db, desc.vars) ==> r == Err(StackOverflow) && depth < MaxRank(db, desc.vars)
  {
    hide Build, Initial, Sound, Known, MaxRank;
    r := FromDefaults(depth, desc, db);
    if r.Ok? {
      BuiltInitial(depth, desc, db);
      ghost var made := r.value;
      forall st | Initial(db, desc, st)
        ensures st == made
      {
        InitialOnly(db, desc, st, made);
      }
    } else {
      Refused(depth, desc, db);
    }
  }

  lemma Refused(depth: nat, desc: StateDescriptor, db: Db)
    requires Build(depth, desc, db).Err?
    ensures Sound(db) && AllKnown(db, desc.vars) ==>
      Build(depth, desc, db) == Err(StackOverflow) && depth < MaxRank(db, desc.vars)
  {
    hide Build, Known, MaxRank;
    if Sound(db) && AllKnown(db, desc.vars) {
      OnlyOverflow(depth, desc, db);
      if MaxRank(db, desc.vars) <= depth {
        BuildsDefault(depth, desc, db);
      }
    }
  }
}
