/** What the descriptors that the parser accepts guarantee to the rest of the system:
    src/sdl/parser.rs with src/sdl/descriptor_db.rs and `from_defaults`. */
module SdlLoading {
  import opened Prim
  import opened SdlTypes
  import opened SdlTokens
  import opened SdlGrammar
  import opened SdlParser
  import opened SdlDefaults
  import opened SdlBuild
  import Ranking

  // ===== accepted defaults have the variant of their type =====

  /** The library never reads a NaN from digits, points and minus signs. */
  ghost predicate NoNans(fl: Floats) {
    && (forall s :: fl.single(s).Some? ==> FloatEq(fl.single(s).value, fl.single(s).value))
    && (forall s :: fl.double(s).Some? ==> DoubleEq(fl.double(s).value, fl.double(s).value))
  }

  predicate SelfEqual(d: VarDefault) {
    match d
    case DefaultFloat(f) => FloatEq(f, f)
    case DefaultDouble(x) => DoubleEq(x, x)
    case DefaultQuat(q) => FloatEq(q.x, q.x) && FloatEq(q.y, q.y) && FloatEq(q.z, q.z) && FloatEq(q.w, q.w)
    case DefaultVector(v) => FloatEq(v.x, v.x) && FloatEq(v.y, v.y) && FloatEq(v.z, v.z)
    case DefaultRgba(c) => FloatEq(c.r, c.r) && FloatEq(c.g, c.g) && FloatEq(c.b, c.b) && FloatEq(c.a, c.a)
    case _ => true
  }

  /** The default is of the type's variant, and equal to itself. */
  ghost predicate Fits(fl: Floats, t: VarType, d: Option<VarDefault>) {
    && TypedDefault(VarDescriptor("", t, None, d)) && (d.Some? ==> TakesDefault(t))
    && (NoNans(fl) && d.Some? ==> SelfEqual(d.value))
  }

  lemma {:induction false} ItemsSelfEqual(fl: Floats, ts: seq<Located>, acc: seq<u32>)
    requires NoNans(fl) && Items(ts, fl.single, acc, KW_DEFAULT).Found?
    requires forall i :: 0 <= i < |acc| ==> FloatEq(acc[i], acc[i])
    ensures var r := Items(ts, fl.single, acc, KW_DEFAULT).value; forall i :: 0 <= i < |r| ==> FloatEq(r[i], r[i])
    decreases |ts|
  {
    hide FloatEq, DoubleEq;
    var item := ExpectNumber(ts, fl.single, false, KW_DEFAULT);
    assert FloatEq(item.value, item.value);
    if item.rest[0].token == Symbol(',') {
      ItemsSelfEqual(fl, item.rest[1..], acc + [item.value]);
    }
  }

  lemma ExactlySelfEqual(fl: Floats, ts: seq<Located>, n: nat)
    requires NoNans(fl) && ExpectExactly(ts, fl.single, n).Found?
    ensures var r := ExpectExactly(ts, fl.single, n).value; forall i :: 0 <= i < n ==> FloatEq(r[i], r[i])
  {
    hide FloatEq, NoNans, Items;
    ItemsSelfEqual(fl, ExpectToken(ts, Symbol('('), KW_DEFAULT).rest, []);
  }

  lemma DefaultFits(fl: Floats, ts: seq<Located>, t: VarType)
    requires ParseDefault(fl, ts, t).Found?
    ensures Fits(fl, t, ParseDefault(fl, ts, t).value)
  {
    hide ExpectNumber, ExpectBool, ExpectExactly, ExpectString, FloatEq, DoubleEq, NoNans;
    var ts1 := ExpectToken(ts, Symbol('='), KW_DEFAULT).rest;
    if NoNans(fl) {
      match t {
        case Float => SingleSelfEqual(fl, ts1);
        case Double => DoubleSelfEqual(fl, ts1);
        case Quat => ExactlySelfEqual(fl, ts1, 4);
        case Rgba => ExactlySelfEqual(fl, ts1, 4);
        case Rgb =>
          ExactlySelfEqual(fl, ts1, 3);
          OneSelfEqual();
        case Point3 => ExactlySelfEqual(fl, ts1, 3);
        case Vector3 => ExactlySelfEqual(fl, ts1, 3);
        case _ =>
      }
    }
  }

  lemma OneSelfEqual()
    ensures FloatEq(FLOAT_ONE, FLOAT_ONE)
  {
  }

  lemma SingleSelfEqual(fl: Floats, ts: seq<Located>)
    requires NoNans(fl) && ExpectNumber(ts, fl.single, true, KW_DEFAULT).Found?
    ensures var f := ExpectNumber(ts, fl.single, true, KW_DEFAULT).value; FloatEq(f, f)
  {
    hide FloatEq, DoubleEq;
  }

  lemma DoubleSelfEqual(fl: Floats, ts: seq<Located>)
    requires NoNans(fl) && ExpectNumber(ts, fl.double, true, KW_DEFAULT).Found?
    ensures var d := ExpectNumber(ts, fl.double, true, KW_DEFAULT).value; DoubleEq(d, d)
  {
    hide FloatEq, DoubleEq;
  }

  lemma {:induction false} OptionsFit(fl: Floats, ts: seq<Located>, t: VarType, default: Option<VarDefault>)
    requires Fits(fl, t, default) && ParseOptions(fl, ts, t, default).Found?
    ensures Fits(fl, t, ParseOptions(fl, ts, t, default).value)
    decreases |ts|
  {
    hide ParseDefault, ParseOptions, Fits;
    OptionsStep(fl, ts, t, default);
    if ts[0].token == Identifier(KW_DEFAULT) {
      DefaultFits(fl, ts[1..], t);
      var d := ParseDefault(fl, ts[1..], t);
      OptionsFit(fl, d.rest, t, d.value);
    } else if IsOption(ts[0].token) {
      var at := ExpectToken(ts[1..], Symbol('='), ts[0].token.name);
      OptionsFit(fl, ExpectIdentifier(at.rest, ts[0].token.name).rest, t, default);
    } else if ts[0].token == Symbol(';') {
      OptionsFit(fl, ts[1..], t, default);
    }
  }

  ghost predicate Suits(fl: Floats, v: VarDescriptor) {
    && TypedDefault(v) && (v.default.Some? ==> TakesDefault(v.varType))
    && (NoNans(fl) && v.default.Some? ==> SelfEqual(v.default.value))
  }

  lemma VarFits(fl: Floats, ts: seq<Located>)
    requires ParseVar(fl, ts).Found?
    ensures Suits(fl, ParseVar(fl, ts).value)
  {
    hide ParseType, ParseCount, ParseOptions, SelfEqual;
    var t := ParseType(ts);
    var name := ExpectIdentifier(t.rest, KW_VAR);
    var count := ParseCount(ExpectToken(name.rest, Symbol('['), KW_VAR).rest);
    OptionsFit(fl, count.rest, t.value, None);
  }

  ghost predicate AllSuit(fl: Floats, vars: seq<VarDescriptor>) {
    forall i :: 0 <= i < |vars| ==> Suits(fl, vars[i])
  }

  lemma {:induction false} BodyTyped(fl: Floats, ts: seq<Located>, name: string, line: nat,
                                     version: Option<u16>, vars: seq<VarDescriptor>)
    requires AllSuit(fl, vars) && ParseBody(fl, ts, name, line, version, vars).Found?
    ensures AllSuit(fl, ParseBody(fl, ts, name, line, version, vars).value.vars)
    decreases |ts|
  {
    hide ParseVar, ExpectNumber, Suits;
    if ts[0].token == Identifier(KW_VERSION) {
      var v := ExpectNumber(ts[1..], ParseU16, false, KW_STATEDESC);
      BodyTyped(fl, v.rest, name, line, Some(v.value), vars);
    } else if ts[0].token == Identifier(KW_VAR) {
      VarFits(fl, ts[1..]);
      var v := ParseVar(fl, ts[1..]);
      BodyTyped(fl, v.rest, name, line, version, vars + [v.value]);
    }
  }

  /** Every descriptor the parser accepts carries defaults of the right variants, none
      of them a NaN. */
  lemma {:induction false} ParsedTyped(fl: Floats, ts: seq<Located>, acc: seq<StateDescriptor>)
    requires Parse(fl, ts, acc).Found? && forall i :: 0 <= i < |acc| ==> AllSuit(fl, acc[i].vars)
    ensures var ds := Parse(fl, ts, acc).value; forall i :: 0 <= i < |ds| ==> AllSuit(fl, ds[i].vars)
    decreases |ts|
  {
    hide ParseBody, AllSuit;
    if ts != [] {
      var name := ExpectIdentifier(ts[1..], KW_STATEDESC);
      var at := ExpectToken(name.rest, Symbol('{'), KW_STATEDESC);
      NoneSuit(fl);
      BodyTyped(fl, at.rest, name.value, at.value.line, None, []);
      var d := ParseStatedesc(fl, ts[1..]);
      ParsedTyped(fl, d.rest, acc + [d.value]);
    }
  }

  lemma NoneSuit(fl: Floats)
    ensures AllSuit(fl, [])
  {
  }

  // ===== databases =====

  function Load(fl: Floats, texts: seq<bytes>): Answer<Db> {
    if texts == [] then Accepted(map[])
    else
      var db :- Load(fl, texts[..|texts| - 1]);
      var r := Parse(fl, Tokens(texts[|texts| - 1], 0), []);
      if r.Found? then Accepted(Merge(db, r.value)) else Rejected(r.why)
  }

  /** The loop over the files of a directory. */
  method LoadAll(fl: Floats, texts: seq<bytes>) returns (r: Answer<Db>)
    ensures r == Load(fl, texts)
  {
    hide Parse, Tokens, Merge;
    var db: Db := map[];
    for i := 0 to |texts|
      invariant Load(fl, texts[..i]) == Accepted(db)
    {
      assert texts[..i + 1][..i] == texts[..i];
      var parser := new Parser(texts[i], fl);
      var descriptors := parser.ParseText();
      if descriptors.Rejected? {
        LoadStops(fl, texts, i + 1);
        return Rejected(descriptors.why);
      }
      db := MergeDescriptors(db, descriptors.value);
    }
    assert texts[..|texts|] == texts;
    return Accepted(db);
  }

  lemma {:induction false} LoadStops(fl: Floats, texts: seq<bytes>, i: nat)
    requires i <= |texts| && Load(fl, texts[..i]).Rejected?
    ensures Load(fl, texts) == Load(fl, texts[..i])
    decreases |texts|
  {
    hide Parse, Tokens, Merge;
    if i == |texts| {
      assert texts[..i] == texts;
    } else {
      assert texts[..|texts| - 1][..i] == texts[..i];
      LoadStops(fl, texts[..|texts| - 1], i);
    }
  }

  ghost predicate TypedDb(fl: Floats, db: Db) {
    forall n, v :: n in db && v in db[n] ==> AllSuit(fl, db[n][v].vars)
  }

  lemma {:induction false} MergeTyped(fl: Floats, db: Db, ds: seq<StateDescriptor>)
    requires TypedDb(fl, db) && forall i :: 0 <= i < |ds| ==> AllSuit(fl, ds[i].vars)
    ensures TypedDb(fl, Merge(db, ds))
  {
    hide AllSuit;
    if ds != [] {
      MergeTyped(fl, db, ds[..|ds| - 1]);
    }
  }

  lemma {:induction false} LoadTyped(fl: Floats, texts: seq<bytes>)
    requires Load(fl, texts).Accepted?
    ensures TypedDb(fl, Load(fl, texts).value) && Filed(Load(fl, texts).value)
  {
    hide Parse, Tokens, Merge, AllSuit;
    if texts != [] {
      LoadTyped(fl, texts[..|texts| - 1]);
      var db := Load(fl, texts[..|texts| - 1]).value;
      var ts := Tokens(texts[|texts| - 1], 0);
      ParsedTyped(fl, ts, []);
      MergeTyped(fl, db, Parse(fl, ts, []).value);
      MergeKeepsFiled(db, Parse(fl, ts, []).value);
    }
  }

  predicate ResolvedAt(db: Db, n: string, v: u16) {
    n in db && v in db[n] ==>
      forall i :: 0 <= i < |db[n][v].vars| && db[n][v].vars[i].varType.StateDesc? ==>
        GetLatest(db, db[n][v].vars[i].varType.name).Some?
  }

  /** No descriptor refers to a missing name. */
  ghost predicate Resolved(db: Db) {
    forall n, v :: ResolvedAt(db, n, v)
  }

  /** For a database read from texts, `from_defaults` of every descriptor ends without a
      panic if and only if no name is missing and default states do not nest in
      circles. */
  lemma LoadSound(fl: Floats, texts: seq<bytes>)
    requires Load(fl, texts).Accepted?
    ensures var db := Load(fl, texts).value;
            (forall n, v :: EntryBuilds(db, n, v)) <==> Resolved(db) && Ranking.Acyclic(References(db))
  {
    hide Load, TypedDefault, GetLatest, References, Ranking.Acyclic, EntryBuilds;
    LoadTyped(fl, texts);
    var db := Load(fl, texts).value;
    BuildsIffSound(db);
    if Resolved(db) {
      forall n, v
        ensures EntryKnown(db, n, v)
      {
        assert ResolvedAt(db, n, v);
        if n in db && v in db[n] {
          assert AllSuit(fl, db[n][v].vars);
        }
      }
    }
    if Sound(db) {
      forall n, v
        ensures ResolvedAt(db, n, v)
      {
        assert EntryKnown(db, n, v);
      }
    }
  }

  // ===== when a default state is its own default =====

  /** Every variable has a fixed length, none is a Point3, and no default is a NaN. */
  predicate Tame(v: Variable)
    decreases v, 1
  {
    && v.desc.count.Some? && !v.desc.varType.Point3?
    && (v.values.Scalars? ==> forall i :: 0 <= i < |v.values.elems| ==> ScalarEq(v.values.elems[i], v.values.elems[i]))
    && (v.values.States? ==> forall i :: 0 <= i < |v.values.states| ==> StateTame(v.values.states[i]))
  }

  predicate StateTame(s: State)
    decreases s, 1
  {
    && (forall i :: 0 <= i < |s.simple| ==> Tame(s.simple[i]))
    && (forall i :: 0 <= i < |s.nested| ==> Tame(s.nested[i]))
  }

  lemma {:induction false} VarsDefaultIff(vars: seq<Variable>)
    ensures VarsAreDefault(vars) == Ok(true) <==> forall i :: 0 <= i < |vars| ==> VarIsDefault(vars[i]) == Ok(true)
    decreases |vars|
  {
    hide VarIsDefault;
    if vars != [] {
      VarsDefaultIff(vars[1..]);
      assert forall i :: 0 < i < |vars| ==> vars[i] == vars[1..][i - 1];
    }
  }

  lemma {:induction false} StatesDefaultIff(states: seq<State>)
    ensures StatesAreDefault(states) == Ok(true) <==>
            forall i :: 0 <= i < |states| ==> StateIsDefault(states[i]) == Ok(true)
    decreases |states|
  {
    hide StateIsDefault;
    if states != [] {
      StatesDefaultIff(states[1..]);
      assert forall i :: 0 < i < |states| ==> states[i] == states[1..][i - 1];
    }
  }

  /** A state made of defaults says so of itself exactly when it is tame. */
  lemma {:induction false} DefaultIsDefault(db: Db, desc: StateDescriptor)
    requires Sound(db) && AllKnown(db, desc.vars)
    ensures StateIsDefault(StateFromDefaults(desc, db)) == Ok(true) <==> StateTame(StateFromDefaults(desc, db))
    decreases MaxRank(db, desc.vars), 3
  {
    hide Sound, Known, MaxRank, VarIsDefault, VarsAreDefault, Tame, VarsFromDefaults, VarRank;
    SectionIsDefault(db, desc.vars, SimpleDescs(desc.vars));
    SectionIsDefault(db, desc.vars, NestedDescs(desc.vars));
  }

  lemma {:induction false} SectionIsDefault(db: Db, all: seq<VarDescriptor>, ds: seq<VarDescriptor>)
    requires Sound(db) && AllKnown(db, all) && AllKnown(db, ds) && forall i :: 0 <= i < |ds| ==> ds[i] in all
    ensures var vars := VarsFromDefaults(ds, db);
            VarsAreDefault(vars) == Ok(true) <==> forall i :: 0 <= i < |vars| ==> Tame(vars[i])
    decreases MaxRank(db, all), 2
  {
    hide Sound, Known, MaxRank, VarIsDefault, VarsAreDefault, Tame, VarFromDefaults, VarRank;
    var vars := VarsFromDefaults(ds, db);
    VarsDefaultIff(vars);
    forall i | 0 <= i < |vars|
      ensures VarIsDefault(vars[i]) == Ok(true) <==> Tame(vars[i])
    {
      RankIn(db, all, ds[i]);
      ElementAt(db, ds, i);
      DefaultVarIsDefault(db, ds[i]);
    }
  }

  lemma ElementAt(db: Db, ds: seq<VarDescriptor>, i: nat)
    requires Sound(db) && AllKnown(db, ds) && i < |ds|
    ensures VarsFromDefaults(ds, db)[i] == VarFromDefaults(ds[i], db)
  {
    hide Sound, Known, VarFromDefaults;
  }

  lemma {:induction false} DefaultVarIsDefault(db: Db, d: VarDescriptor)
    requires Sound(db) && Known(db, d)
    ensures VarIsDefault(VarFromDefaults(d, db)) == Ok(true) <==> Tame(VarFromDefaults(d, db))
    decreases VarRank(db, d), 1
  {
    hide Sound, MaxRank, VarRank, StateIsDefault, StateTame, StateFromDefaults, ScalarEq, TypedDefault, DefaultOf,
      GetLatest;
    if d.count.Some? && d.varType.StateDesc? {
      LatestRank(db, d);
      if Nests(d) {
        DefaultIsDefault(db, GetLatest(db, d.varType.name).value);
      }
      NestedDefault(db, d);
      StatesDefaultIff(VarFromDefaults(d, db).values.states);
    }
  }

  /** A default that equals itself makes every element equal to itself. */
  lemma DefaultSelfEqual(d: VarDescriptor)
    requires TypedDefault(d) && IsScalar(d.varType) && (d.default.Some? ==> SelfEqual(d.default.value))
    ensures ScalarEq(DefaultOf(d), DefaultOf(d))
  {
  }

  // ===== the same, told from the descriptors =====

  /** The variable has a fixed length and is no Point3, and neither is anything in the
      latest descriptor that it refers to. */
  ghost predicate FixedVar(db: Db, d: VarDescriptor)
    requires Sound(db) && Known(db, d)
    decreases VarRank(db, d), 0
  {
    && d.count.Some? && !d.varType.Point3?
    && (Nests(d) ==>
          (LatestRank(db, d); FixedVars(db, GetLatest(db, d.varType.name).value.vars)))
  }

  ghost predicate FixedVars(db: Db, ds: seq<VarDescriptor>)
    requires Sound(db) && AllKnown(db, ds)
    decreases MaxRank(db, ds), 1
  {
    forall i :: 0 <= i < |ds| ==> FixedVar(db, ds[i])
  }

  predicate OwnEqual(d: VarDescriptor) {
    d.default.Some? ==> SelfEqual(d.default.value)
  }

  predicate EntryOwnEqual(db: Db, n: string, v: u16) {
    n in db && v in db[n] ==> forall i :: 0 <= i < |db[n][v].vars| ==> OwnEqual(db[n][v].vars[i])
  }

  lemma {:induction false} TameIffFixed(db: Db, d: VarDescriptor)
    requires Sound(db) && Known(db, d) && OwnEqual(d) && forall n, v :: EntryOwnEqual(db, n, v)
    ensures Tame(VarFromDefaults(d, db)) <==> FixedVar(db, d)
    decreases VarRank(db, d), 1
  {
    hide Sound, MaxRank, VarRank, StateTame, StateFromDefaults, ScalarEq, DefaultOf, GetLatest, FixedVars, SelfEqual;
    if d.varType.StateDesc? {
      LatestRank(db, d);
      var latest := GetLatest(db, d.varType.name).value;
      LatestOwnEqual(db, d.varType.name);
      NestedDefault(db, d);
      if Nests(d) {
        StateTameIffFixed(db, latest);
        assert VarFromDefaults(d, db).values.states[0] == StateFromDefaults(latest, db);
      }
    } else if IsScalar(d.varType) {
      DefaultSelfEqual(d);
    }
  }

  lemma NestedDefault(db: Db, d: VarDescriptor)
    requires Sound(db) && Known(db, d) && d.varType.StateDesc?
    ensures AllKnown(db, GetLatest(db, d.varType.name).value.vars)
    ensures var v := VarFromDefaults(d, db);
            && v.values.States? && |v.values.states| == CountOf(d)
            && forall i :: 0 <= i < CountOf(d) ==>
                 v.values.states[i] == StateFromDefaults(GetLatest(db, d.varType.name).value, db)
  {
    hide Sound, MaxRank, VarRank, StateFromDefaults, GetLatest;
    LatestRank(db, d);
  }

  lemma LatestOwnEqual(db: Db, name: string)
    requires GetLatest(db, name).Some? && forall n, v :: EntryOwnEqual(db, n, v)
    ensures var ds := GetLatest(db, name).value.vars; forall i :: 0 <= i < |ds| ==> OwnEqual(ds[i])
  {
    hide OwnEqual;
    assert EntryOwnEqual(db, Fold(name), Largest(db[Fold(name)].Keys));
  }

  lemma {:induction false} StateTameIffFixed(db: Db, desc: StateDescriptor)
    requires Sound(db) && AllKnown(db, desc.vars) && forall n, v :: EntryOwnEqual(db, n, v)
    requires forall i :: 0 <= i < |desc.vars| ==> OwnEqual(desc.vars[i])
    ensures StateTame(StateFromDefaults(desc, db)) <==> FixedVars(db, desc.vars)
    decreases MaxRank(db, desc.vars), 3
  {
    hide Sound, Known, MaxRank, Tame, VarFromDefaults, VarRank, FixedVar, OwnEqual, EntryOwnEqual;
    var s := StateFromDefaults(desc, db);
    var ds, a, b := desc.vars, SimpleDescs(desc.vars), NestedDescs(desc.vars);
    forall d | d in ds
      ensures Known(db, d) && (Tame(VarFromDefaults(d, db)) <==> FixedVar(db, d))
    {
      RankIn(db, ds, d);
      TameIffFixed(db, d);
    }
    forall i | 0 <= i < |a|
      ensures s.simple[i] == VarFromDefaults(a[i], db)
    {
      ElementAt(db, a, i);
    }
    forall i | 0 <= i < |b|
      ensures s.nested[i] == VarFromDefaults(b[i], db)
    {
      ElementAt(db, b, i);
    }
    SortedAll(ds);
    if StateTame(s) {
      forall i | 0 <= i < |ds|
        ensures FixedVar(db, ds[i])
      {
        if ds[i].varType.StateDesc? {
          var j :| 0 <= j < |b| && b[j] == ds[i];
          assert Tame(s.nested[j]);
        } else {
          var j :| 0 <= j < |a| && a[j] == ds[i];
          assert Tame(s.simple[j]);
        }
      }
    }
  }

  lemma LoadedOwnEqual(fl: Floats, texts: seq<bytes>)
    requires Load(fl, texts).Accepted? && NoNans(fl)
    ensures forall n, v :: EntryOwnEqual(Load(fl, texts).value, n, v)
  {
    hide Load, SelfEqual, NoNans, TypedDefault;
    LoadTyped(fl, texts);
    var db := Load(fl, texts).value;
    forall n, v
      ensures EntryOwnEqual(db, n, v)
    {
      if n in db && v in db[n] {
        assert AllSuit(fl, db[n][v].vars);
      }
    }
  }

  /** The default state of a descriptor that was read from texts calls itself default if
      and only if nothing that the descriptor leads to has a variable length or is a
      Point3. */
  lemma ParsedDefaultIff(fl: Floats, texts: seq<bytes>, n: string, v: u16)
    requires Load(fl, texts).Accepted? && NoNans(fl) && Sound(Load(fl, texts).value)
    requires n in Load(fl, texts).value && v in Load(fl, texts).value[n]
    ensures var db := Load(fl, texts).value;
            && AllKnown(db, db[n][v].vars)
            && (StateIsDefault(StateFromDefaults(db[n][v], db)) == Ok(true) <==> FixedVars(db, db[n][v].vars))
  {
    hide Load, Known, StateIsDefault, StateTame, StateFromDefaults, FixedVars, NoNans, OwnEqual;
    var db := Load(fl, texts).value;
    assert EntryKnown(db, n, v);
    LoadedOwnEqual(fl, texts);
    assert EntryOwnEqual(db, n, v);
    DefaultIsDefault(db, db[n][v]);
    StateTameIffFixed(db, db[n][v]);
  }
}
