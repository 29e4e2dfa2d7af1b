/** `from_defaults` of src/sdl/state.rs and src/sdl/state_variable.rs on any database:
    what it builds, when it panics and when it does not end. */
module SdlBuild {
  import opened Prim
  import opened SdlTypes
  import opened SdlDefaults
  import Ranking

  // ===== the recursion, with a bound on its depth =====

  /** A default state, with nested states down to the depth that the stack allows. */
  function Build(depth: nat, desc: StateDescriptor, db: Db): Result<State>
    decreases depth, 3, 0
  {
    var vars :- BuildVars(depth, desc.vars, db);
    Ok(State(desc, vars.0, vars.1, None, 0))
  }

  /** The simple and the nested variables. */
  function BuildVars(depth: nat, ds: seq<VarDescriptor>, db: Db): Result<(seq<Variable>, seq<Variable>)>
    decreases depth, 2, |ds|
  {
    if ds == [] then Ok(([], []))
    else
      var vars :- BuildVars(depth, ds[..|ds| - 1], db);
      var v :- BuildVar(depth, ds[|ds| - 1], db);
      Ok(Sorted(vars, v))
  }

  function Sorted(vars: (seq<Variable>, seq<Variable>), v: Variable): (seq<Variable>, seq<Variable>) {
    if v.desc.varType.StateDesc? then (vars.0, vars.1 + [v]) else (vars.0 + [v], vars.1)
  }

  function BuildVar(depth: nat, d: VarDescriptor, db: Db): (r: Result<Variable>)
    ensures r.Ok? ==> r.value.desc == d
    decreases depth, 1, 0
  {
    if d.varType.StateDesc? then
      var latest := GetLatest(db, d.varType.name);
      if latest.None? then Err(Panic)
      else
        var states :- BuildStates(depth, latest.value, CountOf(d), db);
        Ok(Variable(d, States(states), ZERO_TIME, "", false))
    else if !TypedDefault(d) then Err(Panic)
    else Ok(SimpleVar(d))
  }

  function BuildStates(depth: nat, desc: StateDescriptor, n: nat, db: Db): Result<seq<State>>
    decreases depth, 0, n
  {
    if n == 0 then Ok([])
    else if depth == 0 then Err(StackOverflow)
    else
      var init :- BuildStates(depth, desc, n - 1, db);
      var last :- Build(depth - 1, desc, db);
      Ok(init + [last])
  }

  // ===== the source's loops =====

  method FromDefaults(depth: nat, desc: StateDescriptor, db: Db) returns (r: Result<State>)
    ensures r == Build(depth, desc, db)
    decreases depth, 1
  {
    hide BuildVar;
    var simple, nested := [], [];
    ghost var vars := desc.vars;
    for i := 0 to |desc.vars|
      invariant BuildVars(depth, vars[..i], db) == Ok((simple, nested))
    {
      assert vars[..i + 1][..i] == vars[..i];
      var v := VariableFromDefaults(depth, desc.vars[i], db);
      if v.Err? {
        BuildVarsStop(depth, vars, db, i + 1);
        return Err(v.error);
      }
      if desc.vars[i].varType.StateDesc? {
        nested := nested + [v.value];
      } else {
        simple := simple + [v.value];
      }
    }
    assert vars[..|vars|] == vars;
    r := Ok(State(desc, simple, nested, None, 0));
  }

  method VariableFromDefaults(depth: nat, d: VarDescriptor, db: Db) returns (r: Result<Variable>)
    ensures r == BuildVar(depth, d, db)
    decreases depth, 0
  {
    hide Build, GetLatest, SimpleDefaults, TypedDefault;
    if !d.varType.StateDesc? {
      if !TypedDefault(d) {
        return Err(Panic);
      }
      return Ok(SimpleVar(d));
    }
    var latest := GetLatest(db, d.varType.name);
    if latest.None? {
      return Err(Panic);
    }
    var states := [];
    for i := 0 to CountOf(d)
      invariant BuildStates(depth, latest.value, i, db) == Ok(states)
    {
      if depth == 0 {
        BuildStatesStop(depth, latest.value, db, i + 1, CountOf(d));
        return Err(StackOverflow);
      }
      var state := FromDefaults(depth - 1, latest.value, db);
      if state.Err? {
        BuildStatesStop(depth, latest.value, db, i + 1, CountOf(d));
        return Err(state.error);
      }
      states := states + [state.value];
    }
    return Ok(Variable(d, States(states), ZERO_TIME, "", false));
  }

  lemma {:induction false} BuildVarsStop(depth: nat, ds: seq<VarDescriptor>, db: Db, i: nat)
    requires i <= |ds| && BuildVars(depth, ds[..i], db).Err?
    ensures BuildVars(depth, ds, db) == BuildVars(depth, ds[..i], db)
    decreases |ds|
  {
    hide BuildVar;
    if i == |ds| {
      assert ds[..i] == ds;
    } else {
      assert ds[..|ds| - 1][..i] == ds[..i];
      BuildVarsStop(depth, ds[..|ds| - 1], db, i);
    }
  }

  lemma {:induction false} BuildStatesStop(depth: nat, desc: StateDescriptor, db: Db, i: nat, n: nat)
    requires i <= n && BuildStates(depth, desc, i, db).Err?
    ensures BuildStates(depth, desc, n, db) == BuildStates(depth, desc, i, db)
    decreases n
  {
    hide Build;
    if i < n {
      BuildStatesStop(depth, desc, db, i, n - 1);
    }
  }

  // ===== on a sound database it builds the default state =====

  lemma {:induction false} BuildsDefault(depth: nat, desc: StateDescriptor, db: Db)
    requires Sound(db) && AllKnown(db, desc.vars) && MaxRank(db, desc.vars) <= depth
    ensures Build(depth, desc, db) == Ok(StateFromDefaults(desc, db))
    decreases depth, 3, 0
  {
    hide Sound, Known, MaxRank, BuildVars, VarsFromDefaults;
    BuildsVars(depth, desc.vars, desc.vars, db);
  }

  lemma {:induction false} BuildsVars(depth: nat, ds: seq<VarDescriptor>, all: seq<VarDescriptor>, db: Db)
    requires Sound(db) && AllKnown(db, ds) && AllKnown(db, all) && MaxRank(db, all) <= depth
    requires forall d :: d in ds ==> d in all
    ensures BuildVars(depth, ds, db)
         == Ok((VarsFromDefaults(SimpleDescs(ds), db), VarsFromDefaults(NestedDescs(ds), db)))
    decreases depth, 2, |ds|
  {
    hide Sound, Known, MaxRank, BuildVar, VarFromDefaults, VarsFromDefaults;
    if ds == [] {
      EmptyDefaults(db);
    } else {
      var init, d := ds[..|ds| - 1], ds[|ds| - 1];
      assert AllKnown(db, init) && d in all;
      BuildsVars(depth, init, all, db);
      RankIn(db, all, d);
      BuildsVar(depth, d, db);
      BuiltDesc(db, d);
      if d.varType.StateDesc? {
        VarsFromDefaultsAppend(NestedDescs(init), d, db);
        assert SimpleDescs(ds) == SimpleDescs(init);
      } else {
        VarsFromDefaultsAppend(SimpleDescs(init), d, db);
        assert NestedDescs(ds) == NestedDescs(init);
      }
    }
  }

  lemma BuiltDesc(db: Db, d: VarDescriptor)
    requires Sound(db) && Known(db, d)
    ensures VarFromDefaults(d, db).desc == d
  {
  }

  lemma RankIn(db: Db, ds: seq<VarDescriptor>, d: VarDescriptor)
    requires Sound(db) && AllKnown(db, ds) && d in ds
    ensures Known(db, d) && VarRank(db, d) <= MaxRank(db, ds)
  {
    hide Sound, Known, MaxRank, VarRank;
  }

  lemma {:induction false} BuildsVar(depth: nat, d: VarDescriptor, db: Db)
    requires Sound(db) && Known(db, d) && VarRank(db, d) <= depth
    ensures BuildVar(depth, d, db) == Ok(VarFromDefaults(d, db))
    decreases depth, 1, 0
  {
    hide Sound, MaxRank, VarRank, StateFromDefaults, GetLatest, TypedDefault, SimpleDefaults, BuildStates;
    if d.varType.StateDesc? {
      LatestRank(db, d);
      var latest := GetLatest(db, d.varType.name).value;
      if Nests(d) {
        BuildsStates(depth, latest, CountOf(d), db);
      } else {
        NoStates(depth, latest, db);
      }
    }
  }

  lemma NoStates(depth: nat, desc: StateDescriptor, db: Db)
    ensures BuildStates(depth, desc, 0, db) == Ok([])
  {
  }

  lemma {:induction false} BuildsStates(depth: nat, desc: StateDescriptor, n: nat, db: Db)
    requires Sound(db) && AllKnown(db, desc.vars) && MaxRank(db, desc.vars) < depth
    ensures BuildStates(depth, desc, n, db) == Ok(seq(n, _ => StateFromDefaults(desc, db)))
    decreases depth, 0, n
  {
    hide Sound, Known, MaxRank, StateFromDefaults, Build;
    var initial := StateFromDefaults(desc, db);
    if n > 0 {
      BuildsStates(depth, desc, n - 1, db);
      BuildsDefault(depth - 1, desc, db);
      assert seq(n - 1, _ => initial) + [initial] == seq(n, _ => initial);
    } else {
      assert seq(0, _ => initial) == [];
    }
  }

  lemma VarsFromDefaultsAppend(ds: seq<VarDescriptor>, d: VarDescriptor, db: Db)
    requires Sound(db) && AllKnown(db, ds) && Known(db, d)
    ensures AllKnown(db, ds + [d])
    ensures VarsFromDefaults(ds + [d], db) == VarsFromDefaults(ds, db) + [VarFromDefaults(d, db)]
  {
    hide Known, Sound, VarFromDefaults;
    assert forall i :: 0 <= i < |ds + [d]| ==> Known(db, (ds + [d])[i]);
  }

  lemma EmptyDefaults(db: Db)
    requires Sound(db)
    ensures VarsFromDefaults([], db) == []
  {
  }

  // ===== and only then =====

  /** What was built was known. */
  lemma {:induction false} BuiltKnown(depth: nat, ds: seq<VarDescriptor>, db: Db)
    requires BuildVars(depth, ds, db).Ok?
    ensures AllKnown(db, ds)
    decreases |ds|
  {
    hide GetLatest, BuildStates, SimpleDefaults;
    if ds != [] {
      var init := ds[..|ds| - 1];
      BuiltKnown(depth, init, db);
      assert Known(db, ds[|init|]);
      forall i | 0 <= i < |ds|
        ensures Known(db, ds[i])
      {
        assert i < |init| ==> ds[i] == init[i];
      }
    }
  }

  lemma {:induction false} BuiltVar(depth: nat, ds: seq<VarDescriptor>, db: Db, i: nat)
    requires BuildVars(depth, ds, db).Ok? && i < |ds|
    ensures BuildVar(depth, ds[i], db).Ok?
    decreases |ds|
  {
    hide BuildVar;
    if i < |ds| - 1 {
      BuiltVar(depth, ds[..|ds| - 1], db, i);
    }
  }

  lemma {:induction false} BuiltState(depth: nat, desc: StateDescriptor, n: nat, db: Db)
    requires BuildStates(depth, desc, n, db).Ok? && n > 0
    ensures depth > 0 && Build(depth - 1, desc, db).Ok?
  {
  }

  predicate HasLatest(db: Db, n: string) {
    n in db && db[n].Keys != {}
  }

  function Latest(db: Db, n: string): StateDescriptor
    requires HasLatest(db, n)
  {
    db[n][Largest(db[n].Keys)]
  }

  /** A state cannot be built with less depth than the states nested in it need. */
  lemma BuiltNested(depth: nat, n: string, m: string, db: Db)
    requires (n, m) in References(db) && HasLatest(db, n) && Build(depth, Latest(db, n), db).Ok?
    ensures depth > 0 && HasLatest(db, m) && Build(depth - 1, Latest(db, m), db).Ok?
  {
    hide Build, BuildVar, BuildStates;
    var ds := LatestVars(db, n);
    var i :| 0 <= i < |ds| && RefersAt(ds[i], m);
    BuildIs(depth, Latest(db, n), db);
    BuiltVar(depth, ds, db, i);
    BuildVarIs(depth, ds[i], db);
    BuiltState(depth, GetLatest(db, ds[i].varType.name).value, CountOf(ds[i]), db);
  }

  lemma BuildIs(depth: nat, desc: StateDescriptor, db: Db)
    ensures Build(depth, desc, db).Ok? <==> BuildVars(depth, desc.vars, db).Ok?
  {
    hide BuildVars;
  }

  lemma BuildVarIs(depth: nat, d: VarDescriptor, db: Db)
    requires d.varType.StateDesc? && BuildVar(depth, d, db).Ok?
    ensures GetLatest(db, d.varType.name).Some?
    ensures BuildStates(depth, GetLatest(db, d.varType.name).value, CountOf(d), db).Ok?
  {
    hide BuildStates, GetLatest;
  }

  lemma {:induction false} BuiltAlong(depth: nat, n: string, m: string, db: Db, p: seq<string>)
    requires Ranking.Walk(References(db), n, m, p) && HasLatest(db, n) && Build(depth, Latest(db, n), db).Ok?
    ensures |p| <= depth + 1 && HasLatest(db, m) && Build(depth + 1 - |p|, Latest(db, m), db).Ok?
    decreases |p|
  {
    hide Build, References, Latest, HasLatest;
    assert (p[0], p[1]) in References(db);
    BuiltNested(depth, n, p[1], db);
    if |p| > 2 {
      Ranking.WalkTail(References(db), n, m, p);
      BuiltAlong(depth - 1, p[1], m, db, p[1..]);
    }
  }

  /** Nothing that nests in itself can be built, at any depth. */
  lemma {:induction false} CircleFails(depth: nat, n: string, db: Db)
    requires Ranking.Reaches(References(db), n, n) && HasLatest(db, n)
    ensures Build(depth, Latest(db, n), db).Err?
  {
    hide Build, References, Latest, HasLatest;
    if Build(depth, Latest(db, n), db).Ok? {
      var p :| Ranking.Walk(References(db), n, n, p);
      BuiltAlong(depth, n, n, db, p);
      CircleFails(depth + 1 - |p|, n, db);
    }
  }

  /** Where everything is known, only the depth can run out. */
  lemma {:induction false} OnlyOverflow(depth: nat, desc: StateDescriptor, db: Db)
    requires AllKnown(db, desc.vars) && forall n, v :: EntryKnown(db, n, v)
    ensures var r := Build(depth, desc, db); r.Ok? || r == Err(StackOverflow)
    decreases depth, 3, 0
  {
    hide Known, EntryKnown, BuildVars;
    OnlyOverflowVars(depth, desc.vars, db);
  }

  lemma {:induction false} OnlyOverflowVars(depth: nat, ds: seq<VarDescriptor>, db: Db)
    requires AllKnown(db, ds) && forall n, v :: EntryKnown(db, n, v)
    ensures var r := BuildVars(depth, ds, db); r.Ok? || r == Err(StackOverflow)
    decreases depth, 2, |ds|
  {
    hide EntryKnown, BuildStates, TypedDefault, SimpleDefaults, GetLatest;
    if ds != [] {
      var d := ds[|ds| - 1];
      OnlyOverflowVars(depth, ds[..|ds| - 1], db);
      assert Known(db, d);
      if d.varType.StateDesc? {
        KnownLatest(db, d.varType.name);
        OnlyOverflowStates(depth, GetLatest(db, d.varType.name).value, CountOf(d), db);
      }
    }
  }

  lemma {:induction false} OnlyOverflowStates(depth: nat, desc: StateDescriptor, n: nat, db: Db)
    requires AllKnown(db, desc.vars) && forall n, v :: EntryKnown(db, n, v)
    ensures var r := BuildStates(depth, desc, n, db); r.Ok? || r == Err(StackOverflow)
    decreases depth, 0, n
  {
    hide Known, EntryKnown, Build;
    if n > 0 && depth > 0 {
      OnlyOverflowStates(depth, desc, n - 1, db);
      OnlyOverflow(depth - 1, desc, db);
    }
  }

  lemma KnownLatest(db: Db, name: string)
    requires GetLatest(db, name).Some? && forall n, v :: EntryKnown(db, n, v)
    ensures AllKnown(db, GetLatest(db, name).value.vars)
  {
    assert EntryKnown(db, Fold(name), Largest(db[Fold(name)].Keys));
  }

  /** The default state exists: at some depth it is built. */
  ghost predicate Builds(db: Db, desc: StateDescriptor) {
    exists depth: nat :: Build(depth, desc, db).Ok?
  }

  ghost predicate EntryBuilds(db: Db, n: string, v: u16) {
    n in db && v in db[n] ==> Builds(db, db[n][v])
  }

  /** The databases all of whose descriptors can be built are exactly the sound ones. */
  lemma BuildsIffSound(db: Db)
    ensures (forall n, v :: EntryBuilds(db, n, v)) <==> Sound(db)
  {
    hide Ranking.Acyclic, References, Build, Known;
    if Sound(db) {
      forall n, v
        ensures EntryBuilds(db, n, v)
      {
        if n in db && v in db[n] {
          assert EntryKnown(db, n, v);
          BuildsDefault(MaxRank(db, db[n][v].vars), db[n][v], db);
        }
      }
    }
    if forall n, v :: EntryBuilds(db, n, v) {
      forall n, v
        ensures EntryKnown(db, n, v)
      {
        EntryIsKnown(db, n, v);
      }
      NoCircle(db);
    }
  }

  lemma EntryIsKnown(db: Db, n: string, v: u16)
    requires EntryBuilds(db, n, v)
    ensures EntryKnown(db, n, v)
  {
    hide Build, Known;
    if n in db && v in db[n] {
      var depth: nat :| Build(depth, db[n][v], db).Ok?;
      BuildIs(depth, db[n][v], db);
      BuiltKnown(depth, db[n][v].vars, db);
    }
  }

  lemma NoCircle(db: Db)
    requires forall n, v :: EntryBuilds(db, n, v)
    ensures Ranking.Acyclic(References(db))
  {
    hide Build, EntryBuilds;
    forall n | Ranking.Reaches(References(db), n, n)
      ensures false
    {
      ReachesHas(db, n, n);
      assert EntryBuilds(db, n, Largest(db[n].Keys));
      var depth := BuildDepth(db, n);
      CircleFails(depth, n, db);
    }
  }

  lemma BuildDepth(db: Db, n: string) returns (depth: nat)
    requires HasLatest(db, n) && EntryBuilds(db, n, Largest(db[n].Keys))
    ensures Build(depth, Latest(db, n), db).Ok?
  {
    hide Build;
    depth :| Build(depth, Latest(db, n), db).Ok?;
  }

  lemma ReachesHas(db: Db, n: string, m: string)
    requires Ranking.Reaches(References(db), n, m)
    ensures HasLatest(db, n)
  {
    var p :| Ranking.Walk(References(db), n, m, p);
    assert (p[0], p[1]) in References(db);
    assert Refers(db, n, p[1]);
  }

  /** A circle of nested states exhausts any stack. */
  lemma CircleOverflows(depth: nat, n: string, db: Db)
    requires (forall m, v :: EntryKnown(db, m, v)) && Ranking.Reaches(References(db), n, n)
    ensures HasLatest(db, n) && Build(depth, Latest(db, n), db) == Err(StackOverflow)
  {
    hide Build, References, EntryKnown, Known, Ranking.Reaches;
    ReachesHas(db, n, n);
    CircleFails(depth, n, db);
    assert EntryKnown(db, n, Largest(db[n].Keys));
    LatestKnown(db, n);
    OnlyOverflow(depth, Latest(db, n), db);
  }

  lemma LatestKnown(db: Db, n: string)
    requires HasLatest(db, n) && EntryKnown(db, n, Largest(db[n].Keys))
    ensures AllKnown(db, Latest(db, n).vars)
  {
    hide Known;
  }

  // ===== a descriptor that refers to itself =====

  function SelfVar(count: Option<nat>): VarDescriptor {
    VarDescriptor("kids", StateDesc("a"), count, None)
  }

  /** `STATEDESC a { VERSION 1 VAR $a kids[..] }` */
  function SelfDb(count: Option<nat>): Db {
    map["a" := map[1 := StateDescriptor("a", 1, [SelfVar(count)])]]
  }

  /** It does no harm if and only if a default has none of it. */
  lemma SelfReference(count: Option<nat>)
    ensures Sound(SelfDb(count)) <==> CountOf(SelfVar(count)) == 0
  {
    var db := SelfDb(count);
    assert Fold("a") == "a" by { assert Fold("a")[0] == 'a'; }
    assert db["a"].Keys == {1};
    assert Largest(db["a"].Keys) == 1;
    assert LatestVars(db, "a") == [SelfVar(count)];
    forall n, v
      ensures EntryKnown(db, n, v)
    {
    }
    if CountOf(SelfVar(count)) == 0 {
      assert References(db) == {};
      Ranking.RankedAcyclic(References(db), (n: string) => 0);
    } else {
      assert RefersAt(LatestVars(db, "a")[0], "a");
      assert ("a", "a") in References(db);
      assert Ranking.Walk(References(db), "a", "a", ["a", "a"]);
      assert Ranking.Reaches(References(db), "a", "a");
    }
  }
}
