/** Bringing a state to the latest descriptor: `upgrade` in src/sdl/state.rs and
    `upgrade_from` in src/sdl/state_variable.rs. */
module SdlUpgrade {
  import opened Prim
  import opened SdlTypes
  import opened SdlValues
  import opened SdlDefaults
  import opened SdlCodec
  import opened SdlRoundTrip
  import opened SdlRuns
  import Ranking
  import SafeString
  import C = Creatable

  /** The variables in the order in which the source walks and searches them. */
  function Chain(s: State): seq<Variable> {
    s.simple + s.nested
  }

  function WithChain(s: State, vars: seq<Variable>): State
    requires |vars| == |Chain(s)|
  {
    s.(simple := vars[..|s.simple|], nested := vars[|s.simple|..])
  }

  function FindVar(vars: seq<Variable>, name: string): (r: Option<nat>)
    ensures r.Some? ==> r.value < |vars| && vars[r.value].desc.name == name
    ensures r.None? ==> forall i :: 0 <= i < |vars| ==> vars[i].desc.name != name
  {
    if vars == [] then None
    else
      var earlier := FindVar(vars[..|vars| - 1], name);
      if earlier.Some? then earlier
      else if vars[|vars| - 1].desc.name == name then Some(|vars| - 1) else None
  }

  /** `None` when the state is at the latest descriptor already. */
  function Upgrade(db: Db, s: State): Result<Option<State>>
    requires Sound(db)
    decreases s, 3
  {
    var latest := GetLatest(db, s.desc.name);
    if latest.None? then Err(Panic)
    else if latest.value == s.desc then Ok(None)
    else
      Returned(db, s.desc.name, 0);
      var initial := StateFromDefaults(latest.value, db);
      var vars :- UpgradeVars(db, s.simple, Chain(initial));
      var vars' :- UpgradeVars(db, s.nested, vars);
      Ok(Some(WithChain(initial, vars')))
  }

  function UpgradeVars(db: Db, olds: seq<Variable>, news: seq<Variable>): (r: Result<seq<Variable>>)
    requires Sound(db)
    ensures r.Ok? ==> |r.value| == |news|
    decreases olds, 2
  {
    if olds == [] then Ok(news)
    else
      var old' := olds[|olds| - 1];
      var vars :- UpgradeVars(db, olds[..|olds| - 1], news);
      var at := FindVar(vars, old'.desc.name);
      if at.None? then Ok(vars)
      else
        var v :- UpgradeVar(db, vars[at.value], old');
        Ok(vars[at.value := v])
  }

  function UpgradeVar(db: Db, v: Variable, old': Variable): Result<Variable>
    requires Sound(db)
    decreases old', 1
  {
    var isDefault :- VarIsDefault(old');
    if isDefault || v.desc.varType != old'.desc.varType || v.desc.count != old'.desc.count then Ok(v)
    else
      var values :- UpgradeValues(db, old'.values);
      Ok(v.(values := values))
  }

  function UpgradeValues(db: Db, values: VarValues): Result<VarValues>
    requires Sound(db)
    decreases values, 1
  {
    if values.States? then
      var states :- UpgradeStates(db, values.states);
      Ok(States(states))
    else Ok(values)
  }

  function UpgradeStates(db: Db, states: seq<State>): Result<seq<State>>
    requires Sound(db)
    decreases states, 4
  {
    if states == [] then Ok([])
    else
      var init :- UpgradeStates(db, states[..|states| - 1]);
      var last :- Upgrade(db, states[|states| - 1]);
      Ok(init + [if last.Some? then last.value else states[|states| - 1]])
  }

  // ===== when it panics, and when it has nothing to do =====

  /** Of well-formed values, exactly the fixed-length Point3 ones make the default test
      panic. */
  lemma SimpleDefaultPanicsIff(v: Variable)
    requires TypedDefault(v.desc) && SimpleFormed(v) && !v.desc.varType.StateDesc?
    ensures SimpleIsDefault(v).Err? <==> v.desc.varType.Point3? && v.desc.count.Some?
  {
    hide ScalarEq, DefaultOf;
  }

  /** The default test reaches a fixed-length Point3: it looks at one element after the
      other and stops at the first that is not at its default. */
  predicate Trips(v: Variable)
    decreases v, 1
  {
    v.desc.count.Some? && (v.desc.varType.Point3? || (v.values.States? && StatesTrip(v.values.states)))
  }

  predicate StatesTrip(states: seq<State>)
    decreases states, 0
  {
    exists i :: 0 <= i < |states| && StateTrips(states[i]) && StatesDefault(states, i)
  }

  predicate StatesDefault(states: seq<State>, n: nat)
    requires n <= |states|
  {
    forall j :: 0 <= j < n ==> StateIsDefault(states[j]) == Ok(true)
  }

  predicate VarsTrip(vars: seq<Variable>)
    decreases vars, 0
  {
    exists i :: 0 <= i < |vars| && Trips(vars[i]) && VarsDefault(vars, i)
  }

  predicate VarsDefault(vars: seq<Variable>, n: nat)
    requires n <= |vars|
  {
    forall j :: 0 <= j < n ==> VarIsDefault(vars[j]) == Ok(true)
  }

  predicate StateTrips(s: State)
    decreases s, 1
  {
    VarsTrip(s.simple) || (VarsAreDefault(s.simple) == Ok(true) && VarsTrip(s.nested))
  }

  /** A test that fails does so with a panic, if and only if it trips. */
  predicate PanicsIff(r: Result<bool>, trips: bool) {
    if trips then r == Err(Panic) else r.Ok?
  }

  lemma {:induction false} DefaultPanicsIff(db: Db, v: Variable)
    requires Sound(db) && VarInv(db, v)
    ensures PanicsIff(VarIsDefault(v), Trips(v))
    decreases v, 1
  {
    hide Sound, SimpleIsDefault, StatesAreDefault, DefaultValues, StatesTrip;
    ValuesFormed(db, v);
    if v.desc.count.None? {
      NoCountDecided(v);
    } else if v.desc.varType.StateDesc? {
      StatesPanicIff(db, GetLatest(db, v.desc.varType.name).value, v.values.states);
    } else {
      FormedSimple(db, v);
      SimpleDefaultPanicsIff(v);
      SimplePanics(v);
    }
  }

  lemma NoCountDecided(v: Variable)
    requires v.desc.count.None?
    ensures SimpleIsDefault(v) == Ok(false)
  {
  }

  lemma SimplePanics(v: Variable)
    ensures SimpleIsDefault(v).Err? ==> SimpleIsDefault(v) == Err(Panic)
  {
  }

  lemma {:induction false} StatesPanicIff(db: Db, latest: StateDescriptor, states: seq<State>)
    requires Sound(db) && forall i :: 0 <= i < |states| ==> ChildInv(db, latest, states[i])
    ensures PanicsIff(StatesAreDefault(states), StatesTrip(states))
    decreases states, 1
  {
    hide Sound, StateInv, StateIsDefault, StateTrips, StatesTrip;
    if states != [] {
      assert ChildInv(db, latest, states[0]);
      StatePanicsIff(db, states[0]);
      StatesPanicIff(db, latest, states[1..]);
      StatesTripStep(states);
    } else {
      NoneTrip();
    }
  }

  lemma NoneTrip()
    ensures !StatesTrip([]) && !VarsTrip([])
  {
  }

  lemma StatesTripStep(states: seq<State>)
    requires states != []
    ensures StatesTrip(states) <==>
              StateTrips(states[0]) || (StateIsDefault(states[0]) == Ok(true) && StatesTrip(states[1..]))
  {
    hide StateTrips, StateIsDefault;
    var tail := states[1..];
    if i :| 0 <= i < |states| && StateTrips(states[i]) && StatesDefault(states, i) && i > 0 {
      assert tail[i - 1] == states[i];
      assert forall j :: 0 <= j < i - 1 ==> tail[j] == states[j + 1];
      assert StatesDefault(tail, i - 1);
    }
    if StateTrips(states[0]) {
      assert StatesDefault(states, 0);
    }
    if i :| 0 <= i < |tail| && StateTrips(tail[i]) && StatesDefault(tail, i) && StateIsDefault(states[0]) == Ok(true) {
      forall j | 0 <= j < i + 1
        ensures StateIsDefault(states[j]) == Ok(true)
      {
        assert j > 0 ==> states[j] == tail[j - 1];
      }
      assert StatesDefault(states, i + 1);
      assert StateTrips(states[i + 1]);
    }
  }

  lemma {:induction false} VarsPanicIff(db: Db, vars: seq<Variable>)
    requires Sound(db) && forall i :: 0 <= i < |vars| ==> VarInv(db, vars[i])
    ensures PanicsIff(VarsAreDefault(vars), VarsTrip(vars))
    decreases vars, 2
  {
    hide Sound, VarInv, VarIsDefault, Trips, VarsTrip;
    if vars != [] {
      DefaultPanicsIff(db, vars[0]);
      VarsPanicIff(db, vars[1..]);
      VarsTripStep(vars);
    } else {
      NoneTrip();
    }
  }

  lemma VarsTripStep(vars: seq<Variable>)
    requires vars != []
    ensures VarsTrip(vars) <==> Trips(vars[0]) || (VarIsDefault(vars[0]) == Ok(true) && VarsTrip(vars[1..]))
  {
    hide Trips, VarIsDefault;
    var tail := vars[1..];
    if i :| 0 <= i < |vars| && Trips(vars[i]) && VarsDefault(vars, i) && i > 0 {
      assert tail[i - 1] == vars[i];
      assert forall j :: 0 <= j < i - 1 ==> tail[j] == vars[j + 1];
      assert VarsDefault(tail, i - 1);
    }
    if Trips(vars[0]) {
      assert VarsDefault(vars, 0);
    }
    if i :| 0 <= i < |tail| && Trips(tail[i]) && VarsDefault(tail, i) && VarIsDefault(vars[0]) == Ok(true) {
      forall j | 0 <= j < i + 1
        ensures VarIsDefault(vars[j]) == Ok(true)
      {
        assert j > 0 ==> vars[j] == tail[j - 1];
      }
      assert VarsDefault(vars, i + 1);
      assert Trips(vars[i + 1]);
    }
  }

  lemma {:induction false} StatePanicsIff(db: Db, s: State)
    requires Sound(db) && StateInv(db, s)
    ensures PanicsIff(StateIsDefault(s), StateTrips(s))
    decreases s, 1
  {
    hide Sound, VarInv, VarsAreDefault, Known, VarsTrip;
    VarsPanicIff(db, s.simple);
    VarsPanicIff(db, s.nested);
  }

  /** The latest descriptor of a name is its own name's latest. */
  lemma LatestIsLatest(db: Db, name: string)
    requires Filed(db) && GetLatest(db, name).Some?
    ensures var d := GetLatest(db, name).value; Fold(d.name) == Fold(name) && GetLatest(db, d.name) == Some(d)
  {
    var n := Fold(name);
    var v := Largest(db[n].Keys);
    assert n in db && v in db[n];
    assert Fold(db[n][v].name) == n;
  }

  /** Nested states that are at the latest descriptor are kept as they are. */
  lemma {:induction false} NestedKept(db: Db, latest: StateDescriptor, states: seq<State>)
    requires Sound(db) && GetLatest(db, latest.name) == Some(latest)
    requires forall i :: 0 <= i < |states| ==> states[i].desc == latest
    ensures UpgradeStates(db, states) == Ok(states)
  {
    hide Sound, GetLatest, StateFromDefaults, UpgradeVars;
    if states != [] {
      NestedKept(db, latest, states[..|states| - 1]);
      assert states[..|states| - 1] + [states[|states| - 1]] == states;
    }
  }

  lemma ValuesKept(db: Db, v: Variable)
    requires Sound(db) && Filed(db) && VarInv(db, v)
    ensures UpgradeValues(db, v.values) == Ok(v.values)
  {
    hide Sound, Filed, DefaultValues, UpgradeStates, GetLatest, StateInv;
    ValuesFormed(db, v);
    if v.values.States? {
      var latest := GetLatest(db, v.desc.varType.name).value;
      LatestIsLatest(db, v.desc.varType.name);
      forall i | 0 <= i < |v.values.states|
        ensures v.values.states[i].desc == latest
      {
        assert ChildInv(db, latest, v.values.states[i]);
      }
      NestedKept(db, latest, v.values.states);
    }
  }

  // ===== what becomes of each variable =====

  /** The outcome for a new variable and the old one of the same name. */
  function Carried(v: Variable, old': Variable): Variable {
    if VarIsDefault(old') == Ok(false) && v.desc.varType == old'.desc.varType && v.desc.count == old'.desc.count
    then v.(values := old'.values) else v
  }

  /** The outcome for a new variable after all the old ones. */
  function Outcome(olds: seq<Variable>, v: Variable): (r: Variable)
    ensures r.desc == v.desc && r.dirty == v.dirty && r.hint == v.hint && r.timestamp == v.timestamp
  {
    if olds == [] then v
    else
      var r, old' := Outcome(olds[..|olds| - 1], v), olds[|olds| - 1];
      if old'.desc.name == v.desc.name then Carried(r, old') else r
  }

  predicate Distinct(vars: seq<Variable>) {
    forall i, j :: 0 <= i < j < |vars| ==> vars[i].desc.name != vars[j].desc.name
  }

  ghost predicate AllInv(db: Db, vars: seq<Variable>)
    requires Sound(db)
  {
    forall i :: 0 <= i < |vars| ==> VarInv(db, vars[i])
  }

  lemma UpgradeVarIs(db: Db, v: Variable, old': Variable)
    requires Sound(db) && Filed(db) && VarInv(db, old')
    ensures UpgradeVar(db, v, old') == if Trips(old') then Err(Panic) else Ok(Carried(v, old'))
  {
    hide Sound, Filed, VarInv, Trips, VarIsDefault, UpgradeValues;
    DefaultPanicsIff(db, old');
    ValuesKept(db, old');
  }

  predicate Named(vars: seq<Variable>, name: string) {
    exists j :: 0 <= j < |vars| && vars[j].desc.name == name
  }

  predicate AnyTrips(olds: seq<Variable>, news: seq<Variable>) {
    exists i :: 0 <= i < |olds| && Named(news, olds[i].desc.name) && Trips(olds[i])
  }

  predicate SameDescs(a: seq<Variable>, b: seq<Variable>) {
    |a| == |b| && forall i :: 0 <= i < |a| ==> a[i].desc == b[i].desc
  }

  /** The loop panics if and only if some old variable trips whose name is still there. */
  lemma {:induction false} UpgradeVarsPanic(db: Db, olds: seq<Variable>, news: seq<Variable>)
    requires Sound(db) && Filed(db) && AllInv(db, olds)
    ensures var r := UpgradeVars(db, olds, news);
            if AnyTrips(olds, news) then r == Err(Panic) else r.Ok? && SameDescs(r.value, news)
  {
    hide Sound, Filed, VarInv, Trips, UpgradeVar, Named;
    if olds != [] {
      var init, old' := olds[..|olds| - 1], olds[|olds| - 1];
      UpgradeVarsPanic(db, init, news);
      AnyTripsStep(olds, news);
      if !AnyTrips(init, news) {
        var vars := UpgradeVars(db, init, news).value;
        NamedAlike(vars, news, old'.desc.name);
        FindNamed(vars, old'.desc.name);
        var at := FindVar(vars, old'.desc.name);
        if at.Some? {
          UpgradeVarIs(db, vars[at.value], old');
        }
      }
    }
  }

  lemma NamedAlike(a: seq<Variable>, b: seq<Variable>, name: string)
    requires SameDescs(a, b)
    ensures Named(a, name) <==> Named(b, name)
  {
    if j :| 0 <= j < |a| && a[j].desc.name == name {
      assert b[j].desc.name == name;
    }
    if j :| 0 <= j < |b| && b[j].desc.name == name {
      assert a[j].desc.name == name;
    }
  }

  lemma FindNamed(vars: seq<Variable>, name: string)
    ensures FindVar(vars, name).Some? <==> Named(vars, name)
  {
  }

  lemma AnyTripsStep(olds: seq<Variable>, news: seq<Variable>)
    requires olds != []
    ensures var init, old' := olds[..|olds| - 1], olds[|olds| - 1];
            AnyTrips(olds, news) <==> AnyTrips(init, news) || (Named(news, old'.desc.name) && Trips(old'))
  {
    hide Trips, Named;
    var init := olds[..|olds| - 1];
    if i :| 0 <= i < |init| && Named(news, init[i].desc.name) && Trips(init[i]) {
      assert olds[i] == init[i];
    }
    if i :| 0 <= i < |olds| && Named(news, olds[i].desc.name) && Trips(olds[i]) {
      assert i < |init| ==> olds[i] == init[i];
    }
  }

  function Outcomes(olds: seq<Variable>, news: seq<Variable>): (r: seq<Variable>)
    ensures |r| == |news| && forall i :: 0 <= i < |news| ==> r[i] == Outcome(olds, news[i])
  {
    seq(|news|, i requires 0 <= i < |news| => Outcome(olds, news[i]))
  }

  lemma {:induction false} UpgradeVarsAre(db: Db, olds: seq<Variable>, news: seq<Variable>)
    requires Sound(db) && Filed(db) && AllInv(db, olds) && Distinct(news) && UpgradeVars(db, olds, news).Ok?
    ensures UpgradeVars(db, olds, news) == Ok(Outcomes(olds, news))
  {
    hide Sound, Filed, VarInv, Trips, UpgradeVar, Carried;
    if olds == [] {
      assert Outcomes(olds, news) == news;
    } else {
      var init, old' := olds[..|olds| - 1], olds[|olds| - 1];
      UpgradeVarsAre(db, init, news);
      var vars := Outcomes(init, news);
      var at := FindVar(vars, old'.desc.name);
      if at.Some? {
        UpgradeVarIs(db, vars[at.value], old');
        OutcomeStep(olds, news, at.value);
      } else {
        assert Outcomes(olds, news) == vars;
      }
    }
  }

  lemma OutcomeStep(olds: seq<Variable>, news: seq<Variable>, k: nat)
    requires olds != [] && k < |news| && Distinct(news) && news[k].desc.name == olds[|olds| - 1].desc.name
    ensures var init, old' := olds[..|olds| - 1], olds[|olds| - 1];
            Outcomes(init, news)[k := Carried(Outcomes(init, news)[k], old')] == Outcomes(olds, news)
  {
    hide Carried;
    var init, old' := olds[..|olds| - 1], olds[|olds| - 1];
    var a := Outcomes(init, news)[k := Carried(Outcomes(init, news)[k], old')];
    forall i | 0 <= i < |news|
      ensures a[i] == Outcomes(olds, news)[i]
    {
      if i != k {
        assert news[i].desc.name != news[k].desc.name;
      }
    }
  }

  /** Old variables of other names do not matter ... */
  lemma {:induction false} OutcomeOther(olds: seq<Variable>, v: Variable)
    requires forall i :: 0 <= i < |olds| ==> olds[i].desc.name != v.desc.name
    ensures Outcome(olds, v) == v
  {
    if olds != [] {
      OutcomeOther(olds[..|olds| - 1], v);
    }
  }

  /** ... so the outcome is decided by the only one of the same name. */
  lemma {:induction false} OutcomeOnly(olds: seq<Variable>, v: Variable, k: nat)
    requires k < |olds| && Distinct(olds) && olds[k].desc.name == v.desc.name
    ensures Outcome(olds, v) == Carried(v, olds[k])
    decreases |olds|
  {
    var init := olds[..|olds| - 1];
    if k < |init| {
      OutcomeOnly(init, v, k);
    } else {
      OutcomeOther(init, v);
    }
  }

  lemma {:induction false} OutcomeSplit(a: seq<Variable>, b: seq<Variable>, v: Variable)
    ensures Outcome(b, Outcome(a, v)) == Outcome(a + b, v)
  {
    if b == [] {
      assert a + b == a;
    } else {
      OutcomeSplit(a, b[..|b| - 1], v);
      assert (a + b)[..|a + b| - 1] == a + b[..|b| - 1];
    }
  }

  // ===== distinct names =====

  predicate DistinctDescs(ds: seq<VarDescriptor>) {
    forall i, j :: 0 <= i < j < |ds| ==> ds[i].name != ds[j].name
  }

  lemma {:induction false} SortedDistinct(ds: seq<VarDescriptor>)
    requires DistinctDescs(ds)
    ensures DistinctDescs(SimpleDescs(ds) + NestedDescs(ds))
  {
    if ds != [] {
      var init, d := ds[..|ds| - 1], ds[|ds| - 1];
      SortedDistinct(init);
      var a, b := SimpleDescs(init), NestedDescs(init);
      forall e: VarDescriptor | e in a + b
        ensures e.name != d.name
      {
        assert e in init;
      }
      if d.varType.StateDesc? {
        assert SimpleDescs(ds) + NestedDescs(ds) == a + b + [d];
      } else {
        assert SimpleDescs(ds) == a + [d] && NestedDescs(ds) == b;
        InsertDistinct(a, b, d);
      }
    }
  }

  lemma InsertDistinct(a: seq<VarDescriptor>, b: seq<VarDescriptor>, d: VarDescriptor)
    requires DistinctDescs(a + b) && forall e: VarDescriptor :: e in a + b ==> e.name != d.name
    ensures DistinctDescs(a + [d] + b)
  {
    var c, ab := a + [d] + b, a + b;
    forall i, j | 0 <= i < j < |c|
      ensures c[i].name != c[j].name
    {
      var i' := if i < |a| then i else i - 1;
      var j' := if j < |a| then j else j - 1;
      assert i != |a| ==> c[i] == ab[i'] && c[i] in ab;
      assert j != |a| ==> c[j] == ab[j'] && c[j] in ab;
    }
  }

  lemma ChainDistinct(s: State)
    requires DistinctDescs(s.desc.vars)
    requires Matches(s.simple, SimpleDescs(s.desc.vars)) && Matches(s.nested, NestedDescs(s.desc.vars))
    ensures Distinct(Chain(s))
  {
    var ds := SimpleDescs(s.desc.vars) + NestedDescs(s.desc.vars);
    SortedDistinct(s.desc.vars);
    assert forall i :: 0 <= i < |ds| ==> Chain(s)[i].desc == ds[i];
  }

  // ===== the main results =====

  ghost predicate Ready(db: Db, s: State)
    requires Sound(db)
  {
    && Filed(db) && StateInv(db, s) && DistinctDescs(s.desc.vars)
    && GetLatest(db, s.desc.name).Some? && DistinctDescs(GetLatest(db, s.desc.name).value.vars)
  }

  lemma ChainInv(db: Db, s: State)
    requires Sound(db) && StateInv(db, s)
    ensures AllInv(db, s.simple) && AllInv(db, s.nested)
  {
    hide Sound, VarInv, Known;
  }

  /** The latest descriptor has a variable of this name. */
  predicate HasName(ds: seq<VarDescriptor>, name: string) {
    exists j :: 0 <= j < |ds| && ds[j].name == name
  }

  /** Some variable of the state whose name is kept makes the default test panic. */
  predicate UpgradeTrips(db: Db, s: State)
    requires GetLatest(db, s.desc.name).Some?
  {
    exists i :: 0 <= i < |Chain(s)| && Trips(Chain(s)[i])
                && HasName(GetLatest(db, s.desc.name).value.vars, Chain(s)[i].desc.name)
  }

  /** An upgrade panics if and only if the database has no descriptor of the name, or
      the state is not at the latest one and the default test of one of its variables,
      with a name that is kept, reaches a fixed-length Point3. */
  lemma UpgradePanicsIff(db: Db, s: State)
    requires Sound(db) && Filed(db) && StateInv(db, s)
    ensures var latest, r := GetLatest(db, s.desc.name), Upgrade(db, s);
            if latest.None? || (latest.value != s.desc && UpgradeTrips(db, s)) then r == Err(Panic) else r.Ok?
  {
    hide Sound, Filed, GetLatest, StateFromDefaults, UpgradeVars, Known, VarInv, Trips, AnyTrips, HasName;
    var found := GetLatest(db, s.desc.name);
    if found.Some? && found.value != s.desc {
      Returned(db, s.desc.name, 0);
      var latest := found.value;
      var initial := StateFromDefaults(latest, db);
      ChainInv(db, s);
      UpgradeVarsPanic(db, s.simple, Chain(initial));
      TripsChain(db, s);
      if !AnyTrips(s.simple, Chain(initial)) {
        var mid := UpgradeVars(db, s.simple, Chain(initial)).value;
        UpgradeVarsPanic(db, s.nested, mid);
        TripsAlike(s.nested, mid, Chain(initial));
      }
    }
  }

  lemma TripsAlike(olds: seq<Variable>, a: seq<Variable>, b: seq<Variable>)
    requires SameDescs(a, b)
    ensures AnyTrips(olds, a) <==> AnyTrips(olds, b)
  {
    hide Trips, Named, SameDescs;
    forall i | 0 <= i < |olds|
      ensures Named(a, olds[i].desc.name) <==> Named(b, olds[i].desc.name)
    {
      NamedAlike(a, b, olds[i].desc.name);
    }
  }

  lemma InitialNamed(db: Db, desc: StateDescriptor, name: string)
    requires Sound(db) && AllKnown(db, desc.vars)
    ensures Named(Chain(StateFromDefaults(desc, db)), name) <==> HasName(desc.vars, name)
  {
    hide Sound, Known, StateFromDefaults;
    var chain, ds := Chain(StateFromDefaults(desc, db)), desc.vars;
    if j :| 0 <= j < |chain| && chain[j].desc.name == name {
      InitialIn(db, desc, j);
      var k :| 0 <= k < |ds| && ds[k] == chain[j].desc;
    }
    if j :| 0 <= j < |ds| && ds[j].name == name {
      var k := InitialHas(db, desc, j);
      assert chain[k].desc.name == name;
    }
  }

  lemma TripsChain(db: Db, s: State)
    requires Sound(db) && GetLatest(db, s.desc.name).Some? && AllKnown(db, GetLatest(db, s.desc.name).value.vars)
    ensures var chain := Chain(StateFromDefaults(GetLatest(db, s.desc.name).value, db));
            UpgradeTrips(db, s) <==> AnyTrips(s.simple, chain) || AnyTrips(s.nested, chain)
  {
    hide Sound, Known, GetLatest, StateFromDefaults, Trips, Named, HasName;
    var latest := GetLatest(db, s.desc.name).value;
    var chain := Chain(StateFromDefaults(latest, db));
    forall i | 0 <= i < |Chain(s)|
      ensures Named(chain, Chain(s)[i].desc.name) <==> HasName(latest.vars, Chain(s)[i].desc.name)
    {
      InitialNamed(db, latest, Chain(s)[i].desc.name);
    }
    assert UpgradeTrips(db, s) <==> AnyTrips(Chain(s), chain);
    AnyTripsSplit(s.simple, s.nested, chain);
  }

  lemma AnyTripsSplit(a: seq<Variable>, b: seq<Variable>, news: seq<Variable>)
    ensures AnyTrips(a + b, news) <==> AnyTrips(a, news) || AnyTrips(b, news)
  {
    hide Trips, Named;
    var ab := a + b;
    if i :| 0 <= i < |a| && Named(news, a[i].desc.name) && Trips(a[i]) {
      assert ab[i] == a[i];
    }
    if i :| 0 <= i < |b| && Named(news, b[i].desc.name) && Trips(b[i]) {
      assert ab[|a| + i] == b[i];
    }
    if i :| 0 <= i < |ab| && Named(news, ab[i].desc.name) && Trips(ab[i]) {
      assert ab[i] == if i < |a| then a[i] else b[i - |a|];
    }
  }

  /** An upgrade happens exactly when the state is not at the latest descriptor; unless
      it panics, its variables are those of the latest descriptor, and each is the
      default one except where an old variable of its name carries values over. */
  lemma UpgradeResult(db: Db, s: State)
    requires Sound(db) && Ready(db, s)
    ensures var latest := GetLatest(db, s.desc.name).value;
            && AllKnown(db, latest.vars)
            && var initial := StateFromDefaults(latest, db);
            Upgrade(db, s) == if latest == s.desc then Ok(None)
                              else if UpgradeTrips(db, s) then Err(Panic)
                              else Ok(Some(WithChain(initial, Outcomes(Chain(s), Chain(initial)))))
  {
    hide Sound, Filed, GetLatest, StateFromDefaults, UpgradeVars, Known, VarInv, Outcomes, UpgradeTrips;
    Returned(db, s.desc.name, 0);
    UpgradePanicsIff(db, s);
    var latest := GetLatest(db, s.desc.name).value;
    if latest != s.desc && !UpgradeTrips(db, s) {
      var initial := StateFromDefaults(latest, db);
      DefaultStateInv(db, latest);
      DefaultShape(db, latest);
      ChainDistinct(initial);
      ChainInv(db, s);
      UpgradeVarsAre(db, s.simple, Chain(initial));
      var mid := Outcomes(s.simple, Chain(initial));
      OutcomesDistinct(s.simple, Chain(initial));
      UpgradeVarsAre(db, s.nested, mid);
      OutcomesSplit(s.simple, s.nested, Chain(initial));
    }
  }

  lemma UpgradedIs(db: Db, s: State)
    requires Sound(db) && Ready(db, s) && Upgrade(db, s).Ok? && Upgrade(db, s).value.Some?
    ensures var latest := GetLatest(db, s.desc.name).value;
            && AllKnown(db, latest.vars)
            && var initial := StateFromDefaults(latest, db);
            Upgrade(db, s).value.value == WithChain(initial, Outcomes(Chain(s), Chain(initial)))
  {
    hide Sound, Filed, GetLatest, StateFromDefaults, Upgrade, Known, StateInv, Outcomes, UpgradeTrips, DistinctDescs;
    UpgradeResult(db, s);
  }

  lemma OutcomesDistinct(olds: seq<Variable>, news: seq<Variable>)
    requires Distinct(news)
    ensures Distinct(Outcomes(olds, news))
  {
    hide Outcome;
  }

  lemma OutcomesSplit(a: seq<Variable>, b: seq<Variable>, news: seq<Variable>)
    ensures Outcomes(b, Outcomes(a, news)) == Outcomes(a + b, news)
  {
    hide Outcome;
    forall i | 0 <= i < |news|
      ensures Outcomes(b, Outcomes(a, news))[i] == Outcomes(a + b, news)[i]
    {
      OutcomeSplit(a, b, news[i]);
    }
  }

  /** Each variable of the upgraded state: with an old one of its name that is not at
      its default and has the same type and count, it has the old values; otherwise it
      is the new default.  It is clean, with no hint and no timestamp, in either case. */
  lemma UpgradeKeeps(db: Db, s: State, j: nat)
    requires Sound(db) && Ready(db, s) && Upgrade(db, s).Ok? && Upgrade(db, s).value.Some?
    requires j < |Chain(Upgrade(db, s).value.value)|
    ensures var v := Chain(Upgrade(db, s).value.value)[j];
            && Known(db, v.desc)
            && (forall i :: 0 <= i < |Chain(s)| && Chain(s)[i].desc.name == v.desc.name ==>
                  v == Carried(VarFromDefaults(v.desc, db), Chain(s)[i]))
            && ((forall i :: 0 <= i < |Chain(s)| ==> Chain(s)[i].desc.name != v.desc.name) ==>
                  v == VarFromDefaults(v.desc, db))
            && !v.dirty && v.hint == "" && v.timestamp == ZERO_TIME
  {
    hide Sound, Filed, GetLatest, Upgrade, Known, VarInv, Carried, DefaultValues;
    UpgradedIs(db, s);
    var latest := GetLatest(db, s.desc.name).value;
    var initial := StateFromDefaults(latest, db);
    var v0 := Chain(initial)[j];
    InitialAt(db, latest, j);
    ChainDistinct(s);
    var v := Chain(Upgrade(db, s).value.value)[j];
    assert v == Outcome(Chain(s), v0);
    forall i | 0 <= i < |Chain(s)| && Chain(s)[i].desc.name == v.desc.name
      ensures v == Carried(v0, Chain(s)[i])
    {
      OutcomeOnly(Chain(s), v0, i);
    }
    if forall i :: 0 <= i < |Chain(s)| ==> Chain(s)[i].desc.name != v.desc.name {
      OutcomeOther(Chain(s), v0);
    }
  }

  lemma InitialAt(db: Db, latest: StateDescriptor, j: nat)
    requires Sound(db) && AllKnown(db, latest.vars) && j < |Chain(StateFromDefaults(latest, db))|
    ensures var v := Chain(StateFromDefaults(latest, db))[j]; Known(db, v.desc) && v == VarFromDefaults(v.desc, db)
    ensures var a, b := SimpleDescs(latest.vars), NestedDescs(latest.vars);
            && |Chain(StateFromDefaults(latest, db))| == |a| + |b|
            && Chain(StateFromDefaults(latest, db))[j].desc == if j < |a| then a[j] else b[j - |a|]
  {
    hide Sound, Known, DefaultValues;
    var a, b := SimpleDescs(latest.vars), NestedDescs(latest.vars);
    assert AllKnown(db, a) && AllKnown(db, b);
    if j < |a| {
      assert VarsFromDefaults(a, db)[j] == VarFromDefaults(a[j], db);
    } else {
      assert VarsFromDefaults(b, db)[j - |a|] == VarFromDefaults(b[j - |a|], db);
    }
  }

  /** Upgrading again finds nothing to do. */
  lemma UpgradeTwice(db: Db, s: State)
    requires Sound(db) && Filed(db) && Upgrade(db, s).Ok? && Upgrade(db, s).value.Some?
    ensures Upgrade(db, Upgrade(db, s).value.value) == Ok(None)
  {
    hide Sound, Filed, GetLatest, StateFromDefaults, UpgradeVars;
    Returned(db, s.desc.name, 0);
    DefaultShape(db, GetLatest(db, s.desc.name).value);
    LatestIsLatest(db, s.desc.name);
  }

  // ===== an upgraded state cannot be stored =====

  lemma {:induction false} NoneDirty(env: Env, hint: nat, vars: seq<Variable>, indexed: bool)
    requires forall i :: 0 <= i < |vars| ==> !vars[i].dirty
    ensures DirtyVars(vars) == 0 && WriteVars(env, hint, vars, indexed) == Ok([])
  {
    hide WriteVar, WriteIndex;
    if vars != [] {
      NoneDirty(env, hint, vars[..|vars| - 1], indexed);
    }
  }

  lemma CleanSection(env: Env, hint: nat, vars: seq<Variable>)
    requires forall i :: 0 <= i < |vars| ==> !vars[i].dirty
    ensures WriteSection(env, hint, vars) == WriteSize(hint, 0)
  {
    hide WriteSize, WriteVars, DirtyVars;
    NoneDirty(env, hint, vars, 0 != |vars|);
    if WriteSize(hint, 0).Ok? {
      assert WriteSize(hint, 0).value + [] == WriteSize(hint, 0).value;
    }
  }

  /** Two clean states with one descriptor have one stream form, whatever they hold. */
  lemma CleanAlike(env: Env, a: State, b: State)
    requires a.desc == b.desc && a.flags == b.flags && a.uoid == b.uoid && !IsDirty(a) && !IsDirty(b)
    ensures ToBlob(env, a) == ToBlob(env, b)
  {
    hide SafeString.Write, WriteSize, WriteSection, WriteObject, U16Bytes;
    var hint := |a.desc.vars|;
    CleanSection(env, hint, a.simple);
    CleanSection(env, hint, b.simple);
    CleanSection(env, hint, a.nested);
    CleanSection(env, hint, b.nested);
  }

  /** The old variable's values are carried over and differ from the new default. */
  ghost predicate CarriesAnew(db: Db, v: Variable, d: VarDescriptor)
    requires Sound(db) && Known(db, d)
  {
    && v.desc.name == d.name && v.desc.varType == d.varType && v.desc.count == d.count
    && VarIsDefault(v) == Ok(false) && v.values != DefaultValues(d, db)
  }

  /** Some variable of the state is carried over and differs from the new default. */
  ghost predicate Carries(db: Db, s: State)
    requires Sound(db) && GetLatest(db, s.desc.name).Some?
  {
    Returned(db, s.desc.name, 0);
    var ds := GetLatest(db, s.desc.name).value.vars;
    exists i, j :: 0 <= i < |Chain(s)| && 0 <= j < |ds| && CarriesAnew(db, Chain(s)[i], ds[j])
  }

  /** One variable of the upgraded state is the default one unless it is so carried. */
  lemma CarriedAt(db: Db, s: State, j: nat)
    requires Sound(db) && Ready(db, s) && Upgrade(db, s).Ok? && Upgrade(db, s).value.Some?
    requires j < |Chain(Upgrade(db, s).value.value)|
    ensures var v := Chain(Upgrade(db, s).value.value)[j];
            && Known(db, v.desc)
            && (v == VarFromDefaults(v.desc, db) <==>
                  forall i :: 0 <= i < |Chain(s)| ==> !CarriesAnew(db, Chain(s)[i], v.desc))
  {
    hide Sound, Ready, Upgrade, Known, DefaultValues, VarIsDefault;
    UpgradeKeeps(db, s, j);
    var v := Chain(Upgrade(db, s).value.value)[j];
    if i :| 0 <= i < |Chain(s)| && Chain(s)[i].desc.name == v.desc.name {
      assert v == Carried(VarFromDefaults(v.desc, db), Chain(s)[i]);
      ReadyDistinct(db, s);
      forall k | 0 <= k < |Chain(s)| && k != i
        ensures !CarriesAnew(db, Chain(s)[k], v.desc)
      {
        assert Chain(s)[k].desc.name != Chain(s)[i].desc.name;
      }
    }
  }

  lemma ReadyDistinct(db: Db, s: State)
    requires Sound(db) && Ready(db, s)
    ensures Distinct(Chain(s))
  {
    hide Sound, Filed, Known, VarInv, GetLatest;
    ChainDistinct(s);
  }

  /** The upgraded state is the default one if and only if nothing is carried anew. */
  lemma DefaultIffNothingCarried(db: Db, s: State)
    requires Sound(db) && Ready(db, s) && Upgrade(db, s).Ok? && Upgrade(db, s).value.Some?
    ensures var t := Upgrade(db, s).value.value;
            && AllKnown(db, t.desc.vars) && (t == StateFromDefaults(t.desc, db) <==> !Carries(db, s))
  {
    hide Sound, Known, CarriesAnew, VarFromDefaults, StateInv, Filed, GetLatest, Upgrade;
    UpgradedIs(db, s);
    var t := Upgrade(db, s).value.value;
    var ds := GetLatest(db, s.desc.name).value.vars;
    DefaultShape(db, GetLatest(db, s.desc.name).value);
    var initial := StateFromDefaults(t.desc, db);
    assert t.desc.vars == ds && |Chain(t)| == |Chain(initial)|;
    forall j | 0 <= j < |Chain(t)|
      ensures Chain(t)[j].desc in ds
      ensures Chain(t)[j] == Chain(initial)[j] <==>
              && Known(db, Chain(t)[j].desc)
              && forall i :: 0 <= i < |Chain(s)| ==> !CarriesAnew(db, Chain(s)[i], Chain(t)[j].desc)
    {
      CarriedAt(db, s, j);
      InitialAt(db, t.desc, j);
      InitialIn(db, t.desc, j);
    }
    if t == initial {
      forall i, j | 0 <= i < |Chain(s)| && 0 <= j < |ds|
        ensures !CarriesAnew(db, Chain(s)[i], ds[j])
      {
        var k := InitialHas(db, t.desc, j);
        assert Chain(t)[k].desc == ds[j];
      }
    }
    if !Carries(db, s) {
      assert Chain(t) == Chain(initial);
      assert t == WithChain(initial, Chain(t));
    }
  }

  lemma InitialIn(db: Db, desc: StateDescriptor, j: nat)
    requires Sound(db) && AllKnown(db, desc.vars) && j < |Chain(StateFromDefaults(desc, db))|
    ensures Chain(StateFromDefaults(desc, db))[j].desc in desc.vars
  {
    hide Sound, Known, StateFromDefaults;
    InitialAt(db, desc, j);
    var a, b := SimpleDescs(desc.vars), NestedDescs(desc.vars);
    assert (if j < |a| then a[j] else b[j - |a|]) in desc.vars;
  }

  lemma InitialLength(db: Db, desc: StateDescriptor)
    requires Sound(db) && AllKnown(db, desc.vars)
    ensures |Chain(StateFromDefaults(desc, db))| == |SimpleDescs(desc.vars)| + |NestedDescs(desc.vars)|
  {
    hide Sound, Known;
  }

  lemma InitialHas(db: Db, desc: StateDescriptor, j: nat) returns (k: nat)
    requires Sound(db) && AllKnown(db, desc.vars) && j < |desc.vars|
    ensures k < |Chain(StateFromDefaults(desc, db))| && Chain(StateFromDefaults(desc, db))[k].desc == desc.vars[j]
  {
    hide Sound, Known, StateFromDefaults, SimpleDescs, NestedDescs;
    var a, b := SimpleDescs(desc.vars), NestedDescs(desc.vars);
    SortedAll(desc.vars);
    InitialLength(db, desc);
    if desc.vars[j].varType.StateDesc? {
      var i :| 0 <= i < |b| && b[i] == desc.vars[j];
      k := |a| + i;
    } else {
      k :| 0 <= k < |a| && a[k] == desc.vars[j];
    }
    InitialAt(db, desc, k);
  }

  /** Values are carried over without the dirty flag, so the blob of an upgraded state
      reads back as the defaults: it is the upgraded state if and only if the old state
      has nothing to carry over that differs from a new default. */
  lemma UpgradeLostOnStore(env: Env, db: Db, s: State)
    requires C.Lossless(env.zlib) && Sound(db) && Ready(db, s)
    requires Upgrade(db, s).Ok? && Upgrade(db, s).value.Some?
    requires var t := Upgrade(db, s).value.value;
             SafeString.Survives(t.desc.name, SafeString.AsLatin1) && ToBlob(env, t).Ok?
    ensures var t := Upgrade(db, s).value.value;
            && AllKnown(db, t.desc.vars)
            && FromBlob(env, db, ToBlob(env, t).value) == Ok(StateFromDefaults(t.desc, db))
            && (FromBlob(env, db, ToBlob(env, t).value) == Ok(t) <==> !Carries(db, s))
  {
    hide Sound, C.Lossless, Filed, GetLatest, GetVersion, SafeString.Survives, ToBlob, FromBlob, Upgrade,
      Known, VarInv, VarsFromDefaults, StateStorable, Carries, Unstamped;
    UpgradedIs(db, s);
    var t := Upgrade(db, s).value.value;
    var initial := StateFromDefaults(t.desc, db);
    LatestFiled(db, s.desc.name);
    DefaultStateInv(db, t.desc);
    DefaultShape(db, t.desc);
    AllClean(db, s, t);
    CleanStorable(env, db, t.desc);
    CleanAlike(env, t, initial);
    BlobRoundTrip(env, db, initial);
    DefaultIffNothingCarried(db, s);
  }

  lemma AllClean(db: Db, s: State, t: State)
    requires Sound(db) && Ready(db, s) && Upgrade(db, s) == Ok(Some(t))
    ensures !IsDirty(t)
  {
    hide Sound, Ready, Upgrade;
    forall i | 0 <= i < |t.simple|
      ensures !t.simple[i].dirty
    {
      UpgradeKeeps(db, s, i);
      assert Chain(t)[i] == t.simple[i];
    }
    forall i | 0 <= i < |t.nested|
      ensures !t.nested[i].dirty
    {
      UpgradeKeeps(db, s, |t.simple| + i);
      assert Chain(t)[|t.simple| + i] == t.nested[i];
    }
  }

  lemma CleanStorable(env: Env, db: Db, desc: StateDescriptor)
    requires Sound(db) && AllKnown(db, desc.vars)
    ensures var s := StateFromDefaults(desc, db); StateStorable(env, s) && Unstamped(s) && !IsDirty(s)
  {
    hide Sound, Known, StateFromDefaults;
    var s := StateFromDefaults(desc, db);
    forall i | 0 <= i < |s.simple|
      ensures !s.simple[i].dirty
    {
      InitialAt(db, desc, i);
      assert Chain(s)[i] == s.simple[i];
    }
    forall i | 0 <= i < |s.nested|
      ensures !s.nested[i].dirty
    {
      InitialAt(db, desc, |s.simple| + i);
      assert Chain(s)[|s.simple| + i] == s.nested[i];
    }
  }

  // ===== the source's loop =====

  method UpgradeLoop(db: Db, s: State) returns (r: Result<Option<State>>)
    requires Sound(db)
    ensures r == Upgrade(db, s)
  {
    hide Sound, GetLatest, StateFromDefaults, UpgradeVars;
    var latest := GetLatest(db, s.desc.name);
    if latest.None? {
      return Err(Panic);
    }
    if latest.value == s.desc {
      return Ok(None);
    }
    Returned(db, s.desc.name, 0);
    var initial := StateFromDefaults(latest.value, db);
    var vars := UpgradeVarsLoop(db, s.simple, Chain(initial));
    if vars.Err? {
      return Err(vars.error);
    }
    vars := UpgradeVarsLoop(db, s.nested, vars.value);
    if vars.Err? {
      return Err(vars.error);
    }
    return Ok(Some(WithChain(initial, vars.value)));
  }

  method UpgradeVarsLoop(db: Db, olds: seq<Variable>, news: seq<Variable>) returns (r: Result<seq<Variable>>)
    requires Sound(db)
    ensures r == UpgradeVars(db, olds, news)
  {
    hide Sound, UpgradeVar, FindVar;
    var vars := news;
    for i := 0 to |olds|
      invariant UpgradeVars(db, olds[..i], news) == Ok(vars)
    {
      assert olds[..i + 1][..i] == olds[..i];
      var at := FindVar(vars, olds[i].desc.name);
      if at.Some? {
        var v := UpgradeVar(db, vars[at.value], olds[i]);
        if v.Err? {
          UpgradeVarsStop(db, olds, news, i + 1);
          return Err(v.error);
        }
        vars := vars[at.value := v.value];
      }
    }
    assert olds[..|olds|] == olds;
    return Ok(vars);
  }

  /** The first panic ends the whole loop. */
  lemma {:induction false} UpgradeVarsStop(db: Db, olds: seq<Variable>, news: seq<Variable>, i: nat)
    requires Sound(db) && i <= |olds| && UpgradeVars(db, olds[..i], news).Err?
    ensures UpgradeVars(db, olds, news) == UpgradeVars(db, olds[..i], news)
    decreases |olds|
  {
    hide Sound, UpgradeVar;
    if i == |olds| {
      assert olds[..i] == olds;
    } else {
      assert olds[..|olds| - 1][..i] == olds[..i];
      UpgradeVarsStop(db, olds[..|olds| - 1], news, i);
    }
  }

  // ===== a value that is lost =====

  const LOST_VAR := VarDescriptor("x", Int, Some(1), None)

  function LostDesc(version: u16): StateDescriptor {
    StateDescriptor("t", version, [LOST_VAR])
  }

  function LostDb(): Db {
    map["t" := map[1 := LostDesc(1), 2 := LostDesc(2)]]
  }

  /** A state of the first version whose only variable was set to `value`. */
  function LostState(value: i32): State {
    State(LostDesc(1), [Variable(LOST_VAR, Scalars(Int, [IntValue(value)]), ZERO_TIME, "", true)], [], None, 0)
  }

  lemma LostFold()
    ensures Fold("t") == "t"
  {
    assert Fold("t")[0] == 't';
  }

  lemma LostLatest()
    ensures GetLatest(LostDb(), "t") == Some(LostDesc(2)) && GetVersion(LostDb(), "t", 2) == Some(LostDesc(2))
  {
    LostFold();
    assert LostDb()["t"].Keys == {1, 2};
  }

  lemma LostSound()
    ensures Sound(LostDb()) && Filed(LostDb())
  {
    var db := LostDb();
    LostFold();
    assert forall n, i :: 0 <= i < |LatestVars(db, n)| ==> !LatestVars(db, n)[i].varType.StateDesc?;
    Ranking.RankedAcyclic(References(db), (n: string) => 0);
    forall n, v
      ensures EntryKnown(db, n, v)
    {
    }
  }

  lemma LostSorted()
    ensures SimpleDescs([LOST_VAR]) == [LOST_VAR] && NestedDescs([LOST_VAR]) == []
  {
    assert [LOST_VAR][..0] == [];
  }

  lemma LostNotDefault(value: i32)
    requires value != 0
    ensures VarIsDefault(LostState(value).simple[0]) == Ok(false)
  {
    var v := LostState(value).simple[0];
    assert v.values.elems[0] == IntValue(value);
    assert !ScalarEq(v.values.elems[0], DefaultOf(v.desc));
  }

  lemma LostInv(value: i32)
    requires Sound(LostDb()) && GetLatest(LostDb(), LostState(value).desc.name).Some?
    ensures StateInv(LostDb(), LostState(value)) && !UpgradeTrips(LostDb(), LostState(value))
  {
    hide Sound, GetLatest, SimpleDescs, NestedDescs;
    LostSorted();
    var s := LostState(value);
    assert s.desc.vars == [LOST_VAR] && Known(LostDb(), LOST_VAR);
    assert VarInv(LostDb(), s.simple[0]);
    assert Matches(s.simple, [LOST_VAR]) && Matches(s.nested, []);
  }

  lemma LostReady(value: i32)
    requires value != 0
    ensures Sound(LostDb()) && Ready(LostDb(), LostState(value)) && Carries(LostDb(), LostState(value))
  {
    hide Sound, GetLatest, Filed, StateInv, VarIsDefault;
    var db, s := LostDb(), LostState(value);
    LostSound();
    LostLatest();
    LostInv(value);
    LostNotDefault(value);
    LostDefault(db);
    assert s.simple[0].values.elems[0] == IntValue(value);
    assert Chain(s)[0] == s.simple[0];
    assert CarriesAnew(db, Chain(s)[0], LostDesc(2).vars[0]);
  }

  lemma LostDefault(db: Db)
    requires Sound(db)
    ensures Known(db, LOST_VAR) && DefaultValues(LOST_VAR, db) == Scalars(Int, [IntValue(0)])
  {
    hide Sound;
  }

  /** Any value but zero is carried over by the upgrade and lost when the upgraded state
      is stored. */
  lemma UpgradeLoses(env: Env, value: i32)
    requires C.Lossless(env.zlib) && value != 0
    ensures var db, s := LostDb(), LostState(value);
            && Sound(db) && Upgrade(db, s).Ok? && Upgrade(db, s).value.Some?
            && var t := Upgrade(db, s).value.value;
            && |t.simple| == 1 && t.simple[0].values == Scalars(Int, [IntValue(value)])
            && ToBlob(env, t).Ok? && FromBlob(env, db, ToBlob(env, t).value) != Ok(t)
  {
    hide Sound, GetLatest, GetVersion, Upgrade, Carries, Ready, ToBlob, FromBlob, SafeString.Survives, C.Lossless;
    var db, s := LostDb(), LostState(value);
    LostReady(value);
    LostUpgraded(value);
    var t := Upgrade(db, s).value.value;
    LostLatest();
    LostStored(env, t);
    UpgradeLostOnStore(env, db, s);
  }

  lemma LostUpgraded(value: i32)
    requires value != 0 && Sound(LostDb()) && Ready(LostDb(), LostState(value))
    ensures var db, s := LostDb(), LostState(value);
            && Upgrade(db, s).Ok? && Upgrade(db, s).value.Some?
            && var t := Upgrade(db, s).value.value;
            && t.desc == LostDesc(2) && t.flags == 0 && t.uoid == None && |t.simple| == 1 && t.nested == []
            && !t.simple[0].dirty && t.simple[0].values == Scalars(Int, [IntValue(value)])
  {
    hide Sound, GetLatest, Ready, Upgrade, Known, VarIsDefault, SimpleDescs, NestedDescs, StateFromDefaults;
    var db, s := LostDb(), LostState(value);
    LostLatest();
    LostInv(value);
    ReadyResult(db, s);
    var latest := LostDesc(2);
    LostSorted();
    LostNotDefault(value);
    var t := Upgrade(db, s).value.value;
    LostShape(db, latest);
    UpgradeKeeps(db, s, 0);
    KeptDesc(db, s, 0);
    assert Chain(t)[0] == t.simple[0] && Chain(s)[0] == s.simple[0];
  }

  lemma LostShape(db: Db, desc: StateDescriptor)
    requires Sound(db) && AllKnown(db, desc.vars) && desc.vars == [LOST_VAR]
    ensures var s := StateFromDefaults(desc, db);
            s.desc == desc && s.flags == 0 && s.uoid == None && |s.simple| == 1 && s.nested == []
  {
    hide Sound, Known;
    LostSorted();
  }

  /** The upgraded state has the variables of the default one. */
  lemma KeptDesc(db: Db, s: State, j: nat)
    requires Sound(db) && Ready(db, s) && Upgrade(db, s).Ok? && Upgrade(db, s).value.Some?
    requires j < |Chain(Upgrade(db, s).value.value)|
    ensures AllKnown(db, GetLatest(db, s.desc.name).value.vars)
    ensures var initial := StateFromDefaults(GetLatest(db, s.desc.name).value, db);
            j < |Chain(initial)| && Chain(Upgrade(db, s).value.value)[j].desc == Chain(initial)[j].desc
    ensures var ds := GetLatest(db, s.desc.name).value.vars;
            var a, b := SimpleDescs(ds), NestedDescs(ds);
            |a| + |b| > j && Chain(Upgrade(db, s).value.value)[j].desc == if j < |a| then a[j] else b[j - |a|]
  {
    hide Sound, Known, StateInv, Filed, GetLatest, Upgrade, StateFromDefaults, Outcome, SimpleDescs, NestedDescs,
      DistinctDescs;
    UpgradedIs(db, s);
    InitialAt(db, GetLatest(db, s.desc.name).value, j);
  }

  lemma ReadyResult(db: Db, s: State)
    requires Sound(db) && Ready(db, s) && GetLatest(db, s.desc.name).value != s.desc && !UpgradeTrips(db, s)
    ensures Upgrade(db, s).Ok? && Upgrade(db, s).value.Some?
    ensures AllKnown(db, GetLatest(db, s.desc.name).value.vars)
    ensures var t, initial := Upgrade(db, s).value.value, StateFromDefaults(GetLatest(db, s.desc.name).value, db);
            && t.desc == initial.desc && t.flags == initial.flags && t.uoid == initial.uoid
            && |t.simple| == |initial.simple| && |t.nested| == |initial.nested|
  {
    hide Sound, Known, StateInv, Filed, GetLatest, Upgrade, StateFromDefaults, Outcomes;
    UpgradeResult(db, s);
  }

  lemma LostStored(env: Env, t: State)
    requires t.desc == LostDesc(2) && t.flags == 0 && t.uoid == None && |t.simple| == 1 && t.nested == []
    requires !t.simple[0].dirty
    ensures ToBlob(env, t).Ok? && SafeString.Survives(t.desc.name, SafeString.AsLatin1)
  {
    hide WriteVars, DirtyVars, WriteSection;
    CleanSection(env, |t.desc.vars|, t.simple);
    CleanSection(env, |t.desc.vars|, t.nested);
  }
}
