/** SDL states and their default form: the data types, `from_defaults` and
    `is_default` of src/sdl/state.rs and src/sdl/state_variable.rs. */
module SdlDefaults {
  import opened Prim
  import opened SdlTypes
  import opened SdlValues
  import K = Key
  import Ranking

  datatype State = State(
    desc: StateDescriptor,
    simple: seq<Variable>,
    nested: seq<Variable>,
    uoid: Option<K.Uoid>,
    flags: u16)

  datatype Variable = Variable(
    desc: VarDescriptor,
    values: VarValues,
    timestamp: UnifiedTime,
    hint: string,
    dirty: bool)

  /** The source's enum has one variant per element type; `kind` is its tag. */
  datatype VarValues =
    | TimesOfDay(n: nat)
    | Scalars(kind: VarType, elems: seq<Scalar>)
    | States(states: seq<State>)

  // ===== databases that `from_defaults` can work with =====

  /** The descriptor's default is of the right variant and its reference resolves. */
  predicate Known(db: Db, d: VarDescriptor) {
    TypedDefault(d) && (d.varType.StateDesc? ==> GetLatest(db, d.varType.name).Some?)
  }

  predicate AllKnown(db: Db, ds: seq<VarDescriptor>) {
    forall i :: 0 <= i < |ds| ==> Known(db, ds[i])
  }

  /** The elements that `from_defaults` makes; none when the length is variable. */
  function CountOf(d: VarDescriptor): nat {
    if d.count.None? then 0 else d.count.value
  }

  /** Default states are nested in a default of this variable. */
  predicate Nests(d: VarDescriptor) {
    d.varType.StateDesc? && CountOf(d) > 0
  }

  /** Every state nested in these variables is of a name ranked below `k`. */
  predicate Below(ds: seq<VarDescriptor>, r: map<string, nat>, k: nat) {
    forall i :: 0 <= i < |ds| && Nests(ds[i]) ==>
      Fold(ds[i].varType.name) in r && r[Fold(ds[i].varType.name)] < k
  }

  function LatestVars(db: Db, n: string): seq<VarDescriptor> {
    if n in db && db[n].Keys != {} then db[n][Largest(db[n].Keys)].vars else []
  }

  /** The latest descriptor of this name nests lower ones only. */
  predicate RankedAt(db: Db, r: map<string, nat>, n: string) {
    n in db ==> n in r && Below(LatestVars(db, n), r, r[n])
  }

  ghost predicate Ranks(db: Db, r: map<string, nat>) {
    forall n :: RankedAt(db, r, n)
  }

  predicate EntryKnown(db: Db, n: string, v: u16) {
    n in db && v in db[n] ==> AllKnown(db, db[n][v].vars)
  }

  predicate Refers(db: Db, n: string, m: string) {
    exists i :: 0 <= i < |LatestVars(db, n)| && RefersAt(LatestVars(db, n)[i], m)
  }

  predicate RefersAt(d: VarDescriptor, m: string) {
    Nests(d) && Fold(d.varType.name) == m
  }

  /** Of which name a default of a name's latest descriptor nests states. */
  ghost function References(db: Db): set<(string, string)> {
    set n, m | n in db && m in db && Refers(db, n, m) :: (n, m)
  }

  /** Every descriptor's defaults are of the right variants and its references resolve,
      and default states do not nest in circles.  A circle through a variable of no
      elements, or of variable length, does no harm. */
  ghost predicate Sound(db: Db) {
    (forall n, v :: EntryKnown(db, n, v)) && Ranking.Acyclic(References(db))
  }

  ghost function RankOf(db: Db): (r: map<string, nat>)
    requires Sound(db)
    ensures Ranks(db, r)
  {
    var r := map n | n in db :: Ranking.Rank(References(db), n);
    assert Ranks(db, r) by {
      forall n
        ensures RankedAt(db, r, n)
      {
        RankAt(db, r, n);
      }
    }
    r
  }

  lemma RankAt(db: Db, r: map<string, nat>, n: string)
    requires Sound(db) && r == map n | n in db :: Ranking.Rank(References(db), n)
    ensures RankedAt(db, r, n)
  {
    hide Ranking.Rank, Ranking.Acyclic;
    var ds := LatestVars(db, n);
    forall i | 0 <= i < |ds| && Nests(ds[i])
      ensures Fold(ds[i].varType.name) in r && r[Fold(ds[i].varType.name)] < r[n]
    {
      assert EntryKnown(db, n, Largest(db[n].Keys));
      var m := Fold(ds[i].varType.name);
      assert RefersAt(ds[i], m) && Refers(db, n, m);
      assert (n, m) in References(db);
      Ranking.RankFalls(References(db), n, m);
    }
  }

  ghost function VarRank(db: Db, d: VarDescriptor): nat
    requires Sound(db)
  {
    if Nests(d) && Fold(d.varType.name) in RankOf(db) then RankOf(db)[Fold(d.varType.name)] + 1 else 0
  }

  ghost function MaxRank(db: Db, ds: seq<VarDescriptor>): (k: nat)
    requires Sound(db)
    ensures forall i :: 0 <= i < |ds| ==> VarRank(db, ds[i]) <= k
  {
    if ds == [] then 0
    else
      var a, b := MaxRank(db, ds[..|ds| - 1]), VarRank(db, ds[|ds| - 1]);
      if a < b then b else a
  }

  lemma {:induction false} MaxRankBound(db: Db, ds: seq<VarDescriptor>, k: nat)
    requires Sound(db)
    requires forall i :: 0 <= i < |ds| ==> VarRank(db, ds[i]) <= k
    ensures MaxRank(db, ds) <= k
  {
    if ds != [] {
      MaxRankBound(db, ds[..|ds| - 1], k);
    }
  }

  /** Whatever the database returns is known. */
  lemma Returned(db: Db, name: string, version: u16)
    requires Sound(db)
    ensures GetLatest(db, name).Some? ==> AllKnown(db, GetLatest(db, name).value.vars)
    ensures GetVersion(db, name, version).Some? ==> AllKnown(db, GetVersion(db, name, version).value.vars)
  {
    var n := Fold(name);
    assert EntryKnown(db, n, version);
    if GetLatest(db, name).Some? {
      assert EntryKnown(db, n, Largest(db[n].Keys));
    }
  }

  /** The latest descriptor of a name is known and ranks below what it is nested in. */
  lemma LatestRank(db: Db, d: VarDescriptor)
    requires Sound(db) && Known(db, d) && d.varType.StateDesc?
    ensures var latest := GetLatest(db, d.varType.name).value;
            AllKnown(db, latest.vars) && (Nests(d) ==> MaxRank(db, latest.vars) < VarRank(db, d))
  {
    var n, r := Fold(d.varType.name), RankOf(db);
    var latest := GetLatest(db, d.varType.name).value;
    assert RankedAt(db, r, n) && EntryKnown(db, n, Largest(db[n].Keys));
    forall i | 0 <= i < |latest.vars|
      ensures VarRank(db, latest.vars[i]) <= r[n]
    {
      assert Nests(latest.vars[i]) ==>
          Fold(latest.vars[i].varType.name) in r && r[Fold(latest.vars[i].varType.name)] < r[n];
    }
    MaxRankBound(db, latest.vars, r[n]);
  }

  // ===== from_defaults =====

  function SimpleDescs(ds: seq<VarDescriptor>): (r: seq<VarDescriptor>)
    ensures forall i :: 0 <= i < |r| ==> r[i] in ds && !r[i].varType.StateDesc?
  {
    if ds == [] then []
    else SimpleDescs(ds[..|ds| - 1]) + (var d := ds[|ds| - 1]; if d.varType.StateDesc? then [] else [d])
  }

  function NestedDescs(ds: seq<VarDescriptor>): (r: seq<VarDescriptor>)
    ensures forall i :: 0 <= i < |r| ==> r[i] in ds && r[i].varType.StateDesc?
  {
    if ds == [] then []
    else NestedDescs(ds[..|ds| - 1]) + (var d := ds[|ds| - 1]; if d.varType.StateDesc? then [d] else [])
  }

  /** Sorting loses no descriptor. */
  lemma {:induction false} SortedAll(ds: seq<VarDescriptor>)
    ensures forall i :: 0 <= i < |ds| ==>
      if ds[i].varType.StateDesc? then ds[i] in NestedDescs(ds) else ds[i] in SimpleDescs(ds)
  {
    if ds != [] {
      var init := ds[..|ds| - 1];
      SortedAll(init);
      forall i | 0 <= i < |init|
        ensures if ds[i].varType.StateDesc? then ds[i] in NestedDescs(ds) else ds[i] in SimpleDescs(ds)
      {
        assert ds[i] == init[i];
      }
    }
  }

  function StateFromDefaults(desc: StateDescriptor, db: Db): State
    requires Sound(db) && AllKnown(db, desc.vars)
    decreases MaxRank(db, desc.vars), 3
  {
    MaxRankBound(db, SimpleDescs(desc.vars), MaxRank(db, desc.vars));
    MaxRankBound(db, NestedDescs(desc.vars), MaxRank(db, desc.vars));
    State(desc, VarsFromDefaults(SimpleDescs(desc.vars), db), VarsFromDefaults(NestedDescs(desc.vars), db), None, 0)
  }

  function VarsFromDefaults(ds: seq<VarDescriptor>, db: Db): (r: seq<Variable>)
    requires Sound(db) && AllKnown(db, ds)
    ensures |r| == |ds|
    decreases MaxRank(db, ds), 2
  {
    seq(|ds|, i requires 0 <= i < |ds| => VarFromDefaults(ds[i], db))
  }

  function VarFromDefaults(d: VarDescriptor, db: Db): Variable
    requires Sound(db) && Known(db, d)
    decreases VarRank(db, d), 1
  {
    Variable(d, DefaultValues(d, db), ZERO_TIME, "", false)
  }

  function DefaultValues(d: VarDescriptor, db: Db): VarValues
    requires Sound(db) && Known(db, d)
    decreases VarRank(db, d), 0
  {
    if !d.varType.StateDesc? then SimpleDefaults(d)
    else if CountOf(d) == 0 then States([])
    else
      LatestRank(db, d);
      var initial := StateFromDefaults(GetLatest(db, d.varType.name).value, db);
      States(seq(CountOf(d), _ => initial))
  }

  function SimpleDefaults(d: VarDescriptor): VarValues
    requires TypedDefault(d) && !d.varType.StateDesc?
  {
    if d.varType.AgeTimeOfDay? then TimesOfDay(CountOf(d))
    else Scalars(d.varType, Copies(DefaultOf(d), CountOf(d)))
  }

  /** The default variable, for which no database is needed. */
  function SimpleVar(d: VarDescriptor): Variable
    requires TypedDefault(d) && !d.varType.StateDesc?
  {
    Variable(d, SimpleDefaults(d), ZERO_TIME, "", false)
  }

  function Copies(e: Scalar, n: nat): (r: seq<Scalar>)
    ensures |r| == n && forall i :: 0 <= i < n ==> r[i] == e
  {
    seq(n, _ => e)
  }

  // ===== is_default and is_dirty =====

  predicate IsDirty(s: State) {
    (exists i :: 0 <= i < |s.simple| && s.simple[i].dirty) || (exists i :: 0 <= i < |s.nested| && s.nested[i].dirty)
  }

  /** For a variable that is not a nested state.  The Point3 case looks for the wrong
      variant and panics, whatever the value. */
  function SimpleIsDefault(v: Variable): Result<bool> {
    if v.desc.count.None? then Ok(false)
    else if v.desc.varType.AgeTimeOfDay? then Ok(true)
    else if v.desc.varType.StateDesc? || !TypedDefault(v.desc) then Err(Panic)
    else
      var kind := if v.desc.varType.Point3? then Vector3 else v.desc.varType;
      if v.values.Scalars? && v.values.kind == kind then
        Ok(forall i :: 0 <= i < |v.values.elems| ==> ScalarEq(v.values.elems[i], DefaultOf(v.desc)))
      else Err(Panic)
  }

  function VarIsDefault(v: Variable): Result<bool>
    decreases v, 1
  {
    if v.desc.count.None? || !v.desc.varType.StateDesc? then SimpleIsDefault(v)
    else if v.values.States? then StatesAreDefault(v.values.states) else Err(Panic)
  }

  /** `iter().all(..)` stops at the first element that is not default. */
  function StatesAreDefault(states: seq<State>): Result<bool>
    decreases states, 1
  {
    if states == [] then Ok(true)
    else
      var first :- StateIsDefault(states[0]);
      if first then StatesAreDefault(states[1..]) else Ok(false)
  }

  function VarsAreDefault(vars: seq<Variable>): Result<bool>
    decreases vars, 2
  {
    if vars == [] then Ok(true)
    else
      var first :- VarIsDefault(vars[0]);
      if first then VarsAreDefault(vars[1..]) else Ok(false)
  }

  function StateIsDefault(s: State): Result<bool>
    decreases s, 1
  {
    var simple :- VarsAreDefault(s.simple);
    if simple then VarsAreDefault(s.nested) else Ok(false)
  }
}
