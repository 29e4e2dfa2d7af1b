/** `State::read`, `State::write`, `read_statedesc` and `write_statedesc` as the loops
    of the source, proved to compute the codec's functions.  A state is owned by one
    place at a time in the source, so it is updated here as a value. */
module SdlLoops {
  import opened Prim
  import opened SdlTypes
  import opened SdlValues
  import opened SdlDefaults
  import opened SdlCodec

  // ===== an error in one turn is the error of the whole =====

  lemma {:induction false} WriteVarsStop(env: Env, hint: nat, vars: seq<Variable>, indexed: bool, i: nat)
    requires i <= |vars| && WriteVars(env, hint, vars[..i], indexed).Err?
    ensures WriteVars(env, hint, vars, indexed) == Err(WriteVars(env, hint, vars[..i], indexed).error)
    decreases |vars|
  {
    hide WriteVar, WriteIndex;
    if i == |vars| {
      assert vars[..i] == vars;
    } else {
      assert vars[..|vars| - 1][..i] == vars[..i];
      WriteVarsStop(env, hint, vars[..|vars| - 1], indexed, i);
    }
  }

  lemma {:induction false} WriteStatesStop(env: Env, hint: nat, states: seq<State>, indexed: bool, i: nat)
    requires i <= |states| && WriteStates(env, hint, states[..i], indexed).Err?
    ensures WriteStates(env, hint, states, indexed) == Err(WriteStates(env, hint, states[..i], indexed).error)
    decreases |states|
  {
    hide WriteState, WriteIndex, IsDirty;
    if i == |states| {
      assert states[..i] == states;
    } else {
      assert states[..|states| - 1][..i] == states[..i];
      WriteStatesStop(env, hint, states[..|states| - 1], indexed, i);
    }
  }

  lemma {:induction false} ReadVarsStop(env: Env, db: Db, hint: nat, vars: seq<Variable>, s: bytes, i: nat,
                                        n: nat, indexed: bool)
    requires Sound(db) && i <= n && ReadVars(env, db, hint, vars, s, i, indexed).Fail?
    ensures ReadVars(env, db, hint, vars, s, n, indexed) == Fail(ReadVars(env, db, hint, vars, s, i, indexed).error)
    decreases n
  {
    hide ReadVar, ReadIndex, Sound;
    if i < n {
      ReadVarsStop(env, db, hint, vars, s, i, n - 1, indexed);
    }
  }

  lemma {:induction false} ReadStatesStop(env: Env, db: Db, hint: nat, states: seq<State>, s: bytes, i: nat,
                                          n: nat, indexed: bool)
    requires Sound(db) && i <= n && ReadStates(env, db, hint, states, s, i, indexed).Fail?
    ensures ReadStates(env, db, hint, states, s, n, indexed)
         == Fail(ReadStates(env, db, hint, states, s, i, indexed).error)
    decreases n
  {
    hide ReadState, ReadIndex, Sound;
    if i < n {
      ReadStatesStop(env, db, hint, states, s, i, n - 1, indexed);
    }
  }

  // ===== writing =====

  method CountDirtyVars(vars: seq<Variable>) returns (n: nat)
    ensures n == DirtyVars(vars)
  {
    n := 0;
    for i := 0 to |vars|
      invariant n == DirtyVars(vars[..i])
    {
      assert vars[..i + 1][..i] == vars[..i];
      if vars[i].dirty {
        n := n + 1;
      }
    }
    assert vars[..|vars|] == vars;
  }

  method CountDirtyStates(states: seq<State>) returns (n: nat)
    ensures n == DirtyStates(states)
  {
    hide IsDirty;
    n := 0;
    for i := 0 to |states|
      invariant n == DirtyStates(states[..i])
    {
      assert states[..i + 1][..i] == states[..i];
      if IsDirty(states[i]) {
        n := n + 1;
      }
    }
    assert states[..|states|] == states;
  }

  method WriteVarsLoop(env: Env, hint: nat, vars: seq<Variable>, indexed: bool) returns (r: Result<bytes>)
    ensures r == WriteVars(env, hint, vars, indexed)
  {
    hide WriteVar, WriteIndex;
    var out: bytes := [];
    for i := 0 to |vars|
      invariant WriteVars(env, hint, vars[..i], indexed) == Ok(out)
    {
      assert vars[..i + 1][..i] == vars[..i];
      if vars[i].dirty {
        var index := WriteIndex(hint, indexed, i);
        if index.Err? {
          WriteVarsStop(env, hint, vars, indexed, i + 1);
          return Err(index.error);
        }
        var body := WriteVar(env, vars[i]);
        if body.Err? {
          WriteVarsStop(env, hint, vars, indexed, i + 1);
          return Err(body.error);
        }
        out := out + (index.value + body.value);
      }
    }
    assert vars[..|vars|] == vars;
    return Ok(out);
  }

  method WriteStatesLoop(env: Env, hint: nat, states: seq<State>, indexed: bool) returns (r: Result<bytes>)
    ensures r == WriteStates(env, hint, states, indexed)
  {
    hide WriteState, WriteIndex, IsDirty;
    var out: bytes := [];
    for i := 0 to |states|
      invariant WriteStates(env, hint, states[..i], indexed) == Ok(out)
    {
      assert states[..i + 1][..i] == states[..i];
      if IsDirty(states[i]) {
        var index := WriteIndex(hint, indexed, i);
        if index.Err? {
          WriteStatesStop(env, hint, states, indexed, i + 1);
          return Err(index.error);
        }
        var body := WriteState(env, states[i]);
        if body.Err? {
          WriteStatesStop(env, hint, states, indexed, i + 1);
          return Err(body.error);
        }
        out := out + (index.value + body.value);
      }
    }
    assert states[..|states|] == states;
    return Ok(out);
  }

  method WriteSectionLoop(env: Env, hint: nat, vars: seq<Variable>) returns (r: Result<bytes>)
    ensures r == WriteSection(env, hint, vars)
  {
    hide WriteVars, WriteSize;
    var n := CountDirtyVars(vars);
    var count := WriteSize(hint, n);
    if count.Err? {
      return Err(count.error);
    }
    var body := WriteVarsLoop(env, hint, vars, n != |vars|);
    if body.Err? {
      return Err(body.error);
    }
    return Ok(count.value + body.value);
  }

  method Write(env: Env, s: State) returns (r: Result<bytes>)
    ensures r == WriteState(env, s)
  {
    hide WriteSection, U16Bytes;
    var hint := |s.desc.vars|;
    var simple := WriteSectionLoop(env, hint, s.simple);
    if simple.Err? {
      return Err(simple.error);
    }
    var nested := WriteSectionLoop(env, hint, s.nested);
    if nested.Err? {
      return Err(nested.error);
    }
    return Ok(U16Bytes(s.flags) + [IO_VERSION] + simple.value + nested.value);
  }

  method WriteStatedesc(env: Env, v: Variable) returns (r: Result<bytes>)
    requires v.values.States?
    ensures r == WriteNested(env, v)
  {
    hide WriteStates, WriteSize, U32Bytes;
    var states := v.values.states;
    if |states| >= 0x1_0000_0000 {
      return Err(TooLarge);
    }
    var dirty := CountDirtyStates(states);
    var hint := CountOf(v.desc);
    var count := WriteSize(hint, dirty);
    if count.Err? {
      return Err(count.error);
    }
    var body := WriteStatesLoop(env, hint, states, dirty != |states|);
    if body.Err? {
      return Err(body.error);
    }
    return Ok([0] + (if v.desc.count.None? then U32Bytes(|states|) else []) + count.value + body.value);
  }

  // ===== reading =====

  method ReadSectionLoop(env: Env, db: Db, hint: nat, vars: seq<Variable>, stream: bytes)
      returns (r: Parsed<seq<Variable>>)
    requires Sound(db)
    ensures r == ReadSection(env, db, hint, vars, stream)
  {
    hide ReadVar, ReadIndex, ReadSize, Sound;
    var count := ReadSize(hint, stream);
    if count.Fail? {
      return Fail(count.error);
    }
    var indexed := count.value != |vars|;
    var done, rest := vars, count.rest;
    for i := 0 to count.value
      invariant ReadVars(env, db, hint, vars, count.rest, i, indexed) == Done(done, rest)
    {
      var idx := ReadIndex(hint, indexed, i, rest);
      if idx.Fail? {
        ReadVarsStop(env, db, hint, vars, count.rest, i + 1, count.value, indexed);
        return Fail(idx.error);
      }
      if idx.value >= |done| {
        ReadVarsStop(env, db, hint, vars, count.rest, i + 1, count.value, indexed);
        return Fail(Malformed);
      }
      var v := ReadVar(env, db, done[idx.value], idx.rest);
      if v.Fail? {
        ReadVarsStop(env, db, hint, vars, count.rest, i + 1, count.value, indexed);
        return Fail(v.error);
      }
      done, rest := done[idx.value := v.value], v.rest;
    }
    return Done(done, rest);
  }

  method Read(env: Env, db: Db, s: State, stream: bytes) returns (r: Parsed<State>)
    requires Sound(db)
    ensures r == ReadState(env, db, s, stream)
  {
    hide ReadSection, ReadU16, Sound;
    var flags := ReadU16(stream);
    if flags.Fail? {
      return Fail(flags.error);
    }
    var version := ReadU8(flags.rest);
    if version.Fail? {
      return Fail(version.error);
    }
    if version.value != IO_VERSION {
      return Fail(Malformed);
    }
    var hint := |s.desc.vars|;
    var simple := ReadSectionLoop(env, db, hint, s.simple, version.rest);
    if simple.Fail? {
      return Fail(simple.error);
    }
    var nested := ReadSectionLoop(env, db, hint, s.nested, simple.rest);
    if nested.Fail? {
      return Fail(nested.error);
    }
    return Done(s.(flags := flags.value, simple := simple.value, nested := nested.value), nested.rest);
  }

  method ReadStatedesc(env: Env, db: Db, d: VarDescriptor, latest: StateDescriptor, stream: bytes)
      returns (r: Parsed<seq<State>>)
    requires Sound(db) && d.varType.StateDesc? && GetLatest(db, d.varType.name) == Some(latest)
    ensures r == ReadNested(env, db, d, latest, stream)
  {
    hide ReadState, ReadIndex, ReadSize, ReadCount, Sound, StateFromDefaults, GetLatest, Known;
    var ignored := ReadU8(stream);
    if ignored.Fail? {
      return Fail(ignored.error);
    }
    var total := ReadCount(d, ignored.rest);
    if total.Fail? {
      return Fail(total.error);
    }
    Returned(db, d.varType.name, 0);
    var values := [];
    for i := 0 to total.value
      invariant values == FreshStates(latest, db, i)
    {
      values := values + [StateFromDefaults(latest, db)];
    }
    var hint := CountOf(d);
    var count := ReadSize(hint, total.rest);
    if count.Fail? {
      return Fail(count.error);
    }
    var indexed := count.value != total.value;
    ghost var initial := values;
    var rest := count.rest;
    for i := 0 to count.value
      invariant ReadStates(env, db, hint, initial, count.rest, i, indexed) == Done(values, rest)
    {
      var idx := ReadIndex(hint, indexed, i, rest);
      if idx.Fail? {
        ReadStatesStop(env, db, hint, initial, count.rest, i + 1, count.value, indexed);
        return Fail(idx.error);
      }
      if idx.value >= |values| {
        ReadStatesStop(env, db, hint, initial, count.rest, i + 1, count.value, indexed);
        return Fail(Malformed);
      }
      var state := ReadState(env, db, values[idx.value], idx.rest);
      if state.Fail? {
        ReadStatesStop(env, db, hint, initial, count.rest, i + 1, count.value, indexed);
        return Fail(state.error);
      }
      values, rest := values[idx.value := state.value], state.rest;
    }
    return Done(values, rest);
  }
}
