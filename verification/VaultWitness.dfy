/** Runs that show what can happen: two connections that hold one player, a player that
    is online with nobody holding it, and one that comes to be held again.  All begin
    with the initial vault. */
module VaultWitness {
  import opened Prim
  import opened VaultNode
  import opened VaultDb
  import opened VaultScripts
  import opened VaultWorld
  import opened VaultSessions
  import opened VaultRuns

  // ===== composing runs =====

  /** One world is reached from another by events without overlap. */
  ghost predicate Reaches(fold: string -> string, w: World, w': World) {
    exists events, ws :: Connects(fold, events, ws, w, w')
  }

  ghost predicate Connects(fold: string -> string, events: seq<Event>, ws: seq<World>, w: World, w': World) {
    Follows(fold, events, ws) && Calm(events, ws) && ws[0] == w && ws[|events|] == w'
  }

  lemma ReachSelf(fold: string -> string, w: World)
    ensures Reaches(fold, w, w)
  {
    hide CanStep, Step, Overlaps;
    assert Connects(fold, [], [w], w, w);
  }

  lemma ReachStep(fold: string -> string, w: World, w1: World, e: Event)
    requires Reaches(fold, w, w1) && CanStep(w1, e) && !Overlaps(w1, e)
    ensures Reaches(fold, w, Step(fold, w1, e))
  {
    hide CanStep, Overlaps, Step;
    var events, ws :| Connects(fold, events, ws, w, w1);
    var w2 := Step(fold, w1, e);
    assert Connects(fold, events + [e], ws + [w2], w, w2);
  }

  /** One event after another, from a world in order. */
  lemma Goes(fold: string -> string, w: World, w1: World, e: Event) returns (w2: World)
    requires Reaches(fold, w, w1) && Inv(fold, w1) && EventOk(e) && !Overlaps(w1, e)
    ensures CanStep(w1, e) && w2 == Step(fold, w1, e) && Reaches(fold, w, w2) && Inv(fold, w2)
  {
    hide Inv, AllOk, CanStep, Step, Overlaps, Reaches;
    InvAllOk(fold, w1);
    VaultCanStep(fold, w1, e);
    ReachStep(fold, w, w1, e);
    StepOk(fold, w1, e);
    w2 := Step(fold, w1, e);
  }

  // ===== running a script to its end =====

  predicate SameElse(w: World, w': World, i: nat) {
    && w'.conns == w.conns && |w'.tasks| == |w.tasks| && w'.db.players == w.db.players
    && forall j :: 0 <= j < |w.tasks| && j != i ==> w'.tasks[j] == w.tasks[j]
  }

  /** One message of the script is served. */
  lemma Advances(fold: string -> string, w: World, i: nat) returns (e: Event)
    requires Inv(fold, w) && i < |w.tasks| && w.tasks[i].pc < |w.tasks[i].code| && w.db.nodeIndex + 1 < U32_LIMIT
    ensures e.Advance? && CanStep(w, e) && !Overlaps(w, e)
    ensures var w' := Step(fold, w, e);
            && SameElse(w, w', i) && Grows(w.db, w'.db) && w'.db.nodeIndex <= w.db.nodeIndex + 1
            && w'.tasks[i].code == w.tasks[i].code && w'.tasks[i].pc == w.tasks[i].pc + 1
            && (Player in w.tasks[i].slots ==>
                  Player in w'.tasks[i].slots && w'.tasks[i].slots[Player] == w.tasks[i].slots[Player])
  {
    hide VaultOk, FlagsOk, SessionsOk, Grows, Holds, NodeFor, Ready, Keyed, CreatePlayer, NewPlayerTask, NewAgeTask,
      ConnStep;
    var t := w.tasks[i];
    e := Advance(i, if t.code[t.pc].FindSystem? then SYSTEM_ID else ALL_PLAYERS_ID);
    VaultCanStep(fold, w, e);
    ScriptStepOk(fold, w, e);
    FixedNodes(fold, w);
    NextReady(t);
    if t.code[t.pc].Create? {
      CreateGood(fold, w, t, t.code[t.pc].slot);
    }
  }

  lemma FixedNodes(fold: string -> string, w: World)
    requires VaultOk(fold, w)
    ensures Holds(w.db, System, SYSTEM_ID) && Holds(w.db, AllPlayers, ALL_PLAYERS_ID)
  {
  }

  lemma CreateGood(fold: string -> string, w: World, t: Task, s: Slot)
    requires VaultOk(fold, w) && JobOk(t.job) && Creatable(s) && (CreatorOf(s).Some? ==> CreatorOf(s).value in t.slots)
    requires w.db.nodeIndex + 1 < U32_LIMIT
    ensures var (db, id) := CreateNode(w.db, NodeFor(t.job, t.slots, s));
            id.Good? && db.nodeIndex == w.db.nodeIndex + 1 && db.players == w.db.players
    ensures s != Player
  {
    hide TasksOk, Graph, Holds, NodeFor, Creatable, CreatorOf;
    CreatedIsNot(s);
    CreateKeyed(w.db, NodeFor(t.job, t.slots, s));
  }

  lemma GrowsOn(a: Backend, b: Backend, c: Backend)
    requires Grows(a, b) && Grows(b, c)
    ensures Grows(a, c)
  {
    hide Keeps, Formed;
    forall id
      ensures KeepsAt(a, c, id)
    {
      assert KeepsAt(a, b, id) && KeepsAt(b, c, id);
      KeepsOn(a, b, c, id);
    }
    forall id | id in c.vault && id !in a.vault
      ensures !OnlineInfo(c, id)
    {
      if id in b.vault {
        assert !OnlineInfo(b, id);
      }
    }
  }

  lemma KeepsOn(a: Backend, b: Backend, c: Backend, id: u32)
    requires KeepsAt(a, b, id) && KeepsAt(b, c, id)
    ensures KeepsAt(a, c, id)
  {
    hide Formed;
  }

  /** Left alone, a script comes to its end. */
  lemma {:induction false} Completes(fold: string -> string, w0: World, w: World, i: nat) returns (w': World)
    requires Reaches(fold, w0, w) && Inv(fold, w) && i < |w.tasks| && w.tasks[i].pc <= |w.tasks[i].code|
    requires w.db.nodeIndex + (|w.tasks[i].code| - w.tasks[i].pc) < U32_LIMIT
    ensures Reaches(fold, w0, w') && Inv(fold, w') && SameElse(w, w', i) && Grows(w.db, w'.db)
    ensures w'.db.nodeIndex <= w.db.nodeIndex + (|w.tasks[i].code| - w.tasks[i].pc)
    ensures w'.tasks[i].code == w.tasks[i].code && w'.tasks[i].pc == |w.tasks[i].code|
    ensures Player in w.tasks[i].slots ==>
              Player in w'.tasks[i].slots && w'.tasks[i].slots[Player] == w.tasks[i].slots[Player]
    decreases |w.tasks[i].code| - w.tasks[i].pc
  {
    hide Inv, Reaches, Step, CanStep, Overlaps, Grows;
    if w.tasks[i].pc == |w.tasks[i].code| {
      w' := w;
      InvGrows(fold, w);
    } else {
      var e := Advances(fold, w, i);
      var w1 := Goes(fold, w0, w, e);
      w' := Completes(fold, w0, w1, i);
      GrowsOn(w.db, w1.db, w'.db);
    }
  }

  lemma InvGrows(fold: string -> string, w: World)
    requires Inv(fold, w)
    ensures Grows(w.db, w.db) && Orderly(fold, w.db)
  {
    hide Grows, Orderly, TasksOk, FlagsOk, SessionsOk;
    GrowsSelf(fold, w.db);
  }

  // ===== a player that can be selected =====

  /** The account's player has one info node, and it says offline. */
  predicate Selectable(db: Backend, account: bytes, p: u32, info: u32) {
    Owns(db, Some(account), p) && InfoChildren(db, p) == {info} && !Online(db, info)
  }

  lemma ScriptLength()
    ensures |PlayerScript()| == 58
  {
    hide Creates, Links;
  }

  lemma Created(fold: string -> string, w: World, account: bytes, name: string, uuid: bytes)
    requires Inv(fold, w) && |account| == 16 && |uuid| == 16 && w.db.nodeIndex + 1 < U32_LIMIT
    requires !NameTaken(fold, w.db, name) && |PlayersOf(w.db, account)| < MAX_PLAYERS
    ensures var (db, r) := CreatePlayer(fold, w.db, account, name, "");
            && r == Good(PlayerInfo(w.db.nodeIndex, name, "", 1)) && db.nodeIndex == w.db.nodeIndex + 1
            && db.players == w.db.players[account := PlayersOf(w.db, account) + [r.value]]
            && w.db.nodeIndex !in w.db.vault && Owns(db, Some(account), w.db.nodeIndex)
  {
    hide PlayerNode, NameTaken, FlagsOk, SessionsOk, TasksOk, Graph, Holds, NamesDistinct, Backed, Clean;
    CreateKeyed(w.db, PlayerNode(account, name, "", 1));
    NewPlayerIs(w.db, account, name);
  }

  lemma NewPlayerIs(db: Backend, account: bytes, name: string)
    requires Keyed(db) && |account| == 16 && db.nodeIndex + 1 < U32_LIMIT
    ensures Owns(CreateNode(db, PlayerNode(account, name, "", 1)).0, Some(account), db.nodeIndex)
  {
    hide PlayerNode;
    NewIsPlayer(db, account, name, "");
  }

  /** A new player's script runs to its end; the player can then be selected. */
  lemma NewPlayer(fold: string -> string, w0: World, w: World, account: bytes, name: string)
      returns (w': World, p: u32, info: u32)
    requires Reaches(fold, w0, w) && Inv(fold, w) && |account| == 16 && w.db.nodeIndex + 100 < U32_LIMIT
    requires !NameTaken(fold, w.db, name) && |PlayersOf(w.db, account)| < MAX_PLAYERS
    ensures Reaches(fold, w0, w') && Inv(fold, w') && w'.conns == w.conns && Grows(w.db, w'.db)
    ensures w'.db.nodeIndex <= w.db.nodeIndex + 100 && p !in w.db.vault && Selectable(w'.db, account, p, info)
    ensures w'.db.players == w.db.players[account := PlayersOf(w.db, account) + [PlayerInfo(p, name, "", 1)]]
  {
    hide Inv, Reaches, CanStep, Grows, CreatePlayer, PlayerScript, NameTaken, Selectable, Owns;
    var e := StartPlayer(account, name, "", NIL_UUID, []);
    Created(fold, w, account, name, NIL_UUID);
    var w1 := Goes(fold, w0, w, e);
    p := w.db.nodeIndex;
    var i := |w.tasks|;
    StartGrows(fold, w, e);
    ScriptLength();
    NewTaskPlayer(e, p);
    w' := Completes(fold, w0, w1, i);
    GrowsOn(w.db, w1.db, w'.db);
    info := FinishedSelectable(fold, w, w1, w', i, account, p);
  }

  lemma StartGrows(fold: string -> string, w: World, e: Event)
    requires Inv(fold, w) && CanStep(w, e) && e.StartPlayer?
    ensures Grows(w.db, Step(fold, w, e).db)
  {
    hide VaultOk, FlagsOk, SessionsOk, Grows, CanStep, Step;
    ScriptStepOk(fold, w, e);
  }

  lemma FinishedSelectable(fold: string -> string, w: World, w1: World, w': World, i: nat, account: bytes, p: u32)
      returns (info: u32)
    requires Inv(fold, w) && Inv(fold, w') && Grows(w.db, w'.db) && Grows(w1.db, w'.db) && i < |w'.tasks|
    requires Finished(w'.tasks[i]) && Player in w'.tasks[i].slots && w'.tasks[i].slots[Player] == p
    requires Owns(w1.db, Some(account), p) && p !in w.db.vault
    ensures Selectable(w'.db, account, p, info)
  {
    hide VaultOk, SessionsOk, PhaseOk, Finished, Evolves, Formed;
    InfoFound(fold, w', i);
    info := w'.tasks[i].slots[Info];
    ChildIsInfo(w'.db, p, info);
    if info in w.db.vault {
      assert LinkedIfOnline(w.db, info, p);
      RefsInVault(fold, w, p);
    } else if Online(w'.db, info) {
      InfoIsOnline(w'.db, info, p);
      assert false;
    }
  }

  lemma RefsInVault(fold: string -> string, w: World, p: u32)
    requires VaultOk(fold, w) && p !in w.db.vault
    ensures InfoChildren(w.db, p) == {}
  {
    hide Orderly, TasksOk, Holds;
    forall r | r in w.db.refs
      ensures r.parent != p
    {
      assert RefOk(w.db, r);
    }
  }

  /** It stays so while scripts go on. */
  lemma SelectableGrows(fold: string -> string, w: World, w': World, account: bytes, p: u32, info: u32)
    requires Inv(fold, w') && Grows(w.db, w'.db) && Selectable(w.db, account, p, info)
    ensures Selectable(w'.db, account, p, info)
  {
    hide VaultOk, FlagsOk, SessionsOk, Evolves, Formed, InfoChildren, Holds;
    ChildrenKept(w.db, w'.db, p);
    assert info in InfoChildren(w.db, p);
    ChildIsInfo(w.db, p, info);
    OwnedHolds(w'.db, Some(account), p);
    Parts(fold, w');
    forall id | id in InfoChildren(w'.db, p)
      ensures id == info
    {
      InfoUnique(w', p, id, info);
    }
  }

  /** It stays so when another player comes online. */
  lemma SelectableOther(fold: string -> string, w: World, w': World, account: bytes, q: u32, other: u32, p: u32,
                        info: u32)
    requires VaultOk(fold, w) && TasksOk(w') && Selectable(w.db, account, q, other) && IsInfoOf(w.db, info, p) && p != q
    requires Keyed(w.db) && w'.db == SetOnline(w.db, info, 1, "Lobby")
    ensures Selectable(w'.db, account, q, other)
  {
    hide VaultOk, TasksOk, Evolves, SetOnline, InfoChildren, Holds, Online, IsInfoOf;
    FlagEffect(w.db, info, p, 1, "Lobby");
    assert other in InfoChildren(w.db, q);
    ChildIsInfo(w.db, q, other);
    OtherUntouched(w.db, info, p, other, q, 1, "Lobby");
    NotInfo(w.db, info, p, q);
    ChildrenKept(w.db, w'.db, q);
    OwnedHolds(w'.db, Some(account), q);
    forall id | id in InfoChildren(w'.db, q)
      ensures id == other
    {
      InfoUnique(w', q, id, other);
    }
  }

  lemma NotInfo(db: Backend, info: u32, p: u32, q: u32)
    requires IsInfoOf(db, info, p)
    ensures q in db.vault && Formed(db.vault[q]) && HasType(db.vault[q], TYPE_PLAYER) ==> q != info
  {
  }

  // ===== selecting it =====

  predicate AllIdle(w: World) {
    forall d :: d in w.conns ==> w.conns[d].phase.Idle?
  }

  /** The first two messages of a selection. */
  lemma Sees(fold: string -> string, w0: World, w: World, c: nat, account: bytes, p: u32, info: u32) returns (w': World)
    requires Reaches(fold, w0, w) && Inv(fold, w) && AllIdle(w) && c in w.conns && w.conns[c].account == Some(account)
    requires Selectable(w.db, account, p, info)
    ensures Reaches(fold, w0, w') && Inv(fold, w')
    ensures w' == WithConn(w, c, w.conns[c].(phase := Seen(p, info)))
  {
    hide Inv, Reaches, CanStep, Owns, Online, InfoChildren, ScriptStep;
    var w1 := Goes(fold, w0, w, FetchPlayer(c, p));
    assert w1 == WithConn(w, c, w.conns[c].(phase := Checked(p)));
    assert !Overlaps(w1, QueryInfo(c, info));
    w' := Goes(fold, w0, w1, QueryInfo(c, info));
    assert w'.conns == w.conns[c := w.conns[c].(phase := Seen(p, info))];
  }

  lemma Selects(fold: string -> string, w0: World, w: World, c: nat, account: bytes, p: u32, info: u32)
      returns (w': World)
    requires Reaches(fold, w0, w) && Inv(fold, w) && AllIdle(w) && c in w.conns && w.conns[c].account == Some(account)
    requires Selectable(w.db, account, p, info)
    ensures Reaches(fold, w0, w') && Inv(fold, w') && AllIdle(w') && Plays(w', c, p)
    ensures c in w'.conns && w'.conns[c].account == Some(account)
    ensures Keyed(w.db) && w'.db == SetOnline(w.db, info, 1, "Lobby")
  {
    hide Inv, Reaches, CanStep, SetOnline, Keyed, Selectable, ScriptStep;
    var w1 := Sees(fold, w0, w, c, account, p, info);
    SeenInVault(fold, w1, c);
    w' := Goes(fold, w0, w1, Commit(c));
  }

  lemma SeenInVault(fold: string -> string, w: World, c: nat)
    requires Inv(fold, w) && c in w.conns && w.conns[c].phase.Seen?
    ensures Keyed(w.db) && w.conns[c].phase.info in w.db.vault
  {
    hide VaultOk, FlagsOk, SessionsOk, Keyed;
    Parts(fold, w);
    CommitAllOk(fold, w, c);
  }

  lemma LogsIn(fold: string -> string, w0: World, w: World, c: nat, account: bytes) returns (w': World)
    requires Reaches(fold, w0, w) && Inv(fold, w) && c !in w.conns
    ensures Reaches(fold, w0, w') && Inv(fold, w') && w' == WithConn(w, c, Conn(Some(account), None, Idle))
  {
    hide Inv, Reaches, CanStep, ScriptStep;
    var w1 := Goes(fold, w0, w, Connect(c));
    w' := Goes(fold, w0, w1, Login(c, account));
    assert w'.conns == w.conns[c := Conn(Some(account), None, Idle)];
  }

  lemma FromStart(fold: string -> string, name: string)
    ensures Reaches(fold, Start(), Start()) && Inv(fold, Start()) && Start().db.nodeIndex == ALL_PLAYERS_ID + 1
    ensures Start().conns == map[] && Start().db.players == map[] && !NameTaken(fold, Start().db, name)
  {
    hide InitVault, Inv, Reaches;
    ReachSelf(fold, Start());
    InitOk(fold);
    InitVaultOk(fold);
  }

  // ===== a stranded player can be reached =====

  lemma SecondName(fold: string -> string, db: Backend, account: bytes, p: PlayerInfo, name: string)
    requires db.players == (map[])[account := [p]] && fold(p.name) != fold(name)
    ensures !NameTaken(fold, db, name) && PlayersOf(db, account) == [p]
  {
  }

  /** A run without any overlap, at whose end a player is stranded. */
  lemma StrandedReachable(fold: string -> string, account: bytes, first: string, second: string)
    returns (w: World, p: u32)
    requires |account| == 16 && fold(first) != fold(second)
    ensures Reaches(fold, Start(), w) && Inv(fold, w) && Stranded(w, p)
  {
    hide Inv, Reaches, CanStep, Start, Selectable, Grows, SetOnline, NameTaken, Keyed, Stranded, Step;
    var w0 := Start();
    FromStart(fold, first);
    var w1, p1, info1 := NewPlayer(fold, w0, w0, account, first);
    assert PlayersOf(w0.db, account) + [PlayerInfo(p1, first, "", 1)] == [PlayerInfo(p1, first, "", 1)];
    SecondName(fold, w1.db, account, PlayerInfo(p1, first, "", 1), second);
    var w2, p2, info2 := NewPlayer(fold, w0, w1, account, second);
    SelectableGrows(fold, w1, w2, account, p1, info1);
    SelectableIn(w1.db, account, p1, info1);
    var w3 := LogsIn(fold, w0, w2, 0, account);
    var w4 := Selects(fold, w0, w3, 0, account, p1, info1);
    SelectableNext(fold, w3, w4, account, p2, info2, p1, info1);
    var w5 := Sees(fold, w0, w4, 0, account, p2, info2);
    var e := Commit(0);
    w := Goes(fold, w0, w5, e);
    p := p1;
    assert Reselects(w5, e, p1);
    ReselectStrands(fold, w5, e, p1);
    InvAllOk(fold, w5);
    StrandedIff(fold, w5, e, p1);
  }

  lemma SelectableIn(db: Backend, account: bytes, p: u32, info: u32)
    requires Selectable(db, account, p, info)
    ensures p in db.vault && IsInfoOf(db, info, p)
  {
    hide InfoChildren;
    assert info in InfoChildren(db, p);
    ChildIsInfo(db, p, info);
  }

  lemma SelectableNext(fold: string -> string, w: World, w': World, account: bytes, q: u32, other: u32, p: u32,
                       info: u32)
    requires Inv(fold, w) && Inv(fold, w') && Selectable(w.db, account, q, other) && Selectable(w.db, account, p, info)
    requires p != q && Keyed(w.db) && w'.db == SetOnline(w.db, info, 1, "Lobby")
    ensures Selectable(w'.db, account, q, other)
  {
    hide VaultOk, FlagsOk, SessionsOk, Selectable, SetOnline, Keyed, TasksOk;
    Parts(fold, w');
    SelectableIn(w.db, account, p, info);
    SelectableOther(fold, w, w', account, q, other, p, info);
  }

  // ===== two holders can be reached =====

  ghost predicate TwoHoldersAtEnd(fold: string -> string, events: seq<Event>, ws: seq<World>) {
    && Follows(fold, events, ws) && ws[0] == Start()
    && exists c, d, p :: c != d && Plays(ws[|events|], c, p) && Plays(ws[|events|], d, p)
  }

  lemma ReachThree(fold: string -> string, w: World, e1: Event, e2: Event, e3: Event)
      returns (events: seq<Event>, ws: seq<World>)
    requires Reaches(fold, Start(), w) && CanStep(w, e1) && CanStep(Step(fold, w, e1), e2)
    requires CanStep(Step(fold, Step(fold, w, e1), e2), e3)
    ensures Follows(fold, events, ws) && ws[0] == Start()
    ensures ws[|events|] == Step(fold, Step(fold, Step(fold, w, e1), e2), e3)
  {
    hide CanStep, Step, Start, Overlaps;
    var es, us :| Connects(fold, es, us, Start(), w);
    var w1 := Step(fold, w, e1);
    var w2 := Step(fold, w1, e2);
    events, ws := es + [e1, e2, e3], us + [w1, w2, Step(fold, w2, e3)];
  }

  /** A run in which two selections of one player overlap, and both succeed. */
  lemma TwoHoldersReachable(fold: string -> string, account: bytes, name: string)
    requires |account| == 16
    ensures exists events, ws :: TwoHoldersAtEnd(fold, events, ws)
  {
    hide Inv, AllOk, Reaches, CanStep, Start, Selectable, Grows, NameTaken, Follows, CommitsClash, Step, Overlaps;
    var w0 := Start();
    FromStart(fold, name);
    var w1, p, info := NewPlayer(fold, w0, w0, account, name);
    var w2 := LogsIn(fold, w0, w1, 0, account);
    var w3 := LogsIn(fold, w0, w2, 1, account);
    FetchIsCalm(w3, p);
    var w4 := Goes(fold, w0, w3, FetchPlayer(1, p));
    FetchSameDb(fold, w3, p);
    var w5 := BothSee(fold, w0, w3, w4, account, p, info);
    InvAllOk(fold, w5);
    var e := QueryInfo(1, info);
    VaultCanStep(fold, w5, e);
    SeesToo(fold, w5, account, p, info);
    StepAllOk(fold, w5, e);
    var w6 := Step(fold, w5, e);
    TwoCommits(fold, w6, 0, 1, p);
    ClashIs(fold, w6, 0, 1);
    var events, ws := ReachThree(fold, w5, e, Commit(0), Commit(1));
    assert TwoHoldersAtEnd(fold, events, ws);
  }

  lemma FetchIsCalm(w: World, p: u32)
    ensures !Overlaps(w, FetchPlayer(1, p))
  {
  }

  lemma FetchSameDb(fold: string -> string, w: World, p: u32)
    requires CanStep(w, FetchPlayer(1, p))
    ensures Step(fold, w, FetchPlayer(1, p)).db == w.db
  {
    hide CanStep, Owns, ScriptStep;
  }

  lemma ClashIs(fold: string -> string, w: World, c: nat, d: nat)
    requires CommitsClash(fold, w, c, d)
    ensures CanStep(w, Commit(c)) && CanStep(Step(fold, w, Commit(c)), Commit(d))
    ensures exists p :: Plays(Step(fold, Step(fold, w, Commit(c)), Commit(d)), c, p) &&
                        Plays(Step(fold, Step(fold, w, Commit(c)), Commit(d)), d, p)
  {
    hide CanStep, Step, Plays;
  }

  /** Connection 0 sees the player offline while connection 1 has fetched it. */
  lemma BothSee(fold: string -> string, w0: World, w3: World, w4: World, account: bytes, p: u32, info: u32)
      returns (w5: World)
    requires Reaches(fold, w0, w4) && Inv(fold, w4) && Selectable(w4.db, account, p, info)
    requires CanStep(w3, FetchPlayer(1, p)) && w4 == Step(fold, w3, FetchPlayer(1, p))
    requires w3.conns == (map[])[0 := Conn(Some(account), None, Idle)][1 := Conn(Some(account), None, Idle)]
    ensures Reaches(fold, w0, w5) && Inv(fold, w5) && Selectable(w5.db, account, p, info)
    ensures 1 in w5.conns && w5.conns[1].phase == Checked(p) && Pends(w5, 0, p)
  {
    hide Inv, Reaches, CanStep, Owns, Online, InfoChildren, ScriptStep;
    assert w4.conns[1].phase == Checked(p);
    var w := Goes(fold, w0, w4, FetchPlayer(0, p));
    assert w.conns[0].phase == Checked(p) && w.conns[1].phase == Checked(p);
    assert !Overlaps(w, QueryInfo(0, info));
    w5 := Goes(fold, w0, w, QueryInfo(0, info));
  }

  lemma SeesToo(fold: string -> string, w: World, account: bytes, p: u32, info: u32)
    requires CanStep(w, QueryInfo(1, info)) && Selectable(w.db, account, p, info)
    requires 1 in w.conns && w.conns[1].phase == Checked(p) && Pends(w, 0, p)
    ensures Pends(Step(fold, w, QueryInfo(1, info)), 0, p) && Pends(Step(fold, w, QueryInfo(1, info)), 1, p)
  {
    hide CanStep, Owns, Online, InfoChildren, ScriptStep;
  }

  // ===== a stranded player can be rescued =====

  lemma ReachComes(fold: string -> string, w: World, w': World)
    requires Reaches(fold, w, w')
    ensures Comes(fold, w, w')
  {
    hide CanStep, Step, Overlaps;
    var events, ws :| Connects(fold, events, ws, w, w');
    assert Leads(fold, events, ws, w, w');
  }

  lemma ComesOn(fold: string -> string, w: World, w1: World, e: Event) returns (w2: World)
    requires Comes(fold, w, w1) && AllOk(fold, w1) && EventOk(e)
    ensures CanStep(w1, e) && w2 == Step(fold, w1, e) && Comes(fold, w, w2) && AllOk(fold, w2)
  {
    hide AllOk, CanStep, Step;
    VaultCanStep(fold, w1, e);
    StepAllOk(fold, w1, e);
    w2 := Step(fold, w1, e);
    var events, ws :| Leads(fold, events, ws, w, w1);
    assert Leads(fold, events + [e], ws + [w2], w, w2);
  }

  /** The holder of one player selects another, while a second connection still pends. */
  lemma SelectsOther(fold: string -> string, w0: World, w: World, account: bytes, q: u32, other: u32, p: u32)
      returns (w': World)
    requires Comes(fold, w0, w) && AllOk(fold, w) && Selectable(w.db, account, q, other) && p != q
    requires 0 in w.conns && w.conns[0] == Conn(Some(account), Some(p), Idle) && Pends(w, 1, p)
    requires HeldOnline(w.db, p) && forall c :: Plays(w, c, p) ==> c == 0
    ensures Comes(fold, w0, w') && AllOk(fold, w') && Stranded(w', p) && Pends(w', 1, p)
  {
    hide AllOk, Comes, CanStep, Owns, Online, InfoChildren, ScriptStep, HeldOnline, SetOnline, Keyed;
    var w1 := ComesOn(fold, w0, w, FetchPlayer(0, q));
    assert w1 == WithConn(w, 0, w.conns[0].(phase := Checked(q)));
    var w2 := ComesOn(fold, w0, w1, QueryInfo(0, other));
    assert w2.db == w.db && w2.conns == w.conns[0 := w.conns[0].(phase := Seen(q, other))];
    forall c | Plays(w2, c, p)
      ensures c == 0
    {
      assert c != 0 ==> Plays(w, c, p);
    }
    assert Plays(w2, 0, p) && Reselects(w2, Commit(0), p) && !Pends(w2, 0, p);
    assert Strands(w2, Commit(0), p);
    w' := ComesOn(fold, w0, w2, Commit(0));
    StrandedIff(fold, w2, Commit(0), p);
    CommitPlays(fold, w2, 0, q);
    assert w'.conns[1] == w2.conns[1];
  }

  /** Two connections see the player offline, and the first comes to hold it. */
  lemma FirstOfTwo(fold: string -> string, w0: World, w: World, account: bytes, p: u32, info: u32, q: u32, other: u32)
      returns (w': World)
    requires Reaches(fold, w0, w) && Inv(fold, w) && p != q && Two(w, account, Idle)
    requires Selectable(w.db, account, p, info) && Selectable(w.db, account, q, other)
    ensures Comes(fold, w0, w') && AllOk(fold, w') && Selectable(w'.db, account, q, other)
    ensures 0 in w'.conns && w'.conns[0] == Conn(Some(account), Some(p), Idle) && Pends(w', 1, p)
    ensures HeldOnline(w'.db, p) && forall c :: Plays(w', c, p) ==> c == 0
  {
    hide Inv, AllOk, Comes, Reaches, CanStep, Selectable, HeldOnline, SetOnline, Keyed, Step;
    ReachComes(fold, w0, w);
    InvAllOk(fold, w);
    var w1 := BothPend(fold, w0, w, account, p, info);
    w' := ComesOn(fold, w0, w1, Commit(0));
    CommitIs(fold, w1, 0);
    SelectedOnline(fold, w1, 0, p, info);
    AllOkNext(fold, w1, w', account, q, other, p, info);
  }

  /** There are two connections, of the account, that are at this point. */
  predicate Two(w: World, account: bytes, phase: Phase) {
    w.conns == (map[])[0 := Conn(Some(account), None, phase)][1 := Conn(Some(account), None, phase)]
  }

  lemma BothPend(fold: string -> string, w0: World, w: World, account: bytes, p: u32, info: u32) returns (w': World)
    requires Comes(fold, w0, w) && AllOk(fold, w) && Selectable(w.db, account, p, info) && Two(w, account, Idle)
    ensures Comes(fold, w0, w') && AllOk(fold, w') && w'.db == w.db && Two(w', account, Seen(p, info))
  {
    hide AllOk, Comes, CanStep, Owns, Online, InfoChildren, ScriptStep;
    var w1 := ComesOn(fold, w0, w, FetchPlayer(0, p));
    assert w1 == WithConn(w, 0, w.conns[0].(phase := Checked(p)));
    var w2 := ComesOn(fold, w0, w1, FetchPlayer(1, p));
    assert w2 == WithConn(w1, 1, w.conns[1].(phase := Checked(p)));
    var w3 := ComesOn(fold, w0, w2, QueryInfo(0, info));
    assert w3 == WithConn(w2, 0, w.conns[0].(phase := Seen(p, info)));
    w' := ComesOn(fold, w0, w3, QueryInfo(1, info));
    assert w' == WithConn(w3, 1, w.conns[1].(phase := Seen(p, info)));
  }

  lemma SelectedOnline(fold: string -> string, w: World, c: nat, p: u32, info: u32)
    requires AllOk(fold, w) && c in w.conns && w.conns[c].phase == Seen(p, info) && Keyed(w.db)
    ensures HeldOnline(Committed(w, c).db, p)
  {
    hide VaultOk, LinkedIfOnline, HeldOnline, SetOnline, InfoChildren, TasksOk, Holds, IsInfoOf, Keyed;
    CommitAllOk(fold, w, c);
    Parts(fold, Committed(w, c));
    assert PhaseOk(w.db, w.conns[c]);
    ChildIsInfo(w.db, p, info);
    NowOnline(w, Committed(w, c), info, p);
  }

  lemma AllOkNext(fold: string -> string, w: World, w': World, account: bytes, q: u32, other: u32, p: u32, info: u32)
    requires AllOk(fold, w) && AllOk(fold, w') && Selectable(w.db, account, q, other)
    requires Selectable(w.db, account, p, info)
    requires p != q && Keyed(w.db) && w'.db == SetOnline(w.db, info, 1, "Lobby")
    ensures Selectable(w'.db, account, q, other)
  {
    hide VaultOk, FlagsOk, Selectable, SetOnline, Keyed, TasksOk;
    Parts(fold, w');
    SelectableIn(w.db, account, p, info);
    SelectableOther(fold, w, w', account, q, other, p, info);
  }

  /** A run in which a player is stranded and then held again, by a selection that had
      overlapped the first. */
  lemma RescueReachable(fold: string -> string, account: bytes, first: string, second: string)
      returns (w: World, w': World, p: u32)
    requires |account| == 16 && fold(first) != fold(second)
    ensures Comes(fold, Start(), w) && CanStep(w, Commit(1)) && w' == Step(fold, w, Commit(1))
    ensures Stranded(w, p) && Plays(w', 1, p)
  {
    hide Inv, AllOk, Reaches, Comes, CanStep, Start, Selectable, Grows, NameTaken, Stranded, Step, HeldOnline;
    var w0 := Start();
    FromStart(fold, first);
    var w1, p1, info1 := NewPlayer(fold, w0, w0, account, first);
    assert PlayersOf(w0.db, account) + [PlayerInfo(p1, first, "", 1)] == [PlayerInfo(p1, first, "", 1)];
    SecondName(fold, w1.db, account, PlayerInfo(p1, first, "", 1), second);
    var w2, p2, info2 := NewPlayer(fold, w0, w1, account, second);
    SelectableGrows(fold, w1, w2, account, p1, info1);
    SelectableIn(w1.db, account, p1, info1);
    var w3 := LogsIn(fold, w0, w2, 0, account);
    var w4 := LogsIn(fold, w0, w3, 1, account);
    var w5 := FirstOfTwo(fold, w0, w4, account, p1, info1, p2, info2);
    p := p1;
    w := SelectsOther(fold, w0, w5, account, p2, info2, p);
    w' := ComesOn(fold, w0, w, Commit(1));
    CommitPlays(fold, w, 1, p);
  }
}
