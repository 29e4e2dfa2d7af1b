/** What holds in every run of the vault from `init_vault` (src/vault/server.rs),
    however the messages of scripts and of sessions interleave. */
module VaultRuns {
  import opened Prim
  import opened VaultNode
  import opened VaultDb
  import opened VaultScripts
  import opened VaultRefs
  import opened VaultWorld
  import opened VaultSessions

  // ===== the initial vault =====

  function InitSystem(): Backend {
    var db := CreateNode(Fresh(), SystemNode()).0;
    CreateNode(db, FolderNode(TYPE_FOLDER, NIL_UUID, 0, GLOBAL_INBOX_FOLDER)).0
  }

  function InitVault(): Backend {
    var db := InitSystem();
    var db' := db.(refs := db.refs + {NodeRef(SYSTEM_ID, SYSTEM_ID + 1, 0)});
    CreateNode(db', FolderNode(TYPE_PLAYER_INFO_LIST, NIL_UUID, 0, ALL_PLAYERS_FOLDER)).0
  }

  function Start(): World {
    World(InitVault(), [], map[])
  }

  /** A new node has the fields it was built with. */
  lemma NewNode(db: Backend, node: Node)
    requires Keyed(db) && Clean(node) && db.nodeIndex + 1 < U32_LIMIT
    ensures var db' := CreateNode(db, node).0;
            && Keyed(db') && db'.nodeIndex == db.nodeIndex + 1 && db'.refs == db.refs && db'.players == db.players
            && db.nodeIndex in db'.vault && Formed(db'.vault[db.nodeIndex])
            && db'.vault[db.nodeIndex].values[NODE_TYPE] == node.values[NODE_TYPE]
            && db'.vault[db.nodeIndex].values[INT32_1] == node.values[INT32_1]
            && forall id :: id in db.vault ==> id in db'.vault && db'.vault[id] == db.vault[id]
  {
    hide Clean;
    CreateKeyed(db, node);
  }

  predicate TypedAt(db: Backend, id: u32, t: i32) {
    id in db.vault && Formed(db.vault[id]) && db.vault[id].values[NODE_TYPE] == Int(t)
  }

  lemma InitSystemOk(fold: string -> string)
    ensures var db := InitSystem();
            && Orderly(fold, db) && Keyed(db) && db.refs == {} && db.nodeIndex == ALL_PLAYERS_ID && db.players == map[]
            && TypedAt(db, SYSTEM_ID, TYPE_SYSTEM) && TypedAt(db, SYSTEM_ID + 1, TYPE_FOLDER)
  {
    hide CreateNode, SystemNode, FolderNode, Formed, Orderly, Keyed;
    FreshOrderly(fold);
    FreshKeyed();
    var n1, n2 := SystemNode(), FolderNode(TYPE_FOLDER, NIL_UUID, 0, GLOBAL_INBOX_FOLDER);
    NewNode(Fresh(), n1);
    CreateOrderly(fold, Fresh(), n1);
    var db1 := CreateNode(Fresh(), n1).0;
    NewNode(db1, n2);
    CreateOrderly(fold, db1, n2);
  }

  lemma FreshKeyed()
    ensures Keyed(Fresh())
  {
  }

  lemma InitVaultOk(fold: string -> string)
    ensures var db := InitVault();
            && Orderly(fold, db) && db.refs == {NodeRef(SYSTEM_ID, SYSTEM_ID + 1, 0)}
            && TypedAt(db, SYSTEM_ID, TYPE_SYSTEM) && TypedAt(db, SYSTEM_ID + 1, TYPE_FOLDER)
            && TypedAt(db, ALL_PLAYERS_ID, TYPE_PLAYER_INFO_LIST) && Holds(db, AllPlayers, ALL_PLAYERS_ID)
            && db.nodeIndex == ALL_PLAYERS_ID + 1 && db.players == map[]
  {
    hide CreateNode, FolderNode, Formed, Orderly, InitSystem, Keyed;
    InitSystemOk(fold);
    var n := FolderNode(TYPE_PLAYER_INFO_LIST, NIL_UUID, 0, ALL_PLAYERS_FOLDER);
    var r := NodeRef(SYSTEM_ID, SYSTEM_ID + 1, 0);
    RefAdded(fold, InitSystem(), r);
    var db := InitSystem().(refs := InitSystem().refs + {r});
    OrderlyKeyed(fold, db);
    NewNode(db, n);
    CreateOrderly(fold, db, n);
  }

  /** No node of the initial vault is a player or an info node. */
  lemma InitEmpty(fold: string -> string, id: u32)
    ensures !Holds(InitVault(), Player, id) && !Holds(InitVault(), Info, id)
  {
    hide InitVault, Formed, NamesDistinct, Backed;
    InitVaultOk(fold);
    var db := InitVault();
    assert id in db.vault ==> id == SYSTEM_ID || id == SYSTEM_ID + 1 || id == ALL_PLAYERS_ID;
  }

  lemma InitOk(fold: string -> string)
    ensures Inv(fold, Start())
  {
    hide Orderly, InitVault;
    InitVaultOk(fold);
    var db := InitVault();
    var r := NodeRef(SYSTEM_ID, SYSTEM_ID + 1, 0);
    assert RefOk(db, r);
    InitEmpty(fold, SYSTEM_ID);
    forall id, p
      ensures LinkedIfOnline(db, id, p)
    {
      InitEmpty(fold, id);
    }
  }

  // ===== runs =====

  /** Worlds that follow each other by events; anything may happen in any order. */
  ghost predicate Follows(fold: string -> string, events: seq<Event>, ws: seq<World>) {
    && |ws| == |events| + 1
    && forall i :: 0 <= i < |events| ==> CanStep(ws[i], events[i]) && ws[i + 1] == Step(fold, ws[i], events[i])
  }

  /** No two selections of one player overlap. */
  ghost predicate Calm(events: seq<Event>, ws: seq<World>)
    requires |ws| == |events| + 1
  {
    forall i :: 0 <= i < |events| ==> !Overlaps(ws[i], events[i])
  }

  /** In every run, whatever overlaps: the vault is in order. */
  lemma {:induction false} RunAllOk(fold: string -> string, events: seq<Event>, ws: seq<World>, n: nat)
    requires Follows(fold, events, ws) && ws[0] == Start() && n < |ws|
    ensures AllOk(fold, ws[n])
    decreases n
  {
    hide Inv, AllOk, Step, CanStep, Start;
    if n == 0 {
      InitOk(fold);
      InvAllOk(fold, ws[0]);
    } else {
      RunAllOk(fold, events, ws, n - 1);
      StepAllOk(fold, ws[n - 1], events[n - 1]);
    }
  }

  lemma InvAllOk(fold: string -> string, w: World)
    requires Inv(fold, w)
    ensures AllOk(fold, w) && SessionsOk(w)
  {
  }

  /** In every run without such an overlap: the sessions are in order as well. */
  lemma {:induction false} RunInv(fold: string -> string, events: seq<Event>, ws: seq<World>, n: nat)
    requires Follows(fold, events, ws) && Calm(events, ws) && Inv(fold, ws[0]) && n < |ws|
    ensures Inv(fold, ws[n])
    decreases n
  {
    hide Inv, Step, CanStep, Overlaps;
    if n > 0 {
      RunInv(fold, events, ws, n - 1);
      StepOk(fold, ws[n - 1], events[n - 1]);
    }
  }

  /** No event is refused for want of a precondition: every run can go on. */
  lemma RunExtends(fold: string -> string, events: seq<Event>, ws: seq<World>, e: Event)
    requires Follows(fold, events, ws) && ws[0] == Start() && EventOk(e)
    ensures CanStep(ws[|events|], e)
  {
    hide VaultOk, FlagsOk, Step, CanStep, Start;
    RunAllOk(fold, events, ws, |events|);
    AllOkCanStep(fold, ws[|events|], e);
  }

  // ===== the graph =====

  function RankById(db: Backend): u32 -> nat {
    (id: u32) => if id in db.vault && Formed(db.vault[id]) then Rank(db.vault[id]) else 0
  }

  /** Every ref of a reachable vault joins two nodes and goes down, so that the query
      for refs ends with the counts that its contract states. */
  lemma GraphDescends(fold: string -> string, w: World)
    requires VaultOk(fold, w)
    ensures forall r :: r in w.db.refs ==> r.parent in w.db.vault && r.child in w.db.vault
    ensures Descends(w.db.refs, RankById(w.db))
  {
    hide Orderly, TasksOk, Holds, Formed;
    forall r | r in w.db.refs
      ensures r.parent in w.db.vault && r.child in w.db.vault && RankById(w.db)(r.child) < RankById(w.db)(r.parent)
    {
      assert RefOk(w.db, r);
    }
  }

  lemma {:induction false} PathDescends(refs: set<NodeRef>, rank: u32 -> nat, start: u32, p: seq<NodeRef>)
    requires Descends(refs, rank) && IsPath(refs, start, p)
    ensures rank(p[|p| - 1].child) < rank(start)
    decreases |p|
  {
    if |p| > 1 {
      PathDescends(refs, rank, p[0].child, p[1..]);
    }
  }

  /** No chain of refs leads back to where it began. */
  lemma NoCycle(fold: string -> string, w: World)
    requires VaultOk(fold, w)
    ensures Acyclic(w.db.refs)
  {
    hide VaultOk, IsPath, Descends, RankById;
    GraphDescends(fold, w);
    forall start, p | IsPath(w.db.refs, start, p)
      ensures !ReturnsTo(p, start)
    {
      PathNotEmpty(w.db.refs, start, p);
      PathDescends(w.db.refs, RankById(w.db), start, p);
    }
  }

  lemma PathNotEmpty(refs: set<NodeRef>, start: u32, p: seq<NodeRef>)
    requires IsPath(refs, start, p)
    ensures p != []
  {
  }

  // ===== a new player's info node =====

  predicate Finished(t: Task) {
    t.code == PlayerScript() && t.pc == |t.code|
  }

  /** Once a player's script is done, the player has exactly one info node: the one the
      script created. */
  lemma InfoFound(fold: string -> string, w: World, i: nat)
    requires VaultOk(fold, w) && i < |w.tasks| && Finished(w.tasks[i])
    ensures var t := w.tasks[i];
            && Player in t.slots && Info in t.slots && Holds(w.db, Player, t.slots[Player])
            && InfoChildren(w.db, t.slots[Player]) == {t.slots[Info]}
  {
    hide Orderly, Graph, PlayerScript, Runnable, Formed, SamePlayer, TracedAt, Suits, IsInfoOf;
    var t := w.tasks[i];
    LinksInfo();
    var k :| 0 <= k < |t.code| && t.code[k] == Link(Player, Info, false);
    assert TaskOk(w.db, t) && LinkedAt(w.db, t, k);
    var p, info := t.slots[Player], t.slots[Info];
    assert Holds(w.db, Player, p);
    assert info in InfoChildren(w.db, p);
    forall id | id in InfoChildren(w.db, p)
      ensures id == info
    {
      InfoUnique(w, p, id, info);
    }
  }

  /** A script's queries always have an answer. */
  lemma QueryAnswered(fold: string -> string, w: World, i: nat)
    requires VaultOk(fold, w) && i < |w.tasks| && Runnable(w.tasks[i]) && w.tasks[i].pc < |w.tasks[i].code|
    requires var instr := w.tasks[i].code[w.tasks[i].pc]; instr.FindSystem? || instr.FindAllPlayers?
    ensures exists choice :: Exec(w.db, w.tasks[i], choice).1.pc == w.tasks[i].pc + 1
  {
    hide Orderly, Graph, TasksOk, Holds, Ready;
    var t := w.tasks[i];
    var choice := if t.code[t.pc].FindSystem? then SYSTEM_ID else ALL_PLAYERS_ID;
    assert Exec(w.db, t, choice).1.pc == t.pc + 1;
  }

  // ===== one holder =====

  /** No two connections hold one player, and a held player is marked online. */
  lemma OneHolder(fold: string -> string, w: World, c: nat, d: nat, p: u32)
    requires Inv(fold, w) && Plays(w, c, p)
    ensures HeldOnline(w.db, p)
    ensures Plays(w, d, p) ==> c == d
  {
    hide AllOk, HeldOnline;
  }

  /** The two connections come to hold one player by going on with their selections. */
  ghost predicate CommitsClash(fold: string -> string, w: World, c: nat, d: nat) {
    && c != d && CanStep(w, Commit(c))
    && var w1 := Step(fold, w, Commit(c));
    && CanStep(w1, Commit(d))
    && var w2 := Step(fold, w1, Commit(d));
    exists p :: Plays(w2, c, p) && Plays(w2, d, p)
  }

  lemma TwoCommits(fold: string -> string, w: World, c: nat, d: nat, p: u32)
    requires AllOk(fold, w) && c != d && Pends(w, c, p) && Pends(w, d, p)
    ensures CommitsClash(fold, w, c, d)
  {
    hide VaultOk, FlagsOk, CanStep, Step;
    AllOkCanStep(fold, w, Commit(c));
    CommitPlays(fold, w, c, p);
    StepAllOk(fold, w, Commit(c));
    var w1 := Step(fold, w, Commit(c));
    AllOkCanStep(fold, w1, Commit(d));
    assert Pends(w1, d, p) && Plays(w1, c, p);
    CommitPlays(fold, w1, d, p);
    var w2 := Step(fold, w1, Commit(d));
    assert Plays(w2, c, p) && Plays(w2, d, p);
  }

  /** A commit makes its connection the holder and leaves the others as they are. */
  lemma CommitPlays(fold: string -> string, w: World, c: nat, p: u32)
    requires AllOk(fold, w) && CanStep(w, Commit(c)) && Pends(w, c, p)
    ensures var w' := Step(fold, w, Commit(c));
            && Plays(w', c, p) && w'.conns.Keys == w.conns.Keys
            && forall d :: d != c && d in w.conns ==> w'.conns[d] == w.conns[d]
  {
    hide AllOk, SetOnline, CanStep, Step;
    CommitIs(fold, w, c);
  }

  /** The exact condition: an event lets two selections clash if and only if it makes
      them overlap. */
  lemma ClashIffOverlap(fold: string -> string, w: World, e: Event)
    requires Inv(fold, w) && CanStep(w, e)
    ensures Overlaps(w, e) <==> exists c, d :: CommitsClash(fold, Step(fold, w, e), c, d)
  {
    hide Inv, AllOk, CanStep, CommitsClash, Overlaps;
    var w' := Step(fold, w, e);
    InvAllOk(fold, w);
    StepAllOk(fold, w, e);
    if Overlaps(w, e) {
      var d, p := OverlapPends(fold, w, e);
      TwoCommits(fold, w', e.conn, d, p);
    } else {
      StepOk(fold, w, e);
      forall c, d
        ensures !CommitsClash(fold, w', c, d)
      {
        CalmCommits(fold, w', c, d);
      }
    }
  }

  lemma OverlapPends(fold: string -> string, w: World, e: Event) returns (d: nat, p: u32)
    requires CanStep(w, e) && Overlaps(w, e)
    ensures e.QueryInfo? && d != e.conn && Pends(Step(fold, w, e), e.conn, p) && Pends(Step(fold, w, e), d, p)
  {
    hide CanStep, InfoChildren, Online, ScriptStep;
    p := w.conns[e.conn].phase.player;
    d :| d != e.conn && Pends(w, d, p);
  }

  lemma CalmCommits(fold: string -> string, w: World, c: nat, d: nat)
    requires Inv(fold, w)
    ensures !CommitsClash(fold, w, c, d)
  {
    hide Inv, CanStep, Step;
    if CommitsClash(fold, w, c, d) {
      var w1 := Step(fold, w, Commit(c));
      StepOk(fold, w, Commit(c));
      StepOk(fold, w1, Commit(d));
      var w2 := Step(fold, w1, Commit(d));
      var p :| Plays(w2, c, p) && Plays(w2, d, p);
      OneHolder(fold, w2, c, d, p);
      assert false;
    }
  }

  // ===== going offline =====

  /** The event by which the holder of the player leaves. */
  predicate Releases(w: World, e: Event, p: u32) {
    e.Leave? && Plays(w, e.conn, p) && w.conns[e.conn].phase.Leaving?
  }

  lemma StaysOnline(fold: string -> string, w: World, e: Event, p: u32)
    requires AllOk(fold, w) && CanStep(w, e) && HeldOnline(w.db, p) && !Releases(w, e, p)
    ensures HeldOnline(Step(fold, w, e).db, p)
  {
    hide VaultOk, FlagsOk, HeldOnline, CanStep, Grows, TasksOk, Step;
    var w' := Step(fold, w, e);
    if OfScript(e) {
      StepAllOk(fold, w, e);
      Parts(fold, w');
      ScriptStepOk(fold, w, e);
      HeldGrows(w, w', p);
    } else if !SetsFlag(w, e) {
      OtherwiseSame(fold, w, e);
    } else if e.Commit? {
      CommitKeeps(fold, w, e.conn, p);
    } else {
      LeaveKeeps(fold, w, e.conn, p);
    }
  }

  lemma CommitKeeps(fold: string -> string, w: World, c: nat, p: u32)
    requires AllOk(fold, w) && CanStep(w, Commit(c)) && HeldOnline(w.db, p) && c in w.conns && w.conns[c].phase.Seen?
    ensures HeldOnline(Step(fold, w, Commit(c)).db, p)
  {
    hide VaultOk, LinkedIfOnline, HeldOnline, CanStep, SetOnline, InfoChildren, TasksOk, Holds, IsInfoOf, Keyed, Step;
    CommitIs(fold, w, c);
    CommitAllOk(fold, w, c);
    var w' := Committed(w, c);
    Parts(fold, w');
    assert PhaseOk(w.db, w.conns[c]);
    var Seen(q, info) := w.conns[c].phase;
    ChildIsInfo(w.db, q, info);
    if p == q {
      NowOnline(w, w', info, p);
    } else {
      OtherHeld(fold, w, w', info, q, p, 1, "Lobby");
    }
  }

  lemma LeaveKeeps(fold: string -> string, w: World, c: nat, p: u32)
    requires AllOk(fold, w) && CanStep(w, Leave(c)) && HeldOnline(w.db, p) && c in w.conns && w.conns[c].phase.Leaving?
    requires !Plays(w, c, p)
    ensures HeldOnline(Step(fold, w, Leave(c)).db, p)
  {
    hide VaultOk, LinkedIfOnline, HeldOnline, CanStep, SetOnline, InfoChildren, TasksOk, Holds, IsInfoOf, Keyed, Step;
    LeaveIs(fold, w, c);
    LeaveAllOk(fold, w, c);
    var w' := Left(w, c);
    Parts(fold, w');
    assert PhaseOk(w.db, w.conns[c]);
    var q := w.conns[c].player.value;
    ChildIsInfo(w.db, q, w.conns[c].phase.info);
    OtherHeld(fold, w, w', w.conns[c].phase.info, q, p, 0, "");
  }

  lemma NowOffline(fold: string -> string, w: World, e: Event, p: u32)
    requires AllOk(fold, w) && CanStep(w, e) && Releases(w, e, p)
    ensures !HeldOnline(Step(fold, w, e).db, p)
  {
    hide VaultOk, LinkedIfOnline, SetOnline, InfoChildren, Holds, IsInfoOf, Online, Evolves, CanStep, Step, Keyed;
    LeaveIs(fold, w, e.conn);
    assert PhaseOk(w.db, w.conns[e.conn]);
    var info := w.conns[e.conn].phase.info;
    var db := Left(w, e.conn).db;
    ChildIsInfo(w.db, p, info);
    FlagEffect(w.db, info, p, 0, "");
    ChildrenKept(w.db, db, p);
    assert info in InfoChildren(db, p) && !Online(db, info);
  }

  /** A player goes offline exactly when the connection that holds it has left, whatever
      overlaps. */
  lemma OfflineIff(fold: string -> string, w: World, e: Event, p: u32)
    requires AllOk(fold, w) && CanStep(w, e) && HeldOnline(w.db, p)
    ensures HeldOnline(Step(fold, w, e).db, p) <==> !Releases(w, e, p)
  {
    hide AllOk, HeldOnline, Step, CanStep, Releases;
    if Releases(w, e, p) {
      NowOffline(fold, w, e, p);
    } else {
      StaysOnline(fold, w, e, p);
    }
  }

  // ===== coming online =====

  /** What was so after a script's message was so before it. */
  lemma OnlineBefore(fold: string -> string, w: World, w': World, p: u32)
    requires AllOk(fold, w) && Grows(w.db, w'.db) && HeldOnline(w'.db, p)
    ensures HeldOnline(w.db, p)
  {
    hide Orderly, TasksOk, Formed, PhaseOk, KeepsAt, Suits;
    var id :| id in InfoChildren(w'.db, p);
    ChildIsInfo(w'.db, p, id);
    InfoIsOnline(w'.db, id, p);
    assert id in w.db.vault;
    KeyedFormed(fold, w.db, id);
    InfoKept(w.db, w'.db, id, p);
    assert LinkedIfOnline(w.db, id, p);
    OnlineIsHeld(fold, w, w', id, p);
  }

  lemma KeyedFormed(fold: string -> string, db: Backend, id: u32)
    requires Orderly(fold, db) && id in db.vault
    ensures Formed(db.vault[id])
  {
    hide NamesDistinct, Backed;
    assert KeyedAt(db, id);
  }

  lemma OnlineIsHeld(fold: string -> string, w: World, w': World, id: u32, p: u32)
    requires VaultOk(fold, w) && Evolves(w.db, w'.db) && Holds(w'.db, Player, p)
    requires id in InfoChildren(w.db, p) && Online(w.db, id)
    ensures HeldOnline(w.db, p)
  {
    hide Orderly, TasksOk, KeepsAt, Online;
    var r :| r in w.db.refs && r.parent == p && r.child == id;
    assert RefOk(w.db, r);
    HoldsBack(w.db, w'.db, Player, p);
    forall other | other in InfoChildren(w.db, p)
      ensures Online(w.db, other)
    {
      InfoUnique(w, p, other, id);
    }
  }

  /** A change of one player's flag puts no other player online. */
  lemma OtherBefore(fold: string -> string, w: World, w': World, info: u32, q: u32, p: u32, online: i32, place: string)
    requires AllOk(fold, w) && Keyed(w.db) && IsInfoOf(w.db, info, q) && p != q
    requires w'.db == SetOnline(w.db, info, online, place) && HeldOnline(w'.db, p)
    ensures HeldOnline(w.db, p)
  {
    hide VaultOk, SetOnline, PhaseOk, Formed, Evolves, Holds, IsInfoOf, Online, LinkedIfOnline, Orderly;
    FlagEffect(w.db, info, q, online, place);
    Parts(fold, w);
    var id :| id in InfoChildren(w'.db, p);
    ChildIsInfo(w'.db, p, id);
    InfoInVault(w'.db, id, p);
    KeyedFormed(fold, w.db, id);
    InfoKept(w.db, w'.db, id, p);
    OtherUntouched(w.db, info, q, id, p, online, place);
    assert LinkedIfOnline(w.db, id, p);
    OnlineLinked(w.db, id, p);
    OnlineIsHeld(fold, w, w', id, p);
  }

  lemma InfoInVault(db: Backend, id: u32, p: u32)
    requires IsInfoOf(db, id, p)
    ensures id in db.vault
  {
  }

  lemma OnlineLinked(db: Backend, id: u32, p: u32)
    requires LinkedIfOnline(db, id, p) && IsInfoOf(db, id, p) && Online(db, id)
    ensures id in InfoChildren(db, p)
  {
  }

  /** A player comes online only by the commit of a selection of it. */
  lemma OnlineOnlyByCommit(fold: string -> string, w: World, e: Event, p: u32)
    requires AllOk(fold, w) && CanStep(w, e) && !HeldOnline(w.db, p) && HeldOnline(Step(fold, w, e).db, p)
    ensures e.Commit? && Pends(w, e.conn, p)
  {
    hide VaultOk, FlagsOk, HeldOnline, CanStep, Grows, Step, Releases;
    if OfScript(e) {
      ScriptStepOk(fold, w, e);
      OnlineBefore(fold, w, Step(fold, w, e), p);
    } else if !SetsFlag(w, e) {
      OtherwiseSame(fold, w, e);
    } else if e.Commit? {
      CommitBefore(fold, w, e.conn, p);
    } else {
      LeaveBefore(fold, w, e.conn, p);
    }
  }

  lemma CommitBefore(fold: string -> string, w: World, c: nat, p: u32)
    requires AllOk(fold, w) && CanStep(w, Commit(c)) && HeldOnline(Step(fold, w, Commit(c)).db, p)
    requires c in w.conns && w.conns[c].phase.Seen?
    ensures w.conns[c].phase.player == p || HeldOnline(w.db, p)
  {
    hide VaultOk, LinkedIfOnline, HeldOnline, CanStep, SetOnline, InfoChildren, Holds, IsInfoOf, Keyed, Step;
    CommitIs(fold, w, c);
    assert PhaseOk(w.db, w.conns[c]);
    var Seen(q, info) := w.conns[c].phase;
    ChildIsInfo(w.db, q, info);
    if q != p {
      OtherBefore(fold, w, Committed(w, c), info, q, p, 1, "Lobby");
    }
  }

  lemma LeaveBefore(fold: string -> string, w: World, c: nat, p: u32)
    requires AllOk(fold, w) && CanStep(w, Leave(c)) && HeldOnline(Step(fold, w, Leave(c)).db, p)
    requires c in w.conns && w.conns[c].phase.Leaving?
    ensures HeldOnline(w.db, p)
  {
    hide VaultOk, LinkedIfOnline, HeldOnline, CanStep, SetOnline, InfoChildren, Holds, IsInfoOf, Keyed, Step;
    LeaveIs(fold, w, c);
    assert PhaseOk(w.db, w.conns[c]);
    var q, info := w.conns[c].player.value, w.conns[c].phase.info;
    ChildIsInfo(w.db, q, info);
    if q == p {
      NowOffline(fold, w, Leave(c), p);
    } else {
      OtherBefore(fold, w, Left(w, c), info, q, p, 0, "");
    }
  }

  // ===== stranded players =====

  /** The player is marked online and no connection holds it. */
  ghost predicate Stranded(w: World, p: u32) {
    HeldOnline(w.db, p) && forall c :: !Plays(w, c, p)
  }

  /** A connection that holds the player completes the selection of another. */
  predicate Reselects(w: World, e: Event, p: u32) {
    e.Commit? && Plays(w, e.conn, p) && w.conns[e.conn].phase.Seen?
  }

  /** Who holds a player changes only by commits and by leaving. */
  lemma PlaysKept(fold: string -> string, w: World, e: Event, c: nat, p: u32)
    requires AllOk(fold, w) && CanStep(w, e) && HeldOnline(w.db, p)
    ensures Plays(Step(fold, w, e), c, p) ==> Plays(w, c, p) || (e == Commit(c) && Pends(w, c, p))
    ensures Plays(w, c, p) ==> Plays(Step(fold, w, e), c, p) || e == Leave(c) || (e == Commit(c) && Reselects(w, e, p))
    ensures Plays(w, c, p) && e == Leave(c) ==> Plays(Step(fold, w, e), c, p) || Releases(w, e, p)
  {
    hide VaultOk, FlagsOk, CanStep, SetOnline, ScriptStep, Online, Holds, Owns, Grows;
    if OfScript(e) {
      ScriptStepOk(fold, w, e);
    }
  }

  /** The player's only holder completes the selection of another. */
  ghost predicate Strands(w: World, e: Event, p: u32) {
    && HeldOnline(w.db, p) && Reselects(w, e, p) && !Pends(w, e.conn, p)
    && forall c :: Plays(w, c, p) ==> c == e.conn
  }

  /** A selection that saw the player offline is completed. */
  predicate Rescues(w: World, e: Event, p: u32) {
    e.Commit? && Pends(w, e.conn, p)
  }

  /** Exactly how a player gets stranded, and how it stops to be, whatever overlaps. */
  lemma StrandedIff(fold: string -> string, w: World, e: Event, p: u32)
    requires AllOk(fold, w) && CanStep(w, e)
    ensures Stranded(Step(fold, w, e), p) <==> Strands(w, e, p) || (Stranded(w, p) && !Rescues(w, e, p))
  {
    hide AllOk, HeldOnline, Step, CanStep, Plays, Pends, Reselects, Releases, Strands;
    if Rescues(w, e, p) {
      CommitPlays(fold, w, e.conn, p);
      NoStrands(w, e, p);
    } else if !HeldOnline(w.db, p) {
      if HeldOnline(Step(fold, w, e).db, p) {
        OnlineOnlyByCommit(fold, w, e, p);
        assert false;
      }
      NoStrands(w, e, p);
    } else if Stranded(w, p) {
      StrandedStays(fold, w, e, p);
    } else if Strands(w, e, p) {
      StrandsNow(fold, w, e, p);
    } else {
      HolderLeft(fold, w, e, p);
    }
  }

  lemma NoStrands(w: World, e: Event, p: u32)
    requires Rescues(w, e, p) || !HeldOnline(w.db, p)
    ensures !Strands(w, e, p)
  {
    hide HeldOnline;
  }

  lemma StrandedStays(fold: string -> string, w: World, e: Event, p: u32)
    requires AllOk(fold, w) && CanStep(w, e) && Stranded(w, p) && !Rescues(w, e, p)
    ensures Stranded(Step(fold, w, e), p)
  {
    hide AllOk, HeldOnline, Step, CanStep, Pends, Reselects;
    StaysOnline(fold, w, e, p);
    forall c
      ensures !Plays(Step(fold, w, e), c, p)
    {
      PlaysKept(fold, w, e, c, p);
    }
  }

  lemma StrandsNow(fold: string -> string, w: World, e: Event, p: u32)
    requires AllOk(fold, w) && CanStep(w, e) && Strands(w, e, p)
    ensures Stranded(Step(fold, w, e), p)
  {
    hide AllOk, HeldOnline, CanStep, Step;
    StaysOnline(fold, w, e, p);
    var q := w.conns[e.conn].phase.player;
    CommitPlays(fold, w, e.conn, q);
    forall c
      ensures !Plays(Step(fold, w, e), c, p)
    {
      PlaysKept(fold, w, e, c, p);
    }
  }

  /** Otherwise an online player keeps a holder or goes offline with one. */
  lemma HolderLeft(fold: string -> string, w: World, e: Event, p: u32)
    requires AllOk(fold, w) && CanStep(w, e) && HeldOnline(w.db, p) && !Stranded(w, p)
    requires !Strands(w, e, p) && !Rescues(w, e, p)
    ensures !Stranded(Step(fold, w, e), p)
  {
    hide AllOk, HeldOnline, Step, CanStep, Releases, Pends;
    OfflineIff(fold, w, e, p);
    var c :| Plays(w, c, p);
    PlaysKept(fold, w, e, c, p);
    if e == Commit(c) && Reselects(w, e, p) {
      var d :| Plays(w, d, p) && d != e.conn;
      PlaysKept(fold, w, e, d, p);
    }
  }

  /** Over every run: a player is stranded exactly when its only holder selected another
      at some earlier step and no older selection of it has been completed since. */
  lemma {:induction false} StrandedRunIff(fold: string -> string, events: seq<Event>, ws: seq<World>, n: nat, p: u32)
    requires Follows(fold, events, ws) && ws[0] == Start() && n < |ws|
    ensures Stranded(ws[n], p) <==> exists k: nat :: StrandsFrom(events, ws, k, n, p)
    decreases n
  {
    hide AllOk, Step, CanStep, Stranded, Strands, Rescues, Start;
    if n == 0 {
      StartStrandsNone(fold, p);
    } else {
      var m := n - 1;
      StrandedRunIff(fold, events, ws, m, p);
      RunAllOk(fold, events, ws, m);
      StrandedIff(fold, ws[m], events[m], p);
      if k: nat :| StrandsFrom(events, ws, k, n, p) {
        assert k < m ==> StrandsFrom(events, ws, k, m, p);
      }
      if Strands(ws[m], events[m], p) {
        assert StrandsFrom(events, ws, m, n, p);
      } else if k: nat :| StrandsFrom(events, ws, k, m, p) {
        assert !Rescues(ws[m], events[m], p) ==> StrandsFrom(events, ws, k, n, p);
      }
    }
  }

  ghost predicate StrandsFrom(events: seq<Event>, ws: seq<World>, k: nat, n: nat, p: u32) {
    && k < n <= |events| < |ws|
    && Strands(ws[k], events[k], p) && forall i :: k < i < n ==> !Rescues(ws[i], events[i], p)
  }

  lemma StartStrandsNone(fold: string -> string, p: u32)
    ensures !Stranded(Start(), p)
  {
    hide InitVault, InfoChildren;
    InitEmpty(fold, p);
  }

  // ===== for ever =====

  lemma VaultCanStep(fold: string -> string, w: World, e: Event)
    requires AllOk(fold, w) && EventOk(e)
    ensures CanStep(w, e)
  {
    hide VaultOk, FlagsOk, CanStep;
    AllOkCanStep(fold, w, e);
  }

  /** While a player is stranded, nobody comes to see it offline. */
  lemma NoneSees(fold: string -> string, w: World, e: Event, c: nat, p: u32)
    requires AllOk(fold, w) && CanStep(w, e) && Stranded(w, p) && !Pends(w, c, p)
    ensures !Pends(Step(fold, w, e), c, p)
  {
    hide VaultOk, FlagsOk, CanStep, SetOnline, ScriptStep, Online, Holds, Owns, Grows, InfoChildren;
    if OfScript(e) {
      ScriptStepOk(fold, w, e);
    }
  }

  ghost predicate NonePends(w: World, p: u32) {
    forall c :: !Pends(w, c, p)
  }

  lemma {:induction false} StrandedRun(fold: string -> string, events: seq<Event>, ws: seq<World>, n: nat, p: u32)
    requires Follows(fold, events, ws) && AllOk(fold, ws[0]) && Stranded(ws[0], p) && NonePends(ws[0], p) && n < |ws|
    ensures AllOk(fold, ws[n]) && Stranded(ws[n], p) && NonePends(ws[n], p)
    decreases n
  {
    hide AllOk, Step, CanStep, Stranded, Pends;
    if n > 0 {
      var w, e := ws[n - 1], events[n - 1];
      StrandedRun(fold, events, ws, n - 1, p);
      StepAllOk(fold, w, e);
      StrandedIff(fold, w, e, p);
      forall c
        ensures !Pends(ws[n], c, p)
      {
        NoneSees(fold, w, e, c, p);
      }
    }
  }

  /** One world comes after another by any events. */
  ghost predicate Comes(fold: string -> string, w: World, w': World) {
    exists events, ws :: Leads(fold, events, ws, w, w')
  }

  ghost predicate Leads(fold: string -> string, events: seq<Event>, ws: seq<World>, w: World, w': World) {
    Follows(fold, events, ws) && ws[0] == w && ws[|events|] == w'
  }

  ghost predicate StrandedInAll(fold: string -> string, w: World, p: u32) {
    forall w' :: Comes(fold, w, w') ==> Stranded(w', p)
  }

  /** A player stays stranded for ever, whatever happens, if and only if it is stranded
      and no connection has seen it offline and has yet to mark it online. */
  lemma StrandedForever(fold: string -> string, w: World, p: u32)
    requires AllOk(fold, w)
    ensures StrandedInAll(fold, w, p) <==> Stranded(w, p) && NonePends(w, p)
  {
    hide AllOk, Step, CanStep, Stranded, Pends;
    if Stranded(w, p) && NonePends(w, p) {
      forall w' | Comes(fold, w, w')
        ensures Stranded(w', p)
      {
        var events, ws :| Leads(fold, events, ws, w, w');
        StrandedRun(fold, events, ws, |events|, p);
      }
    }
    if StrandedInAll(fold, w, p) {
      ComesSelf(fold, w);
      forall c
        ensures !Pends(w, c, p)
      {
        if Pends(w, c, p) {
          PendingEnds(fold, w, c, p);
        }
      }
    }
  }

  lemma ComesSelf(fold: string -> string, w: World)
    ensures Comes(fold, w, w)
  {
    hide CanStep, Step;
    assert Leads(fold, [], [w], w, w);
  }

  lemma PendingEnds(fold: string -> string, w: World, c: nat, p: u32)
    requires AllOk(fold, w) && Pends(w, c, p)
    ensures !StrandedInAll(fold, w, p)
  {
    hide AllOk, Step, CanStep, Stranded, Pends, Strands;
    var e := Commit(c);
    VaultCanStep(fold, w, e);
    NoStrands(w, e, p);
    StrandedIff(fold, w, e, p);
    var w' := Step(fold, w, e);
    assert Leads(fold, [e], [w, w'], w, w');
    assert Comes(fold, w, w');
  }

  // ===== the same in runs without overlap =====

  lemma SeenIsOffline(fold: string -> string, w: World, c: nat, p: u32)
    requires Inv(fold, w) && Pends(w, c, p)
    ensures !HeldOnline(w.db, p)
  {
    hide VaultOk, LinkedIfOnline, InfoChildren, Online, Holds;
    assert PhaseOk(w.db, w.conns[c]);
  }

  /** Then any second selection strands. */
  lemma ReselectStrands(fold: string -> string, w: World, e: Event, p: u32)
    requires Inv(fold, w) && CanStep(w, e)
    ensures Reselects(w, e, p) ==> Strands(w, e, p)
    ensures Stranded(w, p) ==> !Rescues(w, e, p)
  {
    hide Inv, AllOk, SessionsOk, HeldOnline, CanStep, Step, Pends;
    if Reselects(w, e, p) {
      OneHolder(fold, w, e.conn, e.conn, p);
      if Pends(w, e.conn, p) {
        SeenIsOffline(fold, w, e.conn, p);
      }
      forall c | Plays(w, c, p)
        ensures c == e.conn
      {
        OneHolder(fold, w, e.conn, c, p);
      }
    }
    if Rescues(w, e, p) {
      SeenIsOffline(fold, w, e.conn, p);
    }
  }

  /** In runs in which selections of one player do not overlap, a player is stranded
      exactly when a connection that held it selected another at some earlier step. */
  lemma {:induction false} CalmStrandedIff(fold: string -> string, events: seq<Event>, ws: seq<World>, n: nat, p: u32)
    requires Follows(fold, events, ws) && Calm(events, ws) && ws[0] == Start() && n < |ws|
    ensures Stranded(ws[n], p) <==> exists k :: 0 <= k < n && Reselects(ws[k], events[k], p)
    decreases n
  {
    hide Inv, AllOk, Step, CanStep, Overlaps, Stranded, Reselects, Rescues, Start;
    if n == 0 {
      StartStrandsNone(fold, p);
    } else {
      InitOk(fold);
      CalmStrandedIff(fold, events, ws, n - 1, p);
      RunInv(fold, events, ws, n - 1);
      InvAllOk(fold, ws[n - 1]);
      StrandedIff(fold, ws[n - 1], events[n - 1], p);
      ReselectStrands(fold, ws[n - 1], events[n - 1], p);
    }
  }
}
