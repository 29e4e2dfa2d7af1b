/** The graph that the scripts of src/auth_srv/vault_helpers.rs leave in the vault, in
    every run and however their messages interleave. */
module VaultGraph {
  import opened Prim
  import opened VaultNode
  import opened VaultDb
  import opened VaultScripts
  import opened VaultWorld
  import opened VaultSessions
  import opened VaultRuns

  // ===== the invariant =====

  /** The node was made by or for a script; the two that queries find were not. */
  predicate Made(s: Slot) {
    !s.System? && !s.AllPlayers?
  }

  predicate Names(t: Task, s: Slot, id: u32) {
    Made(s) && s in t.slots && t.slots[s] == id
  }

  /** No node has two names. */
  ghost predicate Apart(tasks: seq<Task>) {
    forall i, j, s, u, id ::
      0 <= i < |tasks| && 0 <= j < |tasks| && Names(tasks[i], s, id) && Names(tasks[j], u, id) ==> i == j && s == u
  }

  /** Queries can find only the nodes of the initial vault. */
  ghost predicate Lone(db: Backend) {
    && (forall id :: Holds(db, System, id) ==> id == SYSTEM_ID)
    && (forall id :: Holds(db, AllPlayers, id) ==> id == ALL_PLAYERS_ID)
  }

  predicate CodeOk(t: Task) {
    if Player in t.slots then t.code == PlayerScript() else t.code == AgeScript(false, [])
  }

  /** The instruction is a link, and this is its ref. */
  predicate IsRef(t: Task, x: Instr, r: NodeRef) {
    && x.Link? && x.parent in t.slots && x.child in t.slots
    && r.parent == t.slots[x.parent] && r.child == t.slots[x.child]
    && if x.owned then Player in t.slots && r.owner == t.slots[Player] else r.owner == 0
  }

  /** The instruction has had its effect. */
  ghost predicate Effected(db: Backend, t: Task, x: Instr) {
    match x
    case Create(s) => s in t.slots
    case FindSystem => System in t.slots
    case FindAllPlayers => AllPlayers in t.slots
    case Link(_, _, _) => exists r :: r in db.refs && IsRef(t, x, r)
  }

  ghost predicate Worked(db: Backend, t: Task) {
    forall k :: 0 <= k < t.pc && k < |t.code| ==> Effected(db, t, t.code[k])
  }

  predicate MadeBy(tasks: seq<Task>, i: int, k: int, r: NodeRef) {
    0 <= i < |tasks| && 0 <= k < tasks[i].pc && k < |tasks[i].code| && IsRef(tasks[i], tasks[i].code[k], r)
  }

  /** The ref is of the initial vault or some script's. */
  ghost predicate Traced(tasks: seq<Task>, r: NodeRef) {
    r == NodeRef(SYSTEM_ID, SYSTEM_ID + 1, 0) || exists i, k :: MadeBy(tasks, i, k, r)
  }

  ghost predicate GraphOk(w: World) {
    && Lone(w.db) && Apart(w.tasks)
    && (forall i :: 0 <= i < |w.tasks| ==> CodeOk(w.tasks[i]) && Worked(w.db, w.tasks[i]))
    && (forall r :: r in w.db.refs ==> Traced(w.tasks, r))
  }

  // ===== how a task goes on =====

  predicate Later(t: Task, t': Task) {
    && t'.code == t.code && t.pc <= t'.pc
    && (forall s :: s in t.slots ==> s in t'.slots && t'.slots[s] == t.slots[s])
    && (Player in t'.slots ==> Player in t.slots)
  }

  lemma EffectKept(db: Backend, db': Backend, t: Task, t': Task, x: Instr)
    requires db.refs <= db'.refs && Later(t, t') && Effected(db, t, x)
    ensures Effected(db', t', x)
  {
    if x.Link? {
      var r :| r in db.refs && IsRef(t, x, r);
      assert IsRef(t', x, r);
    }
  }

  lemma WorkedKept(db: Backend, db': Backend, t: Task, t': Task)
    requires db.refs <= db'.refs && Later(t, t') && Worked(db, t) && t'.pc <= t.pc + 1
    requires t.pc < t'.pc && t.pc < |t.code| ==> Effected(db', t', t.code[t.pc])
    ensures Worked(db', t')
  {
    hide Effected, Later;
    forall k | 0 <= k < t'.pc && k < |t'.code|
      ensures Effected(db', t', t'.code[k])
    {
      LaterCode(t, t');
      if k < t.pc {
        EffectKept(db, db', t, t', t.code[k]);
      }
    }
  }

  lemma LaterCode(t: Task, t': Task)
    requires Later(t, t')
    ensures t'.code == t.code
  {
  }

  lemma TracedLater(tasks: seq<Task>, tasks': seq<Task>, r: NodeRef)
    requires |tasks| <= |tasks'| && forall i :: 0 <= i < |tasks| ==> Later(tasks[i], tasks'[i])
    requires Traced(tasks, r)
    ensures Traced(tasks', r)
  {
    if i, k :| MadeBy(tasks, i, k, r) {
      assert Later(tasks[i], tasks'[i]);
      assert MadeBy(tasks', i, k, r);
    }
  }

  lemma LaterSelf(t: Task)
    ensures Later(t, t)
  {
  }

  /** A task that takes over nothing but a new node keeps all names apart. */
  lemma ApartKept(tasks: seq<Task>, i: nat, t': Task, s: Slot, newId: u32)
    requires Apart(tasks) && i < |tasks| && Made(s) && s !in tasks[i].slots
    requires t'.slots == tasks[i].slots[s := newId]
    requires forall j, u :: 0 <= j < |tasks| ==> !Names(tasks[j], u, newId)
    ensures Apart(tasks[i := t'])
  {
    var tasks' := tasks[i := t'];
    forall j, k, u, v, id | 0 <= j < |tasks'| && 0 <= k < |tasks'| && Names(tasks'[j], u, id) && Names(tasks'[k], v, id)
      ensures j == k && u == v
    {
      assert (j == i && u == s) || Names(tasks[j], u, id);
      assert (k == i && v == s) || Names(tasks[k], v, id);
    }
  }

  lemma ApartSame(tasks: seq<Task>, i: nat, t': Task)
    requires Apart(tasks) && i < |tasks|
    requires forall s :: s in t'.slots && Made(s) ==> s in tasks[i].slots && tasks[i].slots[s] == t'.slots[s]
    ensures Apart(tasks[i := t'])
  {
    var tasks' := tasks[i := t'];
    forall j, k, u, v, id | 0 <= j < |tasks'| && 0 <= k < |tasks'| && Names(tasks'[j], u, id) && Names(tasks'[k], v, id)
      ensures j == k && u == v
    {
      assert Names(tasks[j], u, id) && Names(tasks[k], v, id);
    }
  }

  lemma ApartAdded(tasks: seq<Task>, t: Task)
    requires Apart(tasks)
    requires forall j, s, u, id :: 0 <= j < |tasks| && Names(tasks[j], s, id) ==> !Names(t, u, id)
    requires forall s, u, id :: Names(t, s, id) && Names(t, u, id) ==> s == u
    ensures Apart(tasks + [t])
  {
    var tasks' := tasks + [t];
    forall j, k, u, v, id | 0 <= j < |tasks'| && 0 <= k < |tasks'| && Names(tasks'[j], u, id) && Names(tasks'[k], v, id)
      ensures j == k && u == v
    {
      assert j < |tasks| ==> Names(tasks[j], u, id);
      assert k < |tasks| ==> Names(tasks[k], v, id);
    }
  }

  /** What a task names is in the vault. */
  lemma NamedHolds(w: World, i: nat, s: Slot)
    requires TasksOk(w) && i < |w.tasks| && s in w.tasks[i].slots
    ensures Holds(w.db, s, w.tasks[i].slots[s])
  {
    hide Holds, Runnable, IsInfoOf, LinkedAt, SamePlayer, TracedAt;
    assert TaskOk(w.db, w.tasks[i]);
  }

  lemma FreshUnnamed(w: World, newId: u32)
    requires TasksOk(w) && newId !in w.db.vault
    ensures forall j, u :: 0 <= j < |w.tasks| ==> !Names(w.tasks[j], u, newId)
  {
    hide TasksOk, Suits;
    forall j, u | 0 <= j < |w.tasks|
      ensures !Names(w.tasks[j], u, newId)
    {
      if u in w.tasks[j].slots {
        NamedHolds(w, j, u);
      }
    }
  }

  // ===== the two found nodes stay alone =====

  lemma LoneKept(db: Backend, db': Backend)
    requires Lone(db)
    requires forall id :: id in db'.vault ==>
      || (id in db.vault && db'.vault[id] == db.vault[id])
      || (!Holds(db', System, id) && !Holds(db', AllPlayers, id))
    ensures Lone(db')
  {
    hide Suits, Formed;
    forall id
      ensures Holds(db', System, id) ==> Holds(db, System, id)
      ensures Holds(db', AllPlayers, id) ==> Holds(db, AllPlayers, id)
    {
    }
  }

  lemma NoQueryFinds(s: Slot, n: Node)
    requires Formed(n) && Suits(s, n) && (Creatable(s) || s == Player)
    ensures !Suits(System, n) && !Suits(AllPlayers, n)
  {
    hide Creatable;
    CreatableKind(s);
  }

  lemma CreatableKind(s: Slot)
    requires Creatable(s) || s == Player
    ensures SlotType(s) != TYPE_SYSTEM && (SlotType(s) == TYPE_PLAYER_INFO_LIST ==> SlotFolder(s).Some?)
    ensures SlotFolder(s) != Some(ALL_PLAYERS_FOLDER)
  {
  }

  lemma LoneAdded(db: Backend, db': Backend, id: u32, s: Slot)
    requires Lone(db) && Holds(db', s, id) && (Creatable(s) || s == Player)
    requires forall other :: other in db'.vault && other != id ==>
      other in db.vault && db'.vault[other] == db.vault[other]
    ensures Lone(db')
  {
    hide Creatable, Suits;
    NoQueryFinds(s, db'.vault[id]);
    LoneKept(db, db');
  }

  // ===== script events =====

  lemma CreateGraph(fold: string -> string, w: World, i: nat)
    requires VaultOk(fold, w) && GraphOk(w) && i < |w.tasks| && Runnable(w.tasks[i])
    requires w.tasks[i].pc < |w.tasks[i].code| && w.tasks[i].code[w.tasks[i].pc].Create?
    ensures var (db, t') := Exec(w.db, w.tasks[i], 0);
            Lone(db) && Apart(w.tasks[i := t']) && Later(w.tasks[i], t') && Worked(db, t') && db.refs == w.db.refs
  {
    hide Orderly, Graph, Holds, NodeFor, Creatable, CreatorOf, Ready, Clean, Formed, TasksOk, Set, PlayerScript,
      AgeScript, Traced;
    var t := w.tasks[i];
    var s := t.code[t.pc].slot;
    NextReady(t);
    CreatedIsNot(s);
    OrderlyKeyed(fold, w.db);
    CreateNew(w.db, t, s);
    CreatableMade(s);
    var node := NodeFor(t.job, t.slots, s);
    var (db, id) := CreateNode(w.db, node);
    if id.Good? {
      FreshUnnamed(w, id.value);
      ApartKept(w.tasks, i, Filled(t, s, id.value), s, id.value);
      LoneAdded(w.db, db, id.value, s);
      WorkedKept(w.db, db, t, Filled(t, s, id.value));
    } else {
      assert db == w.db && w.tasks[i := t] == w.tasks;
      LaterSelf(t);
    }
  }

  lemma CreatableMade(s: Slot)
    requires Creatable(s)
    ensures Made(s)
  {
  }

  lemma FindGraph(w: World, i: nat, choice: u32)
    requires TasksOk(w) && GraphOk(w) && i < |w.tasks| && Runnable(w.tasks[i]) && w.tasks[i].pc < |w.tasks[i].code|
    requires w.tasks[i].code[w.tasks[i].pc].FindSystem? || w.tasks[i].code[w.tasks[i].pc].FindAllPlayers?
    ensures var (db, t') := Exec(w.db, w.tasks[i], choice);
            db == w.db && Apart(w.tasks[i := t']) && Later(w.tasks[i], t') && Worked(db, t')
  {
    hide Holds, Ready, TasksOk, PlayerScript, AgeScript, Traced;
    var t := w.tasks[i];
    var t' := Exec(w.db, t, choice).1;
    var s := if t.code[t.pc].FindSystem? then System else AllPlayers;
    if s in t.slots {
      NamedHolds(w, i, s);
    }
    assert Later(t, t');
    WorkedKept(w.db, w.db, t, t');
    ApartSame(w.tasks, i, t');
  }

  lemma LinkGraph(w: World, i: nat)
    requires GraphOk(w) && i < |w.tasks| && Runnable(w.tasks[i])
    requires w.tasks[i].pc < |w.tasks[i].code| && w.tasks[i].code[w.tasks[i].pc].Link?
    ensures var (db, t') := Exec(w.db, w.tasks[i], 0);
            && db.vault == w.db.vault && Apart(w.tasks[i := t']) && Later(w.tasks[i], t') && Worked(db, t')
            && w.db.refs <= db.refs
            && forall r :: r in db.refs && r !in w.db.refs ==> MadeBy(w.tasks[i := t'], i, t'.pc - 1, r)
  {
    hide Ready, PlayerScript, AgeScript, Traced, Lone;
    var t := w.tasks[i];
    NextReady(t);
    var (db, t') := Exec(w.db, t, 0);
    var x := t.code[t.pc];
    var r := NodeRef(t.slots[x.parent], t.slots[x.child], if x.owned then t.slots[Player] else 0);
    assert IsRef(t', x, r) && r in db.refs;
    assert Effected(db, t', x);
    assert Later(t, t');
    WorkedKept(w.db, db, t, t');
    ApartSame(w.tasks, i, t');
  }

  lemma AdvanceGraph(fold: string -> string, w: World, i: nat, choice: u32)
    requires VaultOk(fold, w) && GraphOk(w) && i < |w.tasks| && Runnable(w.tasks[i])
    ensures var (db, t') := Exec(w.db, w.tasks[i], choice); GraphOk(World(db, w.tasks[i := t'], w.conns))
  {
    hide VaultOk, Ready, PlayerScript, AgeScript, Traced, Apart, Lone, Worked, Later, Exec, CreateNode, Holds, Made;
    var t := w.tasks[i];
    var (db, t') := Exec(w.db, t, choice);
    ExecChoice(w.db, t, choice);
    Parts(fold, w);
    if t.pc == |t.code| {
      assert w.tasks[i := t'] == w.tasks;
    } else {
      match t.code[t.pc] {
        case Create(_) =>
          CreateGraph(fold, w, i);
          TaskGraph(w, db, i, t');
        case Link(_, _, _) =>
          LinkGraph(w, i);
          LoneSame(w.db, db);
          TaskGraph(w, db, i, t');
        case _ =>
          FindGraph(w, i, choice);
          TaskGraph(w, db, i, t');
      }
    }
  }

  lemma LoneSame(db: Backend, db': Backend)
    requires Lone(db) && db'.vault == db.vault
    ensures Lone(db')
  {
    hide Suits, Formed;
    LoneKept(db, db');
  }

  lemma TaskGraph(w: World, db: Backend, i: nat, t': Task)
    requires GraphOk(w) && i < |w.tasks| && Lone(db) && Apart(w.tasks[i := t']) && Later(w.tasks[i], t')
    requires Worked(db, t') && w.db.refs <= db.refs
    requires forall r :: r in db.refs && r !in w.db.refs ==> MadeBy(w.tasks[i := t'], i, t'.pc - 1, r)
    ensures GraphOk(World(db, w.tasks[i := t'], w.conns))
  {
    hide PlayerScript, AgeScript, Apart, Lone, Made, MadeBy, Effected;
    var tasks := w.tasks[i := t'];
    forall j | 0 <= j < |tasks|
      ensures Later(w.tasks[j], tasks[j]) && CodeOk(tasks[j]) && Worked(db, tasks[j])
    {
      if j != i {
        LaterSelf(w.tasks[j]);
        assert Worked(w.db, w.tasks[j]);
        WorkedMore(w.db, db, w.tasks[j]);
      }
    }
    forall r | r in db.refs
      ensures Traced(tasks, r)
    {
      if r in w.db.refs {
        TracedLater(w.tasks, tasks, r);
      }
    }
  }

  lemma WorkedMore(db: Backend, db': Backend, t: Task)
    requires Worked(db, t) && db.refs <= db'.refs
    ensures Worked(db', t)
  {
    hide Effected;
    forall k | 0 <= k < t.pc && k < |t.code|
      ensures Effected(db', t, t.code[k])
    {
      LaterSelf(t);
      EffectKept(db, db', t, t, t.code[k]);
    }
  }

  lemma AddedGraph(w: World, db: Backend, t: Task)
    requires GraphOk(w) && Lone(db) && db.refs == w.db.refs && CodeOk(t) && t.pc == 0 && Apart(w.tasks + [t])
    ensures GraphOk(World(db, w.tasks + [t], w.conns))
  {
    hide PlayerScript, AgeScript, Apart, Lone, Made, MadeBy, Effected, CodeOk;
    var tasks := w.tasks + [t];
    forall j | 0 <= j < |tasks|
      ensures CodeOk(tasks[j]) && Worked(db, tasks[j])
    {
      if j < |w.tasks| {
        WorkedMore(w.db, db, w.tasks[j]);
      }
    }
    forall i | 0 <= i < |w.tasks|
      ensures Later(w.tasks[i], tasks[i])
    {
      LaterSelf(w.tasks[i]);
    }
    forall r | r in db.refs
      ensures Traced(tasks, r)
    {
      TracedLater(w.tasks, tasks, r);
    }
  }

  lemma StartPlayerGraph(fold: string -> string, w: World, e: Event)
    requires VaultOk(fold, w) && GraphOk(w) && e.StartPlayer? && CanStep(w, e)
    ensures GraphOk(Step(fold, w, e))
  {
    hide VaultOk, Orderly, CreatePlayer, TasksOk, PlayerScript, AgeScript, Lone, Apart, Traced, Worked, Holds, Keyed,
      Grows;
    Parts(fold, w);
    var (db, r) := CreatePlayer(fold, w.db, e.account, e.name, e.shape);
    if r.Good? {
      var t := NewPlayerTask(e, r.value.id);
      PlayerCreated(fold, w.db, e.account, e.name, e.shape);
      OnlyPlayer(fold, w.db, e.account, e.name, e.shape);
      FreshUnnamed(w, r.value.id);
      LoneAdded(w.db, db, r.value.id, Player);
      NewPlayerApart(w, e, r.value.id);
      AddedGraph(w, db, t);
    } else {
      RefusedSame(fold, w.db, e.account, e.name, e.shape);
    }
  }

  lemma NewPlayerApart(w: World, e: Event, id: u32)
    requires e.StartPlayer? && Apart(w.tasks) && forall j, u :: 0 <= j < |w.tasks| ==> !Names(w.tasks[j], u, id)
    ensures Apart(w.tasks + [NewPlayerTask(e, id)])
  {
    hide PlayerScript;
    ApartAdded(w.tasks, NewPlayerTask(e, id));
  }

  lemma OnlyPlayer(fold: string -> string, db: Backend, account: bytes, name: string, shape: string)
    requires Orderly(fold, db) && |account| == 16 && CreatePlayer(fold, db, account, name, shape).1.Good?
    ensures var (db', r) := CreatePlayer(fold, db, account, name, shape);
            forall id :: id in db'.vault && id != r.value.id ==> id in db.vault && db'.vault[id] == db.vault[id]
  {
    hide PlayerNode, Set, NameTaken, NamesDistinct, Backed, Clean;
  }

  lemma StartAgeGraph(fold: string -> string, w: World, e: Event)
    requires GraphOk(w) && e.StartAge? && CanStep(w, e)
    ensures GraphOk(Step(fold, w, e))
  {
    hide PlayerScript, AgeScript, Lone, Apart, Traced, Worked, Holds, Keyed, Runnable;
    NewAgeApart(w, e.age);
    AddedGraph(w, w.db, NewAgeTask(e.age));
  }

  lemma NewAgeApart(w: World, age: Age)
    requires Apart(w.tasks)
    ensures Apart(w.tasks + [NewAgeTask(age)])
  {
    hide AgeScript;
    ApartAdded(w.tasks, NewAgeTask(age));
  }

  // ===== connection events =====

  lemma SameGraph(w: World, w': World)
    requires GraphOk(w) && w'.tasks == w.tasks && w'.db.refs == w.db.refs && Lone(w'.db)
    ensures GraphOk(w')
  {
    hide PlayerScript, AgeScript, Lone, Apart, Traced, Effected;
    forall i | 0 <= i < |w'.tasks|
      ensures Worked(w'.db, w'.tasks[i])
    {
      WorkedMore(w.db, w'.db, w.tasks[i]);
    }
  }

  lemma FlagGraph(w: World, w': World, info: u32, p: u32, online: i32, place: string)
    requires GraphOk(w) && Keyed(w.db) && IsInfoOf(w.db, info, p)
    requires w'.tasks == w.tasks && w'.db == SetOnline(w.db, info, online, place)
    ensures GraphOk(w')
  {
    hide SetOnline, Evolves, GraphOk;
    assert KeyedAt(w.db, info);
    UpdateEvolves(w.db, info, online, place);
    InfoKept(w.db, w'.db, info, p);
    GraphLone(w);
    LoneKept(w.db, w'.db);
    SameGraph(w, w');
  }

  lemma GraphLone(w: World)
    requires GraphOk(w)
    ensures Lone(w.db)
  {
  }

  lemma CommitGraph(fold: string -> string, w: World, c: nat)
    requires AllOk(fold, w) && GraphOk(w) && CanStep(w, Commit(c)) && c in w.conns && w.conns[c].phase.Seen?
    ensures GraphOk(Step(fold, w, Commit(c)))
  {
    hide VaultOk, SetOnline, Step, CanStep, GraphOk, InfoChildren, Holds, LinkedIfOnline, Keyed;
    var k := w.conns[c];
    assert PhaseOk(w.db, k);
    CommitIs(fold, w, c);
    ChildIsInfo(w.db, k.phase.player, k.phase.info);
    FlagGraph(w, Committed(w, c), k.phase.info, k.phase.player, 1, "Lobby");
  }

  lemma LeaveGraph(fold: string -> string, w: World, c: nat)
    requires AllOk(fold, w) && GraphOk(w) && CanStep(w, Leave(c)) && c in w.conns && w.conns[c].phase.Leaving?
    ensures GraphOk(Step(fold, w, Leave(c)))
  {
    hide VaultOk, SetOnline, Step, CanStep, GraphOk, InfoChildren, Holds, LinkedIfOnline, Keyed;
    var k := w.conns[c];
    assert PhaseOk(w.db, k);
    LeaveIs(fold, w, c);
    ChildIsInfo(w.db, k.player.value, k.phase.info);
    FlagGraph(w, Left(w, c), k.phase.info, k.player.value, 0, "");
  }

  lemma ConnGraph(fold: string -> string, w: World, e: Event)
    requires AllOk(fold, w) && GraphOk(w) && !OfScript(e) && CanStep(w, e)
    ensures GraphOk(Step(fold, w, e))
  {
    hide AllOk, Step, CanStep, GraphOk;
    if !SetsFlag(w, e) {
      GraphLone(w);
      SameTasks(fold, w, e);
      OtherwiseSame(fold, w, e);
      SameGraph(w, Step(fold, w, e));
    } else if e.Commit? {
      CommitGraph(fold, w, e.conn);
    } else {
      LeaveGraph(fold, w, e.conn);
    }
  }

  lemma StepGraph(fold: string -> string, w: World, e: Event)
    requires AllOk(fold, w) && GraphOk(w) && CanStep(w, e)
    ensures GraphOk(Step(fold, w, e))
  {
    hide AllOk, GraphOk, Exec, ConnStep, NewAgeTask, NewPlayerTask, CreatePlayer, Runnable, Keyed;
    AllOkVault(fold, w);
    if !OfScript(e) {
      ConnGraph(fold, w, e);
    } else if e.StartPlayer? {
      StartPlayerGraph(fold, w, e);
    } else if e.StartAge? {
      StartAgeGraph(fold, w, e);
    } else if e.task < |w.tasks| {
      AdvanceGraph(fold, w, e.task, e.choice);
    }
  }

  lemma InitLone(fold: string -> string, id: u32)
    ensures Holds(InitVault(), System, id) ==> id == SYSTEM_ID
    ensures Holds(InitVault(), AllPlayers, id) ==> id == ALL_PLAYERS_ID
  {
    hide InitVault, Formed, NamesDistinct, Backed, KeyedAt;
    InitVaultOk(fold);
    var db := InitVault();
    assert id in db.vault ==> id == SYSTEM_ID || id == SYSTEM_ID + 1 || id == ALL_PLAYERS_ID;
  }

  lemma StartGraph(fold: string -> string)
    ensures GraphOk(Start())
  {
    hide InitVault, Holds, Orderly, TypedAt;
    InitVaultOk(fold);
    forall id
      ensures Holds(InitVault(), System, id) ==> id == SYSTEM_ID
      ensures Holds(InitVault(), AllPlayers, id) ==> id == ALL_PLAYERS_ID
    {
      InitLone(fold, id);
    }
  }

  lemma {:induction false} RunGraph(fold: string -> string, events: seq<Event>, ws: seq<World>, n: nat)
    requires Follows(fold, events, ws) && ws[0] == Start() && n < |ws|
    ensures GraphOk(ws[n])
    decreases n
  {
    hide GraphOk, AllOk, Step, CanStep, Start;
    if n == 0 {
      StartGraph(fold);
    } else {
      RunGraph(fold, events, ws, n - 1);
      RunAllOk(fold, events, ws, n - 1);
      StepGraph(fold, ws[n - 1], events[n - 1]);
    }
  }
}
