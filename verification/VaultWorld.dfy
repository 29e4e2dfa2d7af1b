/** Many connections at work on one vault: any number of player and age scripts
    (src/auth_srv/vault_helpers.rs) and sessions (src/auth_srv/server.rs), whose
    messages the vault task (src/vault/server.rs) serves in any order. */
module VaultWorld {
  import opened Prim
  import opened Text
  import opened VaultNode
  import opened VaultDb
  import opened VaultScripts

  // ===== tasks =====

  datatype Job = Job(account: bytes, name: string, age: Age)

  predicate JobOk(job: Job) {
    |job.account| == 16 && |job.age.uuid| == 16 && |job.age.parent| == 16
  }

  function PlayerJob(account: bytes, name: string, uuid: bytes, sdl: bytes): Job {
    Job(account, name, Age(uuid, NIL_UUID, "Personal", "Relto", name + "'s", name + "'s Relto", 0, -1, false, sdl))
  }

  /** A script in progress: the next instruction and the nodes found so far. */
  datatype Task = Task(job: Job, code: seq<Instr>, pc: nat, slots: map<Slot, u32>)

  predicate IsLink(s: Slot) {
    s.ReltoLink? || s.HoodLink? || s.CityLink?
  }

  lemma SlotFacts(s: Slot)
    requires Creatable(s)
    ensures s == Info ==> CreatorOf(s) == Some(Player)
    ensures SlotFolder(s).None? ==> s.Info? || IsLink(s) || s.AgeSlot? || s.AgeInfo? || s.AgeSdl?
  {
    assert PLAYER_SLOTS[0] == Info;
  }

  function LinkText(city: bool): bytes {
    Latin1(if city then "Ferry Terminal:LinkInPointFerry:;" else "Default:LinkInPointDefault:;")
  }

  /** Those that are not folders. */
  function SpecialNode(job: Job, id: u32, s: Slot): (n: Node)
    requires JobOk(job)
    ensures Clean(n)
  {
    if s.Info? then InfoNode(job.account, id, job.name)
    else if s.AgeSlot? then AgeNode(job.age.uuid, job.age.parent, job.age.filename)
    else if s.AgeInfo? then AgeInfoNode(job.age, id)
    else if s.AgeSdl? then SdlNode(job.age.uuid, id, job.age.filename, job.age.sdl)
    else LinkNode(job.account, id, LinkText(s.CityLink?))
  }

  lemma SpecialSuits(job: Job, id: u32, s: Slot)
    requires JobOk(job) && (s.Info? || IsLink(s) || s.AgeSlot? || s.AgeInfo? || s.AgeSdl?)
    ensures var n := SpecialNode(job, id, s);
            HasType(n, SlotType(s)) && (s == Info ==> n.values[UINT32_1] == Word(id) && n.values[INT32_1] == Int(0))
  {
    hide Clean, InfoNode, LinkNode, AgeNode, AgeInfoNode, SdlNode, LinkText, HasType;
  }

  /** The node that a script creates for a slot. */
  function NodeFor(job: Job, slots: map<Slot, u32>, s: Slot): (n: Node)
    requires JobOk(job) && (CreatorOf(s).Some? ==> CreatorOf(s).value in slots)
    ensures Clean(n)
  {
    var id := if CreatorOf(s).Some? then slots[CreatorOf(s).value] else 0;
    if SlotFolder(s).Some? then
      var creator := if CreatorOf(s) == Some(Player) then job.account else job.age.uuid;
      FolderNode(SlotType(s), creator, id, SlotFolder(s).value)
    else SpecialNode(job, id, s)
  }

  lemma NodeSuits(job: Job, slots: map<Slot, u32>, s: Slot)
    requires JobOk(job) && Creatable(s) && (CreatorOf(s).Some? ==> CreatorOf(s).value in slots)
    ensures Suits(s, NodeFor(job, slots, s))
    ensures s == Info ==> Player in slots && NodeFor(job, slots, s).values[UINT32_1] == Word(slots[Player])
    ensures s == Info ==> NodeFor(job, slots, s).values[INT32_1] == Int(0)
  {
    hide Clean, Formed, FolderNode, SpecialNode, Creatable, CreatorOf, SlotFolder, SlotType, HasType;
    SlotFacts(s);
    InfoIsNoFolder();
    if SlotFolder(s).None? {
      SpecialSuits(job, if CreatorOf(s).Some? then slots[CreatorOf(s).value] else 0, s);
    }
  }

  lemma InfoIsNoFolder()
    ensures SlotFolder(Info).None?
  {
  }

  predicate Holds(db: Backend, s: Slot, id: u32) {
    id in db.vault && Formed(db.vault[id]) && Suits(s, db.vault[id])
  }

  predicate Runnable(t: Task) {
    JobOk(t.job) && t.pc <= |t.code| && Ready(t.code[t.pc..], t.slots.Keys)
  }

  function Filled(t: Task, s: Slot, id: u32): Task {
    t.(pc := t.pc + 1, slots := t.slots[s := id])
  }

  /** What the next instruction says. */
  lemma NextReady(t: Task)
    requires Runnable(t) && t.pc < |t.code|
    ensures match t.code[t.pc]
            case Create(s) =>
              && s !in t.slots && Creatable(s) && (CreatorOf(s).Some? ==> CreatorOf(s).value in t.slots)
              && Ready(t.code[t.pc + 1..], t.slots.Keys + {s})
            case FindSystem => Ready(t.code[t.pc + 1..], t.slots.Keys + {System})
            case FindAllPlayers => Ready(t.code[t.pc + 1..], t.slots.Keys + {AllPlayers})
            case Link(p, c, owned) =>
              && p in t.slots && c in t.slots && (owned ==> Player in t.slots) && SlotRank(c) < SlotRank(p)
              && Ready(t.code[t.pc + 1..], t.slots.Keys)
  {
    hide Creatable, CreatorOf, SlotRank;
    var rest := t.code[t.pc..];
    assert rest[0] == t.code[t.pc] && rest[1..] == t.code[t.pc + 1..];
  }

  /** One message of a script.  A query is answered with any node that fits. */
  function Exec(db: Backend, t: Task, choice: u32): (Backend, Task)
    requires Runnable(t)
  {
    if t.pc == |t.code| then (db, t)
    else
      NextReady(t);
      match t.code[t.pc]
      case Create(s) =>
        var (db', id) := CreateNode(db, NodeFor(t.job, t.slots, s));
        (db', if id.Good? then Filled(t, s, id.value) else t)
      case FindSystem => (db, if Holds(db, System, choice) then Filled(t, System, choice) else t)
      case FindAllPlayers => (db, if Holds(db, AllPlayers, choice) then Filled(t, AllPlayers, choice) else t)
      case Link(p, c, owned) =>
        var r := NodeRef(t.slots[p], t.slots[c], if owned then t.slots[Player] else 0);
        (db.(refs := db.refs + {r}), t.(pc := t.pc + 1))
  }

  // ===== sessions =====

  /** Where a connection is between the messages of a selection or of its end. */
  datatype Phase =
    | Idle
    | Checked(player: u32)            // the player node was fetched and is the account's
    | Seen(player: u32, info: u32)    // the info node was fetched and said offline
    | Leaving(info: u32)              // the info node of the held player was fetched

  /** A connection's account, the player it holds, and its phase. */
  datatype Conn = Conn(account: Option<bytes>, player: Option<u32>, phase: Phase)

  predicate IsInfoOf(db: Backend, id: u32, player: u32) {
    && id in db.vault && Formed(db.vault[id])
    && HasType(db.vault[id], TYPE_PLAYER_INFO) && db.vault[id].values[UINT32_1] == Word(player)
  }

  /** The nodes that `get_player_info_node` may return. */
  function InfoChildren(db: Backend, player: u32): set<u32> {
    set r | r in db.refs && r.parent == player && IsInfoOf(db, r.child, player) :: r.child
  }

  predicate Online(db: Backend, id: u32) {
    id in db.vault && Formed(db.vault[id]) && db.vault[id].values[INT32_1] != Int(0)
  }

  function SetOnline(db: Backend, info: u32, online: i32, place: string): Backend
    requires Keyed(db)
  {
    UpdateNode(db, OnlineUpdate(info, online, place, NIL_UUID)).0
  }

  predicate Owns(db: Backend, account: Option<bytes>, player: u32) {
    && account.Some?
    && player in db.vault && Formed(db.vault[player]) && HasType(db.vault[player], TYPE_PLAYER)
    && db.vault[player].values[UUID_1] == Uuid(account.value)
  }

  // ----- the messages of a selection -----

  /** The reply to the first message of a selection. */
  function AfterFetch(db: Backend, k: Conn, player: u32): Conn {
    if k.phase.Idle? && Owns(db, k.account, player) then k.(phase := Checked(player)) else k
  }

  /** The reply to the second: `info` stands for the node that the query picks. */
  function AfterQuery(db: Backend, k: Conn, info: u32): Conn {
    if !k.phase.Checked? then k
    else if InfoChildren(db, k.phase.player) == {} then k.(phase := Idle)
    else if info !in InfoChildren(db, k.phase.player) then k
    else k.(phase := if Online(db, info) then Idle else Seen(k.phase.player, info))
  }

  /** The third message marks the player online. */
  function AfterCommit(db: Backend, k: Conn): (Backend, Conn)
    requires Keyed(db)
  {
    if !k.phase.Seen? then (db, k)
    else if k.phase.info !in db.vault then (db, k.(phase := Idle))
    else (SetOnline(db, k.phase.info, 1, "Lobby"), k.(player := Some(k.phase.player), phase := Idle))
  }

  // ----- the messages of a disconnection -----

  /** The reply to the first message; no connection is left where nothing is to be done. */
  function AfterLeaveQuery(db: Backend, k: Conn, info: u32): Option<Conn> {
    if !k.phase.Idle? then Some(k)
    else if k.player.None? || InfoChildren(db, k.player.value) == {} then None
    else if info !in InfoChildren(db, k.player.value) then Some(k)
    else Some(k.(phase := Leaving(info)))
  }

  // ===== the world =====

  datatype World = World(db: Backend, tasks: seq<Task>, conns: map<nat, Conn>)

  datatype Event =
    | StartPlayer(account: bytes, name: string, shape: string, uuid: bytes, sdl: bytes)
    | StartAge(age: Age)
    | Advance(task: nat, choice: u32)
    | Connect(conn: nat)
    | Login(conn: nat, account: bytes)
    | FetchPlayer(conn: nat, player: u32)
    | QueryInfo(conn: nat, info: u32)
    | Commit(conn: nat)
    | QueryLeave(conn: nat, info: u32)
    | Leave(conn: nat)

  predicate EventOk(e: Event) {
    match e
    case StartPlayer(account, _, _, uuid, _) => |account| == 16 && |uuid| == 16
    case StartAge(age) => |age.uuid| == 16 && |age.parent| == 16
    case _ => true
  }

  function NewPlayerTask(e: Event, id: u32): Task
    requires e.StartPlayer?
  {
    hide PlayerScript;
    Task(PlayerJob(e.account, e.name, e.uuid, e.sdl), PlayerScript(), 0, map[Player := id])
  }

  function NewAgeTask(age: Age): Task {
    Task(Job(NIL_UUID, "", age), AgeScript(false, []), 0, map[])
  }

  ghost predicate CanStep(w: World, e: Event) {
    EventOk(e) && Keyed(w.db) && forall i :: 0 <= i < |w.tasks| ==> Runnable(w.tasks[i])
  }

  predicate OfScript(e: Event) {
    e.StartPlayer? || e.StartAge? || e.Advance?
  }

  /** One step; an event that does not apply changes nothing. */
  function Step(fold: string -> string, w: World, e: Event): World
    requires CanStep(w, e)
  {
    if OfScript(e) then ScriptStep(fold, w, e) else ConnStep(w, e)
  }

  function ScriptStep(fold: string -> string, w: World, e: Event): World
    requires CanStep(w, e) && OfScript(e)
  {
    match e
    case StartPlayer(account, name, shape, _, _) =>
      var (db, r) := CreatePlayer(fold, w.db, account, name, shape);
      World(db, if r.Good? then w.tasks + [NewPlayerTask(e, r.value.id)] else w.tasks, w.conns)
    case StartAge(age) => w.(tasks := w.tasks + [NewAgeTask(age)])
    case Advance(i, choice) =>
      if i >= |w.tasks| then w
      else
        var (db, t) := Exec(w.db, w.tasks[i], choice);
        World(db, w.tasks[i := t], w.conns)
  }

  function ConnStep(w: World, e: Event): World
    requires Keyed(w.db) && !OfScript(e)
  {
    if e.Connect? && e.conn !in w.conns then WithConn(w, e.conn, Conn(None, None, Idle))
    else if e.conn !in w.conns then w
    else
      var k := w.conns[e.conn];
      match e
      case Connect(_) => w
      case Login(c, account) => if k.phase.Idle? then WithConn(w, c, k.(account := Some(account))) else w
      case FetchPlayer(c, player) => WithConn(w, c, AfterFetch(w.db, k, player))
      case QueryInfo(c, info) => WithConn(w, c, AfterQuery(w.db, k, info))
      case Commit(c) =>
        var (db, k') := AfterCommit(w.db, k);
        World(db, w.tasks, w.conns[c := k'])
      case QueryLeave(c, info) =>
        var k' := AfterLeaveQuery(w.db, k, info);
        if k'.None? then w.(conns := w.conns - {c}) else WithConn(w, c, k'.value)
      case Leave(c) =>
        if k.phase.Leaving? then World(SetOnline(w.db, k.phase.info, 0, ""), w.tasks, w.conns - {c}) else w
  }

  function WithConn(w: World, c: nat, k: Conn): World {
    w.(conns := w.conns[c := k])
  }

  // ===== the invariant =====

  predicate RefOk(db: Backend, r: NodeRef) {
    && r.parent in db.vault && r.child in db.vault
    && Formed(db.vault[r.parent]) && Formed(db.vault[r.child])
    && Rank(db.vault[r.child]) < Rank(db.vault[r.parent])
  }

  ghost predicate Graph(db: Backend) {
    forall r :: r in db.refs ==> RefOk(db, r)
  }

  /** The link from a player to the info node has left its ref. */
  predicate LinkedAt(db: Backend, t: Task, k: nat) {
    k < t.pc && k < |t.code| && t.code[k] == Link(Player, Info, false) ==>
      Player in t.slots && Info in t.slots && NodeRef(t.slots[Player], t.slots[Info], 0) in db.refs
  }

  ghost predicate TaskOk(db: Backend, t: Task) {
    && Runnable(t)
    && (forall s :: s in t.slots ==> Holds(db, s, t.slots[s]))
    && (Info in t.slots ==> Player in t.slots && IsInfoOf(db, t.slots[Info], t.slots[Player]))
    && (forall k :: LinkedAt(db, t, k))
  }

  predicate SamePlayer(a: Task, b: Task) {
    Player in a.slots && Player in b.slots && a.slots[Player] == b.slots[Player]
  }

  predicate TaskLinks(t: Task, r: NodeRef) {
    Player in t.slots && Info in t.slots && t.slots[Player] == r.parent && t.slots[Info] == r.child
  }

  ghost predicate TracedAt(w: World, r: NodeRef) {
    Holds(w.db, Player, r.parent) && Holds(w.db, Info, r.child) ==>
      exists i :: 0 <= i < |w.tasks| && TaskLinks(w.tasks[i], r)
  }

  const SYSTEM_ID: u32 := 1000
  const ALL_PLAYERS_ID: u32 := 1002

  ghost predicate TasksOk(w: World) {
    && (forall i :: 0 <= i < |w.tasks| ==> TaskOk(w.db, w.tasks[i]))
    && (forall i, j :: 0 <= i < j < |w.tasks| ==> !SamePlayer(w.tasks[i], w.tasks[j]))
    && (forall r :: r in w.db.refs ==> TracedAt(w, r))
  }

  /** A held player has an info node, and it says online. */
  ghost predicate HeldOnline(db: Backend, p: u32) {
    && Holds(db, Player, p) && InfoChildren(db, p) != {}
    && forall id :: id in InfoChildren(db, p) ==> Online(db, id)
  }

  ghost predicate VaultOk(fold: string -> string, w: World) {
    && Orderly(fold, w.db) && Graph(w.db) && TasksOk(w)
    && Holds(w.db, System, SYSTEM_ID) && Holds(w.db, AllPlayers, ALL_PLAYERS_ID)
  }

  // ===== how the vault may change =====

  /** The node is the same, or a PlayerInfo node of the same player. */
  predicate Keeps(n: Node, n': Node)
    requires Formed(n) && Formed(n')
  {
    n' == n ||
    (HasType(n, TYPE_PLAYER_INFO) && HasType(n', TYPE_PLAYER_INFO) && n'.values[UINT32_1] == n.values[UINT32_1])
  }

  predicate KeepsAt(db: Backend, db': Backend, id: u32) {
    id in db.vault && Formed(db.vault[id]) ==>
      id in db'.vault && Formed(db'.vault[id]) && Keeps(db.vault[id], db'.vault[id])
  }

  ghost predicate Evolves(db: Backend, db': Backend) {
    db.refs <= db'.refs && forall id :: KeepsAt(db, db', id)
  }

  /** Nodes stay as they are, and no new one is an info node that says online. */
  ghost predicate Grows(db: Backend, db': Backend) {
    && Evolves(db, db')
    && (forall id :: id in db.vault ==> id in db'.vault && db'.vault[id] == db.vault[id])
    && (forall id :: id in db'.vault && id !in db.vault ==> !OnlineInfo(db', id))
  }

  predicate OnlineInfo(db: Backend, id: u32) {
    Holds(db, Info, id) && Online(db, id)
  }

  lemma HoldsKept(db: Backend, db': Backend, s: Slot, id: u32)
    requires Evolves(db, db') && Holds(db, s, id)
    ensures Holds(db', s, id)
  {
    hide Formed;
    assert KeepsAt(db, db', id);
  }

  /** A node of the old vault has the type in the new one only if it had it before. */
  lemma HoldsBack(db: Backend, db': Backend, s: Slot, id: u32)
    requires Evolves(db, db') && id in db.vault && Formed(db.vault[id]) && Holds(db', s, id) && SlotFolder(s).None?
    ensures Holds(db, s, id)
  {
    hide Formed;
    assert KeepsAt(db, db', id);
  }

  lemma InfoKept(db: Backend, db': Backend, id: u32, p: u32)
    requires Evolves(db, db')
    ensures IsInfoOf(db, id, p) ==> IsInfoOf(db', id, p)
    ensures id in db.vault && Formed(db.vault[id]) && IsInfoOf(db', id, p) ==> IsInfoOf(db, id, p)
  {
    hide Formed;
    assert KeepsAt(db, db', id);
  }

  lemma RefKept(db: Backend, db': Backend, r: NodeRef)
    requires Evolves(db, db') && RefOk(db, r)
    ensures RefOk(db', r)
  {
    hide Formed;
    assert KeepsAt(db, db', r.parent) && KeepsAt(db, db', r.child);
  }

  lemma TaskKept(db: Backend, db': Backend, t: Task)
    requires Evolves(db, db') && TaskOk(db, t)
    ensures TaskOk(db', t)
  {
    hide Runnable, Holds, IsInfoOf, KeepsAt;
    forall s | s in t.slots
      ensures Holds(db', s, t.slots[s])
    {
      HoldsKept(db, db', s, t.slots[s]);
    }
    if Info in t.slots {
      InfoKept(db, db', t.slots[Info], t.slots[Player]);
    }
    forall k
      ensures LinkedAt(db', t, k)
    {
      assert LinkedAt(db, t, k);
    }
  }

  /** Tasks that go on knowing what they knew keep the whole of the rest in order. */
  lemma TracedKept(w: World, w': World, r: NodeRef)
    requires Evolves(w.db, w'.db) && RefOk(w.db, r) && TracedAt(w, r) && |w.tasks| <= |w'.tasks|
    requires forall i :: 0 <= i < |w.tasks| ==> Extends(w.tasks[i], w'.tasks[i])
    ensures TracedAt(w', r)
  {
    hide Formed, Holds;
    if Holds(w'.db, Player, r.parent) && Holds(w'.db, Info, r.child) {
      HoldsBack(w.db, w'.db, Player, r.parent);
      HoldsBack(w.db, w'.db, Info, r.child);
      var i :| 0 <= i < |w.tasks| && TaskLinks(w.tasks[i], r);
      assert Extends(w.tasks[i], w'.tasks[i]);
    }
  }

  /** The player and the info node of a task stay. */
  predicate Extends(t: Task, t': Task) {
    && (Player in t.slots ==> Player in t'.slots && t'.slots[Player] == t.slots[Player])
    && (Info in t.slots ==> Info in t'.slots && t'.slots[Info] == t.slots[Info])
  }

  // ----- creations and updates evolve the vault -----

  lemma CreateEvolves(db: Backend, node: Node)
    requires Keyed(db) && Clean(node)
    ensures Evolves(db, CreateNode(db, node).0)
  {
    hide Clean, Formed, Set;
    var db' := CreateNode(db, node).0;
    forall id
      ensures KeepsAt(db, db', id)
    {
      assert id in db.vault ==> id != db.nodeIndex;
    }
  }

  lemma UpdateEvolves(db: Backend, info: u32, online: i32, place: string)
    requires Keyed(db) && info in db.vault && (assert KeyedAt(db, info); HasType(db.vault[info], TYPE_PLAYER_INFO))
    ensures var db' := SetOnline(db, info, online, place);
            && Evolves(db, db') && db'.refs == db.refs && db'.players == db.players
            && db'.vault.Keys == db.vault.Keys && Formed(db'.vault[info])
            && db'.vault[info].values[INT32_1] == Int(online)
            && forall id :: id in db.vault && id != info ==> db'.vault[id] == db.vault[id]
  {
    hide Updated, Has, OnlineUpdate;
    var update := OnlineUpdate(info, online, place, NIL_UUID);
    var db' := SetOnline(db, info, online, place);
    assert KeyedAt(db, info);
    OnlineEffect(db.vault[info], info, online, place);
    forall id
      ensures KeepsAt(db, db', id)
    {
    }
  }

  lemma OnlineEffect(n: Node, info: u32, online: i32, place: string)
    requires Clean(n)
    ensures var r := Updated(n, OnlineUpdate(info, online, place, NIL_UUID));
            && Clean(r) && r.values[INT32_1] == Int(online)
            && r.values[NODE_TYPE] == n.values[NODE_TYPE] && r.values[UINT32_1] == n.values[UINT32_1]
  {
    hide UpdatedTo, Has, OnlineUpdate;
    var update := OnlineUpdate(info, online, place, NIL_UUID);
    UpdateOverrides(n, update);
    UpdatedAt(n, update, COUNT, INT32_1);
    UpdatedAt(n, update, COUNT, NODE_TYPE);
    UpdatedAt(n, update, COUNT, UINT32_1);
  }

  // ===== every event keeps the invariant =====

  /** At most one node answers for a player. */
  lemma InfoUnique(w: World, p: u32, a: u32, b: u32)
    requires TasksOk(w) && Holds(w.db, Player, p) && a in InfoChildren(w.db, p) && b in InfoChildren(w.db, p)
    ensures a == b
  {
    hide TaskOk, Formed;
    var r :| r in w.db.refs && r.parent == p && r.child == a && IsInfoOf(w.db, a, p);
    var s :| s in w.db.refs && s.parent == p && s.child == b && IsInfoOf(w.db, b, p);
    assert TracedAt(w, r) && TracedAt(w, s);
    var i :| 0 <= i < |w.tasks| && TaskLinks(w.tasks[i], r);
    var j :| 0 <= j < |w.tasks| && TaskLinks(w.tasks[j], s);
    assert SamePlayer(w.tasks[i], w.tasks[j]) && SamePlayer(w.tasks[j], w.tasks[i]);
  }

  /** Everything about the vault but the new refs and tasks. */
  lemma BaseKept(fold: string -> string, w: World, db: Backend)
    requires VaultOk(fold, w) && Evolves(w.db, db)
    ensures Holds(db, System, SYSTEM_ID) && Holds(db, AllPlayers, ALL_PLAYERS_ID)
    ensures forall r :: r in w.db.refs ==> RefOk(db, r)
    ensures forall i :: 0 <= i < |w.tasks| ==> TaskOk(db, w.tasks[i])
  {
    hide Orderly, RefOk, TaskOk, Holds, KeepsAt;
    HoldsKept(w.db, db, System, SYSTEM_ID);
    HoldsKept(w.db, db, AllPlayers, ALL_PLAYERS_ID);
    forall r | r in w.db.refs
      ensures RefOk(db, r)
    {
      RefKept(w.db, db, r);
    }
    forall i | 0 <= i < |w.tasks|
      ensures TaskOk(db, w.tasks[i])
    {
      TaskKept(w.db, db, w.tasks[i]);
    }
  }

  // ----- starting a script -----

  lemma NewTasksOk(db: Backend, e: Event, id: u32)
    requires EventOk(e)
    ensures e.StartPlayer? && Holds(db, Player, id) ==> TaskOk(db, NewPlayerTask(e, id))
    ensures e.StartAge? ==> TaskOk(db, NewAgeTask(e.age))
  {
    hide PlayerScript, AgeScript, Ready, Holds;
    ScriptsReady();
    assert PlayerScript()[0..] == PlayerScript() && AgeScript(false, [])[0..] == AgeScript(false, []);
    assert (map[Player := id]).Keys == {Player};
    var none: map<Slot, u32> := map[];
    assert none.Keys == {};
  }

  /** A new task that shares no player with the others. */
  lemma TaskAdded(fold: string -> string, w: World, db: Backend, t: Task)
    requires VaultOk(fold, w) && Evolves(w.db, db) && db.refs == w.db.refs && Orderly(fold, db) && TaskOk(db, t)
    requires Player in t.slots ==> t.slots[Player] !in w.db.vault
    ensures VaultOk(fold, World(db, w.tasks + [t], w.conns))
  {
    hide Orderly, RefOk, TaskOk, Holds, KeepsAt;
    var w' := World(db, w.tasks + [t], w.conns);
    BaseKept(fold, w, db);
    forall i | 0 <= i < |w.tasks|
      ensures !SamePlayer(w.tasks[i], t)
    {
      PlayerInVault(w.db, w.tasks[i]);
    }
    forall r | r in db.refs
      ensures TracedAt(w', r)
    {
      TracedKept(w, w', r);
    }
  }

  lemma PlayerInVault(db: Backend, t: Task)
    requires TaskOk(db, t)
    ensures Player in t.slots ==> t.slots[Player] in db.vault
  {
    hide Formed, Runnable, IsInfoOf, LinkedAt;
    if Player in t.slots {
      assert Holds(db, Player, t.slots[Player]);
    }
  }

  lemma PlayerCreated(fold: string -> string, db: Backend, account: bytes, name: string, shape: string)
    requires Orderly(fold, db) && |account| == 16
    ensures var (db', r) := CreatePlayer(fold, db, account, name, shape);
            && Orderly(fold, db') && Evolves(db, db') && db'.refs == db.refs
            && (r.Good? ==> r.value.id !in db.vault && Holds(db', Player, r.value.id))
            && Grows(db, db')
  {
    hide PlayerNode, Clean, Formed, Set, NameTaken, NamesDistinct;
    PlayerOrderly(fold, db, account, name, shape);
    var (db', r) := CreatePlayer(fold, db, account, name, shape);
    CreateEvolves(db, PlayerNode(account, name, shape, 1));
    if db.nodeIndex + 1 < U32_LIMIT {
      NewIsPlayer(db, account, name, shape);
    }
    forall id
      ensures KeepsAt(db, db', id)
    {
      assert KeepsAt(db, CreateNode(db, PlayerNode(account, name, shape, 1)).0, id);
      if db' == db && id in db.vault {
        assert KeyedAt(db, id);
      }
    }
  }

  // ----- one message of a script -----

  lemma TaskReplaced(fold: string -> string, w: World, db: Backend, i: nat, t': Task)
    requires VaultOk(fold, w) && i < |w.tasks| && Evolves(w.db, db) && Orderly(fold, db) && Graph(db)
    requires TaskOk(db, t') && Extends(w.tasks[i], t') && (Player in t'.slots ==> Player in w.tasks[i].slots)
    requires forall r :: r in db.refs && r !in w.db.refs ==> TaskLinks(t', r) || !TracedNeeded(db, r)
    ensures VaultOk(fold, World(db, w.tasks[i := t'], w.conns))
  {
    hide Orderly, RefOk, TaskOk, Holds, KeepsAt, TracedNeeded;
    var w' := World(db, w.tasks[i := t'], w.conns);
    BaseKept(fold, w, db);
    forall j, k | 0 <= j < k < |w'.tasks|
      ensures !SamePlayer(w'.tasks[j], w'.tasks[k])
    {
      assert !SamePlayer(w.tasks[j], w.tasks[k]);
    }
    forall r | r in db.refs
      ensures TracedAt(w', r)
    {
      if r in w.db.refs {
        TracedKept(w, w', r);
      } else if TaskLinks(t', r) {
        assert TaskLinks(w'.tasks[i], r);
      } else {
        NotNeeded(w', r);
      }
    }
  }

  predicate TracedNeeded(db: Backend, r: NodeRef) {
    Holds(db, Player, r.parent) && Holds(db, Info, r.child)
  }

  lemma NotNeeded(w: World, r: NodeRef)
    requires !TracedNeeded(w.db, r)
    ensures TracedAt(w, r)
  {
  }

  lemma FilledOk(db: Backend, db': Backend, t: Task, s: Slot, id: u32)
    requires TaskOk(db, t) && Evolves(db, db') && t.pc < |t.code| && !t.code[t.pc].Link?
    requires Holds(db', s, id) && Ready(t.code[t.pc + 1..], t.slots.Keys + {s})
    requires s != Player && (s == Info ==> Info !in t.slots && Player in t.slots && IsInfoOf(db', id, t.slots[Player]))
    ensures TaskOk(db', Filled(t, s, id)) && Extends(t, Filled(t, s, id))
  {
    hide Holds, IsInfoOf, KeepsAt, Ready;
    var t' := Filled(t, s, id);
    TaskKept(db, db', t);
    assert t'.slots.Keys == t.slots.Keys + {s};
    forall k
      ensures LinkedAt(db', t', k)
    {
      assert LinkedAt(db', t, k);
    }
  }

  lemma CreateOk(fold: string -> string, w: World, i: nat)
    requires VaultOk(fold, w) && i < |w.tasks| && Runnable(w.tasks[i])
    requires w.tasks[i].pc < |w.tasks[i].code| && w.tasks[i].code[w.tasks[i].pc].Create?
    ensures var (db, t') := Exec(w.db, w.tasks[i], 0);
            VaultOk(fold, World(db, w.tasks[i := t'], w.conns)) && Grows(w.db, db)
  {
    hide Orderly, RefOk, TaskOk, Holds, KeepsAt, NodeFor, Creatable, CreatorOf, IsInfoOf, CreateNode, Ready, Clean,
      Formed;
    var t := w.tasks[i];
    var s := t.code[t.pc].slot;
    NextReady(t);
    CreatedIsNot(s);
    var node := NodeFor(t.job, t.slots, s);
    var (db, id) := CreateNode(w.db, node);
    OrderlyKeyed(fold, w.db);
    CreateEvolves(w.db, node);
    CreateOrderly(fold, w.db, node);
    CreateNew(w.db, t, s);
    CreateGrows(w.db, t, s);
    GraphKept(fold, w, db);
    if id.Good? {
      TaskIsOk(w, i);
      FilledOk(w.db, db, t, s, id.value);
      TaskReplaced(fold, w, db, i, Filled(t, s, id.value));
    } else {
      TaskIsOk(w, i);
      TaskKept(w.db, db, t);
      TaskReplaced(fold, w, db, i, t);
    }
  }

  lemma OrderlyKeyed(fold: string -> string, db: Backend)
    requires Orderly(fold, db)
    ensures Keyed(db)
  {
  }

  lemma TaskIsOk(w: World, i: nat)
    requires TasksOk(w) && i < |w.tasks|
    ensures TaskOk(w.db, w.tasks[i])
  {
  }

  lemma CreatedIsNot(s: Slot)
    requires Creatable(s)
    ensures s != Player
  {
  }

  lemma GraphKept(fold: string -> string, w: World, db: Backend)
    requires VaultOk(fold, w) && Evolves(w.db, db) && db.refs == w.db.refs
    ensures Graph(db)
  {
    hide Orderly, RefOk, TaskOk, Holds, KeepsAt;
    BaseKept(fold, w, db);
  }

  /** The new node is what its slot asks for, and nothing else changes. */
  lemma CreateNew(db: Backend, t: Task, s: Slot)
    requires Keyed(db) && JobOk(t.job) && Creatable(s) && (CreatorOf(s).Some? ==> CreatorOf(s).value in t.slots)
    ensures var (db', id) := CreateNode(db, NodeFor(t.job, t.slots, s));
            && db'.refs == db.refs
            && (id.Good? ==> Holds(db', s, id.value))
            && (id.Good? && s == Info ==> Player in t.slots && IsInfoOf(db', id.value, t.slots[Player]))
  {
    hide NodeFor, Creatable, CreatorOf, Clean, Set, SlotType, SlotFolder;
    var node := NodeFor(t.job, t.slots, s);
    NodeSuits(t.job, t.slots, s);
    InfoType();
  }

  /** Only an info node can be an info node, and a new one says offline. */
  lemma CreateGrows(db: Backend, t: Task, s: Slot)
    requires Keyed(db) && JobOk(t.job) && Creatable(s) && (CreatorOf(s).Some? ==> CreatorOf(s).value in t.slots)
    ensures Grows(db, CreateNode(db, NodeFor(t.job, t.slots, s)).0)
  {
    hide NodeFor, Creatable, CreatorOf, Clean, Set, SlotType, SlotFolder, Evolves;
    var node := NodeFor(t.job, t.slots, s);
    NodeSuits(t.job, t.slots, s);
    assert db.nodeIndex !in db.vault;
    OnlySlot(s, Info);
    CreateEvolves(db, node);
  }

  lemma InfoType()
    ensures SlotType(Info) == TYPE_PLAYER_INFO && SlotFolder(Info).None?
  {
  }

  lemma FindOk(fold: string -> string, w: World, i: nat, choice: u32)
    requires VaultOk(fold, w) && i < |w.tasks| && Runnable(w.tasks[i])
    requires w.tasks[i].pc < |w.tasks[i].code|
    requires w.tasks[i].code[w.tasks[i].pc].FindSystem? || w.tasks[i].code[w.tasks[i].pc].FindAllPlayers?
    ensures var (db, t') := Exec(w.db, w.tasks[i], choice);
            db == w.db && VaultOk(fold, World(db, w.tasks[i := t'], w.conns))
  {
    hide Orderly, RefOk, TaskOk, Holds, KeepsAt, IsInfoOf, Ready;
    var t := w.tasks[i];
    NextReady(t);
    TaskIsOk(w, i);
    Unchanged(fold, w.db);
    var s := if t.code[t.pc].FindSystem? then System else AllPlayers;
    if Holds(w.db, s, choice) {
      FilledOk(w.db, w.db, t, s, choice);
      TaskReplaced(fold, w, w.db, i, Filled(t, s, choice));
    } else {
      assert w.tasks[i := t] == w.tasks;
    }
  }

  lemma Unchanged(fold: string -> string, db: Backend)
    requires Orderly(fold, db)
    ensures Evolves(db, db)
  {
    hide Formed;
  }

  lemma LinkOk(fold: string -> string, w: World, i: nat)
    requires VaultOk(fold, w) && i < |w.tasks| && Runnable(w.tasks[i])
    requires w.tasks[i].pc < |w.tasks[i].code| && w.tasks[i].code[w.tasks[i].pc].Link?
    ensures var (db, t') := Exec(w.db, w.tasks[i], 0);
            VaultOk(fold, World(db, w.tasks[i := t'], w.conns)) && Grows(w.db, db)
  {
    hide Orderly, RefOk, TaskOk, Holds, KeepsAt, IsInfoOf, Ready, SlotRank, TracedNeeded;
    var t := w.tasks[i];
    var Link(p, c, owned) := t.code[t.pc];
    NextReady(t);
    TaskIsOk(w, i);
    var r := NodeRef(t.slots[p], t.slots[c], if owned then t.slots[Player] else 0);
    var db := w.db.(refs := w.db.refs + {r});
    var t' := t.(pc := t.pc + 1);
    RefAdded(fold, w.db, r);
    BaseKept(fold, w, db);
    LinkedOk(w.db, db, t, r);
    NewRefOk(db, t', p, c, r);
    TaskReplaced(fold, w, db, i, t');
  }

  lemma RefAdded(fold: string -> string, db: Backend, r: NodeRef)
    requires Orderly(fold, db)
    ensures var db' := db.(refs := db.refs + {r}); Evolves(db, db') && Orderly(fold, db')
  {
    hide Formed, Clean, CreatePlayer, CreateNode, UpdateNode;
    ProcessOrderly(fold, db, MsgRefNode(r.parent, r.child, r.owner));
  }

  lemma LinkedOk(db: Backend, db': Backend, t: Task, r: NodeRef)
    requires TaskOk(db, t) && t.pc < |t.code| && t.code[t.pc].Link?
    requires Ready(t.code[t.pc + 1..], t.slots.Keys) && Evolves(db, db') && r in db'.refs
    requires t.code[t.pc].parent in t.slots && t.code[t.pc].child in t.slots
    requires !t.code[t.pc].owned ==> r == NodeRef(t.slots[t.code[t.pc].parent], t.slots[t.code[t.pc].child], 0)
    ensures TaskOk(db', t.(pc := t.pc + 1))
  {
    hide Holds, IsInfoOf, KeepsAt, Ready;
    var t' := t.(pc := t.pc + 1);
    TaskKept(db, db', t);
    forall k
      ensures LinkedAt(db', t', k)
    {
      assert LinkedAt(db', t, k);
    }
  }

  /** A link goes down, and only a player's own script links a player to an info node. */
  lemma NewRefOk(db: Backend, t: Task, p: Slot, c: Slot, r: NodeRef)
    requires TaskOk(db, t) && p in t.slots && c in t.slots && SlotRank(c) < SlotRank(p)
    requires r.parent == t.slots[p] && r.child == t.slots[c]
    ensures RefOk(db, r) && (TaskLinks(t, r) || !TracedNeeded(db, r))
  {
    hide Formed, Rank, SlotRank, SlotType, SlotFolder, Runnable, IsInfoOf, LinkedAt;
    assert Holds(db, p, t.slots[p]) && Holds(db, c, t.slots[c]);
    SlotRankIs(p, db.vault[r.parent]);
    SlotRankIs(c, db.vault[r.child]);
    if TracedNeeded(db, r) {
      OnlySlot(p, Player);
      OnlySlot(c, Info);
    }
  }

  lemma OnlySlot(s: Slot, one: Slot)
    requires one == Player || one == Info
    ensures SlotType(s) == SlotType(one) ==> s == one
  {
  }
}
