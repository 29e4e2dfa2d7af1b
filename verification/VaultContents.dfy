/** What is in the nodes that a player's or an age's script has made, in every run: the
    constructors of src/vault/vnode_access.rs as src/auth_srv/vault_helpers.rs calls
    them. */
module VaultContents {
  import opened Prim
  import opened Text
  import opened VaultNode
  import opened VaultDb
  import opened VaultScripts
  import opened VaultWorld
  import opened VaultSessions
  import opened VaultRuns

  // ===== every run keeps what was made =====

  /** The node is the one that the script made for the slot, with its id. */
  predicate MadeAt(db: Backend, t: Task, s: Slot)
    requires s in t.slots
  {
    var id := t.slots[s];
    && JobOk(t.job) && (CreatorOf(s).Some? ==> CreatorOf(s).value in t.slots)
    && id in db.vault && db.vault[id] == Set(NodeFor(t.job, t.slots, s), NODE_ID, Word(id))
  }

  /** The player that the script is for. */
  ghost predicate MadeFor(db: Backend, t: Task) {
    Player in t.slots ==>
      var p := t.slots[Player];
      exists account, name, shape, uuid, sdl ::
        && |account| == 16 && t.job == PlayerJob(account, name, uuid, sdl)
        && p in db.vault && db.vault[p] == Set(PlayerNode(account, name, shape, 1), NODE_ID, Word(p))
  }

  ghost predicate MadeOk(db: Backend, t: Task) {
    MadeFor(db, t) && forall s :: s in t.slots && Creatable(s) && s != Info ==> MadeAt(db, t, s)
  }

  ghost predicate ContentsOk(w: World) {
    forall i :: 0 <= i < |w.tasks| ==> MadeOk(w.db, w.tasks[i])
  }

  lemma MadeKept(db: Backend, db': Backend, t: Task)
    requires MadeOk(db, t)
    requires forall s :: s in t.slots && s != Info ==>
      t.slots[s] in db.vault ==> t.slots[s] in db'.vault && db'.vault[t.slots[s]] == db.vault[t.slots[s]]
    ensures MadeOk(db', t)
  {
    hide NodeFor, PlayerNode, Set, CreatorOf, Creatable;
    forall s | s in t.slots && Creatable(s) && s != Info
      ensures MadeAt(db', t, s)
    {
      assert MadeAt(db, t, s);
    }
  }

  /** Slots that are filled later do not change what a slot's node is made from. */
  lemma NodeForSame(job: Job, slots: map<Slot, u32>, slots': map<Slot, u32>, s: Slot)
    requires JobOk(job) && (CreatorOf(s).Some? ==> CreatorOf(s).value in slots && CreatorOf(s).value in slots')
    requires CreatorOf(s).Some? ==> slots'[CreatorOf(s).value] == slots[CreatorOf(s).value]
    ensures NodeFor(job, slots', s) == NodeFor(job, slots, s)
  {
    hide FolderNode, SpecialNode, CreatorOf, SlotFolder, SlotType;
  }

  lemma CreatorKept(s: Slot)
    ensures CreatorOf(s).Some? ==> CreatorOf(s).value == Player || CreatorOf(s).value == AgeSlot
  {
  }

  /** The player and what was created stay where they were. */
  predicate Stays(t: Task, t': Task) {
    && t'.job == t.job && (Player in t'.slots ==> Player in t.slots)
    && forall s :: s in t.slots && (Creatable(s) || s == Player) ==> s in t'.slots && t'.slots[s] == t.slots[s]
  }

  lemma AgeCreatable()
    ensures Creatable(AgeSlot) && !Creatable(Player) && !Creatable(System) && !Creatable(AllPlayers)
  {
    assert AGE_SLOTS[0] == AgeSlot;
  }

  lemma MadeLater(db: Backend, t: Task, t': Task)
    requires MadeOk(db, t) && Stays(t, t')
    requires forall s :: s in t'.slots && s !in t.slots && Creatable(s) && s != Info ==> MadeAt(db, t', s)
    ensures MadeOk(db, t')
  {
    hide NodeFor, PlayerNode, Set, CreatorOf, Creatable;
    AgeCreatable();
    forall s | s in t'.slots && Creatable(s) && s != Info
      ensures MadeAt(db, t', s)
    {
      if s in t.slots {
        assert MadeAt(db, t, s);
        CreatorKept(s);
        NodeForSame(t.job, t.slots, t'.slots, s);
      }
    }
    if Player in t'.slots {
      assert t'.slots[Player] == t.slots[Player];
    }
  }

  // ===== script events =====

  lemma SameNodes(db: Backend, db': Backend, t: Task)
    requires Grows(db, db') && MadeOk(db, t)
    ensures MadeOk(db', t)
  {
    hide Evolves, OnlineInfo, MadeOk;
    MadeKept(db, db', t);
  }

  lemma CreateMade(fold: string -> string, w: World, i: nat)
    requires VaultOk(fold, w) && i < |w.tasks| && Runnable(w.tasks[i]) && MadeOk(w.db, w.tasks[i])
    requires w.tasks[i].pc < |w.tasks[i].code| && w.tasks[i].code[w.tasks[i].pc].Create?
    ensures var (db, t') := Exec(w.db, w.tasks[i], 0); MadeOk(db, t')
  {
    hide Orderly, Graph, Holds, NodeFor, Creatable, CreatorOf, Ready, Clean, Formed, TasksOk, Set, Grows, MadeOk;
    var t := w.tasks[i];
    var s := t.code[t.pc].slot;
    NextReady(t);
    CreatedIsNot(s);
    OrderlyKeyed(fold, w.db);
    CreateGrows(w.db, t, s);
    var (db, id) := CreateNode(w.db, NodeFor(t.job, t.slots, s));
    SameNodes(w.db, db, t);
    if id.Good? {
      var t' := Filled(t, s, id.value);
      CreatorKept(s);
      NodeForSame(t.job, t.slots, t'.slots, s);
      assert MadeAt(db, t', s) by {
        AgeCreatable();
        OwnCreator(s);
      }
      MadeLater(db, t, t');
    }
  }

  lemma OwnCreator(s: Slot)
    ensures CreatorOf(s) != Some(s)
  {
  }

  lemma OtherMade(db: Backend, t: Task, choice: u32)
    requires Runnable(t) && MadeOk(db, t) && (t.pc < |t.code| ==> !t.code[t.pc].Create?)
    ensures var (db', t') := Exec(db, t, choice); MadeOk(db', t')
  {
    hide Holds, NodeFor, Creatable, CreatorOf, Ready, MadeOk, Exec;
    var (db', t') := Exec(db, t, choice);
    OtherStays(db, t, choice);
    MadeLater(db, t, t');
    MadeKept(db, db', t');
  }

  lemma OtherStays(db: Backend, t: Task, choice: u32)
    requires Runnable(t) && (t.pc < |t.code| ==> !t.code[t.pc].Create?)
    ensures var (db', t') := Exec(db, t, choice);
            && Stays(t, t') && db'.vault == db.vault
            && forall s :: s in t'.slots && s !in t.slots ==> !Creatable(s)
  {
    hide Holds, Creatable, Ready;
    AgeCreatable();
  }

  lemma AdvanceMade(fold: string -> string, w: World, i: nat, choice: u32)
    requires VaultOk(fold, w) && ContentsOk(w) && i < |w.tasks| && CanStep(w, Advance(i, choice))
    ensures var (db, t') := Exec(w.db, w.tasks[i], choice); ContentsOk(World(db, w.tasks[i := t'], w.conns))
  {
    hide VaultOk, Runnable, Grows, Exec, MadeOk, Keyed;
    AdvanceOk(fold, w, i, choice);
    var t := w.tasks[i];
    var (db, t') := Exec(w.db, t, choice);
    ExecChoice(w.db, t, choice);
    if t.pc < |t.code| && t.code[t.pc].Create? {
      CreateMade(fold, w, i);
    } else {
      OtherMade(w.db, t, choice);
    }
    var tasks := w.tasks[i := t'];
    forall j | 0 <= j < |tasks|
      ensures MadeOk(db, tasks[j])
    {
      if j != i {
        SameNodes(w.db, db, w.tasks[j]);
      }
    }
  }

  lemma StartPlayerMade(fold: string -> string, w: World, e: Event)
    requires VaultOk(fold, w) && ContentsOk(w) && e.StartPlayer? && CanStep(w, e)
    ensures ContentsOk(Step(fold, w, e))
  {
    hide VaultOk, Runnable, Grows, CreatePlayer, MadeOk, Keyed, NewPlayerTask;
    StartPlayerOk(fold, w, e);
    var (db, r) := CreatePlayer(fold, w.db, e.account, e.name, e.shape);
    forall j | 0 <= j < |w.tasks|
      ensures MadeOk(db, w.tasks[j])
    {
      SameNodes(w.db, db, w.tasks[j]);
    }
    if r.Good? {
      Parts(fold, w);
      NewPlayerMade(fold, w.db, e);
    }
  }

  lemma NewPlayerMade(fold: string -> string, db: Backend, e: Event)
    requires e.StartPlayer? && |e.account| == 16 && CreatePlayer(fold, db, e.account, e.name, e.shape).1.Good?
    ensures var (db', r) := CreatePlayer(fold, db, e.account, e.name, e.shape);
            MadeOk(db', NewPlayerTask(e, r.value.id))
  {
    hide PlayerNode, Set, NameTaken, PlayerScript, Creatable, PlayerJob;
    AgeCreatable();
  }

  lemma StartAgeMade(fold: string -> string, w: World, e: Event)
    requires ContentsOk(w) && e.StartAge? && CanStep(w, e)
    ensures ContentsOk(Step(fold, w, e))
  {
    hide Runnable, Keyed, AgeScript, Creatable;
  }

  // ===== connection events =====

  lemma FlagMade(w: World, db: Backend, info: u32, p: u32, online: i32, place: string)
    requires TasksOk(w) && Keyed(w.db) && IsInfoOf(w.db, info, p) && ContentsOk(w)
    requires db == SetOnline(w.db, info, online, place)
    ensures forall i :: 0 <= i < |w.tasks| ==> MadeOk(db, w.tasks[i])
  {
    hide SetOnline, Evolves, MadeOk, Runnable, LinkedAt, SamePlayer, TracedAt;
    FlagEffect(w.db, info, p, online, place);
    forall i | 0 <= i < |w.tasks|
      ensures MadeOk(db, w.tasks[i])
    {
      var t := w.tasks[i];
      assert TaskOk(w.db, t);
      forall s | s in t.slots && s != Info
        ensures t.slots[s] != info
      {
        assert Holds(w.db, s, t.slots[s]);
        OnlySlot(s, Info);
        InfoType();
      }
      MadeKept(w.db, db, t);
    }
  }

  lemma ConnMade(fold: string -> string, w: World, e: Event)
    requires AllOk(fold, w) && ContentsOk(w) && !OfScript(e) && CanStep(w, e)
    ensures ContentsOk(Step(fold, w, e))
  {
    hide VaultOk, SetOnline, Step, CanStep, MadeOk, InfoChildren, Holds, LinkedIfOnline, Keyed, TasksOk;
    SameTasks(fold, w, e);
    Parts(fold, w);
    if !SetsFlag(w, e) {
      OtherwiseSame(fold, w, e);
    } else {
      var k := w.conns[e.conn];
      assert PhaseOk(w.db, k);
      if e.Commit? {
        CommitIs(fold, w, e.conn);
        ChildIsInfo(w.db, k.phase.player, k.phase.info);
        FlagMade(w, Step(fold, w, e).db, k.phase.info, k.phase.player, 1, "Lobby");
      } else {
        LeaveIs(fold, w, e.conn);
        ChildIsInfo(w.db, k.player.value, k.phase.info);
        FlagMade(w, Step(fold, w, e).db, k.phase.info, k.player.value, 0, "");
      }
    }
  }

  // ===== every run =====

  lemma StepMade(fold: string -> string, w: World, e: Event)
    requires AllOk(fold, w) && ContentsOk(w) && CanStep(w, e)
    ensures ContentsOk(Step(fold, w, e))
  {
    hide AllOk, ContentsOk, Exec, ConnStep, NewAgeTask, NewPlayerTask, CreatePlayer, Runnable, Keyed;
    AllOkVault(fold, w);
    if !OfScript(e) {
      ConnMade(fold, w, e);
    } else if e.StartPlayer? {
      StartPlayerMade(fold, w, e);
    } else if e.StartAge? {
      StartAgeMade(fold, w, e);
    } else if e.task < |w.tasks| {
      AdvanceMade(fold, w, e.task, e.choice);
    }
  }

  lemma {:induction false} RunMade(fold: string -> string, events: seq<Event>, ws: seq<World>, n: nat)
    requires Follows(fold, events, ws) && ws[0] == Start() && n < |ws|
    ensures ContentsOk(ws[n])
    decreases n
  {
    hide MadeOk, AllOk, Step, CanStep;
    if n > 0 {
      RunMade(fold, events, ws, n - 1);
      RunAllOk(fold, events, ws, n - 1);
      StepMade(fold, ws[n - 1], events[n - 1]);
    }
  }

  // ===== the fields, by the source's numbers =====

  lemma BuiltMap(m: map<nat, Value>)
    requires Settable(m)
    ensures AsMap(Built(m)) == m
  {
    hide Has, BuiltTo;
  }

  lemma MadeMap(m: map<nat, Value>, id: u32)
    requires Settable(m)
    ensures AsMap(Set(Built(m), NODE_ID, Word(id))) == m[0 := Word(id)]
  {
    hide Set, Built, AsMap;
    BuiltMap(m);
    SetAsMap(Built(m), NODE_ID, Word(id));
  }

  /** The field is there unless it would be empty. */
  function Unless(skip: bool, k: nat, v: Value): map<nat, Value> {
    if skip then map[] else map[k := v]
  }

  predicate Fields(db: Backend, id: u32, m: map<nat, Value>) {
    id in db.vault && Formed(db.vault[id]) && AsMap(db.vault[id]) == m[0 := Word(id)]
  }

  lemma FieldsAre(db: Backend, id: u32, m: map<nat, Value>)
    requires Settable(m) && id in db.vault && db.vault[id] == Set(Built(m), NODE_ID, Word(id))
    ensures Fields(db, id, m)
  {
    hide Set, Built, AsMap;
    MadeMap(m, id);
  }

  lemma FolderIs(t: i32, creator: bytes, creatorId: u32, kind: i32)
    requires |creator| == 16
    ensures var m := map[5 := Uuid(creator), 6 := Word(creatorId), 7 := Int(t), 8 := Int(kind)];
            Settable(m) && FolderNode(t, creator, creatorId, kind) == Built(m)
  {
    hide Built;
    assert map[5 := Uuid(creator), 6 := Word(creatorId), 7 := Int(t), 8 := Int(kind)]
        == map[7 := Int(t), 5 := Uuid(creator), 6 := Word(creatorId), 8 := Int(kind)];
  }

  lemma InfoIs(creator: bytes, player: u32, name: string)
    requires |creator| == 16
    ensures var m := map[5 := Uuid(creator), 6 := Word(player), 7 := Int(23), 12 := Word(player), 26 := Text(name)];
            Settable(m) && InfoNode(creator, player, name) == Built(m)
  {
    hide Built;
    assert map[5 := Uuid(creator), 6 := Word(player), 7 := Int(23), 12 := Word(player), 26 := Text(name)]
        == map[7 := Int(23), 5 := Uuid(creator), 6 := Word(player), 12 := Word(player), 26 := Text(name)];
  }

  lemma LinkIs(creator: bytes, creatorId: u32, link: bytes)
    requires |creator| == 16
    ensures var m := map[5 := Uuid(creator), 6 := Word(creatorId), 7 := Int(28), 30 := Blob(link)];
            Settable(m) && LinkNode(creator, creatorId, link) == Built(m)
  {
    hide Built;
    assert map[5 := Uuid(creator), 6 := Word(creatorId), 7 := Int(28), 30 := Blob(link)]
        == map[7 := Int(28), 5 := Uuid(creator), 6 := Word(creatorId), 30 := Blob(link)];
  }

  lemma SdlIs(creator: bytes, creatorId: u32, name: string, blob: bytes)
    requires |creator| == 16
    ensures var m := map[5 := Uuid(creator), 6 := Word(creatorId), 7 := Int(27), 20 := Text(name), 30 := Blob(blob)];
            Settable(m) && SdlNode(creator, creatorId, name, blob) == Built(m)
  {
    hide Built;
    assert map[5 := Uuid(creator), 6 := Word(creatorId), 7 := Int(27), 20 := Text(name), 30 := Blob(blob)]
        == map[7 := Int(27), 5 := Uuid(creator), 6 := Word(creatorId), 20 := Text(name), 30 := Blob(blob)];
  }

  lemma PlayerIs(account: bytes, name: string, shape: string)
    requires |account| == 16
    ensures var m := map[5 := Uuid(account), 7 := Int(2), 9 := Int(1), 16 := Uuid(account), 20 := Text(shape),
                         26 := Text(name)];
            Settable(m) && PlayerNode(account, name, shape, 1) == Built(m)
  {
    hide Built;
    assert map[5 := Uuid(account), 7 := Int(2), 9 := Int(1), 16 := Uuid(account), 20 := Text(shape), 26 := Text(name)]
        == map[7 := Int(2), 5 := Uuid(account), 9 := Int(1), 16 := Uuid(account), 20 := Text(shape), 26 := Text(name)];
  }

  function AgeMap(uuid: bytes, parent: bytes, filename: string): map<nat, Value> {
    map[5 := Uuid(uuid), 7 := Int(3), 16 := Uuid(uuid), 20 := Text(filename)]
    + Unless(parent == NIL_UUID, 17, Uuid(parent))
  }

  lemma AgeIs(uuid: bytes, parent: bytes, filename: string)
    requires |uuid| == 16 && |parent| == 16
    ensures Settable(AgeMap(uuid, parent, filename))
    ensures AgeNode(uuid, parent, filename) == Built(AgeMap(uuid, parent, filename))
  {
    hide Built;
    var m := map[7 := Int(3), 5 := Uuid(uuid), 16 := Uuid(uuid), 20 := Text(filename)];
    assert m == map[5 := Uuid(uuid), 7 := Int(3), 16 := Uuid(uuid), 20 := Text(filename)];
    AddUnless(m, parent == NIL_UUID, 17, Uuid(parent));
  }

  /** All but the fields that may be empty. */
  function AgeInfoCore(age: Age, ageId: u32): map<nat, Value> {
    map[7 := Int(33), 6 := Word(ageId), 8 := Int(age.sequence), 9 := Int(if age.public then 1 else 0),
        10 := Int(age.language), 12 := Word(ageId), 13 := Word(0), 14 := Word(0)]
    + map[5 := Uuid(age.uuid), 16 := Uuid(age.uuid), 21 := Text(age.filename)]
  }

  function AgeInfoRest(age: Age): map<nat, Value> {
    Unless(age.parent == NIL_UUID, 17, Uuid(age.parent))
    + Unless(age.instanceName == "", 22, Text(age.instanceName))
    + Unless(age.userName == "", 23, Text(age.userName))
    + Unless(age.description == "", 28, Text(age.description))
  }

  lemma AddUnless(m: map<nat, Value>, skip: bool, k: nat, v: Value)
    requires Settable(m) && k < COUNT && k != NODE_TYPE && HasKind(v, KindOf(k))
    ensures AndUnless(m, skip, k, v) == m + Unless(skip, k, v)
  {
  }

  lemma Joined(a: map<nat, Value>, b: map<nat, Value>, c: map<nat, Value>)
    ensures a + b + c == a + (b + c)
  {
  }

  lemma AgeInfoTexts(age: Age)
    requires |age.uuid| == 16 && |age.parent| == 16
    ensures AgeTexts(age) == map[5 := Uuid(age.uuid), 16 := Uuid(age.uuid), 21 := Text(age.filename)] + AgeInfoRest(age)
  {
    hide AndUnless, Unless;
    var m0 := map[5 := Uuid(age.uuid), 16 := Uuid(age.uuid), 21 := Text(age.filename)];
    var u1 := Unless(age.parent == NIL_UUID, 17, Uuid(age.parent));
    var u2 := Unless(age.instanceName == "", 22, Text(age.instanceName));
    var u3 := Unless(age.userName == "", 23, Text(age.userName));
    var u4 := Unless(age.description == "", 28, Text(age.description));
    AddUnless(m0, age.parent == NIL_UUID, 17, Uuid(age.parent));
    AddUnless(m0 + u1, age.instanceName == "", 22, Text(age.instanceName));
    AddUnless(m0 + u1 + u2, age.userName == "", 23, Text(age.userName));
    AddUnless(m0 + u1 + u2 + u3, age.description == "", 28, Text(age.description));
    Joined(m0, u1, u2);
    Joined(m0, u1 + u2, u3);
    Joined(m0, u1 + u2 + u3, u4);
  }

  lemma AgeInfoMap(age: Age, ageId: u32)
    requires |age.uuid| == 16 && |age.parent| == 16
    ensures AgeNumbers(age, ageId) + AgeTexts(age) == AgeInfoCore(age, ageId) + AgeInfoRest(age)
  {
    hide AgeTexts, AgeInfoRest;
    AgeInfoTexts(age);
    Joined(AgeNumbers(age, ageId), map[5 := Uuid(age.uuid), 16 := Uuid(age.uuid), 21 := Text(age.filename)],
           AgeInfoRest(age));
  }

  lemma AgeInfoIs(age: Age, ageId: u32)
    requires |age.uuid| == 16 && |age.parent| == 16
    ensures var m := AgeInfoCore(age, ageId) + AgeInfoRest(age); Settable(m) && AgeInfoNode(age, ageId) == Built(m)
  {
    hide Built, AgeInfoCore, AgeInfoRest, AgeNumbers, AgeTexts;
    AgeInfoMap(age, ageId);
  }

  // ===== the contents, slot by slot =====

  lemma SlotMade(w: World, i: nat, s: Slot)
    requires ContentsOk(w) && i < |w.tasks| && s in w.tasks[i].slots && Creatable(s) && s != Info
    ensures MadeAt(w.db, w.tasks[i], s)
  {
    hide MadeAt, MadeFor;
    assert MadeOk(w.db, w.tasks[i]);
  }

  lemma CreatorIs(s: Slot)
    requires Creatable(s) && s != AgeSlot
    ensures CreatorOf(s) == Some(if s in PLAYER_SLOTS then Player else AgeSlot)
  {
  }

  function FolderMap(s: Slot, creator: bytes, creatorId: u32): map<nat, Value>
    requires SlotFolder(s).Some?
  {
    map[5 := Uuid(creator), 6 := Word(creatorId), 7 := Int(SlotType(s)), 8 := Int(SlotFolder(s).value)]
  }

  lemma FolderMade(db: Backend, t: Task, s: Slot)
    requires s in t.slots && MadeAt(db, t, s) && SlotFolder(s).Some? && CreatorOf(s).Some?
    ensures var creator := if CreatorOf(s) == Some(Player) then t.job.account else t.job.age.uuid;
            Fields(db, t.slots[s], FolderMap(s, creator, t.slots[CreatorOf(s).value]))
  {
    hide FolderNode, Set, Fields, SlotType, SlotFolder, CreatorOf;
    var creator := if CreatorOf(s) == Some(Player) then t.job.account else t.job.age.uuid;
    var creatorId := t.slots[CreatorOf(s).value];
    FolderIs(SlotType(s), creator, creatorId, SlotFolder(s).value);
    FieldsAre(db, t.slots[s], FolderMap(s, creator, creatorId));
  }

  /** A folder or list names its creator, its type and its kind. */
  predicate FolderHas(db: Backend, t: Task, s: Slot)
    requires s in t.slots && SlotFolder(s).Some?
  {
    if s in PLAYER_SLOTS
    then Player in t.slots && Fields(db, t.slots[s], FolderMap(s, t.job.account, t.slots[Player]))
    else AgeSlot in t.slots && Fields(db, t.slots[s], FolderMap(s, t.job.age.uuid, t.slots[AgeSlot]))
  }

  lemma FolderContents(w: World, i: nat, s: Slot)
    requires ContentsOk(w) && i < |w.tasks| && s in w.tasks[i].slots && Creatable(s) && SlotFolder(s).Some?
    ensures FolderHas(w.db, w.tasks[i], s)
  {
    hide ContentsOk, Fields, SlotType, SlotFolder, CreatorOf, FolderMap, Creatable, NodeFor, Set;
    InfoIsNoFolder();
    AgeIsNoFolder();
    SlotMade(w, i, s);
    CreatorIs(s);
    FolderMade(w.db, w.tasks[i], s);
  }

  lemma AgeIsNoFolder()
    ensures SlotFolder(AgeSlot).None?
  {
  }

  function LinkMap(account: bytes, player: u32, text: bytes): map<nat, Value> {
    map[5 := Uuid(account), 6 := Word(player), 7 := Int(28), 30 := Blob(text)]
  }

  lemma LinkMade(db: Backend, t: Task, s: Slot)
    requires s in t.slots && IsLink(s) && MadeAt(db, t, s) && Player in t.slots
    ensures Fields(db, t.slots[s], LinkMap(t.job.account, t.slots[Player], LinkText(s.CityLink?)))
  {
    hide LinkNode, Set, Fields, LinkText, CreatorOf;
    LinkCreator(s);
    LinkIs(t.job.account, t.slots[Player], LinkText(s.CityLink?));
    FieldsAre(db, t.slots[s], LinkMap(t.job.account, t.slots[Player], LinkText(s.CityLink?)));
  }

  lemma LinkCreator(s: Slot)
    requires IsLink(s)
    ensures CreatorOf(s) == Some(Player) && Creatable(s) && SlotFolder(s).None?
  {
    assert PLAYER_SLOTS[if s.ReltoLink? then 12 else if s.HoodLink? then 13 else 14] == s;
  }

  lemma AgeMade(db: Backend, t: Task)
    requires AgeSlot in t.slots && MadeAt(db, t, AgeSlot)
    ensures Fields(db, t.slots[AgeSlot], AgeMap(t.job.age.uuid, t.job.age.parent, t.job.age.filename))
  {
    hide AgeNode, Set, Fields, AgeMap, CreatorOf;
    AgeIsNoFolder();
    AgeIs(t.job.age.uuid, t.job.age.parent, t.job.age.filename);
    FieldsAre(db, t.slots[AgeSlot], AgeMap(t.job.age.uuid, t.job.age.parent, t.job.age.filename));
  }

  lemma AgePartCreator()
    ensures CreatorOf(AgeInfo) == CreatorOf(AgeSdl) == Some(AgeSlot)
    ensures SlotFolder(AgeInfo).None? && SlotFolder(AgeSdl).None?
    ensures Creatable(AgeInfo) && Creatable(AgeSdl)
  {
    assert AGE_SLOTS[4] == AgeInfo && AGE_SLOTS[7] == AgeSdl;
  }

  lemma AgeInfoMade(db: Backend, t: Task)
    requires AgeSlot in t.slots && AgeInfo in t.slots && MadeAt(db, t, AgeInfo)
    ensures Fields(db, t.slots[AgeInfo], AgeInfoCore(t.job.age, t.slots[AgeSlot]) + AgeInfoRest(t.job.age))
  {
    hide AgeInfoNode, Set, Fields, AgeInfoCore, AgeInfoRest, CreatorOf;
    AgePartCreator();
    AgeInfoIs(t.job.age, t.slots[AgeSlot]);
    FieldsAre(db, t.slots[AgeInfo], AgeInfoCore(t.job.age, t.slots[AgeSlot]) + AgeInfoRest(t.job.age));
  }

  lemma SdlMade(db: Backend, t: Task)
    requires AgeSlot in t.slots && AgeSdl in t.slots && MadeAt(db, t, AgeSdl)
    ensures Fields(db, t.slots[AgeSdl], map[5 := Uuid(t.job.age.uuid), 6 := Word(t.slots[AgeSlot]), 7 := Int(27),
                                            20 := Text(t.job.age.filename), 30 := Blob(t.job.age.sdl)])
  {
    hide SdlNode, Set, Fields, CreatorOf;
    AgePartCreator();
    var age := t.job.age;
    SdlIs(age.uuid, t.slots[AgeSlot], age.filename, age.sdl);
    FieldsAre(db, t.slots[AgeSdl], map[5 := Uuid(age.uuid), 6 := Word(t.slots[AgeSlot]), 7 := Int(27),
                                       20 := Text(age.filename), 30 := Blob(age.sdl)]);
  }

  // ===== a player and an age =====

  /** The nodes of an age, as far as they have been made. */
  ghost predicate AgeContents(db: Backend, t: Task) {
    var age := t.job.age;
    && (AgeSlot in t.slots ==> Fields(db, t.slots[AgeSlot], AgeMap(age.uuid, age.parent, age.filename)))
    && (AgeInfo in t.slots ==>
          AgeSlot in t.slots
          && Fields(db, t.slots[AgeInfo], AgeInfoCore(age, t.slots[AgeSlot]) + AgeInfoRest(age)))
    && (AgeSdl in t.slots ==>
          AgeSlot in t.slots
          && Fields(db, t.slots[AgeSdl], map[5 := Uuid(age.uuid), 6 := Word(t.slots[AgeSlot]), 7 := Int(27),
                                             20 := Text(age.filename), 30 := Blob(age.sdl)]))
  }

  /** Those of a player of this account, name and shape, whose first age has this id. */
  ghost predicate PlayerContents(db: Backend, t: Task, account: bytes, name: string, shape: string, uuid: bytes,
                                 sdl: bytes)
    requires Player in t.slots
  {
    var p := t.slots[Player];
    && t.job.account == account
    && t.job.age == Age(uuid, NIL_UUID, "Personal", "Relto", name + "'s", name + "'s Relto", 0, -1, false, sdl)
    && Fields(db, p, map[5 := Uuid(account), 7 := Int(2), 9 := Int(1), 16 := Uuid(account), 20 := Text(shape),
                         26 := Text(name)])
    && (forall s :: s in t.slots && (s.ReltoLink? || s.HoodLink?) ==>
          Fields(db, t.slots[s], LinkMap(account, p, Latin1("Default:LinkInPointDefault:;"))))
    && (CityLink in t.slots ==>
          Fields(db, t.slots[CityLink], LinkMap(account, p, Latin1("Ferry Terminal:LinkInPointFerry:;"))))
  }

  lemma AgeIsMade(w: World, i: nat)
    requires ContentsOk(w) && i < |w.tasks|
    ensures AgeContents(w.db, w.tasks[i])
  {
    hide ContentsOk, Fields, AgeMap, AgeInfoCore, AgeInfoRest, MadeAt, Creatable;
    var t := w.tasks[i];
    AgeCreatable();
    AgePartCreator();
    if AgeSlot in t.slots {
      SlotMade(w, i, AgeSlot);
      AgeMade(w.db, t);
    }
    if AgeInfo in t.slots {
      SlotMade(w, i, AgeInfo);
      MadeCreator(w.db, t, AgeInfo);
      AgeInfoMade(w.db, t);
    }
    if AgeSdl in t.slots {
      SlotMade(w, i, AgeSdl);
      MadeCreator(w.db, t, AgeSdl);
      SdlMade(w.db, t);
    }
  }

  lemma MadeCreator(db: Backend, t: Task, s: Slot)
    requires s in t.slots && MadeAt(db, t, s)
    ensures CreatorOf(s).Some? ==> CreatorOf(s).value in t.slots
  {
    hide NodeFor, Set, CreatorOf;
  }

  lemma LinksMade(w: World, i: nat, s: Slot)
    requires ContentsOk(w) && i < |w.tasks| && Player in w.tasks[i].slots && IsLink(s) && s in w.tasks[i].slots
    ensures var t := w.tasks[i];
            Fields(w.db, t.slots[s], LinkMap(t.job.account, t.slots[Player], LinkText(s.CityLink?)))
  {
    hide ContentsOk, Fields, MadeAt, Creatable, LinkText;
    LinkCreator(s);
    SlotMade(w, i, s);
    LinkMade(w.db, w.tasks[i], s);
  }

  lemma PlayerFound(w: World, i: nat) returns (account: bytes, name: string, shape: string, uuid: bytes, sdl: bytes)
    requires ContentsOk(w) && i < |w.tasks| && Player in w.tasks[i].slots
    ensures w.tasks[i].job == PlayerJob(account, name, uuid, sdl)
    ensures Fields(w.db, w.tasks[i].slots[Player],
                   map[5 := Uuid(account), 7 := Int(2), 9 := Int(1), 16 := Uuid(account), 20 := Text(shape),
                       26 := Text(name)])
  {
    hide Fields, MadeAt, Creatable, PlayerNode, Set, PlayerJob;
    var t := w.tasks[i];
    var p := t.slots[Player];
    assert MadeOk(w.db, t);
    account, name, shape, uuid, sdl :|
      && |account| == 16 && t.job == PlayerJob(account, name, uuid, sdl)
      && p in w.db.vault && w.db.vault[p] == Set(PlayerNode(account, name, shape, 1), NODE_ID, Word(p));
    PlayerIs(account, name, shape);
    FieldsAre(w.db, p, map[5 := Uuid(account), 7 := Int(2), 9 := Int(1), 16 := Uuid(account), 20 := Text(shape),
                           26 := Text(name)]);
  }

  lemma PlayerIsMade(w: World, i: nat) returns (account: bytes, name: string, shape: string, uuid: bytes, sdl: bytes)
    requires ContentsOk(w) && i < |w.tasks| && Player in w.tasks[i].slots
    ensures PlayerContents(w.db, w.tasks[i], account, name, shape, uuid, sdl)
  {
    hide ContentsOk, Fields, LinkText, Latin1, LinkMap;
    account, name, shape, uuid, sdl := PlayerFound(w, i);
    var t := w.tasks[i];
    forall s | s in t.slots && IsLink(s)
      ensures Fields(w.db, t.slots[s], LinkMap(account, t.slots[Player], LinkText(s.CityLink?)))
    {
      LinksMade(w, i, s);
    }
    LinkTexts();
  }

  lemma LinkTexts()
    ensures LinkText(false) == Latin1("Default:LinkInPointDefault:;")
    ensures LinkText(true) == Latin1("Ferry Terminal:LinkInPointFerry:;")
  {
  }

  /** In every run, the nodes that a script has made have the contents they were made
      with: an age's, and, for a player's script, the player's and those of the player's
      first age. */
  lemma RunContents(fold: string -> string, events: seq<Event>, ws: seq<World>, n: nat, i: nat)
    requires Follows(fold, events, ws) && ws[0] == Start() && n < |ws| && i < |ws[n].tasks|
    ensures AgeContents(ws[n].db, ws[n].tasks[i])
    ensures var t := ws[n].tasks[i];
            forall s :: s in t.slots && Creatable(s) && SlotFolder(s).Some? ==> FolderHas(ws[n].db, t, s)
    ensures Player in ws[n].tasks[i].slots ==>
      exists account, name, shape, uuid, sdl ::
        PlayerContents(ws[n].db, ws[n].tasks[i], account, name, shape, uuid, sdl)
  {
    hide ContentsOk, AgeContents, PlayerContents, Step, CanStep, Start, FolderHas, Creatable, SlotFolder;
    RunMade(fold, events, ws, n);
    AgeIsMade(ws[n], i);
    var t := ws[n].tasks[i];
    forall s | s in t.slots && Creatable(s) && SlotFolder(s).Some?
      ensures FolderHas(ws[n].db, t, s)
    {
      FolderContents(ws[n], i, s);
    }
    if Player in ws[n].tasks[i].slots {
      var account, name, shape, uuid, sdl := PlayerIsMade(ws[n], i);
    }
  }

  // ===== the initial vault =====

  /** A new node has the fields of the node it was made from and its id. */
  lemma NewFields(db: Backend, m: map<nat, Value>)
    requires Keyed(db) && Settable(m) && db.nodeIndex + 1 < U32_LIMIT
    ensures var db' := CreateNode(db, Built(m)).0;
            && Fields(db', db.nodeIndex, m)
            && forall id, m' :: Fields(db, id, m') ==> Fields(db', id, m')
  {
    hide Set, Built, AsMap;
    FieldsAre(CreateNode(db, Built(m)).0, db.nodeIndex, m);
  }

  /** The vault begins with a System node, the global inbox below it, and the list of all
      players. */
  lemma InitContents()
    ensures var db := InitVault();
            && db.refs == {NodeRef(1000, 1001, 0)} && db.nodeIndex == 1003 && db.players == map[]
            && Fields(db, 1000, map[7 := Int(24)])
            && Fields(db, 1001, map[5 := Uuid(NIL_UUID), 6 := Word(0), 7 := Int(22), 8 := Int(30)])
            && Fields(db, 1002, map[5 := Uuid(NIL_UUID), 6 := Word(0), 7 := Int(30), 8 := Int(12)])
  {
    hide Built, Fields, Keyed, CreateNode, Set;
    FreshKeyed();
    var inbox := map[5 := Uuid(NIL_UUID), 6 := Word(0), 7 := Int(22), 8 := Int(30)];
    var list := map[5 := Uuid(NIL_UUID), 6 := Word(0), 7 := Int(30), 8 := Int(12)];
    FolderIs(22, NIL_UUID, 0, 30);
    FolderIs(30, NIL_UUID, 0, 12);
    NewFields(Fresh(), map[7 := Int(24)]);
    NewNode(Fresh(), Built(map[7 := Int(24)]));
    var db1 := CreateNode(Fresh(), Built(map[7 := Int(24)])).0;
    NewFields(db1, inbox);
    NewNode(db1, Built(inbox));
    var db2 := CreateNode(db1, Built(inbox)).0;
    var db3 := db2.(refs := db2.refs + {NodeRef(1000, 1001, 0)});
    RefFields(db2, NodeRef(1000, 1001, 0));
    NewFields(db3, list);
    NewNode(db3, Built(list));
  }

  lemma RefFields(db: Backend, r: NodeRef)
    requires Keyed(db)
    ensures var db' := db.(refs := db.refs + {r});
            Keyed(db') && forall id, m :: Fields(db, id, m) ==> Fields(db', id, m)
  {
    hide AsMap;
    var db' := db.(refs := db.refs + {r});
    forall id | id in db'.vault
      ensures KeyedAt(db', id)
    {
      assert KeyedAt(db, id);
    }
  }

  // ===== going on and off line =====

  lemma OnlineIs(id: u32, online: i32, place: string)
    ensures AsMap(OnlineUpdate(id, online, place, NIL_UUID))
         == map[0 := Word(id), 8 := Int(online), 20 := Text(place), 16 := Uuid(NIL_UUID)]
  {
    hide Built, AsMap;
    BuiltMap(map[0 := Word(id), 8 := Int(online), 20 := Text(place), 16 := Uuid(NIL_UUID)]);
  }

  /** The info node with its flag, its place and no age. */
  predicate Placed(db: Backend, db': Backend, info: u32, online: i32, place: string) {
    && info in db.vault && Formed(db.vault[info]) && info in db'.vault && Formed(db'.vault[info])
    && AsMap(db'.vault[info])
       == AsMap(db.vault[info]) + map[8 := Int(online), 20 := Text(place),
                                      16 := Uuid([0, 0, 0, 0, 0, 0, 0, 0, 0, 0, 0, 0, 0, 0, 0, 0])]
    && forall id :: id in db.vault && id != info ==> id in db'.vault && db'.vault[id] == db.vault[id]
  }

  lemma FlagPlaces(db: Backend, info: u32, p: u32, online: i32, place: string)
    requires Keyed(db) && IsInfoOf(db, info, p)
    ensures Placed(db, SetOnline(db, info, online, place), info, online, place)
  {
    hide Updated, AsMap, OnlineUpdate;
    assert KeyedAt(db, info);
    var update := OnlineUpdate(info, online, place, NIL_UUID);
    OnlineIs(info, online, place);
    UpdateOverrides(db.vault[info], update);
    assert AsMap(update) - {NODE_ID} == map[8 := Int(online), 20 := Text(place), 16 := Uuid(NIL_UUID)];
  }

  /** Completing a selection puts the player in the lobby; leaving, nowhere. */
  lemma SessionPlaces(fold: string -> string, w: World, c: nat)
    requires AllOk(fold, w) && c in w.conns
    ensures w.conns[c].phase.Seen? && CanStep(w, Commit(c)) ==>
      Placed(w.db, Step(fold, w, Commit(c)).db, w.conns[c].phase.info, 1, "Lobby")
    ensures w.conns[c].phase.Leaving? && CanStep(w, Leave(c)) ==>
      Placed(w.db, Step(fold, w, Leave(c)).db, w.conns[c].phase.info, 0, "")
  {
    hide VaultOk, SetOnline, Step, CanStep, InfoChildren, Holds, LinkedIfOnline, Keyed, Placed;
    var k := w.conns[c];
    assert PhaseOk(w.db, k);
    if k.phase.Seen? && CanStep(w, Commit(c)) {
      CommitIs(fold, w, c);
      ChildIsInfo(w.db, k.phase.player, k.phase.info);
      FlagPlaces(w.db, k.phase.info, k.phase.player, 1, "Lobby");
    }
    if k.phase.Leaving? && CanStep(w, Leave(c)) {
      LeaveIs(fold, w, c);
      ChildIsInfo(w.db, k.player.value, k.phase.info);
      FlagPlaces(w.db, k.phase.info, k.player.value, 0, "");
    }
  }
}
