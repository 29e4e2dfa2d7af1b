/** What a finished script of src/auth_srv/vault_helpers.rs leaves behind: the folders of
    a new player and of a new age, by the numbers of src/vault/vnode_access.rs. */
module VaultShape {
  import opened Prim
  import opened VaultNode
  import opened VaultDb
  import opened VaultScripts
  import opened VaultRefs
  import opened VaultWorld
  import opened VaultSessions
  import opened VaultRuns
  import opened VaultGraph

  // ===== the links of the scripts =====

  lemma {:induction false} LinkIn(pairs: seq<(Slot, Slot)>, x: Instr)
    ensures x in Links(pairs) <==> x.Link? && !x.owned && (x.parent, x.child) in pairs
  {
    if pairs != [] {
      LinkIn(pairs[1..], x);
    }
  }

  lemma {:induction false} CreateIn(slots: seq<Slot>, x: Instr)
    ensures x in Creates(slots) <==> x.Create? && x.slot in slots
  {
    if slots != [] {
      CreateIn(slots[1..], x);
    }
  }

  lemma InAge(owned: bool, tail: seq<Instr>, x: Instr)
    ensures x in AgeScript(owned, tail) <==>
              || (x.Create? && x.slot in AGE_SLOTS) || x.FindSystem?
              || (x.Link? && !x.owned && (x.parent, x.child) in AGE_LINKS)
              || (owned && x == Link(AgeOwners, Info, true)) || x in tail
  {
    hide Creates, Links;
    LinkIn(AGE_LINKS, x);
    CreateIn(AGE_SLOTS, x);
  }

  lemma InPlayer(x: Instr)
    ensures x in PlayerScript() <==>
              || (x.Create? && (x.slot in PLAYER_SLOTS || x.slot in AGE_SLOTS)) || x.FindSystem? || x.FindAllPlayers?
              || (x.Link? && !x.owned && ((x.parent, x.child) in AGE_LINKS || (x.parent, x.child) in PLAYER_LINKS))
              || x == Link(AgeOwners, Info, true) || x == Link(AllPlayers, Info, false)
  {
    hide Creates, Links, AgeScript;
    InAge(true, PlayerTail(), x);
    LinkIn(PLAYER_LINKS, x);
    CreateIn(PLAYER_SLOTS, x);
  }

  // ===== the children of one node =====

  predicate IsChild(db: Backend, parent: u32, id: u32) {
    exists r :: r in db.refs && r.parent == parent && r.child == id
  }

  /** A child of this node type, and of this folder kind if one is given. */
  predicate Kid(db: Backend, parent: u32, id: u32, t: i32, kind: Option<i32>) {
    && IsChild(db, parent, id) && id in db.vault && Formed(db.vault[id])
    && db.vault[id].values[NODE_TYPE] == Int(t) && (kind.Some? ==> db.vault[id].values[INT32_1] == Int(kind.value))
  }

  ghost predicate OneKid(db: Backend, parent: u32, t: i32, kind: Option<i32>) {
    exists id :: Kid(db, parent, id, t, kind) && forall other :: Kid(db, parent, other, t, kind) ==> other == id
  }

  /** The task has run to its end. */
  ghost predicate Ended(w: World, i: nat) {
    i < |w.tasks| && w.tasks[i].pc == |w.tasks[i].code| && TasksOk(w) && GraphOk(w)
  }

  lemma EndedEffect(w: World, i: nat, x: Instr)
    requires Ended(w, i) && x in w.tasks[i].code
    ensures Effected(w.db, w.tasks[i], x)
  {
    hide Effected, TasksOk, Lone, Apart, Traced, PlayerScript, AgeScript;
    var t := w.tasks[i];
    var k :| 0 <= k < |t.code| && t.code[k] == x;
    assert Worked(w.db, t);
  }

  lemma LinkedChild(w: World, i: nat, p: Slot, c: Slot, owned: bool)
    requires Ended(w, i) && Link(p, c, owned) in w.tasks[i].code
    ensures var t := w.tasks[i]; p in t.slots && c in t.slots && IsChild(w.db, t.slots[p], t.slots[c])
  {
    hide TasksOk, GraphOk;
    EndedEffect(w, i, Link(p, c, owned));
  }

  /** Nodes that a query can find are named by no other slot. */
  lemma FoundOnly(db: Backend, s: Slot, id: u32)
    requires Holds(db, s, id) && (Creatable(s) || s == Player)
    ensures !Holds(db, System, id) && !Holds(db, AllPlayers, id)
  {
    hide Creatable, Suits;
    NoQueryFinds(s, db.vault[id]);
  }

  /** The children of a node that a script has named are those that it has linked. */
  lemma ChildLinked(w: World, i: nat, p: Slot, id: u32) returns (c: Slot, owned: bool)
    requires Ended(w, i) && (Creatable(p) || p == Player) && p in w.tasks[i].slots
    requires IsChild(w.db, w.tasks[i].slots[p], id) && Holds(w.db, System, SYSTEM_ID)
    ensures Link(p, c, owned) in w.tasks[i].code && c in w.tasks[i].slots && w.tasks[i].slots[c] == id
  {
    hide Creatable, Holds, TasksOk, Lone, PlayerScript, AgeScript, Worked;
    var t := w.tasks[i];
    var r :| r in w.db.refs && r.parent == t.slots[p] && r.child == id;
    NamedHolds(w, i, p);
    FoundOnly(w.db, p, t.slots[p]);
    MadeSlot(p);
    assert Traced(w.tasks, r);
    var j, k :| MadeBy(w.tasks, j, k, r);
    var x := w.tasks[j].code[k];
    NamedHolds(w, j, x.parent);
    assert Names(t, p, r.parent) && Names(w.tasks[j], x.parent, r.parent);
    c, owned := x.child, x.owned;
  }

  lemma MadeSlot(s: Slot)
    requires Creatable(s) || s == Player
    ensures Made(s)
  {
  }

  lemma KidOfSlot(db: Backend, parent: u32, c: Slot, id: u32)
    requires IsChild(db, parent, id) && Holds(db, c, id)
    ensures Kid(db, parent, id, SlotType(c), SlotFolder(c))
    ensures forall t, kind :: Kid(db, parent, id, t, kind) ==>
      t == SlotType(c) && (kind.Some? && SlotFolder(c).Some? ==> kind == SlotFolder(c))
  {
    hide SlotType, SlotFolder, IsChild;
  }

  lemma SlotHolds(w: World, i: nat, s: Slot)
    requires Ended(w, i) && s in w.tasks[i].slots
    ensures Holds(w.db, s, w.tasks[i].slots[s])
  {
    hide TasksOk, GraphOk, Holds;
    NamedHolds(w, i, s);
  }

  lemma KidIsChild(db: Backend, parent: u32, id: u32, t: i32, kind: Option<i32>)
    requires Kid(db, parent, id, t, kind)
    ensures IsChild(db, parent, id)
  {
  }

  lemma FolderOrNot(c: Slot, d: Slot)
    ensures SlotType(c) == SlotType(d) ==> (SlotFolder(c).Some? <==> SlotFolder(d).Some?)
  {
  }

  // ===== which slots are linked =====

  predicate PlayerChild(c: Slot) {
    || c.System? || c.Info? || c.BuddyList? || c.IgnoreList? || c.InviteFolder? || c.OwnedAges? || c.JournalsFolder?
    || c.ChronicleFolder? || c.VisitAges? || c.OutfitFolder? || c.ClosetFolder? || c.Inbox? || c.PeopleList?
  }

  predicate AgeChild(c: Slot) {
    c.System? || c.AgeChronicle? || c.AgePeople? || c.SubAges? || c.AgeInfo? || c.DevicesFolder?
  }

  predicate AgeInfoChild(c: Slot) {
    c.CanVisit? || c.AgeSdl? || c.AgeOwners? || c.ChildAges?
  }

  /** The links of the two scripts. */
  predicate Linked(player: bool, p: Slot, c: Slot) {
    match p
    case Player => player && PlayerChild(c)
    case AgeSlot => AgeChild(c) || (player && c.OwnedAges?)
    case AgeInfo => AgeInfoChild(c)
    case OwnedAges => player && IsLink(c)
    case ReltoLink => player && c.AgeInfo?
    case AgeOwners => player && c.Info?
    case AllPlayers => player && c.Info?
    case _ => false
  }

  lemma AgeListed(k: nat)
    requires k < |AGE_LINKS|
    ensures var (p, c) := AGE_LINKS[k]; (p == AgeSlot && AgeChild(c)) || (p == AgeInfo && AgeInfoChild(c))
  {
  }

  lemma PlayerListed(k: nat)
    requires k < |PLAYER_LINKS|
    ensures Linked(true, PLAYER_LINKS[k].0, PLAYER_LINKS[k].1)
  {
  }

  lemma AgePairs(p: Slot, c: Slot)
    ensures (p, c) in AGE_LINKS <==> (p == AgeSlot && AgeChild(c)) || (p == AgeInfo && AgeInfoChild(c))
  {
    hide AgeChild, AgeInfoChild;
    if (p, c) in AGE_LINKS {
      var k :| 0 <= k < |AGE_LINKS| && AGE_LINKS[k] == (p, c);
      AgeListed(k);
    }
    AgeHas(c);
  }

  lemma AgeHas(c: Slot)
    ensures AgeChild(c) ==> (AgeSlot, c) in AGE_LINKS
    ensures AgeInfoChild(c) ==> (AgeInfo, c) in AGE_LINKS
  {
    var k := if c.System? then 0 else if c.AgeChronicle? then 1 else if c.AgePeople? then 2 else if c.SubAges? then 3
             else if c.AgeInfo? then 4 else if c.DevicesFolder? then 5 else if c.CanVisit? then 6
             else if c.AgeSdl? then 7 else if c.AgeOwners? then 8 else 9;
    assert AgeChild(c) ==> AGE_LINKS[k] == (AgeSlot, c);
    assert AgeInfoChild(c) ==> AGE_LINKS[k] == (AgeInfo, c);
  }

  lemma PlayerHas(c: Slot)
    requires PlayerChild(c)
    ensures (Player, c) in PLAYER_LINKS
  {
    var k :=
      if c.System? then 0 else if c.Info? then 1 else if c.BuddyList? then 2 else if c.IgnoreList? then 3
      else if c.InviteFolder? then 4 else if c.OwnedAges? then 5 else if c.JournalsFolder? then 6
      else if c.ChronicleFolder? then 7 else if c.VisitAges? then 8 else if c.OutfitFolder? then 9
      else if c.ClosetFolder? then 10 else if c.Inbox? then 11 else 12;
    assert PLAYER_LINKS[k] == (Player, c);
  }

  lemma ReltoHas(c: Slot)
    ensures IsLink(c) ==> (OwnedAges, c) in PLAYER_LINKS
    ensures (ReltoLink, AgeInfo) in PLAYER_LINKS && (AgeSlot, OwnedAges) in PLAYER_LINKS
  {
    var k := if c.ReltoLink? then 13 else if c.HoodLink? then 14 else 15;
    assert IsLink(c) ==> PLAYER_LINKS[k] == (OwnedAges, c);
    assert PLAYER_LINKS[16] == (ReltoLink, AgeInfo) && PLAYER_LINKS[17] == (AgeSlot, OwnedAges);
  }

  lemma PlayerPairs(p: Slot, c: Slot)
    ensures (p, c) in PLAYER_LINKS ==> Linked(true, p, c)
    ensures Linked(true, p, c) ==>
      (p, c) in PLAYER_LINKS || (p, c) in AGE_LINKS || (p, c) == (AgeOwners, Info) || (p, c) == (AllPlayers, Info)
  {
    hide PlayerChild, AgeChild, AgeInfoChild, IsLink;
    if (p, c) in PLAYER_LINKS {
      var k :| 0 <= k < |PLAYER_LINKS| && PLAYER_LINKS[k] == (p, c);
      PlayerListed(k);
    }
    if PlayerChild(c) {
      PlayerHas(c);
    }
    ReltoHas(c);
    AgeHas(c);
  }

  function Code(player: bool): seq<Instr> {
    if player then PlayerScript() else AgeScript(false, [])
  }

  /** The links in the code; only the one to the owner has an owner. */
  lemma LinkedIff(player: bool, x: Instr)
    requires x.Link?
    ensures x in Code(player) <==> Linked(player, x.parent, x.child) && x.owned == (x.parent == AgeOwners)
  {
    hide PlayerScript, AgeScript, PlayerChild, AgeChild, AgeInfoChild;
    AgePairs(x.parent, x.child);
    if player {
      InPlayer(x);
      PlayerPairs(x.parent, x.child);
      NoOwnerListed(x.child);
    } else {
      InAge(false, [], x);
    }
  }

  lemma NoOwnerListed(c: Slot)
    ensures (AgeOwners, c) !in PLAYER_LINKS && (AllPlayers, c) !in PLAYER_LINKS
  {
    if p, k :| (p == AgeOwners || p == AllPlayers) && 0 <= k < |PLAYER_LINKS| && PLAYER_LINKS[k] == (p, c) {
      NoOwnerAt(k);
      assert false;
    }
  }

  lemma NoOwnerAt(k: nat)
    requires k < |PLAYER_LINKS|
    ensures PLAYER_LINKS[k].0 != AgeOwners && PLAYER_LINKS[k].0 != AllPlayers
  {
  }

  // ===== what a finished script has linked =====

  lemma EndedCode(w: World, i: nat)
    requires Ended(w, i)
    ensures w.tasks[i].code == Code(Player in w.tasks[i].slots)
  {
    hide PlayerScript, AgeScript, TasksOk, Lone, Apart, Traced, Worked;
    assert CodeOk(w.tasks[i]);
  }

  /** The children of each node that the script has made are exactly those it linked. */
  lemma ChildrenAre(w: World, i: nat, p: Slot, id: u32)
    requires Ended(w, i) && Holds(w.db, System, SYSTEM_ID) && p in w.tasks[i].slots && (Creatable(p) || p == Player)
    ensures var t := w.tasks[i];
            IsChild(w.db, t.slots[p], id) <==>
              exists c :: c in t.slots && t.slots[c] == id && Linked(Player in t.slots, p, c)
  {
    hide TasksOk, GraphOk, Holds, IsChild, Creatable, Linked, Code;
    var t := w.tasks[i];
    var player := Player in t.slots;
    EndedCode(w, i);
    if IsChild(w.db, t.slots[p], id) {
      var c, owned := ChildLinked(w, i, p, id);
      LinkedIff(player, Link(p, c, owned));
    }
    if c :| c in t.slots && t.slots[c] == id && Linked(player, p, c) {
      LinkedIff(player, Link(p, c, p == AgeOwners));
      LinkedChild(w, i, p, c, p == AgeOwners);
    }
  }

  predicate OfAge(s: Slot) {
    s.AgeSlot? || (AgeChild(s) && !s.System?) || AgeInfoChild(s)
  }

  predicate OfPlayer(s: Slot) {
    (PlayerChild(s) && !s.System?) || IsLink(s)
  }

  lemma AgeSlotAt(k: nat)
    requires k < |AGE_SLOTS|
    ensures OfAge(AGE_SLOTS[k])
  {
  }

  lemma OfAgeIff(s: Slot)
    ensures s in AGE_SLOTS <==> OfAge(s)
  {
    hide OfAge;
    if s in AGE_SLOTS {
      var k :| 0 <= k < |AGE_SLOTS| && AGE_SLOTS[k] == s;
      AgeSlotAt(k);
    }
    if OfAge(s) {
      OfAgeListed(s);
    }
  }

  lemma OfAgeListed(s: Slot)
    requires OfAge(s)
    ensures s in AGE_SLOTS
  {
    var k := if s.AgeSlot? then 0 else if s.AgeChronicle? then 1 else if s.AgePeople? then 2 else if s.SubAges? then 3
             else if s.AgeInfo? then 4 else if s.DevicesFolder? then 5 else if s.CanVisit? then 6
             else if s.AgeSdl? then 7 else if s.AgeOwners? then 8 else 9;
    assert AGE_SLOTS[k] == s;
  }

  lemma PlayerSlotAt(k: nat)
    requires k < |PLAYER_SLOTS|
    ensures OfPlayer(PLAYER_SLOTS[k])
  {
  }

  lemma OfPlayerIff(s: Slot)
    ensures s in PLAYER_SLOTS <==> OfPlayer(s)
  {
    hide OfPlayer;
    if s in PLAYER_SLOTS {
      var k :| 0 <= k < |PLAYER_SLOTS| && PLAYER_SLOTS[k] == s;
      PlayerSlotAt(k);
    }
    if OfPlayer(s) {
      OfPlayerListed(s);
    }
  }

  lemma OfPlayerListed(s: Slot)
    requires OfPlayer(s)
    ensures s in PLAYER_SLOTS
  {
    var k := if s.Info? then 0 else if s.BuddyList? then 1 else if s.IgnoreList? then 2 else if s.InviteFolder? then 3
             else if s.OwnedAges? then 4 else if s.JournalsFolder? then 5 else if s.ChronicleFolder? then 6
             else if s.VisitAges? then 7 else if s.OutfitFolder? then 8 else if s.ClosetFolder? then 9
             else if s.Inbox? then 10 else if s.PeopleList? then 11 else if s.ReltoLink? then 12
             else if s.HoodLink? then 13 else 14;
    assert PLAYER_SLOTS[k] == s;
  }

  lemma CreatableIff(s: Slot)
    ensures Creatable(s) <==> OfAge(s) || OfPlayer(s)
  {
    hide OfAge, OfPlayer;
    OfAgeIff(s);
    OfPlayerIff(s);
  }

  /** The slots that a finished script has filled. */
  predicate Fills(player: bool, s: Slot) {
    player || OfAge(s) || s.System?
  }

  lemma Filling(player: bool, s: Slot)
    requires Fills(player, s) && s != Player
    ensures Create(s) in Code(player) || (s == System && FindSystem in Code(player))
                                      || (s == AllPlayers && FindAllPlayers in Code(player))
  {
    hide PlayerScript, AgeScript;
    OfAgeIff(s);
    OfPlayerIff(s);
    if player {
      InPlayer(Create(s));
      InPlayer(FindSystem);
      InPlayer(FindAllPlayers);
    } else {
      InAge(false, [], Create(s));
      InAge(false, [], FindSystem);
    }
  }

  lemma EndedFills(w: World, i: nat, s: Slot)
    requires Ended(w, i) && Fills(Player in w.tasks[i].slots, s)
    ensures s in w.tasks[i].slots
  {
    hide TasksOk, GraphOk, Code, Fills;
    var player := Player in w.tasks[i].slots;
    if s == Player {
      OnlyPlayers(player);
    } else {
      Filling(player, s);
      EndedCode(w, i);
      if Create(s) in Code(player) {
        EndedEffect(w, i, Create(s));
      } else if s == System {
        EndedEffect(w, i, FindSystem);
      } else {
        EndedEffect(w, i, FindAllPlayers);
      }
    }
  }

  lemma OnlyPlayers(player: bool)
    requires Fills(player, Player)
    ensures player
  {
  }

  // ===== by type and kind =====

  /** Among the children of one node, type and kind tell the slots apart. */
  lemma KindsDiffer(player: bool, p: Slot, c: Slot, d: Slot)
    requires p == Player || p == AgeSlot || p == AgeInfo
    requires Linked(player, p, c) && Linked(player, p, d)
    requires SlotType(c) == SlotType(d) && SlotFolder(c) == SlotFolder(d)
    ensures c == d
  {
  }

  lemma OneKidOf(w: World, i: nat, p: Slot, c: Slot)
    requires Ended(w, i) && Holds(w.db, System, SYSTEM_ID) && p in w.tasks[i].slots
    requires (p == Player || p == AgeSlot || p == AgeInfo) && Linked(Player in w.tasks[i].slots, p, c)
    requires c in w.tasks[i].slots
    ensures OneKid(w.db, w.tasks[i].slots[p], SlotType(c), SlotFolder(c))
  {
    hide TasksOk, GraphOk, Creatable, Holds, SlotType, SlotFolder, Kid, IsChild, Linked;
    var t := w.tasks[i];
    ParentCreatable(p);
    ChildrenAre(w, i, p, t.slots[c]);
    SlotHolds(w, i, c);
    KidOfSlot(w.db, t.slots[p], c, t.slots[c]);
    forall other | Kid(w.db, t.slots[p], other, SlotType(c), SlotFolder(c))
      ensures other == t.slots[c]
    {
      KidIsChild(w.db, t.slots[p], other, SlotType(c), SlotFolder(c));
      ChildrenAre(w, i, p, other);
      var d :| d in t.slots && t.slots[d] == other && Linked(Player in t.slots, p, d);
      SlotHolds(w, i, d);
      KidOfSlot(w.db, t.slots[p], d, other);
      FolderOrNot(c, d);
      KindsDiffer(Player in t.slots, p, c, d);
    }
  }

  lemma ParentCreatable(p: Slot)
    requires p == Player || p == AgeSlot || p == AgeInfo
    ensures Creatable(p) || p == Player
  {
    hide Creatable;
    CreatableIff(p);
  }

  /** A child of the node has a type and kind from the table. */
  lemma ChildKind(w: World, i: nat, p: Slot, id: u32) returns (c: Slot)
    requires Ended(w, i) && Holds(w.db, System, SYSTEM_ID) && p in w.tasks[i].slots
    requires (p == Player || p == AgeSlot || p == AgeInfo) && IsChild(w.db, w.tasks[i].slots[p], id)
    ensures Linked(Player in w.tasks[i].slots, p, c) && Kid(w.db, w.tasks[i].slots[p], id, SlotType(c), SlotFolder(c))
  {
    hide TasksOk, GraphOk, Creatable, Holds, SlotType, SlotFolder, Kid, IsChild, Linked;
    var t := w.tasks[i];
    ParentCreatable(p);
    ChildrenAre(w, i, p, id);
    c :| c in t.slots && t.slots[c] == id && Linked(Player in t.slots, p, c);
    SlotHolds(w, i, c);
    KidOfSlot(w.db, t.slots[p], c, id);
  }

  // ===== the tables, by the source's numbers =====

  /** The direct children of a Player node: node type, and folder kind where there is one. */
  predicate PlayerKind(t: i32, kind: Option<i32>) {
    || (t == 22 && kind.Some? && kind.value in {1, 6, 7, 14, 25, 28})
    || (t == 30 && kind.Some? && kind.value in {2, 3, 4})
    || (t == 34 && kind.Some? && kind.value in {23, 24})
    || (t == 23 && kind.None?) || (t == 24 && kind.None?)
  }

  /** Those of an Age node; that of a player's first age has the list of owned ages too. */
  predicate AgeKind(player: bool, t: i32, kind: Option<i32>) {
    || (t == 22 && kind.Some? && kind.value in {6, 15})
    || (t == 30 && kind == Some(4))
    || (t == 34 && (kind == Some(9) || (player && kind == Some(23))))
    || (t == 33 && kind.None?) || (t == 24 && kind.None?)
  }

  /** Those of an AgeInfo node. */
  predicate AgeInfoKind(t: i32, kind: Option<i32>) {
    || (t == 30 && kind.Some? && kind.value in {18, 19})
    || (t == 34 && kind == Some(31))
    || (t == 27 && kind.None?)
  }

  predicate Table(player: bool, p: Slot, t: i32, kind: Option<i32>) {
    match p
    case Player => player && PlayerKind(t, kind)
    case AgeSlot => AgeKind(player, t, kind)
    case AgeInfo => AgeInfoKind(t, kind)
    case _ => false
  }

  lemma InTable(player: bool, p: Slot, c: Slot)
    requires (p == Player || p == AgeSlot || p == AgeInfo) && Linked(player, p, c)
    ensures Table(player, p, SlotType(c), SlotFolder(c))
  {
  }

  lemma FromTable(player: bool, p: Slot, t: i32, kind: Option<i32>) returns (c: Slot)
    requires Table(player, p, t, kind)
    ensures p == Player || p == AgeSlot || p == AgeInfo
    ensures Linked(player, p, c) && SlotType(c) == t && SlotFolder(c) == kind
  {
    if p.Player? {
      c := FromPlayerTable(t, kind);
    } else if p.AgeSlot? {
      c := if t == 22 then (if kind == Some(6) then AgeChronicle else DevicesFolder)
           else if t == 30 then AgePeople
           else if t == 34 then (if kind == Some(9) then SubAges else OwnedAges)
           else if t == 33 then AgeInfo else System;
    } else {
      c := if t == 30 then (if kind == Some(18) then CanVisit else AgeOwners)
           else if t == 34 then ChildAges else AgeSdl;
    }
  }

  lemma FromPlayerTable(t: i32, kind: Option<i32>) returns (c: Slot)
    requires PlayerKind(t, kind)
    ensures PlayerChild(c) && SlotType(c) == t && SlotFolder(c) == kind
  {
    c := if t == 23 then Info
         else if t == 24 then System
         else if kind == Some(1) then Inbox
         else if kind == Some(2) then BuddyList
         else if kind == Some(3) then IgnoreList
         else if kind == Some(4) then PeopleList
         else if kind == Some(6) then ChronicleFolder
         else if kind == Some(7) then OutfitFolder
         else if kind == Some(14) then JournalsFolder
         else if kind == Some(23) then OwnedAges
         else if kind == Some(24) then VisitAges
         else if kind == Some(25) then ClosetFolder
         else InviteFolder;
  }

  lemma LinkedFilled(player: bool, p: Slot, c: Slot)
    requires (p == Player || p == AgeSlot || p == AgeInfo) && Linked(player, p, c)
    ensures Fills(player, c)
  {
  }

  /** The node has exactly one child of each type and kind in the table, and no other. */
  ghost predicate Furnished(db: Backend, id: u32, player: bool, p: Slot) {
    && (forall t, kind :: Table(player, p, t, kind) ==> OneKid(db, id, t, kind))
    && (forall child :: IsChild(db, id, child) ==>
          exists t, kind :: Table(player, p, t, kind) && Kid(db, id, child, t, kind))
  }

  lemma EndedFurnished(w: World, i: nat, p: Slot)
    requires Ended(w, i) && Holds(w.db, System, SYSTEM_ID) && p in w.tasks[i].slots
    requires p == Player || p == AgeSlot || p == AgeInfo
    ensures Furnished(w.db, w.tasks[i].slots[p], Player in w.tasks[i].slots, p)
  {
    hide TasksOk, GraphOk, Holds, SlotType, SlotFolder, Kid, IsChild, Linked, Table, OneKid, Fills;
    var player, id := Player in w.tasks[i].slots, w.tasks[i].slots[p];
    forall t, kind | Table(player, p, t, kind)
      ensures OneKid(w.db, id, t, kind)
    {
      var c := FromTable(player, p, t, kind);
      LinkedFilled(player, p, c);
      EndedFills(w, i, c);
      OneKidOf(w, i, p, c);
    }
    forall child | IsChild(w.db, id, child)
      ensures exists t, kind :: Table(player, p, t, kind) && Kid(w.db, id, child, t, kind)
    {
      var c := ChildKind(w, i, p, child);
      InTable(player, p, c);
    }
  }

  // ===== everything can be reached =====

  ghost predicate Reached(db: Backend, root: u32, id: u32) {
    exists path :: IsPath(db.refs, root, path) && ReturnsTo(path, id)
  }

  lemma ChildReached(db: Backend, root: u32, id: u32)
    requires IsChild(db, root, id)
    ensures Reached(db, root, id)
  {
    var r :| r in db.refs && r.parent == root && r.child == id;
    assert IsPath(db.refs, root, [r]) && ReturnsTo([r], id);
  }

  lemma GrandchildReached(db: Backend, root: u32, mid: u32, id: u32)
    requires IsChild(db, root, mid) && IsChild(db, mid, id)
    ensures Reached(db, root, id)
  {
    var r :| r in db.refs && r.parent == root && r.child == mid;
    var q :| q in db.refs && q.parent == mid && q.child == id;
    assert [r, q][1..] == [q] && IsPath(db.refs, mid, [q]);
    assert IsPath(db.refs, root, [r, q]) && ReturnsTo([r, q], id);
  }

  /** The node above a slot, and the root that this one hangs from. */
  function Above(s: Slot): Slot {
    if IsLink(s) then OwnedAges
    else if AgeInfoChild(s) then AgeInfo
    else if AgeChild(s) && !s.System? then AgeSlot
    else Player
  }

  predicate IsRoot(s: Slot) {
    s.Player? || s.AgeSlot?
  }

  lemma AboveLinked(player: bool, s: Slot)
    requires Fills(player, s) && Creatable(s) && s != AgeSlot
    ensures Linked(player, Above(s), s) && Fills(player, Above(s))
    ensures Creatable(Above(s)) || Above(s) == Player
    ensures !IsRoot(Above(s)) ==>
      var root := Above(Above(s));
      Linked(player, root, Above(s)) && IsRoot(root) && Fills(player, root) && (Creatable(root) || root == Player)
  {
    hide Creatable;
    CreatableIff(s);
    CreatableIff(Above(s));
    CreatableIff(Above(Above(s)));
  }

  /** Every node that a finished script created, but the Age node itself, can be reached
      from the Player node or from the Age node. */
  lemma EndedReached(w: World, i: nat, s: Slot)
    requires Ended(w, i) && Holds(w.db, System, SYSTEM_ID) && s in w.tasks[i].slots && Creatable(s) && s != AgeSlot
    requires Fills(Player in w.tasks[i].slots, s)
    ensures var t := w.tasks[i];
            exists root :: root in t.slots && IsRoot(root) && Reached(w.db, t.slots[root], t.slots[s])
  {
    hide TasksOk, GraphOk, Holds, IsChild, Linked, Fills, Above, Creatable, Reached;
    var t := w.tasks[i];
    var player, above := Player in t.slots, Above(s);
    AboveLinked(player, s);
    EndedFills(w, i, above);
    ChildrenAre(w, i, above, t.slots[s]);
    if IsRoot(above) {
      ChildReached(w.db, t.slots[above], t.slots[s]);
    } else {
      var root := Above(above);
      EndedFills(w, i, root);
      ChildrenAre(w, i, root, t.slots[above]);
      GrandchildReached(w.db, t.slots[root], t.slots[above], t.slots[s]);
    }
  }

  // ===== every run =====

  /** The script's nodes hang together as they should. */
  ghost predicate Settled(db: Backend, t: Task) {
    var player := Player in t.slots;
    && AgeSlot in t.slots && AgeInfo in t.slots
    && (player ==> Furnished(db, t.slots[Player], player, Player))
    && Furnished(db, t.slots[AgeSlot], player, AgeSlot) && Furnished(db, t.slots[AgeInfo], player, AgeInfo)
    && (player ==> Listed(db, t))
    && forall s :: s in t.slots && Fills(player, s) && Creatable(s) && s != AgeSlot ==>
         exists root :: root in t.slots && IsRoot(root) && Reached(db, t.slots[root], t.slots[s])
  }

  /** The player's info node is in the list of all players and, with the player as the
      ref's owner, in the list of the age's owners; the first of the links to ages that
      the player owns leads to the age's info node. */
  ghost predicate Listed(db: Backend, t: Task) {
    && Player in t.slots && Info in t.slots && AgeOwners in t.slots && AgeInfo in t.slots
    && IsChild(db, 1002, t.slots[Info])
    && NodeRef(t.slots[AgeOwners], t.slots[Info], t.slots[Player]) in db.refs
    && OwnedAges in t.slots && ReltoLink in t.slots && HoodLink in t.slots && CityLink in t.slots
    && (forall id :: IsChild(db, t.slots[OwnedAges], id) <==>
                       id == t.slots[ReltoLink] || id == t.slots[HoodLink] || id == t.slots[CityLink])
    && (forall id :: IsChild(db, t.slots[ReltoLink], id) <==> id == t.slots[AgeInfo])
  }

  lemma EndedListed(w: World, i: nat)
    requires Ended(w, i) && Holds(w.db, System, SYSTEM_ID) && Player in w.tasks[i].slots
    ensures Listed(w.db, w.tasks[i])
  {
    hide TasksOk, GraphOk, Holds, IsChild, Code, Creatable;
    var t := w.tasks[i];
    EndedCode(w, i);
    forall s: Slot
      ensures s in t.slots
    {
      EndedFills(w, i, s);
    }
    LinkedIff(true, Link(AgeOwners, Info, true));
    EndedEffect(w, i, Link(AgeOwners, Info, true));
    LinkedIff(true, Link(AllPlayers, Info, false));
    LinkedChild(w, i, AllPlayers, Info, false);
    SlotHolds(w, i, AllPlayers);
    EndedLone(w, i);
    CreatableIff(OwnedAges);
    CreatableIff(ReltoLink);
    forall id
      ensures IsChild(w.db, t.slots[OwnedAges], id) <==>
                id == t.slots[ReltoLink] || id == t.slots[HoodLink] || id == t.slots[CityLink]
      ensures IsChild(w.db, t.slots[ReltoLink], id) <==> id == t.slots[AgeInfo]
    {
      ChildrenAre(w, i, OwnedAges, id);
      ChildrenAre(w, i, ReltoLink, id);
    }
  }

  lemma EndedLone(w: World, i: nat)
    requires Ended(w, i)
    ensures Lone(w.db)
  {
  }

  lemma EndedSettled(w: World, i: nat)
    requires Ended(w, i) && Holds(w.db, System, SYSTEM_ID)
    ensures Settled(w.db, w.tasks[i])
  {
    hide TasksOk, GraphOk, Holds, Creatable, Furnished, Listed, Reached;
    var t := w.tasks[i];
    var player := Player in t.slots;
    EndedFills(w, i, AgeSlot);
    EndedFills(w, i, AgeInfo);
    EndedFurnished(w, i, AgeSlot);
    EndedFurnished(w, i, AgeInfo);
    if player {
      EndedFurnished(w, i, Player);
      EndedListed(w, i);
    }
    forall s | s in t.slots && Fills(player, s) && Creatable(s) && s != AgeSlot
      ensures exists root :: root in t.slots && IsRoot(root) && Reached(w.db, t.slots[root], t.slots[s])
    {
      EndedReached(w, i, s);
    }
  }

  /** In every run, whatever other scripts and sessions do: once a player's or an age's
      script has ended, its nodes hang together as they should, and they stay so. */
  lemma RunSettled(fold: string -> string, events: seq<Event>, ws: seq<World>, n: nat, i: nat)
    requires Follows(fold, events, ws) && ws[0] == Start() && n < |ws|
    requires i < |ws[n].tasks| && ws[n].tasks[i].pc == |ws[n].tasks[i].code|
    ensures Settled(ws[n].db, ws[n].tasks[i])
  {
    hide Orderly, TasksOk, GraphOk, FlagsOk, Graph, Holds, Step, CanStep, Start, Settled;
    RunAllOk(fold, events, ws, n);
    RunGraph(fold, events, ws, n);
    EndedSettled(ws[n], i);
  }
}
