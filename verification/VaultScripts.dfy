/** The node constructors of src/vault/vnode_access.rs and the scripts of vault
    messages in src/auth_srv/vault_helpers.rs. */
module VaultScripts {
  import opened Prim
  import opened VaultNode
  import opened VaultDb

  const AGES_I_OWN_FOLDER := 23
  const GLOBAL_INBOX_FOLDER := 30

  // ===== node constructors =====

  /** Folders and the two kinds of list share a constructor. */
  function FolderNode(t: i32, creator: bytes, creatorId: u32, folder: i32): (n: Node)
    requires |creator| == 16
    ensures Clean(n) && HasType(n, t) && n.values[INT32_1] == Int(folder)
  {
    Built(map[
      NODE_TYPE := Int(t),
      CREATOR_UUID := Uuid(creator),
      CREATOR_ID := Word(creatorId),
      INT32_1 := Int(folder)])
  }

  function InfoNode(creator: bytes, playerId: u32, name: string): (n: Node)
    requires |creator| == 16
    ensures Clean(n) && HasType(n, TYPE_PLAYER_INFO) && n.values[UINT32_1] == Word(playerId)
    ensures n.values[INT32_1] == Int(0)
  {
    Built(map[
      NODE_TYPE := Int(TYPE_PLAYER_INFO),
      CREATOR_UUID := Uuid(creator),
      CREATOR_ID := Word(playerId),
      UINT32_1 := Word(playerId),
      ISTRING64_1 := Text(name)])
  }

  function LinkNode(creator: bytes, creatorId: u32, link: bytes): (n: Node)
    requires |creator| == 16
    ensures Clean(n) && HasType(n, TYPE_AGE_LINK)
  {
    Built(map[
      NODE_TYPE := Int(TYPE_AGE_LINK),
      CREATOR_UUID := Uuid(creator),
      CREATOR_ID := Word(creatorId),
      BLOB_1 := Blob(link)])
  }

  function SdlNode(creator: bytes, creatorId: u32, name: string, blob: bytes): (n: Node)
    requires |creator| == 16
    ensures Clean(n) && HasType(n, TYPE_SDL)
  {
    Built(map[
      NODE_TYPE := Int(TYPE_SDL),
      CREATOR_UUID := Uuid(creator),
      CREATOR_ID := Word(creatorId),
      STRING64_1 := Text(name),
      BLOB_1 := Blob(blob)])
  }

  function SystemNode(): (n: Node)
    ensures Clean(n) && HasType(n, TYPE_SYSTEM)
  {
    Built(map[NODE_TYPE := Int(TYPE_SYSTEM)])
  }

  /** One more field, unless it has no value. */
  function AndUnless(m: map<nat, Value>, skip: bool, k: nat, v: Value): (r: map<nat, Value>)
    requires Settable(m) && k < COUNT && k != NODE_TYPE && HasKind(v, KindOf(k))
    ensures Settable(r) && (NODE_TYPE in r <==> NODE_TYPE in m) && (NODE_TYPE in r ==> r[NODE_TYPE] == m[NODE_TYPE])
  {
    if skip then m else m[k := v]
  }

  function AgeNode(uuid: bytes, parent: bytes, filename: string): (n: Node)
    requires |uuid| == 16 && |parent| == 16
    ensures Clean(n) && HasType(n, TYPE_AGE)
  {
    var m := map[
      NODE_TYPE := Int(TYPE_AGE),
      CREATOR_UUID := Uuid(uuid),
      UUID_1 := Uuid(uuid),
      STRING64_1 := Text(filename)];
    Built(AndUnless(m, parent == NIL_UUID, UUID_2, Uuid(parent)))
  }

  /** What an age is created with. */
  datatype Age = Age(
    uuid: bytes, parent: bytes, filename: string, instanceName: string, userName: string,
    description: string, sequence: i32, language: i32, public: bool, sdl: bytes)

  function AgeNumbers(age: Age, ageId: u32): (m: map<nat, Value>)
    ensures Settable(m) && NODE_TYPE in m && m[NODE_TYPE] == Int(TYPE_AGE_INFO)
  {
    map[
      NODE_TYPE := Int(TYPE_AGE_INFO),
      CREATOR_ID := Word(ageId),
      INT32_1 := Int(age.sequence),
      INT32_2 := Int(if age.public then 1 else 0),
      INT32_3 := Int(age.language),
      UINT32_1 := Word(ageId),
      UINT32_2 := Word(0),
      UINT32_3 := Word(0)]
  }

  /** Fields without a value are left unset. */
  function AgeTexts(age: Age): (m: map<nat, Value>)
    requires |age.uuid| == 16 && |age.parent| == 16
    ensures Settable(m) && NODE_TYPE !in m
  {
    var m0 := map[CREATOR_UUID := Uuid(age.uuid), UUID_1 := Uuid(age.uuid), STRING64_2 := Text(age.filename)];
    var m1 := AndUnless(m0, age.parent == NIL_UUID, UUID_2, Uuid(age.parent));
    var m2 := AndUnless(m1, age.instanceName == "", STRING64_3, Text(age.instanceName));
    var m3 := AndUnless(m2, age.userName == "", STRING64_4, Text(age.userName));
    AndUnless(m3, age.description == "", TEXT_1, Text(age.description))
  }

  function AgeInfoNode(age: Age, ageId: u32): (n: Node)
    requires |age.uuid| == 16 && |age.parent| == 16
    ensures Clean(n) && HasType(n, TYPE_AGE_INFO)
  {
    Built(AgeNumbers(age, ageId) + AgeTexts(age))
  }

  /** The update by which a player goes on or off line. */
  function OnlineUpdate(id: u32, online: i32, ageName: string, ageUuid: bytes): (n: Node)
    requires |ageUuid| == 16
    ensures Clean(n) && n.values[NODE_ID] == Word(id) && n.values[INT32_1] == Int(online)
    ensures forall k :: 0 <= k < COUNT ==>
      (Has(n, k) <==> k == NODE_ID || k == INT32_1 || k == STRING64_1 || k == UUID_1)
  {
    Built(map[
      NODE_ID := Word(id),
      INT32_1 := Int(online),
      STRING64_1 := Text(ageName),
      UUID_1 := Uuid(ageUuid)])
  }

  // ===== scripts =====

  /** The nodes that a script knows by name. */
  datatype Slot =
    | Player | Info | BuddyList | IgnoreList | InviteFolder | OwnedAges | JournalsFolder
    | ChronicleFolder | VisitAges | OutfitFolder | ClosetFolder | Inbox | PeopleList
    | ReltoLink | HoodLink | CityLink
    | AgeSlot | AgeChronicle | AgePeople | SubAges | AgeInfo | DevicesFolder | CanVisit
    | AgeSdl | AgeOwners | ChildAges
    | System | AllPlayers

  function SlotType(s: Slot): i32 {
    match s
    case Player => TYPE_PLAYER
    case Info => TYPE_PLAYER_INFO
    case BuddyList => TYPE_PLAYER_INFO_LIST
    case IgnoreList => TYPE_PLAYER_INFO_LIST
    case PeopleList => TYPE_PLAYER_INFO_LIST
    case AgePeople => TYPE_PLAYER_INFO_LIST
    case CanVisit => TYPE_PLAYER_INFO_LIST
    case AgeOwners => TYPE_PLAYER_INFO_LIST
    case AllPlayers => TYPE_PLAYER_INFO_LIST
    case OwnedAges => TYPE_AGE_INFO_LIST
    case VisitAges => TYPE_AGE_INFO_LIST
    case SubAges => TYPE_AGE_INFO_LIST
    case ChildAges => TYPE_AGE_INFO_LIST
    case ReltoLink => TYPE_AGE_LINK
    case HoodLink => TYPE_AGE_LINK
    case CityLink => TYPE_AGE_LINK
    case AgeSlot => TYPE_AGE
    case AgeInfo => TYPE_AGE_INFO
    case AgeSdl => TYPE_SDL
    case System => TYPE_SYSTEM
    case _ => TYPE_FOLDER
  }

  /** The folder kind, for folders and lists. */
  function SlotFolder(s: Slot): Option<i32> {
    match s
    case BuddyList => Some(2)
    case IgnoreList => Some(3)
    case InviteFolder => Some(28)
    case OwnedAges => Some(AGES_I_OWN_FOLDER)
    case JournalsFolder => Some(14)
    case ChronicleFolder => Some(6)
    case VisitAges => Some(24)
    case OutfitFolder => Some(7)
    case ClosetFolder => Some(25)
    case Inbox => Some(1)
    case PeopleList => Some(4)
    case AgeChronicle => Some(6)
    case AgePeople => Some(4)
    case SubAges => Some(9)
    case DevicesFolder => Some(15)
    case CanVisit => Some(18)
    case AgeOwners => Some(19)
    case ChildAges => Some(31)
    case AllPlayers => Some(ALL_PLAYERS_FOLDER)
    case _ => None
  }

  predicate Suits(s: Slot, n: Node)
    requires Formed(n)
  {
    HasType(n, SlotType(s)) && (SlotFolder(s).Some? ==> n.values[INT32_1] == Int(SlotFolder(s).value))
  }

  // ----- the rank that every ref goes down -----

  function RankOf(t: i32, folder: i32): nat {
    if t == TYPE_PLAYER || t == TYPE_AGE then 7
    else if t == TYPE_AGE_INFO_LIST && folder == AGES_I_OWN_FOLDER then 6
    else if t == TYPE_AGE_LINK then 5
    else if t == TYPE_AGE_INFO then 4
    else if t == TYPE_PLAYER_INFO_LIST then 3
    else if t == TYPE_SYSTEM then 2
    else 1
  }

  function Rank(n: Node): nat
    requires Formed(n)
  {
    RankOf(n.values[NODE_TYPE].i, n.values[INT32_1].i)
  }

  function SlotRank(s: Slot): nat {
    if s.Player? || s.AgeSlot? then 7
    else if s.OwnedAges? then 6
    else if s.ReltoLink? || s.HoodLink? || s.CityLink? then 5
    else if s.AgeInfo? then 4
    else if s.BuddyList? || s.IgnoreList? || s.PeopleList? || s.AgePeople? || s.CanVisit? || s.AgeOwners?
         || s.AllPlayers? then 3
    else if s.System? then 2
    else 1
  }

  lemma SlotRankIs(s: Slot, n: Node)
    requires Formed(n) && Suits(s, n)
    ensures Rank(n) == SlotRank(s)
  {
  }

  // ----- instructions -----

  datatype Instr = Create(slot: Slot) | FindSystem | FindAllPlayers | Link(parent: Slot, child: Slot, owned: bool)

  function Creates(slots: seq<Slot>): (r: seq<Instr>)
    ensures |r| == |slots|
  {
    if slots == [] then [] else [Create(slots[0])] + Creates(slots[1..])
  }

  function Links(pairs: seq<(Slot, Slot)>): (r: seq<Instr>)
    ensures |r| == |pairs|
  {
    if pairs == [] then [] else [Link(pairs[0].0, pairs[0].1, false)] + Links(pairs[1..])
  }

  const PLAYER_SLOTS := [
    Info, BuddyList, IgnoreList, InviteFolder, OwnedAges, JournalsFolder, ChronicleFolder, VisitAges,
    OutfitFolder, ClosetFolder, Inbox, PeopleList, ReltoLink, HoodLink, CityLink]

  const AGE_SLOTS := [
    AgeSlot, AgeChronicle, AgePeople, SubAges, AgeInfo, DevicesFolder, CanVisit, AgeSdl, AgeOwners, ChildAges]

  const AGE_LINKS := [
    (AgeSlot, System), (AgeSlot, AgeChronicle), (AgeSlot, AgePeople), (AgeSlot, SubAges), (AgeSlot, AgeInfo),
    (AgeSlot, DevicesFolder), (AgeInfo, CanVisit), (AgeInfo, AgeSdl), (AgeInfo, AgeOwners), (AgeInfo, ChildAges)]

  const PLAYER_LINKS := [
    (Player, System), (Player, Info), (Player, BuddyList), (Player, IgnoreList), (Player, InviteFolder),
    (Player, OwnedAges), (Player, JournalsFolder), (Player, ChronicleFolder), (Player, VisitAges),
    (Player, OutfitFolder), (Player, ClosetFolder), (Player, Inbox), (Player, PeopleList),
    (OwnedAges, ReltoLink), (OwnedAges, HoodLink), (OwnedAges, CityLink), (ReltoLink, AgeInfo), (AgeSlot, OwnedAges)]

  const FINAL_CODE := [FindAllPlayers, Link(AllPlayers, Info, false)]

  /** The links of a new player, after those of the player's first age. */
  function PlayerTail(): seq<Instr> {
    [FindSystem] + (Links(PLAYER_LINKS) + FINAL_CODE)
  }

  /** `create_age_nodes`; with an owner when a player's script runs it. */
  function AgeScript(owned: bool, tail: seq<Instr>): seq<Instr> {
    var owners := if owned then [Link(AgeOwners, Info, true)] else [];
    Creates(AGE_SLOTS) + ([FindSystem] + (Links(AGE_LINKS) + (owners + tail)))
  }

  /** `create_player_nodes`. */
  function PlayerScript(): seq<Instr> {
    Creates(PLAYER_SLOTS) + AgeScript(true, PlayerTail())
  }

  // ----- a static check of scripts -----

  function CreatorOf(s: Slot): Option<Slot> {
    if s in PLAYER_SLOTS then Some(Player)
    else if s in AGE_SLOTS && s != AgeSlot then Some(AgeSlot)
    else None
  }

  /** Scripts create only what they list. */
  predicate Creatable(s: Slot) {
    s in PLAYER_SLOTS || s in AGE_SLOTS
  }

  /** With these slots filled, the code fills each slot once, uses filled slots only,
      and links downwards only. */
  predicate Ready(code: seq<Instr>, have: set<Slot>) {
    if code == [] then true
    else
      match code[0]
      case Create(s) =>
        && s !in have && Creatable(s) && (CreatorOf(s).Some? ==> CreatorOf(s).value in have)
        && Ready(code[1..], have + {s})
      case FindSystem => Ready(code[1..], have + {System})
      case FindAllPlayers => Ready(code[1..], have + {AllPlayers})
      case Link(p, c, owned) =>
        && p in have && c in have && (owned ==> Player in have) && SlotRank(c) < SlotRank(p)
        && Ready(code[1..], have)
  }

  function SlotSet(slots: seq<Slot>): set<Slot> {
    set s | s in slots
  }

  predicate Creating(slots: seq<Slot>, have: set<Slot>) {
    forall i :: 0 <= i < |slots| ==>
      && slots[i] !in have && Creatable(slots[i])
      && (CreatorOf(slots[i]).Some? ==> CreatorOf(slots[i]).value in have + SlotSet(slots[..i]))
      && forall j :: 0 <= j < i ==> slots[i] != slots[j]
  }

  lemma CreatingFirst(slots: seq<Slot>, have: set<Slot>)
    requires Creating(slots, have)
    ensures slots != [] ==>
      slots[0] !in have && Creatable(slots[0]) && (CreatorOf(slots[0]).Some? ==> CreatorOf(slots[0]).value in have)
  {
    hide CreatorOf, Creatable;
    if slots != [] {
      assert have + SlotSet(slots[..0]) == have;
    }
  }

  lemma CreatingTail(slots: seq<Slot>, have: set<Slot>)
    requires slots != [] && Creating(slots, have)
    ensures Creating(slots[1..], have + {slots[0]})
  {
    hide CreatorOf, Creatable;
    var s, tail := slots[0], slots[1..];
    forall i | 0 <= i < |tail|
      ensures tail[i] !in have + {s}
      ensures CreatorOf(tail[i]).Some? ==> CreatorOf(tail[i]).value in have + {s} + SlotSet(tail[..i])
    {
      assert tail[i] == slots[i + 1] && slots[i + 1] != slots[0];
      assert slots[..i + 1] == [s] + tail[..i];
      assert have + SlotSet(slots[..i + 1]) == have + {s} + SlotSet(tail[..i]);
    }
  }

  lemma {:induction false} ReadyCreates(slots: seq<Slot>, rest: seq<Instr>, have: set<Slot>)
    requires Creating(slots, have) && Ready(rest, have + SlotSet(slots))
    ensures Ready(Creates(slots) + rest, have)
    decreases |slots|
  {
    hide CreatorOf, Creating;
    CreatingFirst(slots, have);
    if slots == [] {
      assert Creates(slots) + rest == rest && have + SlotSet(slots) == have;
    } else {
      var s, tail := slots[0], slots[1..];
      assert (Creates(slots) + rest)[1..] == Creates(tail) + rest;
      assert have + {s} + SlotSet(tail) == have + SlotSet(slots);
      CreatingTail(slots, have);
      ReadyCreates(tail, rest, have + {s});
    }
  }

  lemma {:induction false} ReadyLinks(pairs: seq<(Slot, Slot)>, rest: seq<Instr>, have: set<Slot>)
    requires forall i :: 0 <= i < |pairs| ==>
      pairs[i].0 in have && pairs[i].1 in have && SlotRank(pairs[i].1) < SlotRank(pairs[i].0)
    requires Ready(rest, have)
    ensures Ready(Links(pairs) + rest, have)
    decreases |pairs|
  {
    hide SlotRank;
    if pairs == [] {
      assert Links(pairs) + rest == rest;
    } else {
      assert (Links(pairs) + rest)[1..] == Links(pairs[1..]) + rest;
      ReadyLinks(pairs[1..], rest, have);
    }
  }

  lemma AgeReady(owned: bool, tail: seq<Instr>, have: set<Slot>)
    requires SlotSet(AGE_SLOTS) !! have && (owned ==> Player in have && Info in have)
    requires Ready(tail, have + SlotSet(AGE_SLOTS) + {System})
    ensures Ready(AgeScript(owned, tail), have)
  {
    var filled := have + SlotSet(AGE_SLOTS) + {System};
    var owner := if owned then [Link(AgeOwners, Info, true)] else [];
    OwnerReady(owned, tail, filled);
    AgeLinksReady(owner + tail, filled);
    FindReady(Links(AGE_LINKS) + (owner + tail), have + SlotSet(AGE_SLOTS));
    AgeCreating(have);
    ReadyCreates(AGE_SLOTS, [FindSystem] + (Links(AGE_LINKS) + (owner + tail)), have);
  }

  lemma FindReady(rest: seq<Instr>, have: set<Slot>)
    requires Ready(rest, have + {System})
    ensures Ready([FindSystem] + rest, have)
  {
    assert ([FindSystem] + rest)[1..] == rest;
  }

  lemma OwnerReady(owned: bool, tail: seq<Instr>, have: set<Slot>)
    requires AgeOwners in have && (owned ==> Player in have && Info in have) && Ready(tail, have)
    ensures Ready((if owned then [Link(AgeOwners, Info, true)] else []) + tail, have)
  {
    var code := (if owned then [Link(AgeOwners, Info, true)] else []) + tail;
    if owned {
      assert code[1..] == tail;
    } else {
      assert code == tail;
    }
  }

  lemma AgeLinksDown()
    ensures forall i :: 0 <= i < |AGE_LINKS| ==> SlotRank(AGE_LINKS[i].1) < SlotRank(AGE_LINKS[i].0)
  {
  }

  lemma AgeLinksFilled()
    ensures var filled := SlotSet(AGE_SLOTS) + {System};
            forall i :: 0 <= i < |AGE_LINKS| ==> AGE_LINKS[i].0 in filled && AGE_LINKS[i].1 in filled
  {
  }

  lemma PlayerLinksDown()
    ensures forall i :: 0 <= i < |PLAYER_LINKS| ==> SlotRank(PLAYER_LINKS[i].1) < SlotRank(PLAYER_LINKS[i].0)
  {
  }

  lemma PlayerLinksFilled()
    ensures var filled := {Player} + SlotSet(PLAYER_SLOTS) + SlotSet(AGE_SLOTS) + {System};
            forall i :: 0 <= i < |PLAYER_LINKS| ==> PLAYER_LINKS[i].0 in filled && PLAYER_LINKS[i].1 in filled
  {
  }

  lemma FinalReady(have: set<Slot>)
    requires Info in have
    ensures Ready(FINAL_CODE, have)
  {
    assert FINAL_CODE[1..] == [Link(AllPlayers, Info, false)];
  }

  lemma AgeLinksReady(rest: seq<Instr>, have: set<Slot>)
    requires SlotSet(AGE_SLOTS) + {System} <= have && Ready(rest, have)
    ensures Ready(Links(AGE_LINKS) + rest, have)
  {
    hide Links, SlotRank, SlotSet, Ready;
    AgeLinksDown();
    AgeLinksFilled();
    ReadyLinks(AGE_LINKS, rest, have);
  }

  lemma AgeCreating(have: set<Slot>)
    requires SlotSet(AGE_SLOTS) !! have
    ensures Creating(AGE_SLOTS, have)
  {
    forall i | 0 <= i < |AGE_SLOTS|
      ensures AGE_SLOTS[i] !in have
      ensures CreatorOf(AGE_SLOTS[i]).Some? ==> CreatorOf(AGE_SLOTS[i]).value in have + SlotSet(AGE_SLOTS[..i])
    {
      assert AGE_SLOTS[i] in SlotSet(AGE_SLOTS);
      if i > 0 {
        assert AGE_SLOTS[..i][0] == AgeSlot;
      }
    }
  }

  lemma PlayerCreating()
    ensures Creating(PLAYER_SLOTS, {Player})
  {
  }

  lemma PlayerHasInfo()
    ensures Info in SlotSet(PLAYER_SLOTS) && SlotSet(PLAYER_SLOTS) !! SlotSet(AGE_SLOTS)
    ensures Player !in SlotSet(AGE_SLOTS)
  {
    assert PLAYER_SLOTS[0] == Info;
  }

  lemma PlayerTailReady(have: set<Slot>)
    requires {Player} + SlotSet(PLAYER_SLOTS) + SlotSet(AGE_SLOTS) <= have
    ensures Ready(PlayerTail(), have)
  {
    hide Links, SlotRank, SlotSet, Ready;
    PlayerLinksDown();
    PlayerLinksFilled();
    PlayerHasInfo();
    FinalReady(have + {System});
    ReadyLinks(PLAYER_LINKS, FINAL_CODE, have + {System});
    FindReady(Links(PLAYER_LINKS) + FINAL_CODE, have);
  }

  lemma NothingReady(have: set<Slot>)
    ensures Ready([], have)
  {
  }

  /** Both scripts pass the check. */
  lemma ScriptsReady()
    ensures Ready(PlayerScript(), {Player}) && Ready(AgeScript(false, []), {})
  {
    hide Links, SlotSet, Ready, Creates, AgeScript, PlayerTail, Creating;
    var have := {Player} + SlotSet(PLAYER_SLOTS);
    PlayerHasInfo();
    PlayerTailReady(have + SlotSet(AGE_SLOTS) + {System});
    AgeReady(true, PlayerTail(), have);
    PlayerCreating();
    ReadyCreates(PLAYER_SLOTS, AgeScript(true, PlayerTail()), {Player});
    NothingReady({} + SlotSet(AGE_SLOTS) + {System});
    AgeReady(false, [], {});
  }

  /** A new player's script links the player to the info node. */
  lemma LinksInfo()
    ensures Link(Player, Info, false) in PlayerScript()
  {
    hide Creates, AgeScript;
    assert PLAYER_LINKS[1] == (Player, Info);
    LinkInLinks(PLAYER_LINKS, 1);
    InAgeScript(true, PlayerTail(), Link(Player, Info, false));
  }

  lemma {:induction false} LinkInLinks(pairs: seq<(Slot, Slot)>, i: nat)
    requires i < |pairs|
    ensures Link(pairs[i].0, pairs[i].1, false) in Links(pairs)
    decreases |pairs|
  {
    if i > 0 {
      LinkInLinks(pairs[1..], i - 1);
    }
  }

  lemma InAgeScript(owned: bool, tail: seq<Instr>, x: Instr)
    requires x in tail
    ensures x in AgeScript(owned, tail)
  {
    hide Creates, Links;
  }
}
