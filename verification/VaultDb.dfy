/** The in-memory vault of src/vault/db_memory.rs and the messages that change it, as
    src/vault/server.rs processes them. */
module VaultDb {
  import opened Prim
  import opened VaultNode

  datatype NodeRef = NodeRef(parent: u32, child: u32, owner: u32)

  datatype PlayerInfo = PlayerInfo(id: u32, name: string, shape: string, explorer: i32)

  datatype Backend = Backend(
    players: map<bytes, seq<PlayerInfo>>,
    vault: map<u32, Node>,
    refs: set<NodeRef>,
    nodeIndex: u32)

  datatype NetCode = NodeNotFound | PlayerAlreadyExists | MaxPlayersOnAccount | InternalError | CounterOverflow

  datatype Reply<+T> = Good(value: T) | Bad(code: NetCode)

  const FIRST_ID: u32 := 1000
  const MAX_PLAYERS := 5
  const U32_LIMIT := 0x1_0000_0000

  const TYPE_PLAYER := 2
  const TYPE_AGE := 3
  const TYPE_FOLDER := 22
  const TYPE_PLAYER_INFO := 23
  const TYPE_SYSTEM := 24
  const TYPE_SDL := 27
  const TYPE_AGE_LINK := 28
  const TYPE_PLAYER_INFO_LIST := 30
  const TYPE_AGE_INFO := 33
  const TYPE_AGE_INFO_LIST := 34

  const ALL_PLAYERS_FOLDER := 12

  function Fresh(): Backend {
    Backend(map[], map[], {}, FIRST_ID)
  }

  predicate HasType(n: Node, t: i32)
    requires Formed(n)
  {
    n.values[NODE_TYPE] == Int(t)
  }

  /** Ids run from 1000 to the counter without a gap, and each node carries its own. */
  predicate KeyedAt(db: Backend, id: u32)
    requires id in db.vault
  {
    var n := db.vault[id];
    Clean(n) && Has(n, NODE_ID) && n.values[NODE_ID] == Word(id)
  }

  ghost predicate Keyed(db: Backend) {
    && FIRST_ID <= db.nodeIndex
    && (forall id: u32 :: id in db.vault <==> FIRST_ID <= id < db.nodeIndex)
    && (forall id :: id in db.vault ==> KeyedAt(db, id))
  }

  // ===== nodes =====

  function CreateNode(db: Backend, node: Node): (r: (Backend, Reply<u32>))
    requires Formed(node)
  {
    var id := db.nodeIndex;
    if id + 1 >= U32_LIMIT then (db, Bad(CounterOverflow))
    else
      var db' := db.(vault := db.vault[id := Set(node, NODE_ID, Word(id))], nodeIndex := id + 1);
      (db', if id in db.vault then Bad(InternalError) else Good(id))
  }

  function UpdateNode(db: Backend, node: Node): (r: (Backend, Reply<u32>))
    requires Keyed(db) && Formed(node)
  {
    var id := node.values[NODE_ID].w;
    if id !in db.vault then (db, Bad(NodeNotFound))
    else
      assert KeyedAt(db, id);
      (db.(vault := db.vault[id := Updated(db.vault[id], node)]), Good(id))
  }

  lemma CreateKeyed(db: Backend, node: Node)
    requires Keyed(db) && Clean(node)
    ensures Keyed(CreateNode(db, node).0)
    ensures CreateNode(db, node).1 == if db.nodeIndex + 1 < U32_LIMIT then Good(db.nodeIndex) else Bad(CounterOverflow)
  {
    hide Set, Has, Clean;
    var id := db.nodeIndex;
    var db' := CreateNode(db, node).0;
    NewNodeKeyed(node, id);
    forall i | i in db'.vault
      ensures KeyedAt(db', i)
    {
      if i != id || db'.vault == db.vault {
        assert KeyedAt(db, i);
      }
    }
  }

  lemma NewNodeKeyed(node: Node, id: u32)
    requires Clean(node)
    ensures var n := Set(node, NODE_ID, Word(id)); Clean(n) && Has(n, NODE_ID) && n.values[NODE_ID] == Word(id)
  {
    hide Has, Bit, WithBit, Clean;
    SetHas(node, NODE_ID, Word(id), NODE_ID);
  }

  lemma UpdateKeyed(db: Backend, node: Node)
    requires Keyed(db) && Clean(node)
    ensures Keyed(UpdateNode(db, node).0)
  {
    hide Updated, Has, Clean;
    var id := node.values[NODE_ID].w;
    if id in db.vault {
      var db' := UpdateNode(db, node).0;
      assert KeyedAt(db, id);
      UpdateKeepsId(db.vault[id], node);
      forall i | i in db'.vault
        ensures KeyedAt(db', i)
      {
        assert KeyedAt(db, i);
      }
    }
  }

  lemma UpdateKeepsId(old': Node, node: Node)
    requires Clean(old') && Clean(node)
    ensures var n := Updated(old', node);
            Clean(n) && Has(n, NODE_ID) == Has(old', NODE_ID) && n.values[NODE_ID] == old'.values[NODE_ID]
  {
    hide Has, UpdatedTo;
    UpdateOverrides(old', node);
    UpdatedAt(old', node, COUNT, NODE_ID);
  }

  /** After a successful update, a search for the update finds the node. */
  lemma UpdateFindable(fold: string -> string, db: Backend, node: Node)
    requires Keyed(db) && Clean(node) && UpdateNode(db, node).1.Good?
    ensures Keyed(UpdateNode(db, node).0)
    ensures UpdateNode(db, node).1.value in Found(fold, UpdateNode(db, node).0, node)
  {
    hide Updated, Matches, Has, Clean;
    UpdateKeyed(db, node);
    var id := node.values[NODE_ID].w;
    assert KeyedAt(db, id);
    MatchAfterUpdate(fold, db.vault[id], node);
  }

  function Found(fold: string -> string, db: Backend, template: Node): set<u32>
    requires Keyed(db) && Formed(template)
  {
    set id | id in db.vault && (assert KeyedAt(db, id); Matches(fold, template, db.vault[id]))
  }

  // ===== players =====

  predicate NameTaken(fold: string -> string, db: Backend, name: string) {
    exists a, i :: a in db.players && 0 <= i < |db.players[a]| && fold(db.players[a][i].name) == fold(name)
  }

  function PlayersOf(db: Backend, account: bytes): seq<PlayerInfo> {
    if account in db.players then db.players[account] else []
  }

  function PlayerNode(account: bytes, name: string, shape: string, explorer: i32): (n: Node)
    requires |account| == 16
    ensures Clean(n) && IsPlayer(n, account, name)
  {
    Built(map[
      NODE_TYPE := Int(TYPE_PLAYER),
      CREATOR_UUID := Uuid(account),
      INT32_2 := Int(explorer),
      UUID_1 := Uuid(account),
      STRING64_1 := Text(shape),
      ISTRING64_1 := Text(name)])
  }

  predicate IsPlayer(n: Node, account: bytes, name: string)
    requires Formed(n)
  {
    HasType(n, TYPE_PLAYER) && n.values[UUID_1] == Uuid(account) && n.values[ISTRING64_1] == Text(name)
  }

  /** The `CreatePlayer` message: the checks, the node and the record in one step. */
  function CreatePlayer(fold: string -> string, db: Backend, account: bytes, name: string, shape: string)
      : (r: (Backend, Reply<PlayerInfo>))
    requires |account| == 16
  {
    if NameTaken(fold, db, name) then (db, Bad(PlayerAlreadyExists))
    else if |PlayersOf(db, account)| >= MAX_PLAYERS then (db, Bad(MaxPlayersOnAccount))
    else
      var (db1, id) := CreateNode(db, PlayerNode(account, name, shape, 1));
      if id.Bad? then (db1, Bad(id.code))
      else
        var player := PlayerInfo(id.value, name, shape, 1);
        (db1.(players := db1.players[account := PlayersOf(db1, account) + [player]]), Good(player))
  }

  // ===== what every run of messages keeps =====

  datatype Message =
    | MsgCreatePlayer(account: bytes, name: string, shape: string)
    | MsgCreateNode(node: Node)
    | MsgUpdateNode(node: Node)
    | MsgRefNode(parent: u32, child: u32, owner: u32)
    | MsgQuery     // all the messages that change nothing

  predicate WellFormed(m: Message) {
    match m
    case MsgCreatePlayer(account, _, _) => |account| == 16
    case MsgCreateNode(node) => Clean(node)
    case MsgUpdateNode(node) => Clean(node)
    case _ => true
  }

  function Process(fold: string -> string, db: Backend, m: Message): Backend
    requires Keyed(db) && WellFormed(m)
  {
    match m
    case MsgCreatePlayer(account, name, shape) => CreatePlayer(fold, db, account, name, shape).0
    case MsgCreateNode(node) => CreateNode(db, node).0
    case MsgUpdateNode(node) => UpdateNode(db, node).0
    case MsgRefNode(parent, child, owner) => db.(refs := db.refs + {NodeRef(parent, child, owner)})
    case MsgQuery => db
  }

  predicate RecordAt(db: Backend, a: bytes, i: int) {
    a in db.players && 0 <= i < |db.players[a]|
  }

  function NameAt(db: Backend, a: bytes, i: int): string
    requires RecordAt(db, a, i)
  {
    db.players[a][i].name
  }

  ghost predicate NamesDistinct(fold: string -> string, db: Backend) {
    forall a, i, b, j :: RecordAt(db, a, i) && RecordAt(db, b, j) && (a != b || i != j) ==>
      fold(NameAt(db, a, i)) != fold(NameAt(db, b, j))
  }

  predicate Backed(db: Backend, a: bytes, p: PlayerInfo) {
    p.id in db.vault && Formed(db.vault[p.id]) && IsPlayer(db.vault[p.id], a, p.name)
  }

  /** Ids are consecutive and right, no account has more than five players, no two
      players have one name, and every record names its Player node. */
  ghost predicate Orderly(fold: string -> string, db: Backend) {
    && Keyed(db)
    && (forall a :: a in db.players ==> |db.players[a]| <= MAX_PLAYERS)
    && NamesDistinct(fold, db)
    && (forall a, i :: RecordAt(db, a, i) ==> Backed(db, a, db.players[a][i]))
  }

  /** The update is not of a Player node. */
  predicate SparesPlayers(db: Backend, m: Message)
    requires WellFormed(m)
  {
    m.MsgUpdateNode? ==>
      var id := m.node.values[NODE_ID].w;
      id in db.vault && Formed(db.vault[id]) ==> !HasType(db.vault[id], TYPE_PLAYER)
  }

  lemma CreateOrderly(fold: string -> string, db: Backend, node: Node)
    requires Orderly(fold, db) && Clean(node)
    ensures Orderly(fold, CreateNode(db, node).0)
  {
    hide Set, Clean, IsPlayer, Formed;
    CreateKeyed(db, node);
    var db' := CreateNode(db, node).0;
    forall a, i | RecordAt(db', a, i)
      ensures Backed(db', a, db'.players[a][i])
    {
      assert RecordAt(db, a, i);
    }
    NamesSame(fold, db, db');
  }

  lemma NamesSame(fold: string -> string, db: Backend, db': Backend)
    requires NamesDistinct(fold, db) && db'.players == db.players
    ensures NamesDistinct(fold, db')
  {
    forall a, i, b, j | RecordAt(db', a, i) && RecordAt(db', b, j) && (a != b || i != j)
      ensures fold(NameAt(db', a, i)) != fold(NameAt(db', b, j))
    {
      assert RecordAt(db, a, i) && RecordAt(db, b, j);
      assert fold(NameAt(db, a, i)) != fold(NameAt(db, b, j));
    }
  }

  lemma UpdateOrderly(fold: string -> string, db: Backend, node: Node)
    requires Orderly(fold, db) && Clean(node) && SparesPlayers(db, MsgUpdateNode(node))
    ensures Orderly(fold, UpdateNode(db, node).0)
  {
    hide Updated, Clean;
    UpdateKeyed(db, node);
    var db' := UpdateNode(db, node).0;
    forall a, i | RecordAt(db', a, i)
      ensures Backed(db', a, db'.players[a][i])
    {
      assert RecordAt(db, a, i);
      assert Backed(db, a, db.players[a][i]);
    }
    NamesSame(fold, db, db');
  }

  lemma PlayerOrderly(fold: string -> string, db: Backend, account: bytes, name: string, shape: string)
    requires Orderly(fold, db) && |account| == 16
    ensures Orderly(fold, CreatePlayer(fold, db, account, name, shape).0)
  {
    hide CreateNode, Clean, Formed, PlayerNode, IsPlayer, NameTaken;
    var node := PlayerNode(account, name, shape, 1);
    var (db', r) := CreatePlayer(fold, db, account, name, shape);
    if !NameTaken(fold, db, name) && |PlayersOf(db, account)| < MAX_PLAYERS {
      CreateOrderly(fold, db, node);
      CreateKeyed(db, node);
      var db1 := CreateNode(db, node).0;
      CreateAdds(db, node);
      if r.Good? {
        assert db'.vault == db1.vault;
        forall a, i | RecordAt(db', a, i)
          ensures Backed(db', a, db'.players[a][i])
        {
          if a != account || i < |PlayersOf(db, account)| {
            assert RecordAt(db1, a, i);
            assert Backed(db1, a, db1.players[a][i]);
          } else {
            NewIsPlayer(db, account, name, shape);
          }
        }
        NameAdded(fold, db, db', account, r.value);
      }
    }
  }

  /** When a player is refused, for which of two reasons, and what the account has after
      it was not: its records and one more. */
  lemma PlayerAnswered(fold: string -> string, db: Backend, account: bytes, name: string, shape: string)
    requires Keyed(db) && |account| == 16
    ensures var (db', r) := CreatePlayer(fold, db, account, name, shape);
            var taken := exists a, i :: RecordAt(db, a, i) && fold(NameAt(db, a, i)) == fold(name);
            && (r == Bad(PlayerAlreadyExists) <==> taken)
            && (r == Bad(MaxPlayersOnAccount) <==> !taken && |PlayersOf(db, account)| >= 5)
            && (r.Good? <==> !taken && |PlayersOf(db, account)| < 5 && db.nodeIndex + 1 < U32_LIMIT)
            && (r.Good? ==>
                  && r.value == PlayerInfo(db.nodeIndex, name, shape, 1)
                  && PlayersOf(db', account) == PlayersOf(db, account) + [r.value]
                  && forall a :: a != account ==> PlayersOf(db', a) == PlayersOf(db, a))
            && (r.Bad? ==> db' == db)
  {
    hide PlayerNode, Set, Clean;
    var taken := exists a, i :: RecordAt(db, a, i) && fold(NameAt(db, a, i)) == fold(name);
    if NameTaken(fold, db, name) {
      var a, i :| a in db.players && 0 <= i < |db.players[a]| && fold(db.players[a][i].name) == fold(name);
      assert RecordAt(db, a, i) && fold(NameAt(db, a, i)) == fold(name);
    }
    if taken {
      var a, i :| RecordAt(db, a, i) && fold(NameAt(db, a, i)) == fold(name);
      assert fold(db.players[a][i].name) == fold(name);
    }
  }

  lemma CreateAdds(db: Backend, node: Node)
    requires Formed(node)
    ensures CreateNode(db, node).0.players == db.players && CreateNode(db, node).0.refs == db.refs
  {
  }

  lemma NewIsPlayer(db: Backend, account: bytes, name: string, shape: string)
    requires Keyed(db) && |account| == 16 && db.nodeIndex + 1 < U32_LIMIT
    ensures var db1 := CreateNode(db, PlayerNode(account, name, shape, 1)).0;
            Backed(db1, account, PlayerInfo(db.nodeIndex, name, shape, 1))
  {
    hide Set, PlayerNode;
  }

  lemma NameAdded(fold: string -> string, db: Backend, db': Backend, account: bytes, p: PlayerInfo)
    requires NamesDistinct(fold, db) && !NameTaken(fold, db, p.name)
    requires db'.players == db.players[account := PlayersOf(db, account) + [p]]
    ensures NamesDistinct(fold, db')
  {
    var n := |PlayersOf(db, account)|;
    forall a, i | RecordAt(db', a, i) && (a != account || i != n)
      ensures RecordAt(db, a, i) && NameAt(db', a, i) == NameAt(db, a, i) && fold(NameAt(db, a, i)) != fold(p.name)
    {
    }
    forall a, i, b, j | RecordAt(db', a, i) && RecordAt(db', b, j) && (a != b || i != j)
      ensures fold(NameAt(db', a, i)) != fold(NameAt(db', b, j))
    {
      if (a != account || i != n) && (b != account || j != n) {
        assert RecordAt(db, a, i) && RecordAt(db, b, j);
        assert fold(NameAt(db, a, i)) != fold(NameAt(db, b, j));
      }
    }
  }

  lemma ProcessOrderly(fold: string -> string, db: Backend, m: Message)
    requires Orderly(fold, db) && WellFormed(m) && SparesPlayers(db, m)
    ensures Orderly(fold, Process(fold, db, m))
  {
    hide CreatePlayer, CreateNode, UpdateNode, Clean, Formed, IsPlayer;
    match m {
      case MsgCreatePlayer(account, name, shape) => PlayerOrderly(fold, db, account, name, shape);
      case MsgCreateNode(node) => CreateOrderly(fold, db, node);
      case MsgUpdateNode(node) => UpdateOrderly(fold, db, node);
      case MsgRefNode(parent, child, owner) =>
        var db' := Process(fold, db, m);
        forall id | id in db'.vault
          ensures KeyedAt(db', id)
        {
          assert KeyedAt(db, id);
        }
        forall a, i | RecordAt(db', a, i)
          ensures Backed(db', a, db'.players[a][i])
        {
          assert RecordAt(db, a, i);
        }
        NamesSame(fold, db, db');
      case MsgQuery =>
    }
  }

  lemma FreshOrderly(fold: string -> string)
    ensures Orderly(fold, Fresh())
  {
  }

  /** A run of messages whose updates spare Player nodes, and the database after it. */
  ghost predicate Run(fold: string -> string, msgs: seq<Message>, dbs: seq<Backend>) {
    && |dbs| == |msgs| + 1 && dbs[0] == Fresh()
    && forall i :: 0 <= i < |msgs| ==>
         && Keyed(dbs[i]) && WellFormed(msgs[i]) && SparesPlayers(dbs[i], msgs[i])
         && dbs[i + 1] == Process(fold, dbs[i], msgs[i])
  }

  lemma {:induction false} RunOrderly(fold: string -> string, msgs: seq<Message>, dbs: seq<Backend>, n: nat)
    requires Run(fold, msgs, dbs) && n <= |msgs|
    ensures Orderly(fold, dbs[n])
    decreases n
  {
    hide Orderly, Process, Keyed, SparesPlayers, WellFormed;
    if n == 0 {
      FreshOrderly(fold);
    } else {
      RunOrderly(fold, msgs, dbs, n - 1);
      ProcessOrderly(fold, dbs[n - 1], msgs[n - 1]);
    }
  }

  /** Any further message that spares Player nodes continues the run: no other condition
      is put on it. */
  lemma RunExtends(fold: string -> string, msgs: seq<Message>, dbs: seq<Backend>, m: Message)
    requires Run(fold, msgs, dbs) && WellFormed(m) && SparesPlayers(dbs[|msgs|], m)
    ensures Keyed(dbs[|msgs|]) && Run(fold, msgs + [m], dbs + [Process(fold, dbs[|msgs|], m)])
  {
    hide Process, Keyed, SparesPlayers, WellFormed, NamesDistinct, Backed;
    RunOrderly(fold, msgs, dbs, |msgs|);
  }
}
