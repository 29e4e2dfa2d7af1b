/** The objects behind the vault: the in-memory backend of src/vault/db_memory.rs with
    the messages of src/vault/server.rs that change it, and the connection worker of
    src/auth_srv/server.rs, message by message. */
module VaultMemory {
  import opened Prim
  import opened VaultNode
  import opened VaultDb
  import opened VaultRefs
  import opened VaultScripts
  import opened VaultWorld
  import opened VaultSessions

  class DbMemory {
    var db: Backend

    constructor ()
      ensures db == Fresh()
    {
      db := Fresh();
    }

    // ===== nodes =====

    /** The new node has the given fields and a fresh id; the others are untouched. */
    method AddNode(node: Node) returns (r: Reply<u32>)
      requires Formed(node)
      modifies this
      ensures (db, r) == CreateNode(old(db), node)
      ensures old(Keyed(db)) && Clean(node) ==> Keyed(db)
      ensures old(Keyed(db)) && r.Good? ==> Added(old(db), db, r.value, node)
    {
      hide Keyed, Set, AsMap, Clean, Formed;
      ghost var before := db;
      var id := db.nodeIndex;
      if id + 1 >= U32_LIMIT {
        return Bad(CounterOverflow);
      }
      var taken := id in db.vault;
      db := db.(vault := db.vault[id := Set(node, NODE_ID, Word(id))], nodeIndex := id + 1);
      r := if taken then Bad(InternalError) else Good(id);
      CreateFacts(before, node);
    }

    method FetchNode(id: u32) returns (r: Reply<Node>)
      ensures r == if id in db.vault then Good(db.vault[id]) else Bad(NodeNotFound)
    {
      return if id in db.vault then Good(db.vault[id]) else Bad(NodeNotFound);
    }

    method ChangeNode(node: Node) returns (r: Reply<u32>)
      requires Keyed(db) && Formed(node)
      modifies this
      ensures (db, r) == UpdateNode(old(db), node)
    {
      hide Updated;
      var id := node.values[NODE_ID].w;
      if id !in db.vault {
        return Bad(NodeNotFound);
      }
      assert KeyedAt(db, id);
      var changed := ApplyUpdate(db.vault[id], node);
      db := db.(vault := db.vault[id := changed]);
      return Good(id);
    }

    /** The nodes are met in any order; each that matches is listed once. */
    method FindNodes(fold: string -> string, template: Node) returns (ids: seq<u32>)
      requires Keyed(db) && Formed(template)
      ensures multiset(ids) == multiset(Found(fold, db, template))
    {
      hide Matches, Keyed, Found, Formed;
      ids := [];
      var todo := db.vault.Keys;
      ghost var found := Found(fold, db, template);
      FoundStored(fold, db, template);
      assert found - todo == {};
      while todo != {}
        invariant todo <= db.vault.Keys
        invariant multiset(ids) == multiset(found - todo)
        decreases |todo|
      {
        var id :| id in todo;
        FoundIff(fold, db, template, id);
        var matches := NodeMatch(fold, template, db.vault[id]);
        if matches {
          ids := ids + [db.vault[id].values[NODE_ID].w];
          assert found - (todo - {id}) == (found - todo) + {id};
        } else {
          assert found - (todo - {id}) == found - todo;
        }
        todo := todo - {id};
      }
      assert found - todo == found;
    }

    /** Any node that fits the slot, if there is one. */
    method FindFitting(s: Slot) returns (r: Reply<u32>)
      ensures r.Good? ==> Holds(db, s, r.value)
      ensures r.Bad? ==> forall id :: !Holds(db, s, id)
    {
      hide Formed, Suits;
      var todo := db.vault.Keys;
      while todo != {}
        invariant todo <= db.vault.Keys
        invariant forall id :: id in db.vault && id !in todo ==> !Holds(db, s, id)
        decreases |todo|
      {
        var id :| id in todo;
        if Holds(db, s, id) {
          return Good(id);
        }
        todo := todo - {id};
      }
      return Bad(NodeNotFound);
    }

    method GetSystemNode() returns (r: Reply<u32>)
      ensures r.Good? ==> Holds(db, System, r.value)
      ensures r.Bad? ==> forall id :: !Holds(db, System, id)
    {
      r := FindFitting(System);
    }

    method GetAllPlayersNode() returns (r: Reply<u32>)
      ensures r.Good? ==> Holds(db, AllPlayers, r.value)
      ensures r.Bad? ==> forall id :: !Holds(db, AllPlayers, id)
    {
      r := FindFitting(AllPlayers);
    }

    // ===== refs =====

    method AddRef(parent: u32, child: u32, owner: u32)
      modifies this
      ensures db == old(db).(refs := old(db).refs + {NodeRef(parent, child, owner)})
    {
      db := db.(refs := db.refs + {NodeRef(parent, child, owner)});
    }

    method GetPlayerInfoNode(player: u32) returns (r: Reply<u32>)
      ensures r.Good? ==> r.value in InfoChildren(db, player)
      ensures r.Bad? ==> InfoChildren(db, player) == {}
    {
      hide IsInfoOf;
      var refs := FetchRefs(db.refs, player, false);
      assert forall x :: x in Children(db.refs, player) <==> x in multiset(refs);
      for i := 0 to |refs|
        invariant forall j :: 0 <= j < i ==> !IsInfoOf(db, refs[j].child, player)
      {
        if IsInfoOf(db, refs[i].child, player) {
          assert refs[i] in multiset(refs);
          return Good(refs[i].child);
        }
      }
      forall x | x in db.refs && x.parent == player
        ensures !IsInfoOf(db, x.child, player)
      {
        assert x in Children(db.refs, player) && x in refs;
      }
      return Bad(NodeNotFound);
    }

    // ===== players =====

    method PlayerExists(fold: string -> string, name: string) returns (r: bool)
      ensures r <==> NameTaken(fold, db, name)
    {
      var todo := db.players.Keys;
      while todo != {}
        invariant todo <= db.players.Keys
        invariant forall a, i :: a in db.players && a !in todo && 0 <= i < |db.players[a]| ==>
          fold(db.players[a][i].name) != fold(name)
        decreases |todo|
      {
        var a :| a in todo;
        for i := 0 to |db.players[a]|
          invariant forall j :: 0 <= j < i ==> fold(db.players[a][j].name) != fold(name)
        {
          if fold(db.players[a][i].name) == fold(name) {
            return true;
          }
        }
        todo := todo - {a};
      }
      return false;
    }

    /** The whole `CreatePlayer` message. */
    method AddPlayer(fold: string -> string, account: bytes, name: string, shape: string) returns (r: Reply<PlayerInfo>)
      requires |account| == 16
      modifies this
      ensures (db, r) == CreatePlayer(fold, old(db), account, name, shape)
    {
      hide PlayerNode, NameTaken, CreateNode, Formed, Clean;
      var exists' := PlayerExists(fold, name);
      if exists' {
        return Bad(PlayerAlreadyExists);
      }
      if |PlayersOf(db, account)| >= MAX_PLAYERS {
        return Bad(MaxPlayersOnAccount);
      }
      var id := AddNode(PlayerNode(account, name, shape, 1));
      if id.Bad? {
        return Bad(id.code);
      }
      var player := PlayerInfo(id.value, name, shape, 1);
      db := db.(players := db.players[account := PlayersOf(db, account) + [player]]);
      return Good(player);
    }
  }

  /** One node more, with a fresh id and the given fields. */
  ghost predicate Added(before: Backend, after: Backend, id: u32, node: Node)
    requires Formed(node)
  {
    && id !in before.vault && after.vault.Keys == before.vault.Keys + {id}
    && Formed(after.vault[id]) && AsMap(after.vault[id]) == AsMap(node)[NODE_ID := Word(id)]
    && (forall other :: other in before.vault ==> after.vault[other] == before.vault[other])
    && after.refs == before.refs && after.players == before.players
  }

  lemma CreateFacts(db: Backend, node: Node)
    requires Formed(node)
    ensures var (db', r) := CreateNode(db, node);
            && (Keyed(db) && Clean(node) ==> Keyed(db'))
            && (Keyed(db) && r.Good? ==> Added(db, db', r.value, node))
  {
    hide Set, AsMap, Clean;
    SetAsMap(node, NODE_ID, Word(db.nodeIndex));
    if Keyed(db) && Clean(node) {
      CreateKeyed(db, node);
    }
  }

  lemma FoundIff(fold: string -> string, db: Backend, template: Node, id: u32)
    requires Keyed(db) && Formed(template) && id in db.vault
    ensures Formed(db.vault[id]) && |db.vault[id].values| == COUNT && db.vault[id].values[NODE_ID] == Word(id)
    ensures id in Found(fold, db, template) <==> Matches(fold, template, db.vault[id])
  {
    hide Matches;
    assert KeyedAt(db, id);
  }

  lemma FoundStored(fold: string -> string, db: Backend, template: Node)
    requires Keyed(db) && Formed(template)
    ensures Found(fold, db, template) <= db.vault.Keys
  {
    hide Matches;
  }

  // ===== the connection worker =====

  /** The worker of one connection.  Each method is the code up to the next message to
      the vault, so that other connections' messages may come between any two calls. */
  class Worker {
    const vault: DbMemory
    var accountId: Option<bytes>
    var playerId: Option<u32>
    var phase: Phase

    constructor (vault: DbMemory)
      ensures this.vault == vault && State() == Conn(None, None, Idle)
    {
      this.vault := vault;
      accountId, playerId, phase := None, None, Idle;
    }

    ghost function State(): Conn
      reads this
    {
      Conn(accountId, playerId, phase)
    }

    /** The first message of a selection. */
    method FetchPlayer(player: u32)
      requires Keyed(vault.db) && phase.Idle?
      modifies this`phase
      ensures State() == AfterFetch(vault.db, old(State()), player)
    {
      hide Clean;
      var node := vault.FetchNode(player);
      if accountId.None? || node.Bad? {
        return;
      }
      assert KeyedAt(vault.db, player);
      if HasType(node.value, TYPE_PLAYER) && node.value.values[UUID_1] == Uuid(accountId.value) {
        phase := Checked(player);
      }
    }

    /** The second: the query picks any info node of the player, and one that says online
        ends the selection. */
    method QueryInfo()
      requires phase.Checked?
      modifies this`phase
      ensures exists info :: AnswersQuery(vault.db, old(phase.player), info) &&
                             State() == AfterQuery(vault.db, old(State()), info)
    {
      hide InfoChildren, Online;
      ghost var k := State();
      var info := vault.GetPlayerInfoNode(phase.player);
      if info.Bad? {
        assert AnswersQuery(vault.db, phase.player, 0);
        phase := Idle;
        assert State() == AfterQuery(vault.db, k, 0);
      } else {
        assert AnswersQuery(vault.db, phase.player, info.value);
        phase := if Online(vault.db, info.value) then Idle else Seen(phase.player, info.value);
        assert State() == AfterQuery(vault.db, k, info.value);
      }
    }

    /** The third marks the player online and makes the connection its holder. */
    method Commit()
      requires Keyed(vault.db) && phase.Seen?
      modifies this, vault
      ensures (vault.db, State()) == AfterCommit(old(vault.db), old(State()))
    {
      hide SetOnline, OnlineUpdate, Clean;
      ghost var db := vault.db;
      var Seen(player, info) := phase;
      var r := vault.ChangeNode(OnlineUpdate(info, 1, "Lobby", NIL_UUID));
      UpdateIs(db, info, 1, "Lobby");
      phase := Idle;
      if r.Good? {
        playerId := Some(player);
      }
    }

    /** The first message of a disconnection; nothing is left to do without an info node. */
    method QueryLeave() returns (gone: bool)
      requires phase.Idle?
      modifies this`phase
      ensures exists info ::
                && (playerId.Some? ==> AnswersQuery(vault.db, playerId.value, info))
                && AfterLeaveQuery(vault.db, old(State()), info) == if gone then None else Some(State())
    {
      hide InfoChildren;
      ghost var k := State();
      if playerId.None? {
        assert AfterLeaveQuery(vault.db, k, 0).None?;
        return true;
      }
      var info := vault.GetPlayerInfoNode(playerId.value);
      if info.Bad? {
        assert AnswersQuery(vault.db, playerId.value, 0) && AfterLeaveQuery(vault.db, k, 0).None?;
        return true;
      }
      phase := Leaving(info.value);
      assert AnswersQuery(vault.db, playerId.value, info.value);
      assert AfterLeaveQuery(vault.db, k, info.value) == Some(State());
      return false;
    }

    /** The second marks the held player offline. */
    method Leave()
      requires Keyed(vault.db) && phase.Leaving?
      modifies vault
      ensures vault.db == SetOnline(old(vault.db), phase.info, 0, "")
    {
      hide SetOnline, OnlineUpdate, Clean;
      ghost var db := vault.db;
      var r := vault.ChangeNode(OnlineUpdate(phase.info, 0, "", NIL_UUID));
      UpdateIs(db, phase.info, 0, "");
    }
  }

  /** The node is one that the query for the player's info may return, if there is one. */
  predicate AnswersQuery(db: Backend, player: u32, info: u32) {
    InfoChildren(db, player) == {} || info in InfoChildren(db, player)
  }

  lemma UpdateIs(db: Backend, info: u32, online: i32, place: string)
    requires Keyed(db)
    ensures SetOnline(db, info, online, place) == UpdateNode(db, OnlineUpdate(info, online, place, NIL_UUID)).0
    ensures UpdateNode(db, OnlineUpdate(info, online, place, NIL_UUID)).1 ==
            if info in db.vault then Good(info) else Bad(NodeNotFound)
    ensures info !in db.vault ==> SetOnline(db, info, online, place) == db
  {
  }
}
