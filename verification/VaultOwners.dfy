/** Whose player a connection can select: the checks of src/auth_srv/server.rs against
    the player records of src/vault/server.rs, in every run. */
module VaultOwners {
  import opened Prim
  import opened VaultNode
  import opened VaultDb
  import opened VaultScripts
  import opened VaultWorld
  import opened VaultSessions
  import opened VaultRuns

  /** The account has a player record of this id. */
  predicate HasRecord(db: Backend, account: bytes, p: u32) {
    account in db.players && exists i :: 0 <= i < |db.players[account]| && db.players[account][i].id == p
  }

  /** A Player node is of the account that has its record. */
  ghost predicate RecordedAt(db: Backend, id: u32) {
    id in db.vault && Formed(db.vault[id]) && HasType(db.vault[id], TYPE_PLAYER) ==>
      exists a :: HasRecord(db, a, id) && db.vault[id].values[UUID_1] == Uuid(a)
  }

  ghost predicate Recorded(db: Backend) {
    forall id :: RecordedAt(db, id)
  }

  /** A connection on its way to a player has the account of the player's record. */
  ghost predicate Rightful(db: Backend, k: Conn) {
    k.phase.Checked? || k.phase.Seen? ==> k.account.Some? && HasRecord(db, k.account.value, k.phase.player)
  }

  ghost predicate OwnersOk(w: World) {
    Recorded(w.db) && forall c :: c in w.conns ==> Rightful(w.db, w.conns[c])
  }

  /** No record is lost. */
  ghost predicate KeepsRecords(db: Backend, db': Backend) {
    forall a, p :: HasRecord(db, a, p) ==> HasRecord(db', a, p)
  }

  // ===== changes of the vault =====

  lemma RecordedKept(db: Backend, db': Backend)
    requires Recorded(db) && KeepsRecords(db, db')
    requires forall id :: id in db'.vault ==>
      (id in db.vault && db'.vault[id] == db.vault[id]) || !Holds(db', Player, id) || RecordedAt(db', id)
    ensures Recorded(db')
  {
    hide Formed, HasRecord;
    forall id
      ensures RecordedAt(db', id)
    {
      assert RecordedAt(db, id);
    }
  }

  lemma PlayerRecorded(fold: string -> string, db: Backend, account: bytes, name: string, shape: string)
    requires Orderly(fold, db) && Recorded(db) && |account| == 16
    ensures var db' := CreatePlayer(fold, db, account, name, shape).0; KeepsRecords(db, db') && Recorded(db')
  {
    hide PlayerNode, Clean, Formed, Set, NameTaken, NamesDistinct;
    var (db', r) := CreatePlayer(fold, db, account, name, shape);
    if db' != db {
      CreateKeyed(db, PlayerNode(account, name, shape, 1));
      NewIsPlayer(db, account, name, shape);
      RecordAdded(db, db', account, r.value);
      RecordedKept(db, db');
    }
  }

  lemma RecordAdded(db: Backend, db': Backend, account: bytes, p: PlayerInfo)
    requires db'.players == db.players[account := PlayersOf(db, account) + [p]]
    ensures KeepsRecords(db, db') && HasRecord(db', account, p.id)
  {
    forall a, q | HasRecord(db, a, q)
      ensures HasRecord(db', a, q)
    {
      var i :| 0 <= i < |db.players[a]| && db.players[a][i].id == q;
      assert db'.players[a][i].id == q;
    }
    assert db'.players[account][|PlayersOf(db, account)|] == p;
  }

  lemma SameRecords(db: Backend, db': Backend)
    requires db'.players == db.players
    ensures KeepsRecords(db, db')
  {
  }

  lemma CreateRecorded(db: Backend, t: Task, s: Slot)
    requires Keyed(db) && Recorded(db) && JobOk(t.job) && Creatable(s)
    requires CreatorOf(s).Some? ==> CreatorOf(s).value in t.slots
    ensures var db' := CreateNode(db, NodeFor(t.job, t.slots, s)).0; KeepsRecords(db, db') && Recorded(db')
  {
    hide NodeFor, Creatable, CreatorOf, Clean, Set, SlotType, SlotFolder, HasRecord;
    var db' := CreateNode(db, NodeFor(t.job, t.slots, s)).0;
    CreateNew(db, t, s);
    CreatedIsNot(s);
    OnlySlot(s, Player);
    SameRecords(db, db');
    RecordedKept(db, db');
  }

  lemma ExecRecorded(fold: string -> string, db: Backend, t: Task, choice: u32)
    requires Orderly(fold, db) && Recorded(db) && Runnable(t)
    ensures var db' := Exec(db, t, choice).0; KeepsRecords(db, db') && Recorded(db')
  {
    hide NodeFor, Creatable, CreatorOf, CreateNode, Ready, Holds, HasRecord, Orderly;
    OrderlyKeyed(fold, db);
    var db' := Exec(db, t, choice).0;
    if t.pc < |t.code| && t.code[t.pc].Create? {
      NextReady(t);
      CreateRecorded(db, t, t.code[t.pc].slot);
    } else {
      ExecSame(db, t, choice);
      SameRecords(db, db');
      RecordedKept(db, db');
    }
  }

  lemma ExecSame(db: Backend, t: Task, choice: u32)
    requires Runnable(t) && (t.pc < |t.code| ==> !t.code[t.pc].Create?)
    ensures Exec(db, t, choice).0.players == db.players && Exec(db, t, choice).0.vault == db.vault
  {
    hide Ready, Holds;
  }

  lemma FlagRecorded(db: Backend, info: u32, p: u32, online: i32, place: string)
    requires Keyed(db) && Recorded(db) && IsInfoOf(db, info, p)
    ensures var db' := SetOnline(db, info, online, place); KeepsRecords(db, db') && Recorded(db')
  {
    hide SetOnline, HasRecord, Evolves;
    var db' := SetOnline(db, info, online, place);
    assert KeyedAt(db, info);
    UpdateEvolves(db, info, online, place);
    InfoKept(db, db', info, p);
    SameRecords(db, db');
    RecordedKept(db, db');
  }

  // ===== every event =====

  lemma ScriptRecorded(fold: string -> string, w: World, e: Event)
    requires VaultOk(fold, w) && Recorded(w.db) && OfScript(e) && CanStep(w, e)
    ensures var w' := Step(fold, w, e); KeepsRecords(w.db, w'.db) && Recorded(w'.db)
  {
    hide VaultOk, Orderly, CreatePlayer, Exec, NewAgeTask, NewPlayerTask, HasRecord, RecordedAt;
    Parts(fold, w);
    SameRecords(w.db, w.db);
    match e {
      case StartPlayer(account, name, shape, _, _) => PlayerRecorded(fold, w.db, account, name, shape);
      case StartAge(_) =>
      case Advance(i, choice) =>
        if i < |w.tasks| {
          ExecRecorded(fold, w.db, w.tasks[i], choice);
        }
    }
  }

  lemma ConnRecorded(fold: string -> string, w: World, e: Event)
    requires AllOk(fold, w) && Recorded(w.db) && !OfScript(e) && CanStep(w, e)
    ensures var w' := Step(fold, w, e); KeepsRecords(w.db, w'.db) && Recorded(w'.db)
  {
    hide VaultOk, SetOnline, Step, CanStep, HasRecord, RecordedAt, InfoChildren, Holds, LinkedIfOnline, Keyed;
    if !SetsFlag(w, e) {
      OtherwiseSame(fold, w, e);
      SameRecords(w.db, w.db);
    } else {
      var k := w.conns[e.conn];
      assert PhaseOk(w.db, k);
      if e.Commit? {
        CommitIs(fold, w, e.conn);
        ChildIsInfo(w.db, k.phase.player, k.phase.info);
        FlagRecorded(w.db, k.phase.info, k.phase.player, 1, "Lobby");
      } else {
        LeaveIs(fold, w, e.conn);
        ChildIsInfo(w.db, k.player.value, k.phase.info);
        FlagRecorded(w.db, k.phase.info, k.player.value, 0, "");
      }
    }
  }

  /** What a connection may do with its phase and its account. */
  lemma ConnMoves(fold: string -> string, w: World, e: Event, c: nat)
    requires AllOk(fold, w) && CanStep(w, e) && c in Step(fold, w, e).conns
    ensures var k' := Step(fold, w, e).conns[c];
            k'.phase.Checked? || k'.phase.Seen? ==>
              || (e.FetchPlayer? && k'.phase.Checked? && Owns(w.db, k'.account, k'.phase.player))
              || (&& c in w.conns && (w.conns[c].phase.Checked? || w.conns[c].phase.Seen?)
                  && w.conns[c].account == k'.account && w.conns[c].phase.player == k'.phase.player)
  {
    hide VaultOk, FlagsOk, CanStep, SetOnline, ScriptStep, Online, Owns, InfoChildren;
    if OfScript(e) {
      ScriptConns(fold, w, e);
    }
  }

  lemma ScriptConns(fold: string -> string, w: World, e: Event)
    requires VaultOk(fold, w) && OfScript(e) && CanStep(w, e)
    ensures Step(fold, w, e).conns == w.conns
  {
    hide VaultOk, CanStep, Grows;
    ScriptStepOk(fold, w, e);
  }

  lemma OwnedRecord(db: Backend, account: Option<bytes>, p: u32)
    requires Recorded(db) && Owns(db, account, p)
    ensures HasRecord(db, account.value, p)
  {
    hide Formed, HasRecord;
    assert RecordedAt(db, p);
  }

  lemma StepOwners(fold: string -> string, w: World, e: Event)
    requires AllOk(fold, w) && CanStep(w, e) && OwnersOk(w)
    ensures OwnersOk(Step(fold, w, e)) && KeepsRecords(w.db, Step(fold, w, e).db)
  {
    hide VaultOk, FlagsOk, CanStep, Step, Recorded, HasRecord, Owns;
    var w' := Step(fold, w, e);
    if OfScript(e) {
      ScriptRecorded(fold, w, e);
    } else {
      ConnRecorded(fold, w, e);
    }
    forall c | c in w'.conns
      ensures Rightful(w'.db, w'.conns[c])
    {
      var k' := w'.conns[c];
      if k'.phase.Checked? || k'.phase.Seen? {
        ConnMoves(fold, w, e, c);
        if Owns(w.db, k'.account, k'.phase.player) {
          OwnedRecord(w.db, k'.account, k'.phase.player);
          OwnsAccount(w.db, k'.account, k'.phase.player);
        } else {
          assert Rightful(w.db, w.conns[c]);
        }
      }
    }
  }

  lemma OwnsAccount(db: Backend, account: Option<bytes>, p: u32)
    requires Owns(db, account, p)
    ensures account.Some?
  {
  }

  lemma StartOwners(fold: string -> string)
    ensures OwnersOk(Start())
  {
    hide InitVault, HasRecord;
    forall id
      ensures RecordedAt(Start().db, id)
    {
      InitEmpty(fold, id);
    }
  }

  // ===== every run =====

  lemma {:induction false} RunOwners(fold: string -> string, events: seq<Event>, ws: seq<World>, n: nat)
    requires Follows(fold, events, ws) && ws[0] == Start() && n < |ws|
    ensures OwnersOk(ws[n])
    decreases n
  {
    hide OwnersOk, AllOk, Step, CanStep, Start, KeepsRecords;
    if n == 0 {
      StartOwners(fold);
    } else {
      RunOwners(fold, events, ws, n - 1);
      RunAllOk(fold, events, ws, n - 1);
      StepOwners(fold, ws[n - 1], events[n - 1]);
    }
  }

  /** In every run, a connection on its way to a player is logged in with the account
      that has the player's record. */
  lemma SelectsOwn(fold: string -> string, events: seq<Event>, ws: seq<World>, n: nat, c: nat, p: u32)
    requires Follows(fold, events, ws) && ws[0] == Start() && n < |ws| && c in ws[n].conns
    requires ws[n].conns[c].phase == Checked(p) || Pends(ws[n], c, p)
    ensures ws[n].conns[c].account.Some? && HasRecord(ws[n].db, ws[n].conns[c].account.value, p)
  {
    hide Step, CanStep, Start, HasRecord, Recorded;
    RunOwners(fold, events, ws, n);
    assert Rightful(ws[n].db, ws[n].conns[c]);
  }

  /** The connection came to hold the player by this commit, logged in with this account. */
  predicate TookAt(events: seq<Event>, ws: seq<World>, m: nat, c: nat, p: u32, account: bytes) {
    && m < |events| && m < |ws| && events[m] == Commit(c) && Pends(ws[m], c, p)
    && ws[m].conns[c].account == Some(account)
  }

  /** In every run, a connection holds a player only if it took it logged in with the
      account that has the player's record. */
  lemma {:induction false} HoldsOwn(fold: string -> string, events: seq<Event>, ws: seq<World>, n: nat, c: nat, p: u32)
    requires Follows(fold, events, ws) && ws[0] == Start() && n < |ws| && Plays(ws[n], c, p)
    ensures exists m, account ::
      0 <= m < n && TookAt(events, ws, m, c, p, account) && HasRecord(ws[n].db, account, p)
    decreases n
  {
    hide AllOk, OwnersOk, Step, CanStep, HasRecord;
    if n > 0 {
      var w, e := ws[n - 1], events[n - 1];
      RunAllOk(fold, events, ws, n - 1);
      RunOwners(fold, events, ws, n - 1);
      StepOwners(fold, w, e);
      HolderBefore(fold, w, e, c, p);
      if Plays(w, c, p) {
        HoldsOwn(fold, events, ws, n - 1, c, p);
      } else {
        SelectsOwn(fold, events, ws, n - 1, c, p);
        assert TookAt(events, ws, n - 1, c, p, w.conns[c].account.value);
      }
    }
  }

  lemma HolderBefore(fold: string -> string, w: World, e: Event, c: nat, p: u32)
    requires AllOk(fold, w) && CanStep(w, e) && Plays(Step(fold, w, e), c, p)
    ensures Plays(w, c, p) || (e == Commit(c) && Pends(w, c, p))
  {
    hide VaultOk, FlagsOk, CanStep, SetOnline, ScriptStep, Online, Owns, InfoChildren;
    if OfScript(e) {
      ScriptConns(fold, w, e);
    }
  }

  /** In every run, the first step of a selection succeeds exactly for the players whose
      record the account has. */
  lemma FetchIff(fold: string -> string, events: seq<Event>, ws: seq<World>, n: nat, account: bytes, p: u32)
    requires Follows(fold, events, ws) && ws[0] == Start() && n < |ws|
    ensures var k := Conn(Some(account), None, Idle);
            AfterFetch(ws[n].db, k, p).phase == Checked(p) <==> HasRecord(ws[n].db, account, p)
  {
    hide Step, CanStep, Start, FlagsOk, Graph, TasksOk, Keyed, NamesDistinct;
    RunOwners(fold, events, ws, n);
    RunAllOk(fold, events, ws, n);
    var db := ws[n].db;
    if Owns(db, Some(account), p) {
      OwnedRecord(db, Some(account), p);
    }
    if HasRecord(db, account, p) {
      var i :| 0 <= i < |db.players[account]| && db.players[account][i].id == p;
      assert RecordAt(db, account, i);
      assert Backed(db, account, db.players[account][i]);
    }
  }

  /** In every run, a player's record is in one account. */
  lemma OneAccount(fold: string -> string, events: seq<Event>, ws: seq<World>, n: nat, a: bytes, b: bytes, p: u32)
    requires Follows(fold, events, ws) && ws[0] == Start() && n < |ws|
    requires HasRecord(ws[n].db, a, p) && HasRecord(ws[n].db, b, p)
    ensures a == b
  {
    hide Step, CanStep, Start, FlagsOk, Graph, TasksOk, Keyed, NamesDistinct;
    RunAllOk(fold, events, ws, n);
    var db := ws[n].db;
    var i :| 0 <= i < |db.players[a]| && db.players[a][i].id == p;
    var j :| 0 <= j < |db.players[b]| && db.players[b][j].id == p;
    assert RecordAt(db, a, i) && RecordAt(db, b, j);
    assert Backed(db, a, db.players[a][i]) && Backed(db, b, db.players[b][j]);
  }
}
