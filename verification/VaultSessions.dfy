/** What the messages of sessions (src/auth_srv/server.rs) and of scripts keep.  Between
    any two messages of a session, messages of other connections may be served. */
module VaultSessions {
  import opened Prim
  import opened VaultNode
  import opened VaultDb
  import opened VaultScripts
  import opened VaultWorld

  // ===== the invariants =====

  /** The connection holds the player. */
  predicate Plays(w: World, c: nat, p: u32) {
    c in w.conns && w.conns[c].player == Some(p)
  }

  /** The connection has seen the player offline and not yet marked it online. */
  predicate Pends(w: World, c: nat, p: u32) {
    c in w.conns && w.conns[c].phase.Seen? && w.conns[c].phase.player == p
  }

  ghost predicate PhaseOk(db: Backend, k: Conn) {
    && (k.player.Some? ==> Holds(db, Player, k.player.value))
    && match k.phase
       case Idle => true
       case Checked(p) => Holds(db, Player, p)
       case Seen(p, info) => Holds(db, Player, p) && info in InfoChildren(db, p)
       case Leaving(info) => k.player.Some? && info in InfoChildren(db, k.player.value)
  }

  /** An info node that says online can be found from its player. */
  predicate LinkedIfOnline(db: Backend, id: u32, p: u32) {
    IsInfoOf(db, id, p) && Online(db, id) ==> id in InfoChildren(db, p)
  }

  ghost predicate FlagsOk(w: World) {
    && (forall id, p :: LinkedIfOnline(w.db, id, p))
    && (forall c :: c in w.conns ==> PhaseOk(w.db, w.conns[c]))
  }

  /** What every run keeps. */
  ghost predicate AllOk(fold: string -> string, w: World) {
    VaultOk(fold, w) && FlagsOk(w)
  }

  /** Held players are online and have one holder; a player seen offline still is, and
      one connection has seen it. */
  ghost predicate SessionsOk(w: World) {
    && (forall c, p :: Plays(w, c, p) ==> HeldOnline(w.db, p))
    && (forall c, d, p :: Plays(w, c, p) && Plays(w, d, p) ==> c == d)
    && (forall c, p :: Pends(w, c, p) ==> !Online(w.db, w.conns[c].phase.info))
    && (forall c, d, p :: Pends(w, c, p) && Pends(w, d, p) ==> c == d)
  }

  ghost predicate Inv(fold: string -> string, w: World) {
    AllOk(fold, w) && SessionsOk(w)
  }

  /** The event lets a connection see a player offline that another one has seen so and
      has not yet marked online. */
  ghost predicate Overlaps(w: World, e: Event) {
    && e.QueryInfo? && e.conn in w.conns && w.conns[e.conn].phase.Checked?
    && AfterQuery(w.db, w.conns[e.conn], e.info).phase.Seen?
    && exists d :: d != e.conn && Pends(w, d, w.conns[e.conn].phase.player)
  }

  lemma Parts(fold: string -> string, w: World)
    requires VaultOk(fold, w)
    ensures TasksOk(w) && Keyed(w.db) && Orderly(fold, w.db)
  {
  }

  lemma ChildIsInfo(db: Backend, p: u32, info: u32)
    requires info in InfoChildren(db, p)
    ensures IsInfoOf(db, info, p)
  {
  }

  lemma OwnedHolds(db: Backend, account: Option<bytes>, p: u32)
    requires Owns(db, account, p)
    ensures Holds(db, Player, p)
  {
  }

  // ===== changes of the vault =====

  lemma ChildrenKept(db: Backend, db': Backend, p: u32)
    requires Evolves(db, db')
    ensures InfoChildren(db, p) <= InfoChildren(db', p)
  {
    hide IsInfoOf, KeepsAt;
    forall id | id in InfoChildren(db, p)
      ensures id in InfoChildren(db', p)
    {
      var r :| r in db.refs && r.parent == p && r.child == id && IsInfoOf(db, id, p);
      InfoKept(db, db', id, p);
      assert r in db'.refs;
    }
  }

  lemma PhaseKept(db: Backend, db': Backend, k: Conn)
    requires Evolves(db, db') && PhaseOk(db, k)
    ensures PhaseOk(db', k)
  {
    hide Holds, InfoChildren, KeepsAt;
    if k.player.Some? {
      HoldsKept(db, db', Player, k.player.value);
      ChildrenKept(db, db', k.player.value);
    }
    if k.phase.Checked? || k.phase.Seen? {
      HoldsKept(db, db', Player, k.phase.player);
      ChildrenKept(db, db', k.phase.player);
    }
  }

  lemma FlagsGrow(w: World, w': World)
    requires FlagsOk(w) && Grows(w.db, w'.db) && w'.conns == w.conns
    ensures FlagsOk(w')
  {
    hide PhaseOk, KeepsAt, InfoChildren;
    forall id, p
      ensures LinkedIfOnline(w'.db, id, p)
    {
      assert LinkedIfOnline(w.db, id, p);
      ChildrenKept(w.db, w'.db, p);
      if IsInfoOf(w'.db, id, p) && Online(w'.db, id) && id !in w.db.vault {
        InfoIsOnline(w'.db, id, p);
      }
    }
    forall c | c in w'.conns
      ensures PhaseOk(w'.db, w'.conns[c])
    {
      PhaseKept(w.db, w'.db, w.conns[c]);
    }
  }

  lemma InfoIsOnline(db: Backend, id: u32, p: u32)
    requires IsInfoOf(db, id, p) && Online(db, id)
    ensures OnlineInfo(db, id)
  {
  }

  /** Where its info node says online, a held player stays held. */
  lemma HeldKept(w: World, w': World, p: u32)
    requires Evolves(w.db, w'.db) && TasksOk(w') && HeldOnline(w.db, p)
    requires forall id :: id in InfoChildren(w.db, p) ==> Online(w'.db, id)
    ensures HeldOnline(w'.db, p)
  {
    hide Holds, InfoChildren, Online, KeepsAt, TasksOk;
    HoldsKept(w.db, w'.db, Player, p);
    ChildrenKept(w.db, w'.db, p);
    var a :| a in InfoChildren(w.db, p);
    forall id | id in InfoChildren(w'.db, p)
      ensures Online(w'.db, id)
    {
      InfoUnique(w', p, id, a);
    }
  }

  lemma HeldGrows(w: World, w': World, p: u32)
    requires Grows(w.db, w'.db) && TasksOk(w') && HeldOnline(w.db, p)
    ensures HeldOnline(w'.db, p)
  {
    hide InfoChildren, TasksOk, Evolves, Holds;
    forall id | id in InfoChildren(w.db, p)
      ensures Online(w'.db, id)
    {
      assert Online(w.db, id);
    }
    HeldKept(w, w', p);
  }

  /** The node that a connection has seen stays offline. */
  lemma SeenGrows(w: World, w': World, c: nat, p: u32)
    requires Grows(w.db, w'.db) && FlagsOk(w) && Pends(w, c, p) && !Online(w.db, w.conns[c].phase.info)
    ensures !Online(w'.db, w.conns[c].phase.info)
  {
    hide Evolves, LinkedIfOnline, Holds;
    assert PhaseOk(w.db, w.conns[c]);
    ChildIsInfo(w.db, p, w.conns[c].phase.info);
  }

  /** Messages of scripts leave the sessions alone. */
  lemma SessionsGrow(w: World, w': World)
    requires SessionsOk(w) && FlagsOk(w) && TasksOk(w') && w'.conns == w.conns && Grows(w.db, w'.db)
    ensures SessionsOk(w')
  {
    hide TasksOk, HeldOnline, Grows, FlagsOk, Online;
    forall c, p | Plays(w', c, p)
      ensures HeldOnline(w'.db, p)
    {
      assert Plays(w, c, p);
      HeldGrows(w, w', p);
    }
    forall c, p | Pends(w', c, p)
      ensures !Online(w'.db, w'.conns[c].phase.info)
    {
      assert Pends(w, c, p);
      SeenGrows(w, w', c, p);
    }
    SameConns(w, w');
  }

  lemma SameConns(w: World, w': World)
    requires w'.conns == w.conns
    ensures forall c, p :: Plays(w', c, p) == Plays(w, c, p)
    ensures forall c, p :: Pends(w', c, p) == Pends(w, c, p)
  {
  }

  // ===== changes of one flag =====

  /** Setting a flag on an info node keeps the vault in order. */
  lemma FlagSet(fold: string -> string, w: World, info: u32, p: u32, online: i32, place: string, conns: map<nat, Conn>)
    requires VaultOk(fold, w) && IsInfoOf(w.db, info, p) && Keyed(w.db)
    ensures VaultOk(fold, World(SetOnline(w.db, info, online, place), w.tasks, conns))
  {
    hide Orderly, RefOk, TaskOk, Holds, KeepsAt, SetOnline, Formed;
    var db := SetOnline(w.db, info, online, place);
    var w' := World(db, w.tasks, conns);
    assert KeyedAt(w.db, info);
    UpdateEvolves(w.db, info, online, place);
    FlagOrderly(fold, w.db, info, p, online, place);
    BaseKept(fold, w, db);
    GraphKept(fold, w, db);
    forall r | r in db.refs
      ensures TracedAt(w', r)
    {
      TracedKept(w, w', r);
    }
  }

  lemma FlagOrderly(fold: string -> string, db: Backend, info: u32, p: u32, online: i32, place: string)
    requires Orderly(fold, db) && IsInfoOf(db, info, p)
    ensures Orderly(fold, SetOnline(db, info, online, place))
  {
    hide Clean, OnlineUpdate, Updated, NamesDistinct, Backed;
    UpdateOrderly(fold, db, OnlineUpdate(info, online, place, NIL_UUID));
  }

  /** What changes in the database: one flag. */
  lemma FlagEffect(db: Backend, info: u32, p: u32, online: i32, place: string)
    requires Keyed(db) && IsInfoOf(db, info, p)
    ensures var db' := SetOnline(db, info, online, place);
            && Evolves(db, db') && db'.vault.Keys == db.vault.Keys && (Online(db', info) <==> online != 0)
            && forall id :: id in db.vault && id != info ==> db'.vault[id] == db.vault[id]
  {
    hide SetOnline, Evolves;
    assert KeyedAt(db, info);
    UpdateEvolves(db, info, online, place);
  }

  lemma FlagLinked(w: World, info: u32, p: u32, online: i32, place: string)
    requires Keyed(w.db) && info in InfoChildren(w.db, p) && FlagsOk(w)
    ensures forall id, q :: LinkedIfOnline(SetOnline(w.db, info, online, place), id, q)
  {
    hide SetOnline, Evolves, PhaseOk, InfoChildren;
    var db := SetOnline(w.db, info, online, place);
    ChildIsInfo(w.db, p, info);
    FlagEffect(w.db, info, p, online, place);
    forall id, q
      ensures LinkedIfOnline(db, id, q)
    {
      assert LinkedIfOnline(w.db, id, q);
      ChildrenKept(w.db, db, q);
      InfoKept(w.db, db, id, q);
      if id == info {
        InfoOfOne(w.db, info, p, q);
      }
    }
  }

  lemma InfoOfOne(db: Backend, id: u32, p: u32, q: u32)
    requires IsInfoOf(db, id, p)
    ensures IsInfoOf(db, id, q) ==> p == q
    ensures id in db.vault && Formed(db.vault[id])
  {
  }

  /** A change of one player's flag does not touch another player's. */
  lemma OtherUntouched(db: Backend, info: u32, p: u32, id: u32, q: u32, online: i32, place: string)
    requires Keyed(db) && IsInfoOf(db, info, p) && IsInfoOf(db, id, q) && q != p
    ensures Online(SetOnline(db, info, online, place), id) == Online(db, id)
  {
    hide SetOnline, Evolves;
    FlagEffect(db, info, p, online, place);
    InfoOfOne(db, id, q, p);
  }

  lemma OtherHeld(fold: string -> string, w: World, w': World, info: u32, p: u32, q: u32, online: i32, place: string)
    requires VaultOk(fold, w) && Keyed(w.db) && IsInfoOf(w.db, info, p) && HeldOnline(w.db, q) && q != p
    requires w'.db == SetOnline(w.db, info, online, place) && TasksOk(w')
    ensures HeldOnline(w'.db, q)
  {
    hide SetOnline, VaultOk, TasksOk, Evolves, Formed, Holds, IsInfoOf, Online, InfoChildren;
    FlagEffect(w.db, info, p, online, place);
    forall id | id in InfoChildren(w.db, q)
      ensures Online(w'.db, id)
    {
      ChildIsInfo(w.db, q, id);
      OtherUntouched(w.db, info, p, id, q, online, place);
    }
    HeldKept(w, w', q);
  }

  lemma NowOnline(w: World, w': World, info: u32, p: u32)
    requires Keyed(w.db) && Holds(w.db, Player, p) && info in InfoChildren(w.db, p)
    requires w'.db == SetOnline(w.db, info, 1, "Lobby") && TasksOk(w')
    ensures HeldOnline(w'.db, p)
  {
    hide SetOnline, TasksOk, Evolves, Formed, Holds, IsInfoOf, Online, InfoChildren;
    ChildIsInfo(w.db, p, info);
    FlagEffect(w.db, info, p, 1, "Lobby");
    HoldsKept(w.db, w'.db, Player, p);
    ChildrenKept(w.db, w'.db, p);
    forall id | id in InfoChildren(w'.db, p)
      ensures Online(w'.db, id)
    {
      InfoUnique(w', p, id, info);
    }
  }

  // ===== events of connections =====

  lemma VaultConns(fold: string -> string, w: World, conns: map<nat, Conn>)
    requires VaultOk(fold, w)
    ensures VaultOk(fold, w.(conns := conns))
  {
    hide Orderly, Graph, TaskOk, SamePlayer, Holds;
    var w' := w.(conns := conns);
    forall r | r in w'.db.refs
      ensures TracedAt(w', r)
    {
      assert TracedAt(w, r);
    }
  }

  /** A connection changes only in account or phase. */
  lemma ConnSet(fold: string -> string, w: World, c: nat, k: Conn)
    requires AllOk(fold, w) && PhaseOk(w.db, k)
    ensures AllOk(fold, WithConn(w, c, k))
    ensures SessionsOk(w)
      && (k.player.Some? ==> c in w.conns && w.conns[c].player == k.player)
      && (k.phase.Seen? ==> !Online(w.db, k.phase.info) && forall d :: d != c ==> !Pends(w, d, k.phase.player))
      ==> SessionsOk(WithConn(w, c, k))
  {
    hide VaultOk, PhaseOk, HeldOnline, LinkedIfOnline, Online;
    VaultConns(fold, w, w.conns[c := k]);
    var w' := WithConn(w, c, k);
    assert forall d, p :: d != c ==> Plays(w', d, p) == Plays(w, d, p) && Pends(w', d, p) == Pends(w, d, p);
    if SessionsOk(w) && (k.player.Some? ==> c in w.conns && w.conns[c].player == k.player)
        && (k.phase.Seen? ==> !Online(w.db, k.phase.info) && forall d :: d != c ==> !Pends(w, d, k.phase.player)) {
      assert forall p :: Plays(w', c, p) ==> Plays(w, c, p);
    }
  }

  lemma ConnDropped(fold: string -> string, w: World, c: nat)
    requires AllOk(fold, w)
    ensures AllOk(fold, w.(conns := w.conns - {c}))
    ensures SessionsOk(w) ==> SessionsOk(w.(conns := w.conns - {c}))
  {
    hide VaultOk, PhaseOk, HeldOnline, LinkedIfOnline, Online;
    VaultConns(fold, w, w.conns - {c});
    var w' := w.(conns := w.conns - {c});
    assert forall d, p :: (Plays(w', d, p) ==> Plays(w, d, p)) && (Pends(w', d, p) ==> Pends(w, d, p));
  }

  lemma FetchOk(fold: string -> string, w: World, c: nat, player: u32)
    requires AllOk(fold, w) && c in w.conns
    ensures PhaseOk(w.db, AfterFetch(w.db, w.conns[c], player))
  {
    hide VaultOk, LinkedIfOnline, Holds, InfoChildren, Owns;
    assert PhaseOk(w.db, w.conns[c]);
    if Owns(w.db, w.conns[c].account, player) {
      OwnedHolds(w.db, w.conns[c].account, player);
    }
  }

  lemma QueryOk(fold: string -> string, w: World, c: nat, info: u32)
    requires AllOk(fold, w) && c in w.conns
    ensures PhaseOk(w.db, AfterQuery(w.db, w.conns[c], info))
  {
    hide VaultOk, LinkedIfOnline, Holds, InfoChildren;
    assert PhaseOk(w.db, w.conns[c]);
  }

  lemma LeaveQueryOk(fold: string -> string, w: World, c: nat, info: u32)
    requires AllOk(fold, w) && c in w.conns
    ensures var k := AfterLeaveQuery(w.db, w.conns[c], info); k.Some? ==> PhaseOk(w.db, k.value)
  {
    hide VaultOk, LinkedIfOnline, Holds, InfoChildren;
    assert PhaseOk(w.db, w.conns[c]);
  }

  // ----- marking a player online -----

  /** The world after a commit that has something to do. */
  function Committed(w: World, c: nat): World
    requires Keyed(w.db) && c in w.conns && w.conns[c].phase.Seen?
  {
    var k := w.conns[c];
    World(SetOnline(w.db, k.phase.info, 1, "Lobby"), w.tasks,
          w.conns[c := k.(player := Some(k.phase.player), phase := Idle)])
  }

  lemma CommitAllOk(fold: string -> string, w: World, c: nat)
    requires AllOk(fold, w) && Keyed(w.db) && c in w.conns && w.conns[c].phase.Seen?
    ensures AllOk(fold, Committed(w, c)) && w.conns[c].phase.info in w.db.vault
  {
    hide VaultOk, SetOnline, LinkedIfOnline, Holds, InfoChildren, Evolves, Formed;
    assert PhaseOk(w.db, w.conns[c]);
    var Seen(p, info) := w.conns[c].phase;
    var w' := Committed(w, c);
    ChildIsInfo(w.db, p, info);
    FlagSet(fold, w, info, p, 1, "Lobby", w'.conns);
    FlagLinked(w, info, p, 1, "Lobby");
    FlagEffect(w.db, info, p, 1, "Lobby");
    forall d | d in w'.conns
      ensures PhaseOk(w'.db, w'.conns[d])
    {
      assert PhaseOk(w.db, w.conns[d]);
      PhaseKept(w.db, w'.db, w.conns[d]);
    }
  }

  /** Only a player that no connection holds can have been seen offline. */
  lemma SeenIsFree(fold: string -> string, w: World, c: nat, p: u32)
    requires Inv(fold, w) && Pends(w, c, p)
    ensures forall d :: !Plays(w, d, p)
  {
    hide VaultOk, LinkedIfOnline, Holds, InfoChildren, Online;
    assert PhaseOk(w.db, w.conns[c]);
  }

  lemma CommitSessionsOk(fold: string -> string, w: World, c: nat)
    requires Inv(fold, w) && Keyed(w.db) && c in w.conns && w.conns[c].phase.Seen?
    ensures SessionsOk(Committed(w, c))
  {
    hide VaultOk, SetOnline, LinkedIfOnline, Holds, InfoChildren, Evolves, Formed, HeldOnline, Online, IsInfoOf,
      TasksOk;
    var Seen(p, info) := w.conns[c].phase;
    var w' := Committed(w, c);
    CommitAllOk(fold, w, c);
    Parts(fold, w');
    assert PhaseOk(w.db, w.conns[c]);
    ChildIsInfo(w.db, p, info);
    assert Pends(w, c, p);
    SeenIsFree(fold, w, c, p);
    NowOnline(w, w', info, p);
    forall d, q | Plays(w', d, q)
      ensures HeldOnline(w'.db, q) && (d == c ==> q == p) && (d != c ==> Plays(w, d, q))
    {
      if d != c {
        assert Plays(w, d, q);
        OtherHeld(fold, w, w', info, p, q, 1, "Lobby");
      }
    }
    forall d, q | Pends(w', d, q)
      ensures Pends(w, d, q) && !Online(w'.db, w'.conns[d].phase.info)
    {
      assert d != c && Pends(w, d, q);
      assert PhaseOk(w.db, w.conns[d]);
      ChildIsInfo(w.db, q, w.conns[d].phase.info);
      OtherUntouched(w.db, info, p, w.conns[d].phase.info, q, 1, "Lobby");
    }
  }

  // ----- marking it offline -----

  function Left(w: World, c: nat): World
    requires Keyed(w.db) && c in w.conns && w.conns[c].phase.Leaving?
  {
    World(SetOnline(w.db, w.conns[c].phase.info, 0, ""), w.tasks, w.conns - {c})
  }

  lemma LeaveAllOk(fold: string -> string, w: World, c: nat)
    requires AllOk(fold, w) && Keyed(w.db) && c in w.conns && w.conns[c].phase.Leaving?
    ensures AllOk(fold, Left(w, c))
  {
    hide VaultOk, SetOnline, LinkedIfOnline, Holds, InfoChildren, Evolves, Formed;
    assert PhaseOk(w.db, w.conns[c]);
    var info, p := w.conns[c].phase.info, w.conns[c].player.value;
    var w' := Left(w, c);
    ChildIsInfo(w.db, p, info);
    FlagSet(fold, w, info, p, 0, "", w'.conns);
    FlagLinked(w, info, p, 0, "");
    FlagEffect(w.db, info, p, 0, "");
    forall d | d in w'.conns
      ensures PhaseOk(w'.db, w'.conns[d])
    {
      assert PhaseOk(w.db, w.conns[d]);
      PhaseKept(w.db, w'.db, w.conns[d]);
    }
  }

  lemma LeaveSessionsOk(fold: string -> string, w: World, c: nat)
    requires Inv(fold, w) && Keyed(w.db) && c in w.conns && w.conns[c].phase.Leaving?
    ensures SessionsOk(Left(w, c))
  {
    hide VaultOk, SetOnline, LinkedIfOnline, Holds, InfoChildren, Evolves, Formed, HeldOnline, Online, IsInfoOf,
      TasksOk;
    assert PhaseOk(w.db, w.conns[c]);
    var info, p := w.conns[c].phase.info, w.conns[c].player.value;
    var w' := Left(w, c);
    LeaveAllOk(fold, w, c);
    Parts(fold, w');
    ChildIsInfo(w.db, p, info);
    FlagEffect(w.db, info, p, 0, "");
    assert Plays(w, c, p);
    forall d, q | Plays(w', d, q)
      ensures Plays(w, d, q) && HeldOnline(w'.db, q)
    {
      assert Plays(w, d, q);
      OtherHeld(fold, w, w', info, p, q, 0, "");
    }
    forall d, q | Pends(w', d, q)
      ensures Pends(w, d, q) && !Online(w'.db, w'.conns[d].phase.info)
    {
      assert Pends(w, d, q);
      assert PhaseOk(w.db, w.conns[d]);
      var seen := w.conns[d].phase.info;
      ChildIsInfo(w.db, q, seen);
      if seen != info {
        SameElsewhere(w.db, w'.db, seen);
      }
    }
  }

  lemma SameElsewhere(db: Backend, db': Backend, id: u32)
    requires id in db.vault && id in db'.vault ==> db'.vault[id] == db.vault[id]
    requires db'.vault.Keys == db.vault.Keys
    ensures Online(db', id) == Online(db, id)
  {
  }

  // ===== events of scripts =====

  lemma AllOkCanStep(fold: string -> string, w: World, e: Event)
    requires VaultOk(fold, w) && EventOk(e)
    ensures CanStep(w, e)
  {
    hide Graph, NamesDistinct, Backed, Holds, KeyedAt, Runnable;
    forall i | 0 <= i < |w.tasks|
      ensures Runnable(w.tasks[i])
    {
      assert TaskOk(w.db, w.tasks[i]);
    }
  }

  lemma AdvanceOk(fold: string -> string, w: World, i: nat, choice: u32)
    requires VaultOk(fold, w) && CanStep(w, Advance(i, choice)) && i < |w.tasks|
    ensures var (db, t) := Exec(w.db, w.tasks[i], choice);
            VaultOk(fold, World(db, w.tasks[i := t], w.conns)) && Grows(w.db, db)
  {
    hide VaultOk, Runnable, Evolves, Orderly, Keyed, Grows;
    var t := w.tasks[i];
    Parts(fold, w);
    GrowsSelf(fold, w.db);
    ExecChoice(w.db, t, choice);
    if t.pc == |t.code| {
      assert w.tasks[i := t] == w.tasks;
    } else {
      match t.code[t.pc] {
        case Create(_) => CreateOk(fold, w, i);
        case Link(_, _, _) => LinkOk(fold, w, i);
        case _ => FindOk(fold, w, i, choice);
      }
    }
  }

  lemma GrowsSelf(fold: string -> string, db: Backend)
    requires Orderly(fold, db)
    ensures Grows(db, db)
  {
    hide Orderly, Evolves;
    Unchanged(fold, db);
  }

  lemma ExecChoice(db: Backend, t: Task, choice: u32)
    requires Runnable(t)
    ensures t.pc <= |t.code|
    ensures t.pc < |t.code| && (t.code[t.pc].Create? || t.code[t.pc].Link?) ==> Exec(db, t, choice) == Exec(db, t, 0)
    ensures t.pc == |t.code| ==> Exec(db, t, choice) == (db, t)
  {
    hide Ready, NodeFor, CreateNode;
  }

  lemma StartPlayerOk(fold: string -> string, w: World, e: Event)
    requires VaultOk(fold, w) && e.StartPlayer? && CanStep(w, e)
    ensures VaultOk(fold, Step(fold, w, e)) && Grows(w.db, Step(fold, w, e).db)
  {
    hide VaultOk, Runnable, KeepsAt, Orderly, Keyed, CreatePlayer, TaskOk, NewPlayerTask, Holds, TasksOk;
    Parts(fold, w);
    var (db, r) := CreatePlayer(fold, w.db, e.account, e.name, e.shape);
    PlayerCreated(fold, w.db, e.account, e.name, e.shape);
    if r.Good? {
      NewTasksOk(db, e, r.value.id);
      NewTaskPlayer(e, r.value.id);
      TaskAdded(fold, w, db, NewPlayerTask(e, r.value.id));
    } else {
      RefusedSame(fold, w.db, e.account, e.name, e.shape);
    }
  }

  lemma NewTaskPlayer(e: Event, id: u32)
    requires e.StartPlayer?
    ensures Player in NewPlayerTask(e, id).slots && NewPlayerTask(e, id).slots[Player] == id
  {
    hide PlayerScript;
  }

  lemma RefusedSame(fold: string -> string, db: Backend, account: bytes, name: string, shape: string)
    requires Orderly(fold, db) && |account| == 16 && CreatePlayer(fold, db, account, name, shape).1.Bad?
    ensures CreatePlayer(fold, db, account, name, shape).0 == db
  {
    hide PlayerNode, Set, NameTaken, NamesDistinct, Backed, Clean;
  }

  lemma StartAgeOk(fold: string -> string, w: World, e: Event)
    requires VaultOk(fold, w) && e.StartAge? && CanStep(w, e)
    ensures VaultOk(fold, Step(fold, w, e)) && Grows(w.db, Step(fold, w, e).db)
  {
    hide VaultOk, Runnable, Evolves, Orderly, Keyed, TaskOk, AgeScript, PlayerScript, NewPlayerTask, Grows;
    Parts(fold, w);
    Unchanged(fold, w.db);
    GrowsSelf(fold, w.db);
    NewTasksOk(w.db, e, 0);
    TaskAdded(fold, w, w.db, NewAgeTask(e.age));
  }

  /** Messages of scripts keep the vault in order and touch no session. */
  lemma ScriptStepOk(fold: string -> string, w: World, e: Event)
    requires VaultOk(fold, w) && OfScript(e) && CanStep(w, e)
    ensures var w' := Step(fold, w, e); VaultOk(fold, w') && Grows(w.db, w'.db) && w'.conns == w.conns
  {
    hide VaultOk, Runnable, Grows, Orderly, Keyed, CreatePlayer, Exec, NewAgeTask, NewPlayerTask;
    match e {
      case StartPlayer(_, _, _, _, _) => StartPlayerOk(fold, w, e);
      case StartAge(_) => StartAgeOk(fold, w, e);
      case Advance(i, choice) =>
        if i < |w.tasks| {
          AdvanceOk(fold, w, i, choice);
        } else {
          Parts(fold, w);
          GrowsSelf(fold, w.db);
        }
    }
  }

  // ===== all events =====

  /** What the events of a connection do to the world. */
  lemma ConnStepOk(fold: string -> string, w: World, e: Event)
    requires AllOk(fold, w) && CanStep(w, e) && !OfScript(e)
    ensures AllOk(fold, Step(fold, w, e))
    ensures SessionsOk(w) && !Overlaps(w, e) ==> SessionsOk(Step(fold, w, e))
  {
    hide AllOk, SessionsOk, SetOnline, InfoChildren, Owns, CanStep, PhaseOk, Online, ScriptStep;
    match e {
      case Connect(c) => ConnSetNew(fold, w, c);
      case Login(c, account) =>
        if c in w.conns && w.conns[c].phase.Idle? {
          LoginOk(fold, w, c, account);
          ConnSet(fold, w, c, w.conns[c].(account := Some(account)));
        }
      case FetchPlayer(c, player) =>
        if c in w.conns {
          FetchOk(fold, w, c, player);
          SeenBefore(fold, w, c);
          ConnSet(fold, w, c, AfterFetch(w.db, w.conns[c], player));
        }
      case QueryInfo(c, info) =>
        if c in w.conns {
          QueryOk(fold, w, c, info);
          SeenBefore(fold, w, c);
          ConnSet(fold, w, c, AfterQuery(w.db, w.conns[c], info));
        }
      case Commit(c) =>
        if c in w.conns {
          CommitStep(fold, w, c);
        }
      case QueryLeave(c, info) =>
        if c in w.conns {
          LeaveQueryOk(fold, w, c, info);
          SeenBefore(fold, w, c);
          ConnDropped(fold, w, c);
          var k := AfterLeaveQuery(w.db, w.conns[c], info);
          if k.Some? {
            ConnSet(fold, w, c, k.value);
          }
        }
      case Leave(c) =>
        if c in w.conns && w.conns[c].phase.Leaving? {
          LeaveStep(fold, w, c);
        }
    }
  }

  lemma LeaveStep(fold: string -> string, w: World, c: nat)
    requires AllOk(fold, w) && CanStep(w, Leave(c)) && c in w.conns && w.conns[c].phase.Leaving?
    ensures AllOk(fold, Step(fold, w, Leave(c)))
    ensures SessionsOk(w) ==> SessionsOk(Step(fold, w, Leave(c)))
  {
    hide AllOk, SessionsOk, SetOnline, CanStep, Step, Left;
    LeaveIs(fold, w, c);
    LeaveAllOk(fold, w, c);
    if SessionsOk(w) {
      InvIs(fold, w);
      LeaveSessionsOk(fold, w, c);
    }
  }

  // ----- what the two events that set a flag do -----

  lemma CommitIs(fold: string -> string, w: World, c: nat)
    requires AllOk(fold, w) && CanStep(w, Commit(c)) && c in w.conns && w.conns[c].phase.Seen?
    ensures Keyed(w.db) && Step(fold, w, Commit(c)) == Committed(w, c)
  {
    hide AllOk, SetOnline, ScriptStep;
    CommitAllOk(fold, w, c);
  }

  lemma CommitIdle(fold: string -> string, w: World, c: nat)
    requires CanStep(w, Commit(c)) && c in w.conns && !w.conns[c].phase.Seen?
    ensures Step(fold, w, Commit(c)) == w
  {
    hide CanStep, SetOnline, ScriptStep;
    assert w.conns[c := w.conns[c]] == w.conns;
  }

  lemma LeaveIs(fold: string -> string, w: World, c: nat)
    requires CanStep(w, Leave(c)) && c in w.conns && w.conns[c].phase.Leaving?
    ensures Keyed(w.db) && Step(fold, w, Leave(c)) == Left(w, c)
  {
    hide SetOnline, ScriptStep;
  }

  predicate SetsFlag(w: World, e: Event) {
    || (e.Commit? && e.conn in w.conns && w.conns[e.conn].phase.Seen?)
    || (e.Leave? && e.conn in w.conns && w.conns[e.conn].phase.Leaving?)
  }

  lemma OtherwiseSame(fold: string -> string, w: World, e: Event)
    requires CanStep(w, e) && !OfScript(e) && !SetsFlag(w, e)
    ensures Step(fold, w, e).db == w.db
  {
    hide CanStep, SetOnline, InfoChildren, Owns, Online, ScriptStep;
  }

  lemma SameTasks(fold: string -> string, w: World, e: Event)
    requires !OfScript(e) && CanStep(w, e)
    ensures Step(fold, w, e).tasks == w.tasks
  {
    hide SetOnline, CanStep, InfoChildren, Owns, Online, ScriptStep;
  }

  lemma AllOkVault(fold: string -> string, w: World)
    requires AllOk(fold, w)
    ensures VaultOk(fold, w)
  {
  }

  lemma InvIs(fold: string -> string, w: World)
    requires AllOk(fold, w) && SessionsOk(w)
    ensures Inv(fold, w)
  {
  }

  lemma ConnSetNew(fold: string -> string, w: World, c: nat)
    requires AllOk(fold, w)
    ensures var w' := if c in w.conns then w else WithConn(w, c, Conn(None, None, Idle));
            AllOk(fold, w') && (SessionsOk(w) ==> SessionsOk(w'))
  {
    hide AllOk, SessionsOk;
    if c !in w.conns {
      ConnSet(fold, w, c, Conn(None, None, Idle));
    }
  }

  lemma LoginOk(fold: string -> string, w: World, c: nat, account: bytes)
    requires AllOk(fold, w) && c in w.conns && w.conns[c].phase.Idle?
    ensures PhaseOk(w.db, w.conns[c].(account := Some(account)))
  {
    hide VaultOk, LinkedIfOnline, Holds, InfoChildren;
    assert PhaseOk(w.db, w.conns[c]);
  }

  /** A connection that keeps its phase still meets what is asked of one. */
  lemma SeenBefore(fold: string -> string, w: World, c: nat)
    requires AllOk(fold, w) && c in w.conns
    ensures SessionsOk(w) && w.conns[c].phase.Seen? ==>
      !Online(w.db, w.conns[c].phase.info) && forall d :: d != c ==> !Pends(w, d, w.conns[c].phase.player)
  {
    hide AllOk, HeldOnline, Online;
    if SessionsOk(w) && w.conns[c].phase.Seen? {
      assert Pends(w, c, w.conns[c].phase.player);
    }
  }

  lemma CommitStep(fold: string -> string, w: World, c: nat)
    requires AllOk(fold, w) && CanStep(w, Commit(c)) && c in w.conns
    ensures AllOk(fold, Step(fold, w, Commit(c)))
    ensures SessionsOk(w) ==> SessionsOk(Step(fold, w, Commit(c)))
  {
    hide AllOk, SessionsOk, SetOnline, CanStep, Step, Committed;
    if w.conns[c].phase.Seen? {
      CommitIs(fold, w, c);
      CommitAllOk(fold, w, c);
      if SessionsOk(w) {
        InvIs(fold, w);
        CommitSessionsOk(fold, w, c);
      }
    } else {
      CommitIdle(fold, w, c);
    }
  }

  /** Every event keeps what every run keeps. */
  lemma StepAllOk(fold: string -> string, w: World, e: Event)
    requires AllOk(fold, w) && CanStep(w, e)
    ensures AllOk(fold, Step(fold, w, e))
  {
    hide FlagsOk, VaultOk, Step, SessionsOk, Overlaps, CanStep;
    if OfScript(e) {
      ScriptStepOk(fold, w, e);
      FlagsGrow(w, Step(fold, w, e));
    } else {
      ConnStepOk(fold, w, e);
    }
  }

  /** Every event that makes no two selections of one player overlap keeps the rest. */
  lemma StepOk(fold: string -> string, w: World, e: Event)
    requires Inv(fold, w) && CanStep(w, e) && !Overlaps(w, e)
    ensures Inv(fold, Step(fold, w, e))
  {
    hide FlagsOk, VaultOk, Step, SessionsOk, Overlaps, CanStep, TasksOk;
    StepAllOk(fold, w, e);
    if OfScript(e) {
      ScriptStepOk(fold, w, e);
      Parts(fold, Step(fold, w, e));
      SessionsGrow(w, Step(fold, w, e));
    } else {
      ConnStepOk(fold, w, e);
    }
  }
}
