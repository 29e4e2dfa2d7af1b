/** The recursive graph query `fetch_refs` of src/vault/db_memory.rs: how often it
    returns each ref. */
module VaultRefs {
  import opened Prim
  import opened VaultDb
  import Ranking

  /** Every ref goes down a rank, so that there are no cycles. */
  ghost predicate Descends(refs: set<NodeRef>, rank: u32 -> nat) {
    forall r :: r in refs ==> rank(r.child) < rank(r.parent)
  }

  /** A chain of refs, each starting where the one before it ended. */
  ghost predicate IsPath(refs: set<NodeRef>, start: u32, p: seq<NodeRef>)
    decreases |p|
  {
    p != [] && p[0] in refs && p[0].parent == start && (|p| > 1 ==> IsPath(refs, p[0].child, p[1..]))
  }

  ghost predicate ReturnsTo(p: seq<NodeRef>, start: u32) {
    p != [] && p[|p| - 1].child == start
  }

  /** No path leads back to where it began. */
  ghost predicate Acyclic(refs: set<NodeRef>) {
    forall start, p :: IsPath(refs, start, p) ==> !ReturnsTo(p, start)
  }

  ghost function Edges(refs: set<NodeRef>): set<(u32, u32)> {
    set r | r in refs :: (r.parent, r.child)
  }

  lemma {:induction false} WalkIsPath(refs: set<NodeRef>, a: u32, b: u32, w: seq<u32>) returns (p: seq<NodeRef>)
    requires Ranking.Walk(Edges(refs), a, b, w)
    ensures IsPath(refs, a, p) && ReturnsTo(p, b)
    decreases |w|
  {
    assert (w[0], w[1]) in Edges(refs);
    var r :| r in refs && r.parent == w[0] && r.child == w[1];
    p := [r];
    if |w| > 2 {
      Ranking.WalkTail(Edges(refs), a, b, w);
      var q := WalkIsPath(refs, w[1], b, w[1..]);
      p := [r] + q;
      assert p[1..] == q;
    }
  }

  ghost function RankIn(refs: set<NodeRef>): u32 -> nat {
    (id: u32) => Ranking.Rank(Edges(refs), id)
  }

  /** Without cycles, every ref goes down. */
  lemma AcyclicDescends(refs: set<NodeRef>)
    requires Acyclic(refs)
    ensures Descends(refs, RankIn(refs))
  {
    hide Ranking.Rank;
    forall a | Ranking.Reaches(Edges(refs), a, a)
      ensures false
    {
      var w :| Ranking.Walk(Edges(refs), a, a, w);
      var p := WalkIsPath(refs, a, a, w);
    }
    forall r | r in refs
      ensures RankIn(refs)(r.child) < RankIn(refs)(r.parent)
    {
      assert (r.parent, r.child) in Edges(refs);
      Ranking.RankFalls(Edges(refs), r.parent, r.child);
    }
  }

  /** The paths from `start` whose first ref is in `first`. */
  ghost function Via(refs: set<NodeRef>, rank: u32 -> nat, start: u32, first: set<NodeRef>): set<seq<NodeRef>>
    requires Descends(refs, rank) && first <= refs
    decreases rank(start), 0
  {
    set r, q | r in first && r.parent == start && q in Continuations(refs, rank, r.child) :: [r] + q
  }

  ghost function Continuations(refs: set<NodeRef>, rank: u32 -> nat, start: u32): set<seq<NodeRef>>
    requires Descends(refs, rank)
    decreases rank(start), 1
  {
    {[]} + Via(refs, rank, start, refs)
  }

  ghost function Paths(refs: set<NodeRef>, rank: u32 -> nat, start: u32): set<seq<NodeRef>>
    requires Descends(refs, rank)
  {
    Via(refs, rank, start, refs)
  }

  /** There are finitely many paths, and the set holds them all and nothing else. */
  lemma {:induction false} PathsExact(refs: set<NodeRef>, rank: u32 -> nat, start: u32, p: seq<NodeRef>)
    requires Descends(refs, rank)
    ensures p in Paths(refs, rank, start) <==> IsPath(refs, start, p)
    decreases |p|
  {
    if p in Paths(refs, rank, start) {
      var r, q :| r in refs && r.parent == start && q in Continuations(refs, rank, r.child) && p == [r] + q;
      assert p[1..] == q;
      if q != [] {
        PathsExact(refs, rank, r.child, q);
      }
    }
    if IsPath(refs, start, p) {
      var r, q := p[0], p[1..];
      if |p| > 1 {
        PathsExact(refs, rank, r.child, q);
      }
      assert q in Continuations(refs, rank, r.child) && p == [r] + q;
    }
  }

  ghost function EndingIn(ps: set<seq<NodeRef>>, x: NodeRef): set<seq<NodeRef>> {
    set p | p in ps && p != [] && p[|p| - 1] == x
  }

  ghost function Prefixed(r: NodeRef, ps: set<seq<NodeRef>>): set<seq<NodeRef>> {
    set q | q in ps :: [r] + q
  }

  lemma {:induction false} PrefixedSize(r: NodeRef, ps: set<seq<NodeRef>>)
    ensures |Prefixed(r, ps)| == |ps|
    decreases |ps|
  {
    if ps != {} {
      var q :| q in ps;
      PrefixedSize(r, ps - {q});
      assert Prefixed(r, ps) == Prefixed(r, ps - {q}) + {[r] + q};
      forall p | p in ps - {q}
        ensures [r] + p != [r] + q
      {
        assert ([r] + p)[1..] == p && ([r] + q)[1..] == q;
      }
    }
  }

  lemma ViaOne(refs: set<NodeRef>, rank: u32 -> nat, start: u32, r: NodeRef)
    requires Descends(refs, rank) && r in refs && r.parent == start
    ensures Via(refs, rank, start, {r}) == Prefixed(r, {[]} + Paths(refs, rank, r.child))
  {
    assert Continuations(refs, rank, r.child) == {[]} + Paths(refs, rank, r.child);
  }

  lemma EndingPrefixed(r: NodeRef, ps: set<seq<NodeRef>>, x: NodeRef)
    requires [] !in ps
    ensures EndingIn(Prefixed(r, {[]} + ps), x) == Prefixed(r, EndingIn(ps, x)) + if r == x then {[r]} else {}
  {
    var a := EndingIn(Prefixed(r, {[]} + ps), x);
    var b := Prefixed(r, EndingIn(ps, x)) + if r == x then {[r]} else {};
    forall p | p in a
      ensures p in b
    {
      var q :| q in {[]} + ps && p == [r] + q;
      assert q == [] ==> p == [r];
    }
    forall p | p in b
      ensures p in a
    {
      if p in Prefixed(r, EndingIn(ps, x)) {
        var q :| q in EndingIn(ps, x) && p == [r] + q;
        assert q in {[]} + ps && p[|p| - 1] == q[|q| - 1];
      } else {
        assert p == [r] + [] && [] in {[]} + ps;
      }
    }
  }

  lemma PathsNonEmpty(refs: set<NodeRef>, rank: u32 -> nat, start: u32)
    requires Descends(refs, rank)
    ensures [] !in Paths(refs, rank, start)
  {
  }

  /** The paths that begin with `r` and end in `x`: `r` alone, if it is `x`, and `r`
      before each path on from it. */
  lemma StepCount(refs: set<NodeRef>, rank: u32 -> nat, start: u32, r: NodeRef, x: NodeRef)
    requires Descends(refs, rank) && r in refs && r.parent == start
    ensures |EndingIn(Via(refs, rank, start, {r}), x)| ==
            (if r == x then 1 else 0) + |EndingIn(Paths(refs, rank, r.child), x)|
  {
    hide Via, Paths;
    ViaOne(refs, rank, start, r);
    PathsNonEmpty(refs, rank, r.child);
    EndingPrefixed(r, Paths(refs, rank, r.child), x);
    var on := EndingIn(Paths(refs, rank, r.child), x);
    PrefixedSize(r, on);
    forall p | p in Prefixed(r, on)
      ensures |p| > 1
    {
      var q :| q in on && p == [r] + q;
    }
    assert [r] !in Prefixed(r, on);
  }

  /** One more first ref adds its own paths, which are different from the others. */
  lemma ViaGrows(refs: set<NodeRef>, rank: u32 -> nat, start: u32, first: set<NodeRef>, r: NodeRef, x: NodeRef)
    requires Descends(refs, rank) && first <= refs && r in refs && r !in first
    ensures |EndingIn(Via(refs, rank, start, first + {r}), x)| ==
            |EndingIn(Via(refs, rank, start, first), x)| + |EndingIn(Via(refs, rank, start, {r}), x)|
  {
    hide Continuations;
    var a, b := Via(refs, rank, start, first), Via(refs, rank, start, {r});
    assert Via(refs, rank, start, first + {r}) == a + b;
    assert a !! b by {
      forall p | p in a
        ensures p !in b
      {
        var s, q :| s in first && q in Continuations(refs, rank, s.child) && p == [s] + q;
        assert p[0] == s;
      }
    }
    assert EndingIn(a + b, x) == EndingIn(a, x) + EndingIn(b, x);
  }

  lemma ViaOther(refs: set<NodeRef>, rank: u32 -> nat, start: u32, r: NodeRef, x: NodeRef)
    requires Descends(refs, rank) && r in refs && r.parent != start
    ensures |EndingIn(Via(refs, rank, start, {r}), x)| == 0
  {
    assert EndingIn(Via(refs, rank, start, {r}), x) == {};
  }

  function Children(refs: set<NodeRef>, parent: u32): set<NodeRef> {
    set r | r in refs && r.parent == parent
  }

  /** Each ref of the parent is listed once. */
  ghost predicate Listed(out: seq<NodeRef>, refs: set<NodeRef>, parent: u32) {
    multiset(out) == multiset(Children(refs, parent))
  }

  lemma ListedStep(out: seq<NodeRef>, done: set<NodeRef>, r: NodeRef, parent: u32)
    requires Listed(out, done, parent) && r !in done
    ensures Listed(if r.parent == parent then out + [r] else out, done + {r}, parent)
  {
    assert Children(done + {r}, parent) == Children(done, parent) + if r.parent == parent then {r} else {};
  }

  /** Each ref is listed once for every path that ends in it, among the paths whose
      first ref is in `first`. */
  ghost predicate Counted(out: seq<NodeRef>, refs: set<NodeRef>, rank: u32 -> nat, start: u32, first: set<NodeRef>)
    requires Descends(refs, rank) && first <= refs
  {
    forall x :: multiset(out)[x] == |EndingIn(Via(refs, rank, start, first), x)|
  }

  lemma CountedStep(out: seq<NodeRef>, more: seq<NodeRef>, refs: set<NodeRef>, rank: u32 -> nat,
                    start: u32, first: set<NodeRef>, r: NodeRef)
    requires Descends(refs, rank) && first <= refs && r in refs && r !in first
    requires Counted(out, refs, rank, start, first)
    requires if r.parent == start then Counted(more, refs, rank, r.child, refs) else more == []
    ensures Counted(if r.parent == start then out + [r] + more else out, refs, rank, start, first + {r})
  {
    hide Via, EndingIn;
    var next := if r.parent == start then out + [r] + more else out;
    forall x
      ensures multiset(next)[x] == |EndingIn(Via(refs, rank, start, first + {r}), x)|
    {
      ViaGrows(refs, rank, start, first, r, x);
      if r.parent == start {
        StepCount(refs, rank, start, r, x);
      } else {
        ViaOther(refs, rank, start, r, x);
      }
    }
  }

  lemma NoneListed(refs: set<NodeRef>, parent: u32)
    ensures Listed([], refs - refs, parent)
  {
    assert Children(refs - refs, parent) == {};
  }

  lemma NoneYet(refs: set<NodeRef>, rank: u32 -> nat, start: u32)
    requires Descends(refs, rank)
    ensures Counted([], refs, rank, start, refs - refs)
  {
    forall x
      ensures |EndingIn(Via(refs, rank, start, refs - refs), x)| == 0
    {
      assert EndingIn(Via(refs, rank, start, refs - refs), x) == {};
    }
  }

  method CollectRefs(refs: set<NodeRef>, ghost rank: u32 -> nat, parent: u32, recursive: bool)
      returns (out: seq<NodeRef>)
    requires recursive ==> Descends(refs, rank)
    ensures if recursive then Counted(out, refs, rank, parent, refs) else Listed(out, refs, parent)
    decreases rank(parent)
  {
    hide Counted, Listed;
    out := [];
    var todo := refs;
    if recursive {
      NoneYet(refs, rank, parent);
    }
    NoneListed(refs, parent);
    while todo != {}
      invariant todo <= refs
      invariant if recursive then Counted(out, refs, rank, parent, refs - todo) else Listed(out, refs - todo, parent)
      decreases |todo|
    {
      var r :| r in todo;
      ghost var done, before := refs - todo, out;
      var more: seq<NodeRef> := [];
      todo := todo - {r};
      assert refs - todo == done + {r};
      if r.parent == parent {
        out := out + [r];
        if recursive {
          more := CollectRefs(refs, rank, r.child, true);
          out := out + more;
        }
      }
      if recursive {
        CountedStep(before, more, refs, rank, parent, done, r);
      } else {
        ListedStep(before, done, r, parent);
      }
    }
    assert refs - todo == refs;
  }

  ghost predicate PathEnds(p: seq<NodeRef>, x: NodeRef) {
    p != [] && p[|p| - 1] == x
  }

  /** All paths from `start` to the ref `x`; there are finitely many. */
  ghost function PathsTo(refs: set<NodeRef>, start: u32, x: NodeRef): (ps: set<seq<NodeRef>>)
    requires Acyclic(refs)
    ensures forall p :: p in ps <==> IsPath(refs, start, p) && PathEnds(p, x)
  {
    AcyclicDescends(refs);
    assert forall p :: p in Paths(refs, RankIn(refs), start) <==> IsPath(refs, start, p) by {
      forall p
        ensures p in Paths(refs, RankIn(refs), start) <==> IsPath(refs, start, p)
      {
        PathsExact(refs, RankIn(refs), start, p);
      }
    }
    EndingIn(Paths(refs, RankIn(refs), start), x)
  }

  /** The refs are met in any order.  Plainly called, each ref of the parent is
      returned once; recursively, each ref once for every path that ends in it. */
  method FetchRefs(refs: set<NodeRef>, parent: u32, recursive: bool) returns (out: seq<NodeRef>)
    requires recursive ==> Acyclic(refs)
    ensures !recursive ==> multiset(out) == multiset(Children(refs, parent))
    ensures recursive ==> forall x :: multiset(out)[x] == |PathsTo(refs, parent, x)|
  {
    hide Via, EndingIn, Children, Descends, Acyclic;
    if recursive {
      AcyclicDescends(refs);
    }
    out := CollectRefs(refs, RankIn(refs), parent, recursive);
  }

  /** As a set, the recursive query is exactly the refs that can be reached. */
  lemma FetchedIffReachable(refs: set<NodeRef>, start: u32, out: seq<NodeRef>, x: NodeRef)
    requires Acyclic(refs)
    requires forall y :: multiset(out)[y] == |PathsTo(refs, start, y)|
    ensures x in out <==> exists p :: IsPath(refs, start, p) && PathEnds(p, x)
  {
    hide IsPath, Acyclic;
    var ending := PathsTo(refs, start, x);
    assert x in out <==> multiset(out)[x] > 0;
    if x in out {
      assert |ending| > 0;
      var p :| p in ending;
    }
    if exists p :: IsPath(refs, start, p) && PathEnds(p, x) {
      var p :| IsPath(refs, start, p) && PathEnds(p, x);
      assert p in ending;
    }
  }
}
