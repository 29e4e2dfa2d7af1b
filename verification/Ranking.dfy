/** Finite graphs without circles can be ranked, which is what makes a recursion along
    their edges end. */
module Ranking {
  /** The points passed on the way from `a` to `b`, along at least one edge. */
  ghost predicate Walk<T>(edges: set<(T, T)>, a: T, b: T, p: seq<T>) {
    && |p| >= 2 && p[0] == a && p[|p| - 1] == b
    && forall i :: 0 <= i < |p| - 1 ==> (p[i], p[i + 1]) in edges
  }

  ghost predicate Reaches<T(!new)>(edges: set<(T, T)>, a: T, b: T) {
    exists p :: Walk(edges, a, b, p)
  }

  ghost predicate Acyclic<T(!new)>(edges: set<(T, T)>) {
    forall a :: !Reaches(edges, a, a)
  }

  ghost function Beyond<T(!new)>(edges: set<(T, T)>, a: T): set<T> {
    set e | e in edges && Reaches(edges, a, e.1) :: e.1
  }

  /** The number of points that can be reached. */
  ghost function Rank<T(!new)>(edges: set<(T, T)>, a: T): nat {
    |Beyond(edges, a)|
  }

  lemma ReachesOn<T(!new)>(edges: set<(T, T)>, a: T, b: T, c: T)
    requires (a, b) in edges && Reaches(edges, b, c)
    ensures Reaches(edges, a, c)
  {
    var p :| Walk(edges, b, c, p);
    var q := [a] + p;
    forall i | 0 <= i < |q| - 1
      ensures (q[i], q[i + 1]) in edges
    {
      assert i > 0 ==> q[i] == p[i - 1] && q[i + 1] == p[i];
    }
    assert Walk(edges, a, c, q);
  }

  lemma WalkTail<T>(edges: set<(T, T)>, a: T, b: T, p: seq<T>)
    requires Walk(edges, a, b, p) && |p| > 2
    ensures Walk(edges, p[1], b, p[1..])
  {
    var q := p[1..];
    forall i | 0 <= i < |q| - 1
      ensures (q[i], q[i + 1]) in edges
    {
      var j := i + 1;
      assert (p[j], p[j + 1]) in edges;
    }
  }

  lemma {:induction false} SubsetSize<T>(a: set<T>, b: set<T>)
    requires a <= b
    ensures |a| <= |b|
    decreases |a|
  {
    if a != {} {
      var x :| x in a;
      SubsetSize(a - {x}, b - {x});
    }
  }

  /** Without circles, every edge goes down. */
  lemma RankFalls<T(!new)>(edges: set<(T, T)>, a: T, b: T)
    requires Acyclic(edges) && (a, b) in edges
    ensures Rank(edges, b) < Rank(edges, a)
  {
    assert Walk(edges, a, b, [a, b]);
    assert b == (a, b).1 && b in Beyond(edges, a);
    assert b !in Beyond(edges, b);
    forall x | x in Beyond(edges, b)
      ensures x in Beyond(edges, a) - {b}
    {
      ReachesOn(edges, a, b, x);
    }
    SubsetSize(Beyond(edges, b), Beyond(edges, a) - {b});
  }

  lemma {:induction false} WalkFalls<T(!new)>(edges: set<(T, T)>, rank: T -> nat, a: T, b: T, p: seq<T>)
    requires (forall e :: e in edges ==> rank(e.1) < rank(e.0)) && Walk(edges, a, b, p)
    ensures rank(b) < rank(a)
    decreases |p|
  {
    assert (p[0], p[1]) in edges;
    if |p| > 2 {
      WalkTail(edges, a, b, p);
      WalkFalls(edges, rank, p[1], b, p[1..]);
    }
  }

  /** And where every edge goes down, there are no circles. */
  lemma RankedAcyclic<T(!new)>(edges: set<(T, T)>, rank: T -> nat)
    requires forall e :: e in edges ==> rank(e.1) < rank(e.0)
    ensures Acyclic(edges)
  {
    forall a | Reaches(edges, a, a)
      ensures false
    {
      var p :| Walk(edges, a, a, p);
      WalkFalls(edges, rank, a, a, p);
    }
  }
}
