/** Finite directed graphs as successor maps, and the paths in them. */
module Reachability {

  type Graph<T> = map<T, set<T>>

  predicate Edge<T(==)>(g: Graph<T>, a: T, b: T) {
    a in g && b in g[a]
  }

  predicate IsPath<T(==)>(g: Graph<T>, p: seq<T>) {
    |p| > 0 && forall i :: 0 <= i < |p| - 1 ==> Edge(g, p[i], p[i + 1])
  }

  predicate IsPathBetween<T(==)>(g: Graph<T>, a: T, b: T, p: seq<T>) {
    IsPath(g, p) && p[0] == a && p[|p| - 1] == b
  }

  ghost predicate Reaches<T(!new)>(g: Graph<T>, a: T, b: T) {
    exists p :: IsPathBetween(g, a, b, p)
  }

  /** Every edge leads to a node of the graph. */
  ghost predicate NoDanglingEdges<T(!new)>(g: Graph<T>) {
    forall a, b :: Edge(g, a, b) ==> b in g
  }

  lemma ReachesItself<T(!new)>(g: Graph<T>, a: T)
    ensures Reaches(g, a, a)
  {
    assert IsPathBetween(g, a, a, [a]);
  }

  lemma ReachesOnward<T(!new)>(g: Graph<T>, a: T, b: T, c: T)
    requires Reaches(g, a, b) && Edge(g, b, c)
    ensures Reaches(g, a, c)
  {
    var p :| IsPathBetween(g, a, b, p);
    assert IsPathBetween(g, a, c, p + [c]);
  }

  lemma ReachesThrough<T(!new)>(g: Graph<T>, a: T, b: T, c: T)
    requires Reaches(g, a, b) && Reaches(g, b, c)
    ensures Reaches(g, a, c)
  {
    var p :| IsPathBetween(g, a, b, p);
    var q :| IsPathBetween(g, b, c, q);
    var pq := p + q[1..];
    forall i | 0 <= i < |pq| - 1 ensures Edge(g, pq[i], pq[i + 1]) {
      if i >= |p| - 1 { assert pq[i] == q[i - (|p| - 1)] && pq[i + 1] == q[i + 1 - (|p| - 1)]; }
    }
    assert IsPathBetween(g, a, c, pq);
  }

  lemma ReachesFirst<T(!new)>(g: Graph<T>, a: T, b: T, c: T)
    requires Edge(g, a, b) && Reaches(g, b, c)
    ensures Reaches(g, a, c)
  {
    ReachesItself(g, a);
    ReachesOnward(g, a, a, b);
    ReachesThrough(g, a, b, c);
  }

  /** What holds of `a` and is passed along every edge holds of everything `a` reaches. */
  lemma AlongPaths<T(!new)>(g: Graph<T>, a: T, b: T, holds: T -> bool)
    requires Reaches(g, a, b) && holds(a)
    requires forall x, y :: holds(x) && Edge(g, x, y) ==> holds(y)
    ensures holds(b)
  {
    var p :| IsPathBetween(g, a, b, p);
    var i := 0;
    while i < |p| - 1
      invariant 0 <= i < |p| && holds(p[i])
    {
      i := i + 1;
    }
  }

  /** A set that contains `a` and is closed under edges contains everything `a` reaches. */
  lemma StaysInside<T(!new)>(g: Graph<T>, s: set<T>, a: T, b: T)
    requires a in s && Reaches(g, a, b)
    requires forall x, y :: x in s && Edge(g, x, y) ==> y in s
    ensures b in s
  {
    AlongPaths(g, a, b, x => x in s);
  }

  ghost predicate ReachedFrom<T(!new)>(g: Graph<T>, roots: set<T>, x: T) {
    exists r :: r in roots && Reaches(g, r, x)
  }

  lemma RootsAreReached<T(!new)>(g: Graph<T>, roots: set<T>)
    ensures forall r :: r in roots ==> ReachedFrom(g, roots, r)
  {
    forall r | r in roots ensures ReachedFrom(g, roots, r) { ReachesItself(g, r); }
  }

  lemma ReachedOnward<T(!new)>(g: Graph<T>, roots: set<T>, x: T, y: T)
    requires ReachedFrom(g, roots, x) && Reaches(g, x, y)
    ensures ReachedFrom(g, roots, y)
  {
    var r :| r in roots && Reaches(g, r, x);
    ReachesThrough(g, r, x, y);
  }

  lemma ClosedHoldsAllReached<T(!new)>(g: Graph<T>, roots: set<T>, s: set<T>)
    requires roots <= s && forall x, y :: x in s && Edge(g, x, y) ==> y in s
    ensures forall x :: ReachedFrom(g, roots, x) ==> x in s
  {
    forall x | ReachedFrom(g, roots, x) ensures x in s {
      var r :| r in roots && Reaches(g, r, x);
      StaysInside(g, s, r, x);
    }
  }
}
