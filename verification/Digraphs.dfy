/** Walks, cycles and reachability in a finite directed graph given as a set of edges. */
module Digraphs {

  /** A non-empty sequence of nodes, each joined to the next by an edge. */
  ghost predicate IsWalk<T(!new)>(g: set<(T, T)>, p: seq<T>) {
    && |p| > 0
    && forall i :: 0 <= i < |p| - 1 ==> (p[i], p[i + 1]) in g
  }

  /** A walk of at least one edge that returns to its start. */
  ghost predicate IsCycle<T(!new)>(g: set<(T, T)>, p: seq<T>) {
    IsWalk(g, p) && |p| >= 2 && p[0] == p[|p| - 1]
  }

  ghost predicate Acyclic<T(!new)>(g: set<(T, T)>) {
    forall p :: !IsCycle(g, p)
  }

  /** `p` leads from `u` to `v` by one or more edges. */
  ghost predicate Leads<T(!new)>(g: set<(T, T)>, p: seq<T>, u: T, v: T) {
    IsWalk(g, p) && |p| >= 2 && p[0] == u && p[|p| - 1] == v
  }

  ghost predicate Reaches<T(!new)>(g: set<(T, T)>, u: T, v: T) {
    exists p :: Leads(g, p, u, v)
  }

  lemma EdgeReaches<T(!new)>(g: set<(T, T)>, u: T, v: T)
    requires (u, v) in g
    ensures Reaches(g, u, v)
  {
    assert Leads(g, [u, v], u, v);
  }

  lemma ReachesTransitive<T(!new)>(g: set<(T, T)>, u: T, v: T, w: T)
    requires Reaches(g, u, v) && Reaches(g, v, w)
    ensures Reaches(g, u, w)
  {
    var p :| Leads(g, p, u, v);
    var q :| Leads(g, q, v, w);
    assert Leads(g, p + q[1..], u, w);
  }

  /** Any node of a cycle reaches any other, and itself. */
  lemma CycleConnects<T(!new)>(g: set<(T, T)>, p: seq<T>, i: nat, j: nat)
    requires IsCycle(g, p) && i < |p| && j < |p|
    ensures Reaches(g, p[i], p[j])
  {
    var start := p[0];
    assert Leads(g, p, start, start);
    if i < |p| - 1 {
      assert Leads(g, p[i..], p[i], start);
    }
    if j > 0 {
      assert Leads(g, p[..j + 1], start, p[j]);
      ReachesTransitive(g, p[i], start, p[j]);
    }
  }

  lemma AcyclicMeansIrreflexive<T(!new)>(g: set<(T, T)>, u: T)
    requires Acyclic(g)
    ensures !Reaches(g, u, u)
  {
    if Reaches(g, u, u) {
      var p :| Leads(g, p, u, u);
      assert IsCycle(g, p);
    }
  }

  /** Reaching a node means taking a first edge and then possibly going on. */
  lemma ReachesByFirstEdge<T(!new)>(g: set<(T, T)>, u: T, v: T)
    ensures Reaches(g, u, v) <==> exists w :: (u, w) in g && (w == v || Reaches(g, w, v))
  {
    if Reaches(g, u, v) {
      var p :| Leads(g, p, u, v);
      assert (u, p[1]) in g;
      if p[1] != v {
        assert Leads(g, p[1..], p[1], v);
      }
    }
    if w :| (u, w) in g && (w == v || Reaches(g, w, v)) {
      EdgeReaches(g, u, w);
      if w != v {
        ReachesTransitive(g, u, w, v);
      }
    }
  }

  /** Reaching a node means taking a last edge out of the start or of a node reached before. */
  lemma ReachesByLastEdge<T(!new)>(g: set<(T, T)>, u: T, v: T)
    ensures Reaches(g, u, v) <==> exists w :: (w, v) in g && (w == u || Reaches(g, u, w))
  {
    if Reaches(g, u, v) {
      var p :| Leads(g, p, u, v);
      var w := p[|p| - 2];
      assert (w, v) in g;
      if w != u {
        assert Leads(g, p[..|p| - 1], u, w);
      }
    }
    if w :| (w, v) in g && (w == u || Reaches(g, u, w)) {
      EdgeReaches(g, w, v);
      if w != u {
        ReachesTransitive(g, u, w, v);
      }
    }
  }

  lemma NoEdgesAcyclic<T(!new)>(g: set<(T, T)>)
    requires g == {}
    ensures Acyclic(g)
  {
    forall p
      ensures !IsCycle(g, p)
    {
      assert |p| >= 2 ==> (p[0], p[1]) !in g;
    }
  }

  /** A cycle of a graph that extends an acyclic one uses an edge the smaller graph lacks. */
  lemma CycleUsesNewEdge<T(!new)>(g: set<(T, T)>, h: set<(T, T)>, p: seq<T>) returns (i: nat)
    requires Acyclic(g) && IsCycle(h, p)
    ensures i < |p| - 1 && (p[i], p[i + 1]) in h - g
  {
    assert !IsCycle(g, p);
    i :| 0 <= i < |p| - 1 && (p[i], p[i + 1]) !in g;
  }

  /** Every edge leads from a node of `order` to one listed strictly earlier. */
  ghost predicate Ordered<T(!new)>(g: set<(T, T)>, order: seq<T>) {
    && (forall i, j :: 0 <= i < j < |order| ==> order[i] != order[j])
    && forall e :: e in g ==> exists i, j :: 0 <= j < i < |order| && order[i] == e.0 && order[j] == e.1
  }

  /** A graph with a topological order has no cycle. */
  lemma OrderedIsAcyclic<T(!new)>(g: set<(T, T)>, order: seq<T>)
    requires Ordered(g, order)
    ensures Acyclic(g)
  {
    forall p ensures !IsCycle(g, p) {
      if IsCycle(g, p) {
        var first := WalkDescends(g, order, p);
      }
    }
  }

  lemma {:induction false} WalkDescends<T(!new)>(g: set<(T, T)>, order: seq<T>, p: seq<T>)
    returns (ends: (nat, nat))
    requires Ordered(g, order) && IsWalk(g, p) && |p| >= 2
    ensures ends.1 < ends.0 < |order| && order[ends.0] == p[0] && order[ends.1] == p[|p| - 1]
    decreases |p|
  {
    assert (p[0], p[1]) in g;
    var i, j :| 0 <= j < i < |order| && order[i] == p[0] && order[j] == p[1];
    if |p| == 2 {
      ends := (i, j);
    } else {
      var rest := WalkDescends(g, order, p[1..]);
      ends := (i, rest.1);
    }
  }
}
