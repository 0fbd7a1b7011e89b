/** The recursive subtree query and buildChildren of registry.service.ts. */
module Hierarchy {
  import opened Collections
  import opened Digraphs
  import opened Options

  /** A row of child_links: an ownership edge (with its percentage) or an FQ under its domestic entity. */
  datatype Link = Link(parent: nat, child: nat, fq: bool, pct: Option<int>)

  function ParentOf(l: Link): nat {
    l.parent
  }

  ghost function GraphOf(links: seq<Link>): set<(nat, nat)> {
    set l | l in links :: (l.parent, l.child)
  }

  /** The links under a node, in the order of the table. */
  function ChildrenOf(links: seq<Link>, id: nat): seq<Link> {
    Having(links, ParentOf, id)
  }

  lemma {:induction false} HavingMembers<T, K>(items: seq<T>, key: T -> K, k: K)
    ensures forall x :: x in Having(items, key, k) <==> x in items && key(x) == k
  {
    if items != [] {
      HavingMembers(items[..|items| - 1], key, k);
      assert forall x :: x in items <==> x in items[..|items| - 1] || x == items[|items| - 1];
    }
  }

  lemma {:induction false} HavingAppend<T, K>(a: seq<T>, b: seq<T>, key: T -> K, k: K)
    ensures Having(a + b, key, k) == Having(a, key, k) + Having(b, key, k)
  {
    if b == [] {
      assert a + b == a;
    } else {
      var n := |b| - 1;
      assert (a + b)[..|a| + n] == a + b[..n];
      HavingAppend(a, b[..n], key, k);
    }
  }

  // ----- Descendants as a termination measure -----

  ghost function Nodes(g: set<(nat, nat)>): set<nat> {
    (set e | e in g :: e.0) + set e | e in g :: e.1
  }

  ghost function Below(g: set<(nat, nat)>, id: nat): set<nat> {
    set v | v in Nodes(g) && Reaches(g, id, v)
  }

  lemma BelowShrinks(g: set<(nat, nat)>, p: nat, c: nat)
    requires Acyclic(g) && (p, c) in g
    ensures Below(g, c) < Below(g, p)
  {
    EdgeReaches(g, p, c);
    forall v | v in Below(g, c)
      ensures v in Below(g, p)
    {
      ReachesTransitive(g, p, c, v);
    }
    AcyclicMeansIrreflexive(g, c);
    assert c in Below(g, p) && c !in Below(g, c);
  }

  lemma BelowCount(g: set<(nat, nat)>, p: nat, c: nat)
    requires Acyclic(g) && (p, c) in g
    ensures |Below(g, c)| < |Below(g, p)|
  {
    BelowShrinks(g, p, c);
    Smaller(Below(g, c), Below(g, p));
  }

  lemma Smaller(a: set<nat>, b: set<nat>)
    requires a < b
    ensures |a| < |b|
  {
    assert b == a + (b - a) && b - a != {};
  }

  // ----- Walks -----

  /** A walk along links from a root; the empty walk stays there. */
  datatype Walk = Walk(root: nat, steps: seq<Link>)

  function EndOf(w: Walk): nat {
    if w.steps == [] then w.root else w.steps[|w.steps| - 1].child
  }

  predicate StepOk(links: seq<Link>, w: Walk, i: nat)
    requires i < |w.steps|
  {
    w.steps[i] in links && w.steps[i].parent == if i == 0 then w.root else w.steps[i - 1].child
  }

  predicate IsLinkWalk(links: seq<Link>, w: Walk) {
    forall i :: 0 <= i < |w.steps| ==> StepOk(links, w, i)
  }

  function Extend(w: Walk, l: Link): Walk {
    Walk(w.root, w.steps + [l])
  }

  /** One more step of every walk, in order. */
  function ExtendAll(links: seq<Link>, walks: seq<Walk>): seq<Walk> {
    if walks == [] then []
    else Map(l => Extend(walks[0], l), ChildrenOf(links, EndOf(walks[0]))) + ExtendAll(links, walks[1..])
  }

  function StartAt(id: nat): Walk {
    Walk(id, [])
  }

  /** The walks of `n` steps from the roots. */
  function WalksOf(links: seq<Link>, roots: seq<nat>, n: nat): seq<Walk> {
    if n == 0 then Map(StartAt, roots) else ExtendAll(links, WalksOf(links, roots, n - 1))
  }

  /** The walks of fewer than `n` steps, shorter ones first. */
  function ShortWalks(links: seq<Link>, roots: seq<nat>, n: nat): seq<Walk> {
    if n == 0 then [] else ShortWalks(links, roots, n - 1) + WalksOf(links, roots, n - 1)
  }

  function LastOf(w: Walk): Link
    requires w.steps != []
  {
    w.steps[|w.steps| - 1]
  }

  function Before(w: Walk): Walk
    requires w.steps != []
  {
    Walk(w.root, w.steps[..|w.steps| - 1])
  }

  /** `w` is `v` and one more link. */
  predicate Extends(links: seq<Link>, w: Walk, v: Walk) {
    w.steps != [] && Before(w) == v && LastOf(w) in links && LastOf(w).parent == EndOf(v)
  }

  lemma ExtensionsOfOne(links: seq<Link>, v: Walk)
    ensures var extended := Map(l => Extend(v, l), ChildrenOf(links, EndOf(v)));
      forall w :: w in extended <==> Extends(links, w, v)
  {
    var children := ChildrenOf(links, EndOf(v));
    var extended := Map(l => Extend(v, l), children);
    HavingMembers(links, ParentOf, EndOf(v));
    forall w: Walk
      ensures w in extended <==> Extends(links, w, v)
    {
      if w in extended {
        var i :| 0 <= i < |extended| && extended[i] == w;
        assert w == Extend(v, children[i]) && children[i] in children;
      }
      if Extends(links, w, v) {
        var i :| 0 <= i < |children| && children[i] == LastOf(w);
        assert extended[i] == w;
      }
    }
  }

  lemma {:induction false} ExtendAllMembers(links: seq<Link>, walks: seq<Walk>)
    ensures forall w ::
      w in ExtendAll(links, walks) <==> w.steps != [] && Before(w) in walks && Extends(links, w, Before(w))
  {
    if walks != [] {
      ExtendAllMembers(links, walks[1..]);
      ExtensionsOfOne(links, walks[0]);
    }
  }

  lemma ExtendAllMember(links: seq<Link>, walks: seq<Walk>, w: Walk)
    ensures w in ExtendAll(links, walks) <==> w.steps != [] && Before(w) in walks && Extends(links, w, Before(w))
  {
    ExtendAllMembers(links, walks);
  }

  lemma LastStep(links: seq<Link>, w: Walk)
    requires w.steps != []
    ensures IsLinkWalk(links, w) <==> IsLinkWalk(links, Before(w)) && Extends(links, w, Before(w))
  {
    var n, before := |w.steps|, Before(w);
    assert forall i :: 0 <= i < n - 1 ==> before.steps[i] == w.steps[i];
    assert EndOf(before) == if n == 1 then w.root else w.steps[n - 2].child;
    if IsLinkWalk(links, w) {
      assert StepOk(links, w, n - 1);
      forall i | 0 <= i < n - 1
        ensures StepOk(links, before, i)
      {
        assert StepOk(links, w, i);
      }
    }
    if IsLinkWalk(links, before) && Extends(links, w, before) {
      forall i | 0 <= i < n
        ensures StepOk(links, w, i)
      {
        assert i < n - 1 ==> StepOk(links, before, i);
      }
    }
  }

  lemma InStarts(roots: seq<nat>, w: Walk)
    ensures w in Map(StartAt, roots) <==> w.root in roots && w.steps == []
  {
    if w.root in roots && w.steps == [] {
      var i :| 0 <= i < |roots| && roots[i] == w.root;
      assert Map(StartAt, roots)[i] == w;
    }
  }

  /** The list of level `n` holds exactly the walks of `n` steps. */
  lemma {:induction false} WalkOfLevel(links: seq<Link>, roots: seq<nat>, n: nat, w: Walk)
    ensures w in WalksOf(links, roots, n) <==> w.root in roots && |w.steps| == n && IsLinkWalk(links, w)
  {
    if n == 0 {
      InStarts(roots, w);
    } else {
      ExtendAllMember(links, WalksOf(links, roots, n - 1), w);
      if w.steps != [] {
        LastStep(links, w);
        WalkOfLevel(links, roots, n - 1, Before(w));
      }
    }
  }

  lemma AppendNoDuplicates<T>(a: seq<T>, b: seq<T>)
    requires NoDuplicates(a) && NoDuplicates(b) && forall x :: x in a ==> x !in b
    ensures NoDuplicates(a + b)
  {
    forall i, j | 0 <= i < j < |a + b|
      ensures (a + b)[i] != (a + b)[j]
    {
      if i < |a| <= j {
        assert a[i] in a && b[j - |a|] in b;
      }
    }
  }

  lemma {:induction false} HavingNoDuplicates<T, K>(items: seq<T>, key: T -> K, k: K)
    requires NoDuplicates(items)
    ensures NoDuplicates(Having(items, key, k))
  {
    if items != [] {
      var n := |items| - 1;
      HavingNoDuplicates(items[..n], key, k);
      HavingMembers(items[..n], key, k);
    }
  }

  lemma {:induction false} ExtendAllNoDuplicates(links: seq<Link>, walks: seq<Walk>)
    requires NoDuplicates(links) && NoDuplicates(walks)
    ensures NoDuplicates(ExtendAll(links, walks))
  {
    if walks != [] {
      var first, rest := walks[0], walks[1..];
      var children := ChildrenOf(links, EndOf(first));
      var extended := Map(l => Extend(first, l), children);
      HavingNoDuplicates(links, ParentOf, EndOf(first));
      forall i, j | 0 <= i < j < |extended|
        ensures extended[i] != extended[j]
      {
        assert LastOf(extended[i]) == children[i] && LastOf(extended[j]) == children[j];
      }
      ExtendAllNoDuplicates(links, rest);
      ExtensionsOfOne(links, first);
      ExtendAllMembers(links, rest);
      forall w | w in extended
        ensures w !in ExtendAll(links, rest)
      {
        assert Before(w) == first && first !in rest;
      }
      AppendNoDuplicates(extended, ExtendAll(links, rest));
    }
  }

  lemma {:induction false} ShortWalkListed(links: seq<Link>, roots: seq<nat>, n: nat, w: Walk)
    ensures w in ShortWalks(links, roots, n) <==> w.root in roots && |w.steps| < n && IsLinkWalk(links, w)
  {
    if n > 0 {
      ShortWalkListed(links, roots, n - 1, w);
      WalkOfLevel(links, roots, n - 1, w);
    }
  }

  lemma LongerWalksAreNew(links: seq<Link>, roots: seq<nat>, n: nat)
    ensures forall w :: w in ShortWalks(links, roots, n) ==> w !in WalksOf(links, roots, n)
  {
    forall w | w in ShortWalks(links, roots, n)
      ensures w !in WalksOf(links, roots, n)
    {
      ShortWalkListed(links, roots, n, w);
      WalkOfLevel(links, roots, n, w);
    }
  }

  lemma OneMoreLevel(links: seq<Link>, roots: seq<nat>, n: nat)
    requires NoDuplicates(ShortWalks(links, roots, n)) && NoDuplicates(WalksOf(links, roots, n))
    ensures NoDuplicates(ShortWalks(links, roots, n + 1))
  {
    LongerWalksAreNew(links, roots, n);
    AppendNoDuplicates(ShortWalks(links, roots, n), WalksOf(links, roots, n));
  }

  lemma {:induction false} ShortWalksNoDuplicates(links: seq<Link>, roots: seq<nat>, n: nat)
    requires NoDuplicates(links) && NoDuplicates(roots)
    ensures NoDuplicates(ShortWalks(links, roots, n))
  {
    if n > 0 {
      ShortWalksNoDuplicates(links, roots, n - 1);
      WalksOfNoDuplicates(links, roots, n - 1);
      OneMoreLevel(links, roots, n - 1);
    }
  }

  lemma {:induction false} WalksOfNoDuplicates(links: seq<Link>, roots: seq<nat>, n: nat)
    requires NoDuplicates(links) && NoDuplicates(roots)
    ensures NoDuplicates(WalksOf(links, roots, n))
  {
    if n == 0 {
      var starts := Map(StartAt, roots);
      assert forall i :: 0 <= i < |starts| ==> starts[i].root == roots[i];
    } else {
      WalksOfNoDuplicates(links, roots, n - 1);
      ExtendAllNoDuplicates(links, WalksOf(links, roots, n - 1));
    }
  }

  // ----- Walks and reachability -----

  lemma {:induction false} WalkReaches(links: seq<Link>, w: Walk)
    requires IsLinkWalk(links, w)
    ensures EndOf(w) == w.root || Reaches(GraphOf(links), w.root, EndOf(w))
    decreases |w.steps|
  {
    if w.steps != [] {
      LastStep(links, w);
      WalkReaches(links, Before(w));
      assert (EndOf(Before(w)), EndOf(w)) in GraphOf(links);
      ReachesByLastEdge(GraphOf(links), w.root, EndOf(w));
    }
  }

  /** A walk can be continued along any path of the graph of links. */
  lemma {:induction false} FollowPath(links: seq<Link>, v: Walk, p: seq<nat>) returns (w: Walk)
    requires IsLinkWalk(links, v) && IsWalk(GraphOf(links), p) && EndOf(v) == p[0]
    ensures IsLinkWalk(links, w) && w.root == v.root && EndOf(w) == p[|p| - 1]
    ensures |w.steps| == |v.steps| + |p| - 1
    decreases |p|
  {
    var n := |p| - 1;
    if n == 0 {
      w := v;
    } else {
      var before := FollowPath(links, v, p[..n]);
      assert (p[n - 1], p[n]) in GraphOf(links);
      var l :| l in links && l.parent == p[n - 1] && l.child == p[n];
      w := Extend(before, l);
      assert Before(w) == before && LastOf(w) == l;
      LastStep(links, w);
    }
  }
}
