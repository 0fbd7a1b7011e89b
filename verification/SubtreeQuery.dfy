/** The recursive subtree query of registry.service.ts: its rows are the walks from the page's roots. */
module SubtreeQuery {
  import opened Collections
  import opened Digraphs
  import opened Hierarchy
  import opened Options

  /** One row: the root it belongs to, the entity, and the link it was reached by (None for the root itself). */
  datatype Row = Row(rootId: nat, id: nat, via: Option<Link>)

  function RowOf(w: Walk): Row {
    Row(w.root, EndOf(w), if w.steps == [] then None else Some(LastOf(w)))
  }

  function RowUnder(s: Row, l: Link): Row {
    Row(s.rootId, l.child, Some(l))
  }

  /** The recursive term: joins every working row with the links under it. */
  function Step(links: seq<Link>, working: seq<Row>): seq<Row> {
    if working == [] then []
    else Map(l => RowUnder(working[0], l), ChildrenOf(links, working[0].id)) + Step(links, working[1..])
  }

  lemma {:induction false} StepIsExtend(links: seq<Link>, walks: seq<Walk>)
    ensures Step(links, Map(RowOf, walks)) == Map(RowOf, ExtendAll(links, walks))
  {
    if walks != [] {
      var w := walks[0];
      var rows := Map(RowOf, walks);
      assert rows[1..] == Map(RowOf, walks[1..]);
      StepIsExtend(links, walks[1..]);
      var children := ChildrenOf(links, EndOf(w));
      var extended := Map(l => Extend(w, l), children);
      assert Map(l => RowUnder(rows[0], l), children) == Map(RowOf, extended);
      assert Map(RowOf, extended + ExtendAll(links, walks[1..]))
          == Map(RowOf, extended) + Map(RowOf, ExtendAll(links, walks[1..]));
    }
  }

  /** The result of the query: one row for each walk from a root, shorter walks first. */
  ghost predicate IsSubtree(links: seq<Link>, roots: seq<nat>, rows: seq<Row>, depth: nat) {
    WalksOf(links, roots, depth) == [] && rows == Map(RowOf, ShortWalks(links, roots, depth))
  }

  // ----- When the recursion ends -----

  /** The node is a root or is reached from one. */
  ghost predicate IsLive(links: seq<Link>, roots: seq<nat>, id: nat) {
    exists r :: r in roots && (id == r || Reaches(GraphOf(links), r, id))
  }

  /** No loop of links can be reached from the roots. */
  ghost predicate NoLiveLoop(links: seq<Link>, roots: seq<nat>) {
    forall p :: IsCycle(GraphOf(links), p) ==> !IsLive(links, roots, p[0])
  }

  ghost function LiveGraph(links: seq<Link>, roots: seq<nat>): set<(nat, nat)> {
    set l | l in links && IsLive(links, roots, l.parent) :: (l.parent, l.child)
  }

  lemma LiveGraphAcyclic(links: seq<Link>, roots: seq<nat>)
    requires NoLiveLoop(links, roots)
    ensures Acyclic(LiveGraph(links, roots))
  {
    var live := LiveGraph(links, roots);
    forall p
      ensures !IsCycle(live, p)
    {
      if IsCycle(live, p) {
        assert (p[0], p[1]) in live;
        assert IsCycle(GraphOf(links), p);
      }
    }
  }

  /** Every step of a walk from a root uses up at least one of the nodes below. */
  lemma {:induction false} WalkIsShort(links: seq<Link>, roots: seq<nat>, w: Walk)
    requires NoLiveLoop(links, roots) && w.root in roots && IsLinkWalk(links, w)
    ensures |Below(LiveGraph(links, roots), EndOf(w))| + |w.steps| <= |Nodes(LiveGraph(links, roots))|
    decreases |w.steps|
  {
    var live := LiveGraph(links, roots);
    if w.steps == [] {
      Subset(Below(live, EndOf(w)), Nodes(live));
    } else {
      LastStep(links, w);
      WalkIsShort(links, roots, Before(w));
      WalkReaches(links, Before(w));
      assert IsLive(links, roots, EndOf(Before(w)));
      LiveGraphAcyclic(links, roots);
      BelowCount(live, EndOf(Before(w)), EndOf(w));
    }
  }

  lemma Subset(a: set<nat>, b: set<nat>)
    requires a <= b
    ensures |a| <= |b|
  {
    if a != b {
      Smaller(a, b);
    }
  }

  lemma LevelsEnd(links: seq<Link>, roots: seq<nat>, n: nat)
    requires NoLiveLoop(links, roots) && n > |Nodes(LiveGraph(links, roots))|
    ensures WalksOf(links, roots, n) == []
  {
    if WalksOf(links, roots, n) != [] {
      var w := WalksOf(links, roots, n)[0];
      WalkOfLevel(links, roots, n, w);
      WalkIsShort(links, roots, w);
    }
  }

  /** A loop can be walked round as often as one likes. */
  lemma {:induction false} WalkAround(links: seq<Link>, v: Walk, p: seq<nat>, n: nat) returns (w: Walk)
    requires IsLinkWalk(links, v) && IsCycle(GraphOf(links), p) && EndOf(v) == p[0]
    ensures IsLinkWalk(links, w) && w.root == v.root && EndOf(w) == p[0] && |w.steps| >= n
  {
    if n == 0 {
      w := v;
    } else {
      var once := WalkAround(links, v, p, n - 1);
      w := FollowPath(links, once, p);
    }
  }

  lemma LiveLoopNeverEnds(links: seq<Link>, roots: seq<nat>, p: seq<nat>, n: nat)
    requires IsCycle(GraphOf(links), p) && IsLive(links, roots, p[0])
    ensures WalksOf(links, roots, n) != []
  {
    var r :| r in roots && (p[0] == r || Reaches(GraphOf(links), r, p[0]));
    var v := StartAt(r);
    if p[0] != r {
      var q :| Leads(GraphOf(links), q, r, p[0]);
      v := FollowPath(links, v, q);
    }
    var w := WalkAround(links, v, p, n);
    LongWalkFillsLevel(links, roots, w, n);
  }

  /** The recursive query ends if and only if no loop of links can be reached from the roots. */
  lemma QueryEndsExact(links: seq<Link>, roots: seq<nat>)
    ensures (exists n :: WalksOf(links, roots, n) == []) <==> NoLiveLoop(links, roots)
  {
    if NoLiveLoop(links, roots) {
      LevelsEnd(links, roots, |Nodes(LiveGraph(links, roots))| + 1);
    } else {
      var p :| IsCycle(GraphOf(links), p) && IsLive(links, roots, p[0]);
      forall n: nat
        ensures WalksOf(links, roots, n) != []
      {
        LiveLoopNeverEnds(links, roots, p, n);
      }
    }
  }

  // ----- The query -----

  /** After `depth` rounds: the rows of the shorter walks are out, those of the next length are in work. */
  ghost predicate RoundsDone(links: seq<Link>, roots: seq<nat>, rows: seq<Row>, working: seq<Row>, depth: nat) {
    rows == Map(RowOf, ShortWalks(links, roots, depth)) && working == Map(RowOf, WalksOf(links, roots, depth))
  }

  lemma OneRound(links: seq<Link>, roots: seq<nat>, rows: seq<Row>, working: seq<Row>, depth: nat)
    requires RoundsDone(links, roots, rows, working, depth)
    ensures RoundsDone(links, roots, rows + working, Step(links, working), depth + 1)
  {
    StepIsExtend(links, WalksOf(links, roots, depth));
    assert Map(RowOf, ShortWalks(links, roots, depth) + WalksOf(links, roots, depth)) == rows + working;
  }

  function SelfRow(id: nat): Row {
    Row(id, id, None)
  }

  lemma NoRounds(links: seq<Link>, roots: seq<nat>)
    ensures RoundsDone(links, roots, [], Map(SelfRow, roots), 0)
  {
    assert Map(SelfRow, roots) == Map(RowOf, Map(StartAt, roots));
  }

  lemma RoundsAreBounded(links: seq<Link>, roots: seq<nat>, rows: seq<Row>, working: seq<Row>, depth: nat)
    requires NoLiveLoop(links, roots) && RoundsDone(links, roots, rows, working, depth) && working != []
    ensures depth <= |Nodes(LiveGraph(links, roots))|
  {
    if depth > |Nodes(LiveGraph(links, roots))| {
      LevelsEnd(links, roots, depth);
    }
  }

  /** Without a reachable loop the query ends and returns one row for each walk from a root. */
  method FetchSubtrees(links: seq<Link>, roots: seq<nat>) returns (rows: seq<Row>)
    requires NoLiveLoop(links, roots)
    ensures exists depth :: IsSubtree(links, roots, rows, depth)
  {
    ghost var depth, bound := 0, |Nodes(LiveGraph(links, roots))|;
    var working := Map(SelfRow, roots);
    rows := [];
    NoRounds(links, roots);
    while working != []
      invariant RoundsDone(links, roots, rows, working, depth)
      decreases bound + 1 - depth
    {
      RoundsAreBounded(links, roots, rows, working, depth);
      OneRound(links, roots, rows, working, depth);
      rows := rows + working;
      working := Step(links, working);
      depth := depth + 1;
    }
    assert IsSubtree(links, roots, rows, depth);
  }

  // ----- All walks -----

  lemma {:induction false} PrefixIsWalk(links: seq<Link>, w: Walk, n: nat)
    requires IsLinkWalk(links, w) && n <= |w.steps|
    ensures IsLinkWalk(links, Walk(w.root, w.steps[..n]))
    decreases |w.steps|
  {
    if n == |w.steps| {
      assert w.steps[..n] == w.steps;
    } else {
      LastStep(links, w);
      PrefixIsWalk(links, Before(w), n);
      assert Before(w).steps[..n] == w.steps[..n];
    }
  }

  lemma LongWalkFillsLevel(links: seq<Link>, roots: seq<nat>, w: Walk, n: nat)
    requires w.root in roots && IsLinkWalk(links, w)
    ensures |w.steps| >= n ==> WalksOf(links, roots, n) != []
  {
    if |w.steps| >= n {
      PrefixIsWalk(links, w, n);
      WalkOfLevel(links, roots, n, Walk(w.root, w.steps[..n]));
    }
  }

  /** The list has every walk from a root, of whatever length, exactly once. */
  ghost predicate HasAllWalks(links: seq<Link>, roots: seq<nat>, walks: seq<Walk>) {
    NoDuplicates(walks) && forall w :: w in walks <==> w.root in roots && IsLinkWalk(links, w)
  }

  lemma SubtreeHasAllWalks(links: seq<Link>, roots: seq<nat>, rows: seq<Row>, depth: nat)
    requires NoDuplicates(links) && NoDuplicates(roots) && IsSubtree(links, roots, rows, depth)
    ensures HasAllWalks(links, roots, ShortWalks(links, roots, depth))
  {
    ShortWalksNoDuplicates(links, roots, depth);
    forall w: Walk
      ensures w in ShortWalks(links, roots, depth) <==> w.root in roots && IsLinkWalk(links, w)
    {
      ShortWalkListed(links, roots, depth, w);
      if w.root in roots && IsLinkWalk(links, w) {
        LongWalkFillsLevel(links, roots, w, depth);
      }
    }
  }

  // ----- Rows by parent -----

  /** The number of listed walks that end at a node. */
  function Visits(walks: seq<Walk>, id: nat): nat {
    if walks == [] then 0 else (if EndOf(walks[0]) == id then 1 else 0) + Visits(walks[1..], id)
  }

  function Repeat<T>(s: seq<T>, n: nat): seq<T> {
    if n == 0 then [] else s + Repeat(s, n - 1)
  }

  /** The links of the rows other than the roots' own, in row order. */
  function ViaLinks(rows: seq<Row>): seq<Link> {
    if rows == [] then []
    else (match rows[0].via case None => [] case Some(l) => [l]) + ViaLinks(rows[1..])
  }

  lemma {:induction false} ViaLinksAppend(a: seq<Row>, b: seq<Row>)
    ensures ViaLinks(a + b) == ViaLinks(a) + ViaLinks(b)
  {
    if a == [] {
      assert a + b == b;
    } else {
      assert (a + b)[1..] == a[1..] + b;
      ViaLinksAppend(a[1..], b);
    }
  }

  /** The links under every walk's end, walk after walk. */
  function LinksUnder(links: seq<Link>, walks: seq<Walk>): seq<Link> {
    if walks == [] then [] else ChildrenOf(links, EndOf(walks[0])) + LinksUnder(links, walks[1..])
  }

  lemma {:induction false} LinksUnderAppend(links: seq<Link>, a: seq<Walk>, b: seq<Walk>)
    ensures LinksUnder(links, a + b) == LinksUnder(links, a) + LinksUnder(links, b)
  {
    if a == [] {
      assert a + b == b;
    } else {
      assert (a + b)[1..] == a[1..] + b;
      LinksUnderAppend(links, a[1..], b);
    }
  }

  lemma {:induction false} ViaLinksOfStep(s: Row, ls: seq<Link>)
    ensures ViaLinks(Map(l => RowUnder(s, l), ls)) == ls
  {
    if ls != [] {
      ViaLinksOfStep(s, ls[1..]);
      assert Map(l => RowUnder(s, l), ls)[1..] == Map(l => RowUnder(s, l), ls[1..]);
    }
  }

  lemma {:induction false} ViaLinksOfExtend(links: seq<Link>, walks: seq<Walk>)
    ensures ViaLinks(Step(links, Map(RowOf, walks))) == LinksUnder(links, walks)
  {
    if walks != [] {
      var s := RowOf(walks[0]);
      assert Map(RowOf, walks)[1..] == Map(RowOf, walks[1..]);
      ViaLinksOfExtend(links, walks[1..]);
      ViaLinksOfStep(s, ChildrenOf(links, s.id));
      ViaLinksAppend(Map(l => RowUnder(s, l), ChildrenOf(links, s.id)), Step(links, Map(RowOf, walks[1..])));
    }
  }

  lemma {:induction false} ViaLinksOfStarts(roots: seq<nat>)
    ensures ViaLinks(Map(RowOf, Map(StartAt, roots))) == []
  {
    if roots != [] {
      ViaLinksOfStarts(roots[1..]);
      assert Map(RowOf, Map(StartAt, roots))[1..] == Map(RowOf, Map(StartAt, roots[1..]));
    }
  }

  lemma ViaLinksOfLevel(links: seq<Link>, roots: seq<nat>, n: nat)
    ensures ViaLinks(Map(RowOf, WalksOf(links, roots, n)))
         == if n == 0 then [] else LinksUnder(links, WalksOf(links, roots, n - 1))
  {
    if n == 0 {
      ViaLinksOfStarts(roots);
    } else {
      StepIsExtend(links, WalksOf(links, roots, n - 1));
      ViaLinksOfExtend(links, WalksOf(links, roots, n - 1));
    }
  }

  lemma ViaLinksOfNext(links: seq<Link>, roots: seq<nat>, n: nat)
    ensures ViaLinks(Map(RowOf, ShortWalks(links, roots, n + 1)))
         == ViaLinks(Map(RowOf, ShortWalks(links, roots, n))) + ViaLinks(Map(RowOf, WalksOf(links, roots, n)))
  {
    var rows, last := Map(RowOf, ShortWalks(links, roots, n)), Map(RowOf, WalksOf(links, roots, n));
    assert Map(RowOf, ShortWalks(links, roots, n + 1)) == rows + last;
    ViaLinksAppend(rows, last);
  }

  lemma LinksUnderNext(links: seq<Link>, roots: seq<nat>, n: nat)
    requires n > 0
    ensures LinksUnder(links, ShortWalks(links, roots, n))
         == LinksUnder(links, ShortWalks(links, roots, n - 1)) + LinksUnder(links, WalksOf(links, roots, n - 1))
  {
    LinksUnderAppend(links, ShortWalks(links, roots, n - 1), WalksOf(links, roots, n - 1));
  }

  lemma NoViaLinks(links: seq<Link>, roots: seq<nat>)
    ensures ViaLinks(Map(RowOf, ShortWalks(links, roots, 1))) == [] == LinksUnder(links, ShortWalks(links, roots, 0))
  {
    var starts := Map(StartAt, roots);
    assert ShortWalks(links, roots, 1) == starts;
    ViaLinksOfStarts(roots);
  }

  lemma ViaLinksOneLonger(links: seq<Link>, roots: seq<nat>, n: nat)
    requires n > 0
    requires ViaLinks(Map(RowOf, ShortWalks(links, roots, n))) == LinksUnder(links, ShortWalks(links, roots, n - 1))
    ensures ViaLinks(Map(RowOf, ShortWalks(links, roots, n + 1))) == LinksUnder(links, ShortWalks(links, roots, n))
  {
    LinksUnderNext(links, roots, n);
    ViaLinksOfNext(links, roots, n);
    ViaLinksOfLevel(links, roots, n);
  }

  lemma {:induction false} ViaLinksOfShort(links: seq<Link>, roots: seq<nat>, n: nat)
    ensures ViaLinks(Map(RowOf, ShortWalks(links, roots, n + 1))) == LinksUnder(links, ShortWalks(links, roots, n))
  {
    if n == 0 {
      NoViaLinks(links, roots);
    } else {
      ViaLinksOfShort(links, roots, n - 1);
      ViaLinksOneLonger(links, roots, n);
    }
  }

  /** The rows of the query, but for the roots' own, are the links under each walk's end. */
  lemma SubtreeLinks(links: seq<Link>, roots: seq<nat>, rows: seq<Row>, depth: nat)
    requires IsSubtree(links, roots, rows, depth)
    ensures ViaLinks(rows) == LinksUnder(links, ShortWalks(links, roots, depth))
  {
    ViaLinksOfShort(links, roots, depth);
    assert ShortWalks(links, roots, depth + 1) == ShortWalks(links, roots, depth);
  }

  lemma {:induction false} OneParent(links: seq<Link>, q: nat, p: nat)
    ensures Having(ChildrenOf(links, q), ParentOf, p) == if q == p then ChildrenOf(links, p) else []
  {
    if links != [] {
      var n := |links| - 1;
      OneParent(links[..n], q, p);
      HavingAppend(ChildrenOf(links[..n], q), if links[n].parent == q then [links[n]] else [], ParentOf, p);
      if links[n].parent == q {
        assert [links[n]][..0] == [];
      }
    }
  }

  lemma {:induction false} LinksUnderByParent(links: seq<Link>, walks: seq<Walk>, p: nat)
    ensures Having(LinksUnder(links, walks), ParentOf, p) == Repeat(ChildrenOf(links, p), Visits(walks, p))
  {
    if walks != [] {
      var q := EndOf(walks[0]);
      HavingAppend(ChildrenOf(links, q), LinksUnder(links, walks[1..]), ParentOf, p);
      OneParent(links, q, p);
      LinksUnderByParent(links, walks[1..], p);
    }
  }

  /** Subtree multiplicity: under each parent the query returns the parent's links, in order, once
      for every walk from a root of the page to that parent. */
  lemma SubtreeMultiplicity(links: seq<Link>, roots: seq<nat>, rows: seq<Row>, depth: nat, p: nat)
    requires IsSubtree(links, roots, rows, depth)
    ensures Having(ViaLinks(rows), ParentOf, p)
         == Repeat(ChildrenOf(links, p), Visits(ShortWalks(links, roots, depth), p))
  {
    SubtreeLinks(links, roots, rows, depth);
    LinksUnderByParent(links, ShortWalks(links, roots, depth), p);
  }
}
