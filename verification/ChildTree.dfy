/** buildChildren of registry.service.ts, compared with the unfolding of the ownership graph. */
module ChildTree {
  import opened Collections
  import opened Digraphs
  import opened Hierarchy
  import opened Options
  import opened SubtreeQuery

  datatype ListChild = ListChild(
    id: nat,
    fq: bool,
    ownershipPct: Option<int>,
    subsidiaryCount: nat,
    fqCount: nat,
    children: seq<ListChild>)

  type LinksByParent = map<nat, seq<Link>>

  function GroupByParent(links: seq<Link>): LinksByParent {
    map l | l in links :: l.parent := ChildrenOf(links, l.parent)
  }

  function Direct(groups: LinksByParent, id: nat): seq<Link> {
    if id in groups then groups[id] else []
  }

  predicate IsFq(l: Link) {
    l.fq
  }

  function FqsOf(links: seq<Link>): seq<Link> {
    Having(links, IsFq, true)
  }

  function SubsidiariesOf(links: seq<Link>): seq<Link> {
    Having(links, IsFq, false)
  }

  function FqChild(l: Link): ListChild {
    ListChild(l.child, true, None, 0, 0, [])
  }

  /** The ownership edges among the links. */
  ghost function OwnedGraph(links: seq<Link>): set<(nat, nat)> {
    set l | l in links && !l.fq :: (l.parent, l.child)
  }

  /** Every grouped ownership link is an edge of `g` from its group's node. */
  ghost predicate Grounded(g: set<(nat, nat)>, groups: LinksByParent) {
    forall p, l :: p in groups && l in groups[p] && !l.fq ==> (p, l.child) in g
  }

  ghost predicate EdgesFrom(g: set<(nat, nat)>, p: nat, links: seq<Link>) {
    forall l :: l in links ==> (p, l.child) in g
  }

  lemma DirectEdges(g: set<(nat, nat)>, groups: LinksByParent, p: nat)
    requires Grounded(g, groups)
    ensures EdgesFrom(g, p, SubsidiariesOf(Direct(groups, p)))
  {
    HavingMembers(Direct(groups, p), IsFq, false);
  }

  /** The FQs first, then each subsidiary with its own children. */
  function BuildChildren(ghost g: set<(nat, nat)>, groups: LinksByParent, parentId: nat): seq<ListChild>
    requires Acyclic(g) && Grounded(g, groups)
    decreases Below(g, parentId), 1, 0
  {
    var direct := Direct(groups, parentId);
    DirectEdges(g, groups, parentId);
    Map(FqChild, FqsOf(direct)) + BuildSubsidiaries(g, groups, parentId, SubsidiariesOf(direct))
  }

  function BuildSubsidiaries(ghost g: set<(nat, nat)>, groups: LinksByParent, parentId: nat, links: seq<Link>)
    : seq<ListChild>
    requires Acyclic(g) && Grounded(g, groups) && EdgesFrom(g, parentId, links)
    decreases Below(g, parentId), 0, |links|
  {
    if links == [] then []
    else
      var l := links[0];
      var grandchildren := Direct(groups, l.child);
      assert l in links;
      BelowShrinks(g, parentId, l.child);
      [ListChild(l.child, false, l.pct, |SubsidiariesOf(grandchildren)|, |FqsOf(grandchildren)|,
                 BuildChildren(g, groups, l.child))]
      + BuildSubsidiaries(g, groups, parentId, links[1..])
  }

  /** One row of the page: a top-level entity with its children. */
  function PageRow(ghost g: set<(nat, nat)>, groups: LinksByParent, rootId: nat): ListChild
    requires Acyclic(g) && Grounded(g, groups)
  {
    var direct := Direct(groups, rootId);
    ListChild(rootId, false, None, |SubsidiariesOf(direct)|, |FqsOf(direct)|, BuildChildren(g, groups, rootId))
  }

  // ----- What the rows show -----

  /** The number of FQs, or of subsidiaries, among some rows. */
  function CountOf(rows: seq<ListChild>, fq: bool): nat {
    if rows == [] then 0 else (if rows[0].fq == fq then 1 else 0) + CountOf(rows[1..], fq)
  }

  /** An FQ shows nothing below it; any other row shows how many of its own children are subsidiaries
      and how many are FQs, and the children are those built for its entity. The same holds below it. */
  ghost predicate TreeFits(g: set<(nat, nat)>, groups: LinksByParent, row: ListChild)
    requires Acyclic(g) && Grounded(g, groups)
  {
    && (row.fq ==> row.subsidiaryCount == 0 && row.fqCount == 0 && row.children == [])
    && (!row.fq ==> row.subsidiaryCount == CountOf(row.children, false) && row.fqCount == CountOf(row.children, true))
    && (!row.fq ==> row.children == BuildChildren(g, groups, row.id))
    && forall c :: c in row.children ==> TreeFits(g, groups, c)
  }

  /** The row carries the link's child, kind and percentage. */
  predicate ShowsLink(row: ListChild, l: Link) {
    row.id == l.child && row.fq == l.fq && row.ownershipPct == if l.fq then None else l.pct
  }

  /** The rows carry the links one by one, in order. */
  ghost predicate ShowLinks(rows: seq<ListChild>, links: seq<Link>) {
    |rows| == |links| && forall i :: 0 <= i < |rows| ==> ShowsLink(rows[i], links[i])
  }

  lemma {:induction false} SubsidiariesShowLinks(g: set<(nat, nat)>, groups: LinksByParent, p: nat, links: seq<Link>)
    requires Acyclic(g) && Grounded(g, groups) && EdgesFrom(g, p, links) && forall l :: l in links ==> !l.fq
    ensures ShowLinks(BuildSubsidiaries(g, groups, p, links), links)
    decreases |links|
  {
    if links != [] {
      SubsidiariesShowLinks(g, groups, p, links[1..]);
    }
  }

  /** The children of a node are its FQ links and then its ownership links, each in their order. */
  lemma ChildrenShowLinks(g: set<(nat, nat)>, groups: LinksByParent, p: nat)
    requires Acyclic(g) && Grounded(g, groups)
    ensures ShowLinks(BuildChildren(g, groups, p), FqsOf(Direct(groups, p)) + SubsidiariesOf(Direct(groups, p)))
  {
    var fqs, subsidiaries := FqsOf(Direct(groups, p)), SubsidiariesOf(Direct(groups, p));
    DirectEdges(g, groups, p);
    HavingMembers(Direct(groups, p), IsFq, true);
    HavingMembers(Direct(groups, p), IsFq, false);
    SubsidiariesShowLinks(g, groups, p, subsidiaries);
    assert forall i :: 0 <= i < |fqs| ==> fqs[i] in fqs;
  }

  lemma {:induction false} CountOfLinks(rows: seq<ListChild>, links: seq<Link>, fq: bool)
    requires ShowLinks(rows, links)
    ensures CountOf(rows, fq) == |Having(links, IsFq, fq)|
  {
    if rows != [] {
      CountOfLinks(rows[1..], links[1..], fq);
      HavingAppend([links[0]], links[1..], IsFq, fq);
      assert links == [links[0]] + links[1..] && [links[0]][..0] == [];
    }
  }

  lemma {:induction false} HavingTwice<T, K>(items: seq<T>, key: T -> K, k: K, m: K)
    ensures Having(Having(items, key, k), key, m) == if k == m then Having(items, key, k) else []
  {
    if items != [] {
      var n := |items| - 1;
      HavingTwice(items[..n], key, k, m);
      if key(items[n]) == k {
        HavingAppend(Having(items[..n], key, k), [items[n]], key, m);
        assert [items[n]][..0] == [];
        assert Having([items[n]], key, m) == if k == m then [items[n]] else [];
      } else {
        assert Having(items, key, k) == Having(items[..n], key, k);
      }
    }
  }

  /** The children counted by kind are the direct links counted by kind. */
  lemma ChildrenCounted(g: set<(nat, nat)>, groups: LinksByParent, p: nat, fq: bool)
    requires Acyclic(g) && Grounded(g, groups)
    ensures CountOf(BuildChildren(g, groups, p), fq) == |Having(Direct(groups, p), IsFq, fq)|
  {
    var direct := Direct(groups, p);
    ChildrenShowLinks(g, groups, p);
    CountOfLinks(BuildChildren(g, groups, p), FqsOf(direct) + SubsidiariesOf(direct), fq);
    HavingAppend(FqsOf(direct), SubsidiariesOf(direct), IsFq, fq);
    HavingTwice(direct, IsFq, true, fq);
    HavingTwice(direct, IsFq, false, fq);
  }

  lemma {:induction false} ChildrenFit(g: set<(nat, nat)>, groups: LinksByParent, p: nat)
    requires Acyclic(g) && Grounded(g, groups)
    ensures forall c :: c in BuildChildren(g, groups, p) ==> TreeFits(g, groups, c)
    decreases Below(g, p), 1, 0
  {
    DirectEdges(g, groups, p);
    SubsidiariesFit(g, groups, p, SubsidiariesOf(Direct(groups, p)));
  }

  lemma {:induction false} SubsidiariesFit(g: set<(nat, nat)>, groups: LinksByParent, p: nat, links: seq<Link>)
    requires Acyclic(g) && Grounded(g, groups) && EdgesFrom(g, p, links)
    ensures forall c :: c in BuildSubsidiaries(g, groups, p, links) ==> TreeFits(g, groups, c)
    decreases Below(g, p), 0, |links|
  {
    if links != [] {
      var l := links[0];
      assert l in links;
      BelowShrinks(g, p, l.child);
      ChildrenFit(g, groups, l.child);
      ChildrenCounted(g, groups, l.child, false);
      ChildrenCounted(g, groups, l.child, true);
      SubsidiariesFit(g, groups, p, links[1..]);
    }
  }

  /** Every row of the page, at every depth, shows the right counts of its own children. */
  lemma PageRowFits(g: set<(nat, nat)>, groups: LinksByParent, rootId: nat)
    requires Acyclic(g) && Grounded(g, groups)
    ensures TreeFits(g, groups, PageRow(g, groups, rootId))
  {
    ChildrenFit(g, groups, rootId);
    ChildrenCounted(g, groups, rootId, false);
    ChildrenCounted(g, groups, rootId, true);
  }

  // ----- Two groupings that agree below a node build the same children -----

  ghost predicate AgreeBelow(g: set<(nat, nat)>, a: LinksByParent, b: LinksByParent, p: nat) {
    Direct(a, p) == Direct(b, p) && forall q :: Reaches(g, p, q) ==> Direct(a, q) == Direct(b, q)
  }

  lemma AgreeDown(g: set<(nat, nat)>, a: LinksByParent, b: LinksByParent, p: nat, c: nat)
    requires AgreeBelow(g, a, b, p) && (p, c) in g
    ensures AgreeBelow(g, a, b, c)
  {
    EdgeReaches(g, p, c);
    forall q | Reaches(g, c, q)
      ensures Direct(a, q) == Direct(b, q)
    {
      ReachesTransitive(g, p, c, q);
    }
  }

  lemma {:induction false} SameChildren(g: set<(nat, nat)>, a: LinksByParent, b: LinksByParent, p: nat)
    requires Acyclic(g) && Grounded(g, a) && Grounded(g, b) && AgreeBelow(g, a, b, p)
    ensures BuildChildren(g, a, p) == BuildChildren(g, b, p)
    decreases Below(g, p), 1, 0
  {
    DirectEdges(g, a, p);
    SameSubsidiaries(g, a, b, p, SubsidiariesOf(Direct(a, p)));
  }

  lemma {:induction false} SameSubsidiaries(g: set<(nat, nat)>, a: LinksByParent, b: LinksByParent, p: nat,
                                            links: seq<Link>)
    requires Acyclic(g) && Grounded(g, a) && Grounded(g, b) && AgreeBelow(g, a, b, p) && EdgesFrom(g, p, links)
    ensures BuildSubsidiaries(g, a, p, links) == BuildSubsidiaries(g, b, p, links)
    decreases Below(g, p), 0, |links|
  {
    if links != [] {
      var l := links[0];
      assert l in links;
      AgreeDown(g, a, b, p, l.child);
      BelowShrinks(g, p, l.child);
      SameChildren(g, a, b, l.child);
      SameSubsidiaries(g, a, b, p, links[1..]);
    }
  }

  // ----- The query's grouping against the graph's -----

  lemma GroupsAreGrounded(links: seq<Link>, grouped: seq<Link>)
    requires forall l :: l in grouped ==> l in links
    ensures Grounded(OwnedGraph(links), GroupByParent(grouped))
  {
    var groups := GroupByParent(grouped);
    forall p: nat, l: Link | p in groups && l in groups[p] && !l.fq
      ensures (p, l.child) in OwnedGraph(links)
    {
      HavingMembers(grouped, ParentOf, p);
    }
  }

  lemma DirectIsChildren(links: seq<Link>, id: nat)
    ensures Direct(GroupByParent(links), id) == ChildrenOf(links, id)
  {
    HavingMembers(links, ParentOf, id);
    assert ChildrenOf(links, id) != [] ==> ChildrenOf(links, id)[0] in ChildrenOf(links, id);
  }

  lemma {:induction false} LinksUnderAreLinks(links: seq<Link>, walks: seq<Walk>)
    ensures forall l :: l in LinksUnder(links, walks) ==> l in links
  {
    if walks != [] {
      HavingMembers(links, ParentOf, EndOf(walks[0]));
      LinksUnderAreLinks(links, walks[1..]);
    }
  }

  lemma ViaLinksAreLinks(links: seq<Link>, roots: seq<nat>, rows: seq<Row>, depth: nat)
    requires IsSubtree(links, roots, rows, depth)
    ensures forall l :: l in ViaLinks(rows) ==> l in links
  {
    SubtreeLinks(links, roots, rows, depth);
    LinksUnderAreLinks(links, ShortWalks(links, roots, depth));
  }

  /** What the page groups under a node: the node's links, once for each walk to it. */
  lemma DirectOfRows(links: seq<Link>, roots: seq<nat>, rows: seq<Row>, depth: nat, id: nat)
    requires IsSubtree(links, roots, rows, depth)
    ensures Direct(GroupByParent(ViaLinks(rows)), id)
         == Repeat(ChildrenOf(links, id), Visits(ShortWalks(links, roots, depth), id))
  {
    DirectIsChildren(ViaLinks(rows), id);
    SubtreeMultiplicity(links, roots, rows, depth, id);
  }

  lemma {:induction false} VisitedOnce(walks: seq<Walk>, w: Walk)
    requires w in walks
    ensures Visits(walks, EndOf(w)) >= 1
  {
    if walks[0] != w {
      VisitedOnce(walks[1..], w);
    }
  }

  lemma {:induction false} LengthOfRepeat<T>(s: seq<T>, n: nat)
    ensures |Repeat(s, n)| == n * |s|
  {
    if n > 0 {
      LengthOfRepeat(s, n - 1);
      ProductStep(n, |s|);
    }
  }

  /** Repeating a list gives the list itself only once, or when there is nothing to repeat. */
  lemma RepeatIsSame<T>(s: seq<T>, n: nat)
    ensures |Repeat(s, n)| == |s| <==> n == 1 || s == []
    ensures |Repeat(s, n)| == |s| ==> Repeat(s, n) == s
  {
    LengthOfRepeat(s, n);
    assert Repeat(s, 1) == s;
    if n > 0 {
      ProductIsFactor(n, |s|);
    }
  }

  /** The row of a subsidiary carries the children built for it. */
  lemma {:induction false} ChildrenOfSubsidiary(g: set<(nat, nat)>, groups: LinksByParent, p: nat, links: seq<Link>,
                                                i: nat)
    requires Acyclic(g) && Grounded(g, groups) && EdgesFrom(g, p, links) && i < |links|
    ensures |BuildSubsidiaries(g, groups, p, links)| == |links|
    ensures BuildSubsidiaries(g, groups, p, links)[i].children == BuildChildren(g, groups, links[i].child)
    decreases |links|
  {
    if i > 0 {
      ChildrenOfSubsidiary(g, groups, p, links[1..], i - 1);
    } else if |links| > 1 {
      ChildrenOfSubsidiary(g, groups, p, links[1..], 0);
    }
  }

  lemma {:induction false} FqsAndSubsidiaries(links: seq<Link>)
    ensures |FqsOf(links)| + |SubsidiariesOf(links)| == |links|
  {
    if links != [] {
      FqsAndSubsidiaries(links[..|links| - 1]);
    }
  }

  /** There is one child for every direct link. */
  lemma ChildCount(g: set<(nat, nat)>, groups: LinksByParent, p: nat)
    requires Acyclic(g) && Grounded(g, groups)
    ensures |BuildChildren(g, groups, p)| == |Direct(groups, p)|
  {
    var subsidiaries := SubsidiariesOf(Direct(groups, p));
    DirectEdges(g, groups, p);
    FqsAndSubsidiaries(Direct(groups, p));
    if subsidiaries != [] {
      ChildrenOfSubsidiary(g, groups, p, subsidiaries, 0);
    }
  }

  /** Equal trees over equal links have equal trees under each subsidiary. */
  lemma EqualBelow(g: set<(nat, nat)>, a: LinksByParent, b: LinksByParent, p: nat, l: Link)
    requires Acyclic(g) && Grounded(g, a) && Grounded(g, b) && Direct(a, p) == Direct(b, p)
    requires BuildChildren(g, a, p) == BuildChildren(g, b, p) && l in Direct(b, p) && !l.fq
    ensures BuildChildren(g, a, l.child) == BuildChildren(g, b, l.child)
  {
    var fqs, subsidiaries := FqsOf(Direct(b, p)), SubsidiariesOf(Direct(b, p));
    HavingMembers(Direct(b, p), IsFq, false);
    var i :| 0 <= i < |subsidiaries| && subsidiaries[i] == l;
    DirectEdges(g, a, p);
    DirectEdges(g, b, p);
    ChildrenOfSubsidiary(g, a, p, subsidiaries, i);
    ChildrenOfSubsidiary(g, b, p, subsidiaries, i);
    var n := |Map(FqChild, fqs)|;
    assert BuildChildren(g, a, p)[n + i] == BuildSubsidiaries(g, a, p, subsidiaries)[i];
    assert BuildChildren(g, b, p)[n + i] == BuildSubsidiaries(g, b, p, subsidiaries)[i];
  }

  // ----- The page's tree against the graph's -----

  /** The grouping of the page's rows repeats the graph's groups. */
  ghost predicate Repeats(a: LinksByParent, b: LinksByParent, walks: seq<Walk>) {
    forall id :: Direct(a, id) == Repeat(Direct(b, id), Visits(walks, id))
  }

  /** Every group of `b` is where the edges of `g` come from. */
  ghost predicate HoldsEdges(g: set<(nat, nat)>, b: LinksByParent) {
    forall e :: e in g ==> exists l :: l in Direct(b, e.0) && !l.fq && l.child == e.1
  }

  /** The node is reached by a single walk from the page's roots, or has nothing below it. */
  ghost predicate ShownRight(b: LinksByParent, walks: seq<Walk>, id: nat) {
    Visits(walks, id) == 1 || Direct(b, id) == []
  }

  /** Equal trees at a node mean that its group is the graph's, shown right. */
  lemma EqualTreesHere(g: set<(nat, nat)>, a: LinksByParent, b: LinksByParent, walks: seq<Walk>, id: nat)
    requires Acyclic(g) && Grounded(g, a) && Grounded(g, b) && Repeats(a, b, walks)
    requires BuildChildren(g, a, id) == BuildChildren(g, b, id)
    ensures ShownRight(b, walks, id) && Direct(a, id) == Direct(b, id)
  {
    ChildCount(g, a, id);
    ChildCount(g, b, id);
    RepeatIsSame(Direct(b, id), Visits(walks, id));
  }

  lemma {:induction false} EqualTreesShowRight(g: set<(nat, nat)>, a: LinksByParent, b: LinksByParent,
                                               walks: seq<Walk>, p: seq<nat>)
    requires Acyclic(g) && Grounded(g, a) && Grounded(g, b) && Repeats(a, b, walks) && HoldsEdges(g, b)
    requires IsWalk(g, p) && BuildChildren(g, a, p[0]) == BuildChildren(g, b, p[0])
    ensures ShownRight(b, walks, p[|p| - 1])
    decreases |p|
  {
    EqualTreesHere(g, a, b, walks, p[0]);
    if |p| > 1 {
      assert (p[0], p[1]) in g;
      var l :| l in Direct(b, p[0]) && !l.fq && l.child == p[1];
      EqualBelow(g, a, b, p[0], l);
      var q := p[1..];
      forall i | 0 <= i < |q| - 1
        ensures (q[i], q[i + 1]) in g
      {
        assert (p[i + 1], p[i + 2]) in g;
      }
      assert q[0] == p[1] && q[|q| - 1] == p[|p| - 1];
      EqualTreesShowRight(g, a, b, walks, q);
    }
  }

  ghost predicate AllShownRight(g: set<(nat, nat)>, b: LinksByParent, walks: seq<Walk>, root: nat) {
    forall q :: q == root || Reaches(g, root, q) ==> ShownRight(b, walks, q)
  }

  lemma EqualTreesShowAllRight(g: set<(nat, nat)>, a: LinksByParent, b: LinksByParent, walks: seq<Walk>, root: nat)
    requires Acyclic(g) && Grounded(g, a) && Grounded(g, b) && Repeats(a, b, walks) && HoldsEdges(g, b)
    requires BuildChildren(g, a, root) == BuildChildren(g, b, root)
    ensures AllShownRight(g, b, walks, root)
  {
    forall q | q == root || Reaches(g, root, q)
      ensures ShownRight(b, walks, q)
    {
      if q == root {
        assert IsWalk(g, [root]);
        EqualTreesShowRight(g, a, b, walks, [root]);
      } else {
        var p :| Leads(g, p, root, q);
        EqualTreesShowRight(g, a, b, walks, p);
      }
    }
  }

  lemma ShownRightAgree(g: set<(nat, nat)>, a: LinksByParent, b: LinksByParent, walks: seq<Walk>, root: nat)
    requires Repeats(a, b, walks) && AllShownRight(g, b, walks, root)
    ensures AgreeBelow(g, a, b, root)
  {
    forall q | q == root || Reaches(g, root, q)
      ensures Direct(a, q) == Direct(b, q)
    {
      assert ShownRight(b, walks, q);
      RepeatIsSame(Direct(b, q), Visits(walks, q));
    }
  }

  lemma GroupsHoldEdges(links: seq<Link>)
    ensures HoldsEdges(OwnedGraph(links), GroupByParent(links))
  {
    forall e | e in OwnedGraph(links)
      ensures exists l :: l in Direct(GroupByParent(links), e.0) && !l.fq && l.child == e.1
    {
      var l :| l in links && !l.fq && (l.parent, l.child) == e;
      DirectIsChildren(links, e.0);
      HavingMembers(links, ParentOf, e.0);
    }
  }

  /** The children built from the page's rows are the ownership graph's own unfolding under a root if
      and only if every entity owned from there, at any depth, is reached by a single walk from the
      page's roots or has nothing below it. */
  lemma ChildrenAreUnfolding(links: seq<Link>, roots: seq<nat>, rows: seq<Row>, depth: nat, root: nat)
    requires Acyclic(OwnedGraph(links)) && IsSubtree(links, roots, rows, depth)
    ensures Grounded(OwnedGraph(links), GroupByParent(ViaLinks(rows)))
    ensures Grounded(OwnedGraph(links), GroupByParent(links))
    ensures BuildChildren(OwnedGraph(links), GroupByParent(ViaLinks(rows)), root)
         == BuildChildren(OwnedGraph(links), GroupByParent(links), root)
       <==> forall q :: q == root || Reaches(OwnedGraph(links), root, q) ==>
              Visits(ShortWalks(links, roots, depth), q) == 1 || ChildrenOf(links, q) == []
  {
    var walks := ShortWalks(links, roots, depth);
    var a, b := GroupByParent(ViaLinks(rows)), GroupByParent(links);
    ViaLinksAreLinks(links, roots, rows, depth);
    GroupsAreGrounded(links, ViaLinks(rows));
    GroupsAreGrounded(links, links);
    GroupsHoldEdges(links);
    forall id
      ensures Direct(b, id) == ChildrenOf(links, id) && Direct(a, id) == Repeat(Direct(b, id), Visits(walks, id))
    {
      DirectIsChildren(links, id);
      DirectOfRows(links, roots, rows, depth, id);
    }
    if BuildChildren(OwnedGraph(links), a, root) == BuildChildren(OwnedGraph(links), b, root) {
      EqualTreesShowAllRight(OwnedGraph(links), a, b, walks, root);
    }
    if AllShownRight(OwnedGraph(links), b, walks, root) {
      ShownRightAgree(OwnedGraph(links), a, b, walks, root);
      SameChildren(OwnedGraph(links), a, b, root);
    }
    assert forall q :: ShownRight(b, walks, q) <==> Visits(walks, q) == 1 || ChildrenOf(links, q) == [];
  }

  // ----- The counts -----

  lemma ProductStep(n: nat, x: nat)
    requires n > 0
    ensures n * x == x + (n - 1) * x
  {
  }

  lemma TwiceAtLeast(n: nat, x: nat)
    requires n >= 2
    ensures n * x >= 2 * x
  {
    ProductStep(n, x);
    ProductStep(n - 1, x);
    assert (n - 2) * x >= 0;
  }

  lemma ProductIsFactor(n: nat, x: nat)
    requires n > 0
    ensures n * x == x <==> n == 1 || x == 0
  {
    ProductStep(n, x);
    if n > 1 && x > 0 {
      ProductStep(n - 1, x);
      assert (n - 2) * x >= 0;
    }
  }

  lemma {:induction false} HavingOfRepeat<T, K>(s: seq<T>, n: nat, key: T -> K, k: K)
    ensures |Having(Repeat(s, n), key, k)| == n * |Having(s, key, k)|
  {
    if n > 0 {
      HavingOfRepeat(s, n - 1, key, k);
      HavingAppend(s, Repeat(s, n - 1), key, k);
      ProductStep(n, |Having(s, key, k)|);
    }
  }

  /** A group of the page is as large as the graph's exactly when the node is reached once or the group
      is empty; in general it is multiplied by the number of walks. */
  lemma GroupCounted(links: seq<Link>, roots: seq<nat>, rows: seq<Row>, depth: nat, id: nat, fq: bool)
    requires IsSubtree(links, roots, rows, depth)
    ensures var shown := |Having(Direct(GroupByParent(ViaLinks(rows)), id), IsFq, fq)|;
      var actual := |Having(ChildrenOf(links, id), IsFq, fq)|;
      var visits := Visits(ShortWalks(links, roots, depth), id);
      shown == visits * actual && (shown == actual <==> visits == 1 || actual == 0)
  {
    var visits := Visits(ShortWalks(links, roots, depth), id);
    DirectOfRows(links, roots, rows, depth, id);
    HavingOfRepeat(ChildrenOf(links, id), visits, IsFq, fq);
    if visits > 0 {
      ProductIsFactor(visits, |Having(ChildrenOf(links, id), IsFq, fq)|);
    }
  }

  /** The two counts that a row of the page shows, at whatever depth: each is the number of the entity's
      own subsidiaries or FQs times the number of walks to the entity, and is right exactly when there
      is one walk or nothing to count. */
  lemma CountExact(links: seq<Link>, roots: seq<nat>, rows: seq<Row>, depth: nat, row: ListChild)
    requires Acyclic(OwnedGraph(links)) && IsSubtree(links, roots, rows, depth) && !row.fq
    requires Grounded(OwnedGraph(links), GroupByParent(ViaLinks(rows)))
    requires TreeFits(OwnedGraph(links), GroupByParent(ViaLinks(rows)), row)
    ensures var visits := Visits(ShortWalks(links, roots, depth), row.id);
      var subsidiaries, fqs := |SubsidiariesOf(ChildrenOf(links, row.id))|, |FqsOf(ChildrenOf(links, row.id))|;
      && row.subsidiaryCount == visits * subsidiaries && row.fqCount == visits * fqs
      && (row.subsidiaryCount == subsidiaries <==> visits == 1 || subsidiaries == 0)
      && (row.fqCount == fqs <==> visits == 1 || fqs == 0)
  {
    var g, groups := OwnedGraph(links), GroupByParent(ViaLinks(rows));
    ChildrenCounted(g, groups, row.id, false);
    ChildrenCounted(g, groups, row.id, true);
    GroupCounted(links, roots, rows, depth, row.id, false);
    GroupCounted(links, roots, rows, depth, row.id, true);
  }

  lemma {:induction false} VisitedTwice(walks: seq<Walk>, v: Walk, w: Walk)
    requires v in walks && w in walks && v != w && EndOf(v) == EndOf(w)
    ensures Visits(walks, EndOf(w)) >= 2
  {
    if walks[0] == v {
      VisitedOnce(walks[1..], w);
    } else if walks[0] == w {
      VisitedOnce(walks[1..], v);
    } else {
      VisitedTwice(walks[1..], v, w);
    }
  }

  /** Entities 0 and 1 each own half of entity 2, which owns entity 3. */
  predicate IsSharedExample(links: seq<Link>) {
    links == [Link(0, 2, false, Some(5000)), Link(1, 2, false, Some(5000)), Link(2, 3, false, Some(10000))]
  }

  lemma SharedExampleChildren(links: seq<Link>)
    requires IsSharedExample(links)
    ensures ChildrenOf(links, 2) == [links[2]] && SubsidiariesOf([links[2]]) == [links[2]]
  {
    var two := links[..2];
    var one := two[..1];
    assert one[..0] == [] && Having(one, ParentOf, 2) == [];
    assert Having(two, ParentOf, 2) == [];
    assert [links[2]][..0] == [] && Having([links[2]][..0], IsFq, false) == [];
  }

  /** An entity that two walks reach is shown with at least twice its subsidiaries. */
  lemma TwiceReachedIsDoubled(links: seq<Link>, roots: seq<nat>, rows: seq<Row>, depth: nat, v: Walk, w: Walk,
                              row: ListChild)
    requires NoDuplicates(links) && NoDuplicates(roots) && IsSubtree(links, roots, rows, depth)
    requires v.root in roots && w.root in roots && IsLinkWalk(links, v) && IsLinkWalk(links, w)
    requires v != w && EndOf(v) == EndOf(w) == row.id && !row.fq
    requires Acyclic(OwnedGraph(links)) && Grounded(OwnedGraph(links), GroupByParent(ViaLinks(rows)))
    requires TreeFits(OwnedGraph(links), GroupByParent(ViaLinks(rows)), row)
    ensures row.subsidiaryCount >= 2 * |SubsidiariesOf(ChildrenOf(links, row.id))|
  {
    var visits := Visits(ShortWalks(links, roots, depth), row.id);
    SubtreeHasAllWalks(links, roots, rows, depth);
    VisitedTwice(ShortWalks(links, roots, depth), v, w);
    CountExact(links, roots, rows, depth, row);
    TwiceAtLeast(visits, |SubsidiariesOf(ChildrenOf(links, row.id))|);
  }

  lemma SharedExampleAcyclic(links: seq<Link>)
    requires IsSharedExample(links)
    ensures Acyclic(OwnedGraph(links))
  {
    var order: seq<nat> := [3, 2, 1, 0];
    assert order[0] == 3 && order[1] == 2 && order[2] == 1 && order[3] == 0;
    forall e | e in OwnedGraph(links)
      ensures e == (0, 2) || e == (1, 2) || e == (2, 3)
    {
    }
    OrderedIsAcyclic(OwnedGraph(links), order);
  }

  lemma SharedExampleGrounded(links: seq<Link>, rows: seq<Row>, depth: nat)
    requires IsSharedExample(links) && IsSubtree(links, [0, 1], rows, depth)
    ensures Acyclic(OwnedGraph(links)) && Grounded(OwnedGraph(links), GroupByParent(ViaLinks(rows)))
  {
    SharedExampleAcyclic(links);
    ViaLinksAreLinks(links, [0, 1], rows, depth);
    GroupsAreGrounded(links, ViaLinks(rows));
  }

  lemma SharedExampleWalks(links: seq<Link>)
    requires IsSharedExample(links)
    ensures IsLinkWalk(links, Walk(0, [links[0]])) && IsLinkWalk(links, Walk(1, [links[1]]))
  {
    assert StepOk(links, Walk(0, [links[0]]), 0) && StepOk(links, Walk(1, [links[1]]), 0);
  }

  /** Two top-level entities on one page that share a subsidiary: whatever row shows the shared entity,
      it counts the entity's only subsidiary at least twice. */
  lemma SharedSubsidiaryIsDoubled(links: seq<Link>, rows: seq<Row>, depth: nat, row: ListChild)
    requires IsSharedExample(links) && IsSubtree(links, [0, 1], rows, depth) && row.id == 2 && !row.fq
    ensures Acyclic(OwnedGraph(links)) && Grounded(OwnedGraph(links), GroupByParent(ViaLinks(rows)))
    ensures TreeFits(OwnedGraph(links), GroupByParent(ViaLinks(rows)), row) ==> row.subsidiaryCount >= 2
    ensures |SubsidiariesOf(ChildrenOf(links, 2))| == 1
  {
    SharedExampleGrounded(links, rows, depth);
    SharedExampleWalks(links);
    SharedExampleChildren(links);
    if TreeFits(OwnedGraph(links), GroupByParent(ViaLinks(rows)), row) {
      TwiceReachedIsDoubled(links, [0, 1], rows, depth, Walk(0, [links[0]]), Walk(1, [links[1]]), row);
    }
  }
}
