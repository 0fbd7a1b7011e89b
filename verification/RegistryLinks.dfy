/** child_links over the persisted tables: when the subtree query terminates, and how the worklist
    of the analytics page agrees with it. */
module RegistryLinks {
  import opened Collections
  import opened Descendants
  import opened Digraphs
  import opened Hierarchy
  import opened Options
  import opened StoreInvariant
  import opened SubtreeQuery
  import opened Tables
  import opened UploadTypes
  import opened WriteTheorems

  /** The FQ with this id is registered under this domestic entity. */
  ghost predicate FqUnder(t: Tables, domestic: nat, id: nat) {
    exists k :: k in t.entities && t.entities[k].id == id && t.entities[k].registrationType == FQ
             && t.entities[k].domesticEntityId == Some(domestic)
  }

  ghost predicate IsChildLink(t: Tables, l: Link) {
    if l.fq then l.pct == None && FqUnder(t, l.parent, l.child)
    else (l.parent, l.child) in t.edges && l.pct == Some(t.edges[(l.parent, l.child)])
  }

  /** The two halves of child_links, in any order. */
  ghost predicate ListsChildLinks(t: Tables, links: seq<Link>) {
    NoDuplicates(links) && forall l :: l in links <==> IsChildLink(t, l)
  }

  // ----- Ownership is acyclic by id as it is by name -----

  ghost function KeyOfId(t: Tables, id: nat): (k: string)
    requires HasId(t, id)
    ensures k in t.entities && t.entities[k].id == id
  {
    var k :| k in t.entities && t.entities[k].id == id;
    k
  }

  lemma EdgeByName(t: Tables, e: EdgeId)
    requires EdgesResolve(t) && e in t.edges
    ensures HasId(t, e.0) && HasId(t, e.1) && (KeyOfId(t, e.0), KeyOfId(t, e.1)) in ShareMap(t)
  {
    var n := (KeyOfId(t, e.0), KeyOfId(t, e.1));
    assert IdEdge(AllIds(t), n) == e;
  }

  /** A cycle of ids is a cycle of names. */
  lemma NamedCycle(t: Tables, p: seq<nat>) returns (q: seq<string>)
    requires EdgesResolve(t) && IsCycle(t.edges.Keys, p)
    ensures IsCycle(ShareMap(t).Keys, q)
  {
    forall i | 0 <= i < |p|
      ensures HasId(t, p[i])
    {
      if i < |p| - 1 {
        assert (p[i], p[i + 1]) in t.edges.Keys;
      } else {
        assert (p[i - 1], p[i]) in t.edges.Keys;
      }
    }
    q := seq(|p|, i requires 0 <= i < |p| => KeyOfId(t, p[i]));
    forall i | 0 <= i < |q| - 1
      ensures (q[i], q[i + 1]) in ShareMap(t).Keys
    {
      EdgeByName(t, (p[i], p[i + 1]));
    }
  }

  lemma OwnershipAcyclicById(t: Tables)
    requires EdgesResolve(t) && Acyclic(ShareMap(t).Keys)
    ensures Acyclic(t.edges.Keys)
  {
    forall p
      ensures !IsCycle(t.edges.Keys, p)
    {
      if IsCycle(t.edges.Keys, p) {
        var q := NamedCycle(t, p);
      }
    }
  }

  // ----- Termination of the subtree query -----

  lemma LinkKind(t: Tables, links: seq<Link>, u: nat, v: nat)
    requires ListsChildLinks(t, links) && (u, v) in GraphOf(links)
    ensures (u, v) in t.edges || FqUnder(t, u, v)
  {
    var l :| l in links && l.parent == u && l.child == v;
    assert IsChildLink(t, l);
  }

  /** Where the path enters the loop does not matter: after any of its edges it leads back. */
  lemma AroundLoop(g: set<(nat, nat)>, p: seq<nat>, i: nat)
    requires IsCycle(g, p) && i < |p| - 1
    ensures LeadsBack(g, p[i + 1], p[i])
    ensures p[i] == p[0] || Reaches(g, p[0], p[i])
  {
    CycleConnects(g, p, i + 1, i);
    CycleConnects(g, p, 0, i);
  }

  ghost predicate LeadsBack(g: set<(nat, nat)>, f: nat, d: nat) {
    f == d || Reaches(g, f, d)
  }

  /** No FQ registered under something reached from the roots leads back to its domestic entity. */
  ghost predicate NoFqLeadsBack(t: Tables, links: seq<Link>, roots: seq<nat>) {
    forall d, f :: FqUnder(t, d, f) && IsLive(links, roots, d) ==> !LeadsBack(GraphOf(links), f, d)
  }

  /** Since ownership is acyclic, every loop of links runs through an FQ. */
  lemma LoopHasFq(t: Tables, links: seq<Link>, p: seq<nat>) returns (i: nat)
    requires EdgesResolve(t) && Acyclic(ShareMap(t).Keys) && ListsChildLinks(t, links) && IsCycle(GraphOf(links), p)
    ensures i < |p| - 1 && FqUnder(t, p[i], p[i + 1])
  {
    OwnershipAcyclicById(t);
    if forall j :: 0 <= j < |p| - 1 ==> (p[j], p[j + 1]) in t.edges {
      assert IsCycle(t.edges.Keys, p);
    }
    i :| 0 <= i < |p| - 1 && (p[i], p[i + 1]) !in t.edges;
    LinkKind(t, links, p[i], p[i + 1]);
  }

  lemma LiveThrough(links: seq<Link>, roots: seq<nat>, u: nat, v: nat)
    requires IsLive(links, roots, u) && (u == v || Reaches(GraphOf(links), u, v))
    ensures IsLive(links, roots, v)
  {
    var r :| r in roots && (u == r || Reaches(GraphOf(links), r, u));
    if u != r && u != v {
      ReachesTransitive(GraphOf(links), r, u, v);
    }
  }

  lemma FqLoop(t: Tables, links: seq<Link>, d: nat, f: nat) returns (p: seq<nat>)
    requires ListsChildLinks(t, links) && FqUnder(t, d, f) && LeadsBack(GraphOf(links), f, d)
    ensures IsCycle(GraphOf(links), p) && p[0] == d
  {
    EdgesAreLinks(t, links);
    if f == d {
      p := [d, d];
    } else {
      var q :| Leads(GraphOf(links), q, f, d);
      p := [d] + q;
    }
  }

  lemma LoopsAreFqLoops(t: Tables, links: seq<Link>, roots: seq<nat>)
    requires EdgesResolve(t) && Acyclic(ShareMap(t).Keys) && ListsChildLinks(t, links)
    ensures NoLiveLoop(links, roots) <==> NoFqLeadsBack(t, links, roots)
  {
    if NoFqLeadsBack(t, links, roots) {
      forall p | IsCycle(GraphOf(links), p)
        ensures !IsLive(links, roots, p[0])
      {
        var i := LoopHasFq(t, links, p);
        AroundLoop(GraphOf(links), p, i);
        if IsLive(links, roots, p[0]) {
          LiveThrough(links, roots, p[0], p[i]);
        }
      }
    }
    if NoLiveLoop(links, roots) {
      forall d, f | FqUnder(t, d, f) && IsLive(links, roots, d)
        ensures !LeadsBack(GraphOf(links), f, d)
      {
        if LeadsBack(GraphOf(links), f, d) {
          var p := FqLoop(t, links, d, f);
        }
      }
    }
  }

  /** Where ownership is acyclic, the list query ends if and only if no FQ reached from the roots leads back
      to its domestic entity. */
  lemma ListQueryEndsExact(t: Tables, links: seq<Link>, roots: seq<nat>)
    requires EdgesResolve(t) && Acyclic(ShareMap(t).Keys) && ListsChildLinks(t, links)
    ensures (exists n :: WalksOf(links, roots, n) == []) <==> NoFqLeadsBack(t, links, roots)
  {
    QueryEndsExact(links, roots);
    LoopsAreFqLoops(t, links, roots);
  }

  // ----- The worklist and the query -----

  ghost predicate ListsEdges(t: Tables, edges: seq<Pair>) {
    forall e: Pair :: e in edges <==> e in t.edges
  }

  ghost predicate ListsFqs(t: Tables, fqs: seq<Pair>) {
    forall p: Pair :: p in fqs <==> FqUnder(t, p.0, p.1)
  }

  lemma GraphIsEdges(t: Tables, edges: seq<Pair>)
    requires ListsEdges(t, edges)
    ensures Graph(edges) == t.edges.Keys
  {
  }

  lemma EdgesAreLinks(t: Tables, links: seq<Link>)
    requires ListsChildLinks(t, links)
    ensures t.edges.Keys <= GraphOf(links)
    ensures forall d: nat, f: nat :: FqUnder(t, d, f) ==> (d, f) in GraphOf(links)
  {
    forall e | e in t.edges.Keys
      ensures e in GraphOf(links)
    {
      assert IsChildLink(t, Link(e.0, e.1, false, Some(t.edges[e])));
    }
    forall d: nat, f: nat | FqUnder(t, d, f)
      ensures (d, f) in GraphOf(links)
    {
      assert IsChildLink(t, Link(d, f, true, None));
    }
  }

  lemma MoreEdgesReachMore(g: set<(nat, nat)>, h: set<(nat, nat)>, u: nat, v: nat)
    requires g <= h && Reaches(g, u, v)
    ensures Reaches(h, u, v)
  {
    var p :| Leads(g, p, u, v);
    assert Leads(h, p, u, v);
  }

  /** What the analytics page collects below an entity. */
  ghost predicate IsCollected(edges: seq<Pair>, fqs: seq<Pair>, root: nat, v: nat) {
    Reaches(Graph(edges), root, v) || IsFqBelow(edges, fqs, root, v)
  }

  /** Whatever hangs directly below a collected FQ is collected as well. */
  ghost predicate FqsAddNothing(links: seq<Link>, edges: seq<Pair>, fqs: seq<Pair>, root: nat) {
    forall f: nat, v: nat ::
      IsFqBelow(edges, fqs, root, f) && (f, v) in GraphOf(links) ==> IsCollected(edges, fqs, root, v)
  }

  /** One link further from the root or from a subsidiary stays within what is collected. */
  lemma LinkIsCollected(t: Tables, links: seq<Link>, edges: seq<Pair>, fqs: seq<Pair>, root: nat, u: nat, v: nat)
    requires ListsChildLinks(t, links) && ListsEdges(t, edges) && ListsFqs(t, fqs)
    requires (u, v) in GraphOf(links) && (u == root || Reaches(Graph(edges), root, u))
    ensures IsCollected(edges, fqs, root, v)
  {
    LinkKind(t, links, u, v);
    if (u, v) in t.edges {
      assert (u, v) in edges;
      ReachesNext(edges, root, u, v);
    } else {
      assert (u, v) in fqs;
    }
  }

  lemma {:induction false} WalkEndsCollected(t: Tables, links: seq<Link>, edges: seq<Pair>, fqs: seq<Pair>,
                                             root: nat, p: seq<nat>)
    requires ListsChildLinks(t, links) && ListsEdges(t, edges) && ListsFqs(t, fqs)
    requires FqsAddNothing(links, edges, fqs, root)
    requires IsWalk(GraphOf(links), p) && |p| >= 2 && p[0] == root
    ensures IsCollected(edges, fqs, root, p[|p| - 1])
    decreases |p|
  {
    var n := |p| - 1;
    assert (p[n - 1], p[n]) in GraphOf(links);
    if n > 1 {
      WalkEndsCollected(t, links, edges, fqs, root, p[..n]);
    }
    if n == 1 || Reaches(Graph(edges), root, p[n - 1]) {
      LinkIsCollected(t, links, edges, fqs, root, p[n - 1], p[n]);
    }
  }

  lemma CollectedIsReached(t: Tables, links: seq<Link>, edges: seq<Pair>, fqs: seq<Pair>, root: nat, v: nat)
    requires ListsChildLinks(t, links) && ListsEdges(t, edges) && ListsFqs(t, fqs)
    requires IsCollected(edges, fqs, root, v)
    ensures Reaches(GraphOf(links), root, v)
  {
    GraphIsEdges(t, edges);
    EdgesAreLinks(t, links);
    if Reaches(Graph(edges), root, v) {
      MoreEdgesReachMore(Graph(edges), GraphOf(links), root, v);
    } else {
      var d :| (d, v) in fqs && (d == root || Reaches(Graph(edges), root, d));
      assert (d, v) in GraphOf(links);
      EdgeReaches(GraphOf(links), d, v);
      if d != root {
        MoreEdgesReachMore(Graph(edges), GraphOf(links), root, d);
        ReachesTransitive(GraphOf(links), root, d, v);
      }
    }
  }

  /** The analytics page collects exactly what the subtree query reaches below an entity if and only
      if nothing new hangs directly below a collected FQ; terminal FQs are a special case. */
  lemma DescendantsAreSubtree(t: Tables, links: seq<Link>, edges: seq<Pair>, fqs: seq<Pair>, root: nat)
    requires ListsChildLinks(t, links) && ListsEdges(t, edges) && ListsFqs(t, fqs)
    ensures (forall v :: Reaches(GraphOf(links), root, v) <==> IsCollected(edges, fqs, root, v))
       <==> FqsAddNothing(links, edges, fqs, root)
  {
    if FqsAddNothing(links, edges, fqs, root) {
      forall v
        ensures Reaches(GraphOf(links), root, v) <==> IsCollected(edges, fqs, root, v)
      {
        if IsCollected(edges, fqs, root, v) {
          CollectedIsReached(t, links, edges, fqs, root, v);
        }
        if Reaches(GraphOf(links), root, v) {
          var p :| Leads(GraphOf(links), p, root, v);
          WalkEndsCollected(t, links, edges, fqs, root, p);
        }
      }
    }
    if forall v :: Reaches(GraphOf(links), root, v) <==> IsCollected(edges, fqs, root, v) {
      forall f: nat, v: nat | IsFqBelow(edges, fqs, root, f) && (f, v) in GraphOf(links)
        ensures IsCollected(edges, fqs, root, v)
      {
        assert IsCollected(edges, fqs, root, f);
        EdgeReaches(GraphOf(links), f, v);
        ReachesTransitive(GraphOf(links), root, f, v);
      }
    }
  }

  // ----- Terminal FQs -----

  ghost predicate IsFqId(t: Tables, id: nat) {
    exists k :: k in t.entities && t.entities[k].id == id && t.entities[k].registrationType == FQ
  }

  /** Nothing hangs below an FQ. */
  ghost predicate TerminalFqs(t: Tables, links: seq<Link>) {
    forall l :: l in links ==> !IsFqId(t, l.parent)
  }

  /** FQs without anything below them meet both conditions. */
  lemma TerminalFqsSuffice(t: Tables, links: seq<Link>, roots: seq<nat>, edges: seq<Pair>, fqs: seq<Pair>, root: nat)
    requires ListsChildLinks(t, links) && TerminalFqs(t, links) && ListsFqs(t, fqs)
    ensures NoFqLeadsBack(t, links, roots) && FqsAddNothing(links, edges, fqs, root)
  {
    var g := GraphOf(links);
    forall d: nat, f: nat | FqUnder(t, d, f)
      ensures !LeadsBack(g, f, d) && forall v :: (f, v) !in g
    {
      EdgesAreLinks(t, links);
      ReachesByFirstEdge(g, f, d);
    }
    forall f: nat, v: nat | IsFqBelow(edges, fqs, root, f)
      ensures (f, v) !in g
    {
      var d :| (d, f) in fqs && (d == root || Reaches(Graph(edges), root, d));
      assert FqUnder(t, d, f);
    }
  }
}
