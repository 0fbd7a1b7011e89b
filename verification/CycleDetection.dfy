/** The three-colour depth-first search of graph-validator.ts. */
module CycleDetection {
  import opened Digraphs

  type Node = string
  type Adjacency = map<Node, seq<Node>>

  datatype Color = White | Gray | Black

  ghost function EdgesOf(adjacency: Adjacency): set<(Node, Node)> {
    set u, v | u in adjacency && v in adjacency[u] :: (u, v)
  }

  /** `p` is a cycle of `g` through `n` that stays inside `nodes`. */
  ghost predicate CycleWithin(g: set<(Node, Node)>, p: seq<Node>, n: Node, nodes: set<Node>) {
    IsCycle(g, p) && n in p && forall m :: m in p ==> m in nodes
  }

  /** Every flagged node lies on a cycle whose nodes are all flagged. */
  ghost predicate FlagsWholeCycles(g: set<(Node, Node)>, flagged: set<Node>) {
    forall n :: n in flagged ==> exists p :: CycleWithin(g, p, n, flagged)
  }

  /** Every cycle has an edge whose two ends are both flagged. */
  ghost predicate HitsEveryCycle(g: set<(Node, Node)>, flagged: set<Node>) {
    forall p :: IsHit(g, flagged, p)
  }

  ghost predicate IsHit(g: set<(Node, Node)>, flagged: set<Node>, p: seq<Node>) {
    IsCycle(g, p) ==> exists i :: IsFlaggedEdge(flagged, p, i)
  }

  ghost predicate IsFlaggedEdge(flagged: set<Node>, p: seq<Node>, i: int) {
    0 <= i < |p| - 1 && p[i] in flagged && p[i + 1] in flagged
  }

  /** What the search promises: it flags whole cycles, and of every cycle both ends of some edge. */
  ghost predicate IsCycleReport(g: set<(Node, Node)>, flagged: set<Node>) {
    FlagsWholeCycles(g, flagged) && HitsEveryCycle(g, flagged)
  }

  /** Flagging the nodes of one more cycle keeps the flagged nodes on whole flagged cycles. */
  lemma FlagCycle(g: set<(Node, Node)>, flagged: set<Node>, p: seq<Node>)
    requires FlagsWholeCycles(g, flagged) && IsCycle(g, p)
    ensures FlagsWholeCycles(g, flagged + set n | n in p)
  {
    var all := flagged + set n | n in p;
    forall n | n in all
      ensures exists q :: CycleWithin(g, q, n, all)
    {
      if n in p {
        assert CycleWithin(g, p, n, all);
      } else {
        var q :| CycleWithin(g, q, n, flagged);
        assert CycleWithin(g, q, n, all);
      }
    }
  }

  class CycleDetector {
    const adjacency: Adjacency
    var color: map<Node, Color>
    var cyclic: set<Node>
    var stack: seq<Node>
    // The blackened nodes in the order in which they were finished.
    ghost var finished: seq<Node>

    constructor (adjacency: Adjacency)
      ensures this.adjacency == adjacency && Valid()
      ensures color == map[] && cyclic == {} && stack == [] && finished == []
    {
      this.adjacency := adjacency;
      color, cyclic, stack, finished := map[], {}, [], [];
    }

    function ColorOf(n: Node): Color
      reads this
    {
      if n in color then color[n] else White
    }

    ghost function Graph(): set<(Node, Node)> {
      EdgesOf(adjacency)
    }

    ghost function AllNodes(): set<Node> {
      adjacency.Keys + set u, v | u in adjacency && v in adjacency[u] :: v
    }

    ghost function Unvisited(): set<Node>
      reads this
    {
      set n | n in AllNodes() && ColorOf(n) == White
    }

    function Children(n: Node): seq<Node> {
      if n in adjacency then adjacency[n] else []
    }

    /** The edge leads to a node finished before, or both its ends are flagged. */
    ghost predicate Settled(node: Node, next: Node, before: seq<Node>)
      reads this
    {
      next in before || (node in cyclic && next in cyclic)
    }

    /** The stack is a walk through exactly the grey nodes, and all edges out of finished nodes are settled. */
    ghost predicate Valid()
      reads this
    {
      && (forall n :: ColorOf(n) == Gray <==> n in stack)
      && (forall n :: ColorOf(n) == Black <==> n in finished)
      && (forall i, j :: 0 <= i < j < |stack| ==> stack[i] != stack[j])
      && (stack != [] ==> IsWalk(Graph(), stack))
      && (forall i, j :: 0 <= i < j < |finished| ==> finished[i] != finished[j])
      && FlagsWholeCycles(Graph(), cyclic)
      && (forall i, v :: 0 <= i < |finished| && v in Children(finished[i]) ==>
            Settled(finished[i], v, finished[..i]))
    }

    /** Turns a white node grey and pushes it on the path. */
    method Enter(node: Node)
      requires Valid() && node in AllNodes() && ColorOf(node) == White
      requires stack != [] ==> (stack[|stack| - 1], node) in Graph()
      modifies this`color, this`stack
      ensures Valid() && stack == old(stack) + [node]
      ensures Unvisited() == old(Unvisited()) - {node}
    {
      color := color[node := Gray];
      stack := stack + [node];
      assert forall n :: n != node ==> ColorOf(n) == old(ColorOf(n));
    }

    /** Flags the cycle that an edge from the top of the path back to a grey node closes. */
    method FlagFrom(next: Node)
      requires Valid() && next in stack && (stack[|stack| - 1], next) in Graph()
      modifies this`cyclic
      ensures Valid() && old(cyclic) <= cyclic && stack[|stack| - 1] in cyclic && next in cyclic
    {
      var cycleStart :| 0 <= cycleStart < |stack| && stack[cycleStart] == next;
      ghost var cycle := stack[cycleStart..] + [next];
      assert IsCycle(Graph(), cycle);
      FlagCycle(Graph(), cyclic, cycle);
      cyclic := cyclic + set n | n in stack[cycleStart..];
      assert next == stack[cycleStart..][0] && stack[|stack| - 1] in stack[cycleStart..];
      assert cyclic == old(cyclic) + set n | n in cycle;
    }

    /** Pops a node whose children are all explored and turns it black. */
    method Leave(node: Node)
      requires Valid() && stack != [] && stack[|stack| - 1] == node
      requires forall v :: v in Children(node) ==> Settled(node, v, finished)
      modifies this`color, this`stack, this`finished
      ensures Valid() && stack == old(stack)[..|old(stack)| - 1] && finished == old(finished) + [node]
      ensures Unvisited() == old(Unvisited())
    {
      assert ColorOf(node) == Gray;
      stack := stack[..|stack| - 1];
      color := color[node := Black];
      finished := finished + [node];
      assert forall n :: n != node ==> ColorOf(n) == old(ColorOf(n));
      assert finished[..|old(finished)|] == old(finished);
      assert forall i :: 0 <= i < |old(finished)| ==> finished[..i] == old(finished)[..i];
    }

    /** Follows one edge out of the top of the path. */
    method Follow(node: Node, next: Node)
      requires Valid() && stack != [] && stack[|stack| - 1] == node && (node, next) in Graph()
      modifies this
      ensures Valid() && stack == old(stack) && old(cyclic) <= cyclic && old(finished) <= finished
      ensures Unvisited() <= old(Unvisited())
      ensures Settled(node, next, finished)
      decreases Unvisited(), 4
    {
      var nextColor := ColorOf(next);
      if nextColor == White {
        Visit(next);
      } else if nextColor == Gray {
        FlagFrom(next);
      }
    }

    /** Follows every edge out of the top of the path. */
    method FollowAll(node: Node)
      requires Valid() && stack != [] && stack[|stack| - 1] == node
      modifies this
      ensures Valid() && stack == old(stack) && old(cyclic) <= cyclic && old(finished) <= finished
      ensures Unvisited() <= old(Unvisited())
      ensures forall v :: v in Children(node) ==> Settled(node, v, finished)
      decreases Unvisited(), 5
    {
      var children := Children(node);
      for i := 0 to |children|
        invariant Valid() && stack == old(stack)
        invariant old(cyclic) <= cyclic && old(finished) <= finished
        invariant Unvisited() <= old(Unvisited())
        invariant forall j :: 0 <= j < i ==> Settled(node, children[j], finished)
      {
        Follow(node, children[i]);
      }
    }

    method Visit(node: Node)
      requires Valid() && node in AllNodes() && ColorOf(node) == White
      requires stack != [] ==> (stack[|stack| - 1], node) in Graph()
      modifies this
      ensures Valid()
      ensures stack == old(stack) && old(cyclic) <= cyclic && old(finished) <= finished
      ensures node in finished && Unvisited() < old(Unvisited())
      decreases Unvisited(), 3
    {
      assert node in Unvisited();
      Enter(node);
      FollowAll(node);
      Leave(node);
    }
  }

  /** Flags nodes on cycles, visiting the nodes in any order. */
  method DetectCyclicNodes(adjacency: Adjacency) returns (cyclic: set<Node>)
    ensures IsCycleReport(EdgesOf(adjacency), cyclic)
  {
    var search := new CycleDetector(adjacency);
    var allNodes := adjacency.Keys + set u, v | u in adjacency && v in adjacency[u] :: v;
    var pending := allNodes;
    while pending != {}
      invariant fresh(search) && search.adjacency == adjacency && search.Valid() && search.stack == []
      invariant pending <= allNodes
      invariant forall n :: n in allNodes - pending ==> n in search.finished
    {
      var node :| node in pending;
      if search.ColorOf(node) == White {
        search.Visit(node);
      }
      pending := pending - {node};
    }
    cyclic := search.cyclic;
    UnflaggedIsOrdered(search);
    OrderedHitsEveryCycle(EdgesOf(adjacency), cyclic, search.finished);
  }

  /** The edges that do not join two flagged nodes. */
  ghost function Unflagged(g: set<(Node, Node)>, flagged: set<Node>): set<(Node, Node)> {
    set e | e in g && !(e.0 in flagged && e.1 in flagged)
  }

  lemma UnflaggedIsOrdered(search: CycleDetector)
    requires search.Valid() && forall n :: n in search.AllNodes() ==> n in search.finished
    ensures Ordered(Unflagged(EdgesOf(search.adjacency), search.cyclic), search.finished)
  {
    var order := search.finished;
    forall e | e in Unflagged(EdgesOf(search.adjacency), search.cyclic)
      ensures exists i, j :: 0 <= j < i < |order| && order[i] == e.0 && order[j] == e.1
    {
      assert e.0 in search.AllNodes();
      var i :| 0 <= i < |order| && order[i] == e.0;
      assert e.1 in search.Children(order[i]);
      assert search.Settled(order[i], e.1, order[..i]);
    }
  }

  /** If all other edges follow an order, a cycle cannot do without an edge between flagged nodes. */
  lemma OrderedHitsEveryCycle(g: set<(Node, Node)>, flagged: set<Node>, order: seq<Node>)
    requires Ordered(Unflagged(g, flagged), order)
    ensures HitsEveryCycle(g, flagged)
  {
    OrderedIsAcyclic(Unflagged(g, flagged), order);
    forall p
      ensures IsHit(g, flagged, p)
    {
      if IsCycle(g, p) && forall i :: !IsFlaggedEdge(flagged, p, i) {
        CycleWithoutFlags(g, flagged, p);
      }
    }
  }

  lemma CycleWithoutFlags(g: set<(Node, Node)>, flagged: set<Node>, p: seq<Node>)
    requires IsCycle(g, p) && forall i :: !IsFlaggedEdge(flagged, p, i)
    ensures IsCycle(Unflagged(g, flagged), p)
  {
    forall i | 0 <= i < |p| - 1
      ensures (p[i], p[i + 1]) in Unflagged(g, flagged)
    {
      assert !IsFlaggedEdge(flagged, p, i);
    }
  }

  lemma FlaggedIsOnCycle(g: set<(Node, Node)>, flagged: set<Node>, n: Node)
    requires FlagsWholeCycles(g, flagged) && n in flagged
    ensures Reaches(g, n, n) && !Acyclic(g)
  {
    var p :| CycleWithin(g, p, n, flagged);
    var i :| 0 <= i < |p| && p[i] == n;
    CycleConnects(g, p, i, i);
  }

  lemma CycleIsFlagged(g: set<(Node, Node)>, flagged: set<Node>)
    requires HitsEveryCycle(g, flagged) && !Acyclic(g)
    ensures flagged != {}
  {
    var p :| IsCycle(g, p);
    assert IsHit(g, flagged, p);
    var i :| IsFlaggedEdge(flagged, p, i);
    assert p[i] in flagged;
  }

  /** The two halves of a report: a node is flagged exactly when some cycle exists,
      and what is flagged lies on cycles. */
  lemma ReportDecidesAcyclicity(g: set<(Node, Node)>, flagged: set<Node>)
    requires IsCycleReport(g, flagged)
    ensures flagged == {} <==> Acyclic(g)
    ensures forall n :: n in flagged ==> Reaches(g, n, n)
  {
    forall n | n in flagged
      ensures Reaches(g, n, n) && !Acyclic(g)
    {
      FlaggedIsOnCycle(g, flagged, n);
    }
    if !Acyclic(g) {
      CycleIsFlagged(g, flagged);
    }
  }

  /** A report always exists: all nodes that reach themselves may be flagged. */
  lemma ReportExists(g: set<(Node, Node)>) returns (flagged: set<Node>)
    ensures IsCycleReport(g, flagged)
  {
    flagged := set e | e in g && Reaches(g, e.0, e.0) :: e.0;
    forall p, i | IsCycle(g, p) && 0 <= i < |p|
      ensures p[i] in flagged
    {
      CycleConnects(g, p, i, i);
      var k := if i < |p| - 1 then i else 0;
      assert (p[k], p[k + 1]) in g && p[k] == p[i];
    }
    forall n | n in flagged
      ensures exists p :: CycleWithin(g, p, n, flagged)
    {
      var p :| Leads(g, p, n, n);
      assert IsCycle(g, p) && p[0] == n;
      assert CycleWithin(g, p, n, flagged);
    }
    forall p
      ensures IsHit(g, flagged, p)
    {
      if IsCycle(g, p) {
        assert IsFlaggedEdge(flagged, p, 0);
      }
    }
  }
}
