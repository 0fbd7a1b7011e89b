/** collectDescendants of registry.service.ts: a worklist over ownership edges. */
module Descendants {
  import opened Collections
  import opened Digraphs
  import opened Hierarchy

  /** An ownership edge, or an FQ under its domestic entity, as (from, to). */
  type Pair = (nat, nat)

  function FirstOf(p: Pair): nat {
    p.0
  }

  function Group(groups: map<nat, seq<Pair>>, id: nat): seq<Pair> {
    if id in groups then groups[id] else []
  }

  ghost function Graph(edges: seq<Pair>): set<(nat, nat)> {
    set e | e in edges
  }

  lemma GroupMembers(pairs: seq<Pair>, groups: map<nat, seq<Pair>>, id: nat)
    requires forall k :: k in groups <==> Having(pairs, FirstOf, k) != []
    requires forall k :: k in groups ==> groups[k] == Having(pairs, FirstOf, k)
    ensures forall p :: p in Group(groups, id) <==> p in pairs && p.0 == id
  {
    HavingMembers(pairs, FirstOf, id);
  }

  /** The FQs registered under the root or under something it reaches. */
  ghost predicate IsFqBelow(edges: seq<Pair>, fqs: seq<Pair>, root: nat, f: nat) {
    exists d :: (d, f) in fqs && (d == root || Reaches(Graph(edges), root, d))
  }

  /** Nodes popped so far have all their subsidiaries and FQs collected; the others wait on the stack. */
  ghost predicate Collected(edges: seq<Pair>, fqs: seq<Pair>, root: nat, done: set<nat>, stack: seq<nat>,
                            subsidiaryIds: set<nat>, fqIds: set<nat>) {
    && (forall v :: v == root || v in subsidiaryIds ==> v in done || v in stack)
    && (forall v :: v in done || v in stack ==> v == root || v in subsidiaryIds)
    && (forall e :: e in edges && e.0 in done ==> e.1 in subsidiaryIds)
    && (forall v :: v in subsidiaryIds ==> Reaches(Graph(edges), root, v))
    && (forall f :: f in fqIds <==> exists d :: d in done && (d, f) in fqs)
  }

  ghost predicate Closed(edges: seq<Pair>, root: nat, s: set<nat>) {
    forall e :: e in edges && (e.0 == root || e.0 in s) ==> e.1 in s
  }

  lemma {:induction false} ClosedHoldsReachable(edges: seq<Pair>, root: nat, s: set<nat>, p: seq<nat>)
    requires Closed(edges, root, s) && IsWalk(Graph(edges), p) && |p| >= 2 && p[0] == root
    ensures p[|p| - 1] in s
    decreases |p|
  {
    var n := |p| - 1;
    assert (p[n - 1], p[n]) in Graph(edges);
    if n > 1 {
      ClosedHoldsReachable(edges, root, s, p[..n]);
    }
  }

  lemma ReachesNext(edges: seq<Pair>, root: nat, u: nat, v: nat)
    requires (u, v) in edges && (u == root || Reaches(Graph(edges), root, u))
    ensures Reaches(Graph(edges), root, v)
  {
    assert (u, v) in Graph(edges);
    ReachesByLastEdge(Graph(edges), root, v);
  }

  /** With an empty stack the collected ids are all reachable ones. */
  lemma EverythingCollected(edges: seq<Pair>, fqs: seq<Pair>, root: nat, done: set<nat>,
                            subs: set<nat>, fqIds: set<nat>)
    requires Collected(edges, fqs, root, done, [], subs, fqIds)
    ensures forall v :: v in subs <==> Reaches(Graph(edges), root, v)
    ensures forall f :: f in fqIds <==> IsFqBelow(edges, fqs, root, f)
  {
    assert Closed(edges, root, subs);
    forall v
      ensures v in subs <==> Reaches(Graph(edges), root, v)
    {
      if Reaches(Graph(edges), root, v) {
        var p :| Leads(Graph(edges), p, root, v);
        ClosedHoldsReachable(edges, root, subs, p);
      }
    }
  }

  ghost function Targets(edges: seq<Pair>): set<nat> {
    set e | e in edges :: e.1
  }

  /** Popping one node, collecting what is under it and pushing the new ids keeps the account. */
  lemma CollectOne(edges: seq<Pair>, fqs: seq<Pair>, root: nat, done: set<nat>, stack: seq<nat>,
                   subs: set<nat>, fqIds: set<nat>, added: seq<nat>, subs': set<nat>, fqIds': set<nat>)
    requires stack != [] && Collected(edges, fqs, root, done, stack, subs, fqIds)
    requires var current := stack[|stack| - 1];
      && (forall v :: v in subs' <==> v in subs || (current, v) in edges)
      && (forall f :: f in fqIds' <==> f in fqIds || (current, f) in fqs)
    requires forall v :: v in added <==> v in subs' && v !in subs
    ensures Collected(edges, fqs, root, done + {stack[|stack| - 1]}, stack[..|stack| - 1] + added, subs', fqIds')
  {
    var n := |stack| - 1;
    var current := stack[n];
    assert stack == stack[..n] + [current];
    assert current in stack;
    forall v | v in subs'
      ensures Reaches(Graph(edges), root, v)
    {
      if v !in subs {
        ReachesNext(edges, root, current, v);
      }
    }
  }

  /** Terminates on every edge list, cyclic or not, with exactly the ids reached by one or more
      ownership edges and the FQs under them or under the root. */
  method CollectDescendants(edges: seq<Pair>, fqs: seq<Pair>, rootId: nat)
    returns (subsidiaryIds: set<nat>, fqIds: set<nat>)
    ensures forall v :: v in subsidiaryIds <==> Reaches(Graph(edges), rootId, v)
    ensures forall f :: f in fqIds <==> IsFqBelow(edges, fqs, rootId, f)
  {
    var edgesByParent := GroupBy(edges, FirstOf);
    var fqsByDomesticId := GroupBy(fqs, FirstOf);
    subsidiaryIds, fqIds := {}, {};
    var stack := [rootId];
    ghost var done := {};
    while |stack| > 0
      invariant Collected(edges, fqs, rootId, done, stack, subsidiaryIds, fqIds)
      invariant subsidiaryIds <= Targets(edges)
      decreases Targets(edges) - subsidiaryIds, |stack|
    {
      var current := stack[|stack| - 1];
      GroupMembers(fqs, fqsByDomesticId, current);
      GroupMembers(edges, edgesByParent, current);
      var moreFqs := set p | p in Group(fqsByDomesticId, current) :: p.1;
      var added, after := TakeNew(Group(edgesByParent, current), subsidiaryIds);
      CollectOne(edges, fqs, rootId, done, stack, subsidiaryIds, fqIds, added, after, fqIds + moreFqs);
      fqIds := fqIds + moreFqs;
      if added != [] {
        assert added[0] in after;
      }
      subsidiaryIds := after;
      stack := stack[..|stack| - 1] + added;
      done := done + {current};
    }
    EverythingCollected(edges, fqs, rootId, done, subsidiaryIds, fqIds);
  }

  /** The children not yet collected, in order. */
  method TakeNew(children: seq<Pair>, collected: set<nat>) returns (added: seq<nat>, after: set<nat>)
    ensures after == collected + set e | e in children :: e.1
    ensures collected <= after
    ensures forall v :: v in added <==> v in after && v !in collected
  {
    added, after := [], collected;
    for i := 0 to |children|
      invariant after == collected + set e | e in children[..i] :: e.1
      invariant forall v :: v in added <==> v in after && v !in collected
    {
      assert children[..i + 1] == children[..i] + [children[i]];
      if children[i].1 !in after {
        added := added + [children[i].1];
        after := after + {children[i].1};
      }
    }
    assert children[..|children|] == children;
  }
}
