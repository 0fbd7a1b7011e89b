/** Chart (d) of getAnalytics: each child's total across all parents and its unallocated remainder. */
module OwnershipShares {
  import opened GraphValidator
  import opened MergedGraph
  import opened StoreInvariant
  import opened Sums
  import opened Tables
  import opened WriteTheorems

  datatype ChildShare = ChildShare(entityName: string, pct: int, unallocatedPct: int)

  ghost function EdgesInto(edges: map<EdgeId, int>, child: nat): set<EdgeId> {
    set e | e in edges && e.1 == child
  }

  ghost function TotalById(edges: map<EdgeId, int>, child: nat): int {
    SumOver(edges, EdgesInto(edges, child))
  }

  function TotalIn(totals: map<nat, int>, child: nat): int {
    if child in totals then totals[child] else 0
  }

  method TotalPctByChildId(edges: map<EdgeId, int>) returns (totals: map<nat, int>)
    ensures forall child: nat :: TotalIn(totals, child) == TotalById(edges, child)
  {
    totals := map[];
    var pending := edges.Keys;
    while pending != {}
      invariant pending <= edges.Keys
      invariant forall child: nat :: TotalIn(totals, child) == SumOver(edges, EdgesInto(edges, child) - pending)
    {
      var e :| e in pending;
      ghost var before := totals;
      totals := totals[e.1 := TotalIn(totals, e.1) + edges[e]];
      forall c: nat
        ensures TotalIn(totals, c) == SumOver(edges, EdgesInto(edges, c) - (pending - {e}))
      {
        var summed := EdgesInto(edges, c) - (pending - {e});
        if c == e.1 {
          SumSplit(edges, summed, e);
          assert summed - {e} == EdgesInto(edges, c) - pending;
        } else {
          assert summed == EdgesInto(edges, c) - pending;
        }
      }
      pending := pending - {e};
    }
    assert forall child: nat :: EdgesInto(edges, child) - {} == EdgesInto(edges, child);
  }

  /** Math.max(0, 100 - total), in hundredths. */
  function Unallocated(total: int): (left: int)
    ensures left >= 0 && total + left >= FULL_OWNERSHIP && (left > 0 ==> total + left == FULL_OWNERSHIP)
  {
    if 10000 - total > 0 then 10000 - total else 0
  }

  /** An entity with this id that passes the two filters; an empty filter lets everything pass. */
  ghost predicate IsShown(entities: map<string, EntityRecord>, k: string, id: nat, jurisdiction: string,
                          status: string) {
    && k in entities && entities[k].id == id
    && (jurisdiction == "" || entities[k].details.jurisdiction == jurisdiction)
    && (status == "" || entities[k].details.entityStatus == status)
  }

  method EntityById(entities: map<string, EntityRecord>) returns (byId: map<nat, string>)
    ensures forall id :: id in byId ==> byId[id] in entities && entities[byId[id]].id == id
    ensures forall k :: k in entities ==> entities[k].id in byId
  {
    byId := map[];
    var pending := entities.Keys;
    while pending != {}
      invariant pending <= entities.Keys
      invariant forall id :: id in byId ==> byId[id] in entities && entities[byId[id]].id == id
      invariant forall k :: k in entities && k !in pending ==> entities[k].id in byId
    {
      var k :| k in pending;
      byId := byId[entities[k].id := k];
      pending := pending - {k};
    }
  }

  /** What the chart shows of one child. */
  ghost predicate IsBar(entities: map<string, EntityRecord>, edges: map<EdgeId, int>, k: string, c: nat,
                        bar: ChildShare) {
    k in entities && bar == ChildShare(entities[k].entityName, TotalById(edges, c), Unallocated(TotalById(edges, c)))
  }

  /** The bars of the selected parent's direct children that pass the filters, by child id. */
  method ChildrenOfParent(entities: map<string, EntityRecord>, edges: map<EdgeId, int>, parentId: nat,
                          jurisdiction: string, status: string) returns (bars: map<nat, ChildShare>)
    requires UniqueIds(entities)
    ensures forall c: nat :: c in bars <==>
      (parentId, c) in edges && exists k :: IsShown(entities, k, c, jurisdiction, status)
    ensures forall c: nat, k :: c in bars && IsShown(entities, k, c, jurisdiction, status) ==>
      IsBar(entities, edges, k, c, bars[c])
  {
    var totals := TotalPctByChildId(edges);
    var byId := EntityById(entities);
    bars := map[];
    var pending := edges.Keys;
    while pending != {}
      invariant pending <= edges.Keys
      invariant forall c: nat :: c in bars <==>
        && (parentId, c) in edges && (parentId, c) !in pending
        && c in byId && IsShown(entities, byId[c], c, jurisdiction, status)
      invariant forall c: nat :: c in bars ==> IsBar(entities, edges, byId[c], c, bars[c])
    {
      var e :| e in pending;
      if e.0 == parentId && e.1 in byId {
        var child := entities[byId[e.1]];
        if (jurisdiction == "" || child.details.jurisdiction == jurisdiction)
           && (status == "" || child.details.entityStatus == status) {
          var total := TotalIn(totals, e.1);
          bars := bars[e.1 := ChildShare(child.entityName, total, Unallocated(total))];
        }
      }
      pending := pending - {e};
    }
  }

  // ----- Totals by id are totals by name -----

  lemma {:induction false} SumOfNamed(ids: IdByName, edges: map<EdgeId, int>, named: set<Edge>)
    requires Injective(ids) && named <= SharesBetween(ids, edges).Keys
    ensures var images := set e | e in named :: IdEdge(ids, e);
      images <= edges.Keys && SumOver(edges, images) == SumOver(SharesBetween(ids, edges), named)
    decreases named
  {
    var images := set e | e in named :: IdEdge(ids, e);
    if named != {} {
      var d :| d in named;
      SumSplit(SharesBetween(ids, edges), named, d);
      SumSplit(edges, images, IdEdge(ids, d));
      SumOfNamed(ids, edges, named - {d});
      assert images - {IdEdge(ids, d)} == set e | e in named - {d} :: IdEdge(ids, e);
    }
  }

  lemma TotalsAgree(t: Tables, k: string)
    requires IdsUnique(t) && EdgesResolve(t) && k in t.entities
    ensures TotalById(t.edges, t.entities[k].id) == Total(ShareMap(t), k)
  {
    var ids, named := AllIds(t), SharesOf(ShareMap(t), k);
    IdsUniqueInjective(t);
    SumOfNamed(ids, t.edges, named);
    NamedEdgesInto(t, k);
  }

  lemma NamedEdgesInto(t: Tables, k: string)
    requires IdsUnique(t) && EdgesResolve(t) && k in t.entities
    ensures (set e | e in SharesOf(ShareMap(t), k) :: IdEdge(AllIds(t), e)) == EdgesInto(t.edges, t.entities[k].id)
  {
    var ids := AllIds(t);
    forall e | e in EdgesInto(t.edges, t.entities[k].id)
      ensures exists n :: n in SharesOf(ShareMap(t), k) && IdEdge(ids, n) == e
    {
      assert HasId(t, e.0);
      var p :| p in t.entities && t.entities[p].id == e.0;
      assert IdEdge(ids, (p, k)) == e && (p, k) in ShareMap(t);
    }
  }

  /** In a sound registry every bar is full: allocated and unallocated shares add up to 100%. */
  lemma BarsAddUp(t: Tables, k: string)
    requires IdsUnique(t) && EdgesResolve(t) && FullyAllocatedAtMost(ShareMap(t)) && k in t.entities
    ensures var total := TotalById(t.edges, t.entities[k].id);
      total <= 10000 && total + Unallocated(total) == 10000
  {
    TotalsAgree(t, k);
    assert Total(ShareMap(t), k) <= FULL_OWNERSHIP;
  }
}
