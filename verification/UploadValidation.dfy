/** validation/validation.service.ts: the composition of all checks against the persisted tables. */
module UploadValidation {
  import opened GraphValidator
  import opened MergedGraph
  import opened Names
  import opened Options
  import opened StoreInvariant
  import opened SyncWriter
  import opened Tables
  import opened UploadTypes
  import opened UploadWriter
  import opened WriteTheorems

  import E = EntitiesValidator
  import O = OwnershipValidator
  import F = FilingsValidator

  /** The three parsed sheets; None stands for a file that is missing or cannot be read. */
  datatype UploadSheets = UploadSheets(
    entities: Option<seq<E.RawEntityRow>>,
    ownership: Option<seq<O.RawOwnershipRow>>,
    filings: Option<seq<F.RawFilingRow>>)

  datatype ValidatedUpload = ValidatedUpload(
    errors: seq<ValidationError>,
    entityRows: seq<EntityRow>,
    ownershipRows: seq<OwnershipRow>,
    filingRows: seq<FilingRow>)

  // ----- The persisted edges -----

  ghost predicate SafeNames(t: Tables) {
    forall k :: k in t.entities ==> SafeName(k)
  }

  ghost function EdgesWithout(edges: map<EdgeId, int>, pending: set<EdgeId>): map<EdgeId, int> {
    map e | e in edges && e !in pending :: edges[e]
  }

  /** The list holds all edges but the pending ones, by name. */
  ghost predicate Listed(ids: IdByName, edges: map<EdgeId, int>, existing: seq<ExistingEdge>, pending: set<EdgeId>) {
    Represents(MergeExisting(existing), SharesBetween(ids, EdgesWithout(edges, pending)))
  }

  lemma SharesAreSafe(ids: IdByName, edges: map<EdgeId, int>)
    requires forall k :: k in ids ==> SafeName(k)
    ensures SafeEdges(SharesBetween(ids, edges).Keys)
  {
  }

  lemma ListStep(ids: IdByName, keyed: map<string, int>, listed: map<EdgeId, int>, e: Edge, pct: int)
    requires Injective(ids) && e.0 in ids && e.1 in ids && forall k :: k in ids ==> SafeName(k)
    requires Represents(keyed, SharesBetween(ids, listed))
    ensures Represents(keyed[JoinEdge(e) := pct], SharesBetween(ids, listed[IdEdge(ids, e) := pct]))
  {
    SharesAreSafe(ids, listed);
    EdgeIsShare(ids, listed, e, pct);
    RepresentsUpdate(keyed, SharesBetween(ids, listed), e, pct);
  }

  lemma MergeOneMore(existing: seq<ExistingEdge>, edge: ExistingEdge, e: Edge)
    requires Normalize(edge.parentName) == e.0 && Normalize(edge.childName) == e.1
    ensures MergeExisting(existing + [edge]) == MergeExisting(existing)[JoinEdge(e) := edge.pct]
  {
    assert (existing + [edge])[..|existing|] == existing;
  }

  /** One more edge listed by the names of its two ends. */
  lemma ListOneEdge(ids: IdByName, edges: map<EdgeId, int>, existing: seq<ExistingEdge>, pending: set<EdgeId>,
                    edge: ExistingEdge, e: Edge)
    requires Injective(ids) && e.0 in ids && e.1 in ids && forall k :: k in ids ==> SafeName(k)
    requires IdEdge(ids, e) in edges && IdEdge(ids, e) in pending && Listed(ids, edges, existing, pending)
    requires Normalize(edge.parentName) == e.0 && Normalize(edge.childName) == e.1
    requires edge.pct == edges[IdEdge(ids, e)]
    ensures Listed(ids, edges, existing + [edge], pending - {IdEdge(ids, e)})
  {
    var listed := EdgesWithout(edges, pending);
    assert EdgesWithout(edges, pending - {IdEdge(ids, e)}) == listed[IdEdge(ids, e) := edge.pct];
    MergeOneMore(existing, edge, e);
    ListStep(ids, MergeExisting(existing), listed, e, edge.pct);
  }

  /** The list has one entry for each of the edges, by the names of its two ends, in the given order. */
  ghost predicate ListsAll(t: Tables, existing: seq<ExistingEdge>, order: seq<EdgeId>, edges: set<EdgeId>) {
    && |existing| == |order|
    && (forall i, j :: 0 <= i < j < |order| ==> order[i] != order[j])
    && (forall e :: e in order <==> e in edges)
    && (forall i :: 0 <= i < |order| ==> NamesEdge(t, order[i], existing[i]))
  }

  ghost predicate IsListing(t: Tables, existing: seq<ExistingEdge>, order: seq<EdgeId>) {
    ListsAll(t, existing, order, t.edges.Keys)
  }

  /** The entry carries the stored names of the edge's ends and its percentage. */
  ghost predicate NamesEdge(t: Tables, e: EdgeId, edge: ExistingEdge) {
    && e in t.edges && edge.pct == t.edges[e]
    && exists names :: EndsNamed(t, e, edge, names)
  }

  ghost predicate EndsNamed(t: Tables, e: EdgeId, edge: ExistingEdge, names: Edge) {
    && names.0 in t.entities && names.1 in t.entities
    && e == (t.entities[names.0].id, t.entities[names.1].id)
    && edge.parentName == t.entities[names.0].entityName && edge.childName == t.entities[names.1].entityName
  }

  lemma ListsOneMore(t: Tables, existing: seq<ExistingEdge>, order: seq<EdgeId>, edges: set<EdgeId>, e: EdgeId,
                     edge: ExistingEdge)
    requires ListsAll(t, existing, order, edges) && e !in edges && NamesEdge(t, e, edge)
    ensures ListsAll(t, existing + [edge], order + [e], edges + {e})
  {
  }

  lemma ListNamedEdge(t: Tables, existing: seq<ExistingEdge>, pending: set<EdgeId>, e: EdgeId, edge: ExistingEdge)
    requires KeysAreNames(t) && IdsUnique(t) && SafeNames(t) && NamesEdge(t, e, edge)
    requires e in pending && Listed(AllIds(t), t.edges, existing, pending)
    ensures Listed(AllIds(t), t.edges, existing + [edge], pending - {e})
  {
    var names :| EndsNamed(t, e, edge, names);
    IdsUniqueInjective(t);
    ListOneEdge(AllIds(t), t.edges, existing, pending, edge, names);
  }

  lemma ListsOneLess(t: Tables, existing: seq<ExistingEdge>, order: seq<EdgeId>, edges: set<EdgeId>)
    requires ListsAll(t, existing, order, edges) && order != []
    ensures var n := |order| - 1;
      order[n] in edges && NamesEdge(t, order[n], existing[n])
      && ListsAll(t, existing[..n], order[..n], edges - {order[n]})
  {
    var n := |order| - 1;
    assert order[n] in order;
    forall e | e in edges && e != order[n]
      ensures e in order[..n]
    {
      assert e in order;
    }
  }

  lemma {:induction false} ListedEdges(t: Tables, existing: seq<ExistingEdge>, order: seq<EdgeId>, edges: set<EdgeId>,
                                       pending: set<EdgeId>)
    requires KeysAreNames(t) && IdsUnique(t) && SafeNames(t) && ListsAll(t, existing, order, edges)
    requires edges <= t.edges.Keys && pending == t.edges.Keys - edges
    ensures Listed(AllIds(t), t.edges, existing, pending)
    decreases |order|
  {
    if order == [] {
      ListsNone(t, existing, order, edges);
      NoneListed(AllIds(t), t.edges);
      assert t.edges.Keys - {} == t.edges.Keys;
    } else {
      var n := |order| - 1;
      var e := order[n];
      ListsOneLess(t, existing, order, edges);
      OneMorePending(t.edges.Keys, edges, pending, e);
      ListedEdges(t, existing[..n], order[..n], edges - {e}, pending + {e});
      ListedLast(t, existing, e, pending);
    }
  }

  lemma OneMorePending(all: set<EdgeId>, edges: set<EdgeId>, pending: set<EdgeId>, e: EdgeId)
    requires edges <= all && pending == all - edges && e in edges
    ensures edges - {e} <= all && pending + {e} == all - (edges - {e}) && e !in pending
  {
  }

  lemma ListedLast(t: Tables, existing: seq<ExistingEdge>, e: EdgeId, pending: set<EdgeId>)
    requires KeysAreNames(t) && IdsUnique(t) && SafeNames(t) && existing != [] && e !in pending
    requires NamesEdge(t, e, existing[|existing| - 1])
    requires Listed(AllIds(t), t.edges, existing[..|existing| - 1], pending + {e})
    ensures Listed(AllIds(t), t.edges, existing, pending)
  {
    var n := |existing| - 1;
    ListNamedEdge(t, existing[..n], pending + {e}, e, existing[n]);
    assert existing == existing[..n] + [existing[n]] && pending + {e} - {e} == pending;
  }

  lemma ListsNone(t: Tables, existing: seq<ExistingEdge>, order: seq<EdgeId>, edges: set<EdgeId>)
    requires ListsAll(t, existing, order, edges) && order == []
    ensures existing == [] && edges == {}
  {
  }

  /** Without clashing names, the overlay of the listed edges is the ownership graph by name. */
  lemma ListingRepresents(t: Tables, existing: seq<ExistingEdge>, order: seq<EdgeId>)
    requires KeysAreNames(t) && IdsUnique(t) && SafeNames(t) && IsListing(t, existing, order)
    ensures Represents(MergeExisting(existing), ShareMap(t))
  {
    ListedEdges(t, existing, order, t.edges.Keys, {});
    AllListed(t, existing);
  }

  lemma EdgeHasNames(t: Tables, e: EdgeId) returns (edge: ExistingEdge)
    requires EdgesResolve(t) && e in t.edges
    ensures NamesEdge(t, e, edge)
  {
    assert HasId(t, e.0) && HasId(t, e.1);
    var p :| p in t.entities && t.entities[p].id == e.0;
    var c :| c in t.entities && t.entities[c].id == e.1;
    edge := ExistingEdge(t.entities[p].entityName, t.entities[c].entityName, t.edges[e]);
    assert EndsNamed(t, e, edge, (p, c));
  }

  lemma {:induction false} ListingExists(t: Tables, edges: set<EdgeId>)
    returns (existing: seq<ExistingEdge>, order: seq<EdgeId>)
    requires EdgesResolve(t) && edges <= t.edges.Keys
    ensures ListsAll(t, existing, order, edges)
    decreases edges
  {
    existing, order := [], [];
    if edges != {} {
      var e :| e in edges;
      var edge := EdgeHasNames(t, e);
      existing, order := ListingExists(t, edges - {e});
      ListsOneMore(t, existing, order, edges - {e}, e, edge);
      existing, order := existing + [edge], order + [e];
      assert edges - {e} + {e} == edges;
    }
  }

  method FindById(db: Database, id: nat) returns (k: string)
    requires HasId(db.Contents(), id)
    ensures k in db.entities && db.entities[k].id == id
  {
    k :| k in db.entities && db.entities[k].id == id;
  }

  /** Joins an edge with the names of its two entities. */
  method NameEdge(db: Database, e: EdgeId) returns (edge: ExistingEdge)
    requires EdgesResolve(db.Contents()) && e in db.edges
    ensures NamesEdge(db.Contents(), e, edge)
  {
    assert HasId(db.Contents(), e.0) && HasId(db.Contents(), e.1);
    var p := FindById(db, e.0);
    var c := FindById(db, e.1);
    edge := ExistingEdge(db.entities[p].entityName, db.entities[c].entityName, db.edges[e]);
    assert EndsNamed(db.Contents(), e, edge, (p, c));
  }

  lemma NoneListed(ids: IdByName, edges: map<EdgeId, int>)
    ensures Listed(ids, edges, [], edges.Keys)
  {
    assert EdgesWithout(edges, edges.Keys) == map[];
  }

  lemma AllListed(t: Tables, existing: seq<ExistingEdge>)
    requires Listed(AllIds(t), t.edges, existing, {})
    ensures Represents(MergeExisting(existing), ShareMap(t))
  {
    assert EdgesWithout(t.edges, {}) == t.edges;
  }

  /** Lists every edge once, with the names of its ends, in any order. */
  method LoadExistingEdges(db: Database) returns (existing: seq<ExistingEdge>)
    requires EdgesResolve(db.Contents())
    ensures exists order :: IsListing(db.Contents(), existing, order)
  {
    existing := [];
    ghost var order: seq<EdgeId> := [];
    var pending := db.edges.Keys;
    while pending != {}
      invariant pending <= db.edges.Keys
      invariant ListsAll(db.Contents(), existing, order, db.edges.Keys - pending)
    {
      var e :| e in pending;
      var edge := NameEdge(db, e);
      ListsOneMore(db.Contents(), existing, order, db.edges.Keys - pending, e, edge);
      assert db.edges.Keys - (pending - {e}) == db.edges.Keys - pending + {e};
      existing := existing + [edge];
      order := order + [e];
      pending := pending - {e};
    }
    assert db.edges.Keys - {} == db.Contents().edges.Keys;
    assert IsListing(db.Contents(), existing, order);
  }

  // ----- Business ids -----

  /** Another entity already uses the row's business id. */
  predicate TakenByOther(t: Tables, row: EntityRow) {
    row.businessId.Some? &&
    exists k :: k in t.entities && t.entities[k].businessId == row.businessId &&
      t.entities[k].entityName != "" && Normalize(t.entities[k].entityName) != Normalize(row.entityName)
  }

  predicate UsesOne(record: EntityRecord, used: set<string>) {
    record.businessId.Some? && record.businessId.value in used
  }

  /** The owner's name of each business id that some row uses. */
  ghost predicate OwnersAre(entities: map<string, EntityRecord>, owners: map<string, string>, used: set<string>) {
    && (forall b :: b in owners ==>
          exists k :: k in entities && entities[k].businessId == Some(b) && entities[k].entityName == owners[b])
    && (forall k :: k in entities && UsesOne(entities[k], used) ==> entities[k].businessId.value in owners)
  }

  method OwnersOf(db: Database, used: set<string>) returns (owners: map<string, string>)
    ensures OwnersAre(db.entities, owners, used)
  {
    owners := map[];
    var pending := db.entities.Keys;
    while pending != {}
      invariant pending <= db.entities.Keys
      invariant forall b :: b in owners ==>
        exists k :: k in db.entities && db.entities[k].businessId == Some(b) && db.entities[k].entityName == owners[b]
      invariant forall k :: k in db.entities && k !in pending && UsesOne(db.entities[k], used) ==>
        db.entities[k].businessId.value in owners
    {
      var k :| k in pending;
      var record := db.entities[k];
      if UsesOne(record, used) {
        owners := owners[record.businessId.value := record.entityName];
      }
      pending := pending - {k};
    }
  }

  lemma OwnerDecides(t: Tables, owners: map<string, string>, used: set<string>, row: EntityRow)
    requires BusinessIdsUnique(t) && OwnersAre(t.entities, owners, used)
    requires row.businessId.Some? && row.businessId.value in used
    ensures TakenByOther(t, row) <==>
      var b := row.businessId.value;
      b in owners && owners[b] != "" && Normalize(owners[b]) != Normalize(row.entityName)
  {
  }

  method ValidateBusinessIdsAgainstDb(db: Database, rows: seq<EntityRow>) returns (errors: seq<ValidationError>)
    requires BusinessIdsUnique(db.Contents())
    ensures errors == [] <==> forall r :: r in rows ==> !TakenByOther(db.Contents(), r)
  {
    var used := set r | r in rows && r.businessId.Some? :: r.businessId.value;
    var owners := OwnersOf(db, used);
    errors := [];
    for i := 0 to |rows|
      invariant errors == [] <==> forall j :: 0 <= j < i ==> !TakenByOther(db.Contents(), rows[j])
    {
      var row := rows[i];
      if row.businessId.Some? {
        var b := row.businessId.value;
        OwnerDecides(db.Contents(), owners, used, row);
        if b in owners && owners[b] != "" && Normalize(owners[b]) != Normalize(row.entityName) {
          errors := errors + [ValidationError(EntitiesFile, row.line, BusinessIdColumn)];
        }
      }
    }
  }
}
