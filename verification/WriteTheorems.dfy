/** What writing a validated batch does: it succeeds under an exact condition on the filings, keeps
    the store invariant, drops no row, and lands on the merged graph that was validated by name. */
module WriteTheorems {
  import opened Collections
  import opened MergedGraph
  import opened Names
  import opened Options
  import opened StoreInvariant
  import opened Tables
  import opened Upserts
  import opened UploadTypes

  // ----- The edge table read by name -----

  ghost function Pairs(keys: set<string>): (pairs: set<Edge>)
    ensures forall e: Edge :: e in pairs <==> e.0 in keys && e.1 in keys
  {
    set p, c | p in keys && c in keys :: (p, c)
  }

  ghost function IdEdge(ids: IdByName, e: Edge): EdgeId
    requires e.0 in ids && e.1 in ids
  {
    (ids[e.0], ids[e.1])
  }

  /** Edges between ids, renamed through the name keys. */
  ghost function SharesBetween(ids: IdByName, edges: map<EdgeId, int>): Shares {
    map e | e in Pairs(ids.Keys) && IdEdge(ids, e) in edges :: edges[IdEdge(ids, e)]
  }

  /** The ownership edges as a map from pairs of name keys to percentages. */
  ghost function ShareMap(t: Tables): Shares {
    SharesBetween(AllIds(t), t.edges)
  }

  ghost predicate Injective(ids: IdByName) {
    forall j, k :: j in ids && k in ids && ids[j] == ids[k] ==> j == k
  }

  /** New entities have no edges yet. */
  lemma GrowthKeepsShares(t: Tables, after: Tables)
    requires IdsUnique(t) && EdgesResolve(t) && Grows(t, after)
    ensures ShareMap(after) == ShareMap(t)
  {
    var ids, more := AllIds(t), AllIds(after);
    forall e | e in t.edges
      ensures e.0 < t.nextId && e.1 < t.nextId
    {
      assert HasId(t, e.0) && HasId(t, e.1);
    }
    MoreIdsSameShares(ids, more, t.edges, t.nextId);
  }

  lemma MoreIdsSameShares(ids: IdByName, more: IdByName, edges: map<EdgeId, int>, bound: nat)
    requires forall k :: k in ids ==> k in more && more[k] == ids[k]
    requires forall k :: k in more && k !in ids ==> bound <= more[k]
    requires forall e :: e in edges ==> e.0 < bound && e.1 < bound
    ensures SharesBetween(more, edges) == SharesBetween(ids, edges)
  {
    forall e | e in Pairs(more.Keys) && IdEdge(more, e) in edges
      ensures e in Pairs(ids.Keys)
    {
      assert more[e.0] < bound && more[e.1] < bound;
    }
  }

  /** Overwriting one edge by ids overwrites one share by names. */
  lemma EdgeIsShare(ids: IdByName, edges: map<EdgeId, int>, e: Edge, pct: int)
    requires Injective(ids) && e.0 in ids && e.1 in ids
    ensures SharesBetween(ids, edges[IdEdge(ids, e) := pct]) == SharesBetween(ids, edges)[e := pct]
  {
    forall d | d in Pairs(ids.Keys) && IdEdge(ids, d) == IdEdge(ids, e)
      ensures d == e
    {
    }
  }

  function PairOf(row: UploadOwnershipRow): Edge {
    (Normalize(row.parentEntity), Normalize(row.childEntity))
  }

  function MergeUploaded(base: Shares, rows: seq<UploadOwnershipRow>): Shares {
    if rows == [] then base
    else
      var r := rows[|rows| - 1];
      MergeUploaded(base, rows[..|rows| - 1])[PairOf(r) := r.ownershipPct]
  }

  lemma {:induction false} MergeUploadedIsMerge(base: Shares, rows: seq<OwnershipRow>)
    ensures MergeUploaded(base, Map(ToUploadOwnership, rows)) == MergeShares(base, rows)
  {
    if rows != [] {
      var n := |rows| - 1;
      MergeUploadedIsMerge(base, rows[..n]);
      assert Map(ToUploadOwnership, rows)[..n] == Map(ToUploadOwnership, rows[..n]);
    }
  }

  // ----- Pass 2 -----

  ghost predicate SameButDomestic(t: Tables, after: Tables) {
    && after == t.(entities := after.entities) && after.entities.Keys == t.entities.Keys
    && forall k :: k in t.entities ==>
         after.entities[k] == t.entities[k].(domesticEntityId := after.entities[k].domesticEntityId)
  }

  ghost predicate UpdatesResolve(t: Tables, updates: seq<DomesticUpdate>) {
    forall u :: u in updates && u.domesticId.Some? ==> HasId(t, u.domesticId.value)
  }

  lemma SameIds(t: Tables, after: Tables)
    requires SameButDomestic(t, after)
    ensures forall id :: HasId(t, id) <==> HasId(after, id)
    ensures AllIds(after) == AllIds(t) && ShareMap(after) == ShareMap(t)
  {
    forall id
      ensures HasId(t, id) <==> HasId(after, id)
    {
      if k :| k in t.entities && t.entities[k].id == id {
        assert after.entities[k].id == id;
      }
      if k :| k in after.entities && after.entities[k].id == id {
        assert t.entities[k].id == id;
      }
    }
  }

  lemma {:induction false} LinkDomesticKeeps(t: Tables, updates: seq<DomesticUpdate>)
    requires DomesticResolves(t) && UpdatesResolve(t, updates)
    ensures SameButDomestic(t, LinkDomestic(t, updates)) && DomesticResolves(LinkDomestic(t, updates))
  {
    if updates != [] {
      var n := |updates| - 1;
      var before := LinkDomestic(t, updates[..n]);
      LinkDomesticKeeps(t, updates[..n]);
      SameIds(t, before);
      SameIds(t, LinkDomestic(t, updates));
      assert updates[n] in updates;
    }
  }

  lemma LinkKeepsInvariant(t: Tables, updates: seq<DomesticUpdate>)
    requires WellFormed(t) && UpdatesResolve(t, updates)
    ensures WellFormed(LinkDomestic(t, updates)) && SameButDomestic(t, LinkDomestic(t, updates))
  {
    LinkDomesticKeeps(t, updates);
    SameIds(t, LinkDomestic(t, updates));
  }

  lemma AllIdsHave(t: Tables, name: string)
    requires IdOf(AllIds(t), name).Some?
    ensures HasId(t, IdOf(AllIds(t), name).value)
  {
    assert t.entities[Normalize(name)].id == IdOf(AllIds(t), name).value;
  }

  lemma DomesticUpdatesResolve(t: Tables, rows: seq<UploadEntityRow>)
    ensures UpdatesResolve(t, DomesticUpdates(AllIds(t), rows))
  {
    var ids := AllIds(t);
    forall u | u in DomesticUpdates(ids, rows) && u.domesticId.Some?
      ensures HasId(t, u.domesticId.value)
    {
      FlatMapMembers(UpdateOfRow, ids, rows, u);
      var r :| r in rows && u in UpdateOfRow(ids, r);
      AllIdsHave(t, r.domesticEntity.value);
    }
  }

  // ----- Pass 3 -----

  /** Both ends of the row are known entities, distinct, and the percentage is in range. */
  ghost predicate OwnershipResolves(ids: IdByName, row: UploadOwnershipRow) {
    var (p, c) := PairOf(row);
    p in ids && c in ids && p != c && 0 < row.ownershipPct <= 10000
  }

  function ResolvedEdge(ids: IdByName, row: UploadOwnershipRow): EdgeRecord
    requires PairOf(row).0 in ids && PairOf(row).1 in ids
  {
    EdgeRecord(ids[PairOf(row).0], ids[PairOf(row).1], row.ownershipPct)
  }

  lemma EdgeResolved(ids: IdByName, row: UploadOwnershipRow)
    requires OwnershipResolves(ids, row)
    ensures EdgeOfRow(ids, row) == [ResolvedEdge(ids, row)]
  {
  }

  /** No silent drops among the edges: every row becomes exactly one record. */
  lemma EveryEdgeResolved(ids: IdByName, rows: seq<UploadOwnershipRow>)
    requires forall r :: r in rows ==> OwnershipResolves(ids, r)
    ensures |EdgeRecords(ids, rows)| == |rows|
    ensures forall i :: 0 <= i < |rows| ==> EdgeOfRow(ids, rows[i]) == [EdgeRecords(ids, rows)[i]]
  {
    forall r | r in rows ensures |EdgeOfRow(ids, r)| == 1 {
      EdgeResolved(ids, r);
    }
    FlatMapSingletons(EdgeOfRow, ids, rows);
  }

  /** Distinct name pairs give distinct id pairs, so no statement of pass 3 touches an edge twice. */
  lemma EdgeKeysDistinct(ids: IdByName, rows: seq<UploadOwnershipRow>)
    requires Injective(ids) && DistinctKeys(rows, PairOf)
    requires forall r :: r in rows ==> OwnershipResolves(ids, r)
    ensures DistinctKeys(EdgeRecords(ids, rows), EdgeRecordKey)
  {
    var records := EdgeRecords(ids, rows);
    EveryEdgeResolved(ids, rows);
    forall i, j | 0 <= i < j < |records|
      ensures EdgeRecordKey(records[i]) != EdgeRecordKey(records[j])
    {
      assert rows[i] in rows && rows[j] in rows;
      EdgeResolved(ids, rows[i]);
      EdgeResolved(ids, rows[j]);
      assert PairOf(rows[i]) != PairOf(rows[j]);
    }
  }

  lemma EdgesOnlyKeepIds(t: Tables, after: Tables)
    requires after == t.(edges := after.edges)
    ensures forall id :: HasId(t, id) <==> HasId(after, id)
    ensures AllIds(after) == AllIds(t)
  {
  }

  lemma IdsUniqueInjective(t: Tables)
    requires IdsUnique(t)
    ensures Injective(AllIds(t))
  {
  }

  lemma PutEdgeKeeps(t: Tables, row: UploadOwnershipRow)
    requires IdsUnique(t) && EdgesResolve(t) && OwnershipResolves(AllIds(t), row)
    ensures var after := PutEdge(t, ResolvedEdge(AllIds(t), row));
      && after.Some? && after.value == t.(edges := after.value.edges) && EdgesResolve(after.value)
      && after.value.edges == t.edges[IdEdge(AllIds(t), PairOf(row)) := row.ownershipPct]
  {
    var (p, c) := PairOf(row);
    assert HasId(t, t.entities[p].id) && HasId(t, t.entities[c].id);
    var after := PutEdge(t, ResolvedEdge(AllIds(t), row));
    EdgesOnlyKeepIds(t, after.value);
  }

  lemma PutAllSnoc<S, R>(put: Put<S, R>, s: S, rows: seq<R>, last: R)
    ensures PutAll(put, s, rows + [last]) ==
            match PutAll(put, s, rows) case None => None case Some(mid) => put(mid, last)
  {
    PutAllAppend(put, s, rows, [last]);
    assert [last][1..] == [];
  }

  /** Write refines merge: upserting by id lands on the merge by name. */
  lemma {:induction false} PutEdges(t: Tables, rows: seq<UploadOwnershipRow>)
    requires IdsUnique(t) && EdgesResolve(t) && forall r :: r in rows ==> OwnershipResolves(AllIds(t), r)
    ensures var after := PutAll(PutEdge, t, EdgeRecords(AllIds(t), rows));
      && after.Some? && after.value == t.(edges := after.value.edges) && EdgesResolve(after.value)
      && ShareMap(after.value) == MergeUploaded(ShareMap(t), rows)
  {
    if rows != [] {
      var n := |rows| - 1;
      var ids := AllIds(t);
      PutEdges(t, rows[..n]);
      var mid := PutAll(PutEdge, t, EdgeRecords(ids, rows[..n])).value;
      EdgesOnlyKeepIds(t, mid);
      EdgeResolved(ids, rows[n]);
      PutAllSnoc(PutEdge, t, EdgeRecords(ids, rows[..n]), ResolvedEdge(ids, rows[n]));
      PutEdgeKeeps(mid, rows[n]);
      IdsUniqueInjective(t);
      EdgeIsShare(ids, mid.edges, PairOf(rows[n]), rows[n].ownershipPct);
    }
  }

  // ----- Pass 4 -----

  function FilingNaturalKey(row: UploadFilingRow): (string, string, string) {
    (Normalize(row.entityName), row.filingType, row.dueDate)
  }

  function ResolvedFiling(ids: IdByName, row: UploadFilingRow): FilingRecord
    requires Normalize(row.entityName) in ids
  {
    FilingRecord(ids[Normalize(row.entityName)], row.filingType, row.dueDate, row.content)
  }

  ghost predicate FilingKnown(ids: IdByName, row: UploadFilingRow) {
    Normalize(row.entityName) in ids
  }

  lemma FilingResolved(ids: IdByName, row: UploadFilingRow)
    requires FilingKnown(ids, row)
    ensures FilingOfRow(ids, row) == [ResolvedFiling(ids, row)]
  {
  }

  /** No silent drops among the filings: every row becomes exactly one record. */
  lemma EveryFilingResolved(ids: IdByName, rows: seq<UploadFilingRow>)
    requires forall r :: r in rows ==> FilingKnown(ids, r)
    ensures |FilingRecords(ids, rows)| == |rows|
    ensures forall i :: 0 <= i < |rows| ==> FilingOfRow(ids, rows[i]) == [FilingRecords(ids, rows)[i]]
  {
    forall r | r in rows ensures |FilingOfRow(ids, r)| == 1 {
      FilingResolved(ids, r);
    }
    FlatMapSingletons(FilingOfRow, ids, rows);
  }

  lemma {:induction false} PutFilings(t: Tables, records: seq<FilingRecord>)
    requires FilingsResolve(t) && forall r :: r in records ==> HasId(t, r.entityId)
    ensures var after := PutAll(PutFiling, t, records);
      after.Some? && after.value == t.(filings := after.value.filings) && FilingsResolve(after.value)
    decreases |records|
  {
    if records != [] {
      var next := PutFiling(t, records[0]).value;
      assert records[0] in records;
      forall id | HasId(t, id)
        ensures HasId(next, id)
      {
        var k :| k in t.entities && t.entities[k].id == id;
        assert next.entities[k].id == id;
      }
      PutFilings(next, records[1..]);
    }
  }

  /** Cutting the records into chunks repeats a key exactly when cutting the rows does. */
  lemma {:induction false} FilingChunksDistinct(ids: IdByName, rows: seq<UploadFilingRow>, chunkSize: nat)
    requires chunkSize > 0 && Injective(ids) && forall r :: r in rows ==> FilingKnown(ids, r)
    ensures ChunksDistinct(Chunk(FilingRecords(ids, rows), chunkSize), FilingRecordKey)
       <==> ChunksDistinct(Chunk(rows, chunkSize), FilingNaturalKey)
    decreases |rows|
  {
    var records := FilingRecords(ids, rows);
    EveryFilingResolved(ids, rows);
    if rows == [] {
    } else if |rows| <= chunkSize {
      FilingKeysAgree(ids, rows, records);
      ChunksDistinctCons(rows, [], FilingNaturalKey);
      ChunksDistinctCons(records, [], FilingRecordKey);
      assert [rows] + [] == [rows] && [records] + [] == [records];
    } else {
      var head, tail := rows[..chunkSize], rows[chunkSize..];
      FilingRecordsFrom(ids, rows, chunkSize);
      FilingKeysAgree(ids, head, records[..chunkSize]);
      FilingChunksDistinct(ids, tail, chunkSize);
      ChunksDistinctCons(head, Chunk(tail, chunkSize), FilingNaturalKey);
      ChunksDistinctCons(records[..chunkSize], Chunk(records[chunkSize..], chunkSize), FilingRecordKey);
    }
  }

  lemma FilingRecordsFrom(ids: IdByName, rows: seq<UploadFilingRow>, n: nat)
    requires n <= |rows| && forall r :: r in rows ==> FilingKnown(ids, r)
    ensures |FilingRecords(ids, rows)| == |rows| && FilingRecords(ids, rows[n..]) == FilingRecords(ids, rows)[n..]
  {
    EveryFilingResolved(ids, rows);
    EveryFilingResolved(ids, rows[n..]);
    forall i | 0 <= i < |rows| - n
      ensures FilingRecords(ids, rows[n..])[i] == FilingRecords(ids, rows)[n + i]
    {
      assert rows[n..][i] == rows[n + i];
      assert FilingOfRow(ids, rows[n + i]) == [FilingRecords(ids, rows)[n + i]];
    }
  }

  lemma ChunksDistinctCons<R, K>(head: seq<R>, tail: seq<seq<R>>, key: R -> K)
    ensures ChunksDistinct([head] + tail, key) <==> DistinctKeys(head, key) && ChunksDistinct(tail, key)
  {
    assert head in [head] + tail;
  }

  lemma FilingKeyAgrees(ids: IdByName, a: UploadFilingRow, b: UploadFilingRow)
    requires Injective(ids) && FilingKnown(ids, a) && FilingKnown(ids, b)
    ensures FilingRecordKey(ResolvedFiling(ids, a)) == FilingRecordKey(ResolvedFiling(ids, b))
       <==> FilingNaturalKey(a) == FilingNaturalKey(b)
  {
  }

  lemma FilingKeysAgree(ids: IdByName, rows: seq<UploadFilingRow>, records: seq<FilingRecord>)
    requires Injective(ids) && |records| == |rows|
    requires forall i :: 0 <= i < |rows| ==> FilingKnown(ids, rows[i]) && FilingOfRow(ids, rows[i]) == [records[i]]
    ensures DistinctKeys(records, FilingRecordKey) <==> DistinctKeys(rows, FilingNaturalKey)
  {
    forall i, j | 0 <= i < j < |rows|
      ensures FilingRecordKey(records[i]) == FilingRecordKey(records[j])
         <==> FilingNaturalKey(rows[i]) == FilingNaturalKey(rows[j])
    {
      FilingResolved(ids, rows[i]);
      FilingResolved(ids, rows[j]);
      FilingKeyAgrees(ids, rows[i], rows[j]);
    }
  }

  // ----- The whole batch -----

  ghost predicate CleanOwnership(rows: seq<UploadEntityRow>, r: UploadOwnershipRow) {
    && IsKeyOf(rows, PairOf(r).0) && IsKeyOf(rows, PairOf(r).1)
    && PairOf(r).0 != PairOf(r).1 && 0 < r.ownershipPct <= 10000
  }

  /** What validation guarantees of a batch on its own. */
  ghost predicate CleanBatch(batch: UploadBatch) {
    && DistinctEntities(batch.entityRows)
    && (forall r :: r in batch.entityRows && r.registrationType == FQ ==>
          r.domesticEntity.Some? && IsKeyOf(batch.entityRows, Normalize(r.domesticEntity.value)))
    && DistinctKeys(batch.ownershipRows, PairOf)
    && (forall r :: r in batch.ownershipRows ==> CleanOwnership(batch.entityRows, r))
    && (forall r :: r in batch.filingRows ==> IsKeyOf(batch.entityRows, Normalize(r.entityName)))
  }

  /** No statement of pass 4 sees one filing twice. */
  ghost predicate FilingsWritable(batch: UploadBatch, chunkSize: nat)
    requires chunkSize > 0
  {
    ChunksDistinct(Chunk(batch.filingRows, chunkSize), FilingNaturalKey)
  }

  /** The tables after passes 1 to 3 of a clean batch, without mention of chunks. */
  ghost function AfterEdges(t: Tables, batch: UploadBatch): Option<Tables> {
    var t1 :- PutAll(PutEntity, t, batch.entityRows);
    var t2 := LinkDomestic(t1, DomesticUpdates(AllIds(t1), batch.entityRows));
    PutAll(PutEdge, t2, EdgeRecords(AllIds(t1), batch.ownershipRows))
  }

  lemma StoredKey(t: Tables, rows: seq<UploadEntityRow>, k: string)
    requires IsKeyOf(rows, k) && forall r :: r in rows ==> Stored(t, r)
    ensures k in t.entities
  {
    var r :| r in rows && EntityKey(r) == k;
    assert Stored(t, r);
  }

  lemma AllResolve(t: Tables, batch: UploadBatch)
    requires CleanBatch(batch) && forall r :: r in batch.entityRows ==> Stored(t, r)
    ensures forall r :: r in batch.ownershipRows ==> OwnershipResolves(AllIds(t), r)
    ensures forall r :: r in batch.filingRows ==> FilingKnown(AllIds(t), r)
    ensures forall r :: r in batch.entityRows && r.registrationType == FQ ==> DomesticId(AllIds(t), r).Some?
  {
    forall k | IsKeyOf(batch.entityRows, k)
      ensures k in t.entities
    {
      StoredKey(t, batch.entityRows, k);
    }
  }

  /** The entities after passes 1 and 2. */
  lemma FirstTwoPasses(t: Tables, batch: UploadBatch) returns (t1: Tables, t2: Tables)
    requires WellFormed(t) && CleanBatch(batch) && EntitiesWritable(t, batch.entityRows)
    ensures PutAll(PutEntity, t, batch.entityRows) == Some(t1) && AllStored(t, batch.entityRows, t1)
    ensures t2 == LinkDomestic(t1, DomesticUpdates(AllIds(t1), batch.entityRows))
    ensures WellFormed(t2) && SameButDomestic(t1, t2) && AllIds(t2) == AllIds(t1) && ShareMap(t2) == ShareMap(t)
    ensures forall r :: r in batch.ownershipRows ==> OwnershipResolves(AllIds(t2), r)
    ensures forall r :: r in batch.filingRows ==> FilingKnown(AllIds(t2), r)
  {
    PutEntities(t, batch.entityRows);
    t1 := PutAll(PutEntity, t, batch.entityRows).value;
    GrowthKeepsShares(t, t1);
    var updates := DomesticUpdates(AllIds(t1), batch.entityRows);
    DomesticUpdatesResolve(t1, batch.entityRows);
    LinkKeepsInvariant(t1, updates);
    t2 := LinkDomestic(t1, updates);
    SameIds(t1, t2);
    AllResolve(t1, batch);
  }

  lemma EdgesOnlyKeeps(t: Tables, after: Tables)
    requires WellFormed(t) && after == t.(edges := after.edges) && EdgesResolve(after)
    ensures WellFormed(after) && AllIds(after) == AllIds(t)
  {
    EdgesOnlyKeepIds(t, after);
  }

  lemma ThirdPass(t2: Tables, rows: seq<UploadOwnershipRow>) returns (t3: Tables)
    requires WellFormed(t2) && forall r :: r in rows ==> OwnershipResolves(AllIds(t2), r)
    ensures PutAll(PutEdge, t2, EdgeRecords(AllIds(t2), rows)) == Some(t3)
    ensures WellFormed(t3) && t3 == t2.(edges := t3.edges)
    ensures ShareMap(t3) == MergeUploaded(ShareMap(t2), rows)
  {
    PutEdges(t2, rows);
    t3 := PutAll(PutEdge, t2, EdgeRecords(AllIds(t2), rows)).value;
    EdgesOnlyKeeps(t2, t3);
  }

  /** Passes 1 to 3 of a clean batch fail in pass 1 or land on the merged graph. */
  lemma FirstThreePasses(t: Tables, batch: UploadBatch) returns (t1: Tables, t3: Tables)
    requires WellFormed(t) && CleanBatch(batch) && EntitiesWritable(t, batch.entityRows)
    ensures AfterEdges(t, batch) == Some(t3) && WellFormed(t3)
    ensures PutAll(PutEntity, t, batch.entityRows) == Some(t1) && AllIds(t3) == AllIds(t1)
    ensures ShareMap(t3) == MergeUploaded(ShareMap(t), batch.ownershipRows)
    ensures forall r :: r in batch.filingRows ==> FilingKnown(AllIds(t3), r)
  {
    var t2;
    t1, t2 := FirstTwoPasses(t, batch);
    t3 := ThirdPass(t2, batch.ownershipRows);
    EdgesOnlyKeepIds(t2, t3);
  }
}
