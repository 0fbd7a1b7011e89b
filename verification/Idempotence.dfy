/** When a validated batch can be written, that the chunk size does not show in the result,
    and that writing it again changes nothing. */
module Idempotence {
  import opened Collections
  import opened Names
  import opened Options
  import opened StoreInvariant
  import opened Tables
  import opened Upserts
  import opened UploadTypes
  import opened UploadWriter
  import opened WriteTheorems

  // ----- Passes 3 and 4 as map overlays -----

  function PctOf(r: EdgeRecord): int {
    r.pct
  }

  function ContentOf(r: FilingRecord): FilingContent {
    r.content
  }

  lemma {:induction false} PutEdgesOverlays(t: Tables, records: seq<EdgeRecord>)
    ensures var after := PutAll(PutEdge, t, records);
      after.Some? ==> after.value == t.(edges := t.edges + Overlay(EdgeRecordKey, PctOf, records))
  {
    if records != [] {
      var n := |records| - 1;
      assert records == records[..n] + [records[n]];
      PutEdgesOverlays(t, records[..n]);
      PutAllSnoc(PutEdge, t, records[..n], records[n]);
    }
  }

  lemma {:induction false} PutFilingsOverlays(t: Tables, records: seq<FilingRecord>)
    ensures var after := PutAll(PutFiling, t, records);
      after.Some? ==> after.value == t.(filings := t.filings + Overlay(FilingRecordKey, ContentOf, records))
  {
    if records != [] {
      var n := |records| - 1;
      assert records == records[..n] + [records[n]];
      PutFilingsOverlays(t, records[..n]);
      PutAllSnoc(PutFiling, t, records[..n], records[n]);
    }
  }

  // ----- The exact condition for a write to succeed -----

  /** The tables after all four passes, without mention of chunks. */
  ghost function AfterWrite(t: Tables, batch: UploadBatch): Option<Tables> {
    var t3 :- AfterEdges(t, batch);
    PutAll(PutFiling, t3, FilingRecords(AllIds(t3), batch.filingRows))
  }

  lemma FilingRecordsResolve(t: Tables, rows: seq<UploadFilingRow>)
    requires forall r :: r in rows ==> FilingKnown(AllIds(t), r)
    ensures forall r :: r in FilingRecords(AllIds(t), rows) ==> HasId(t, r.entityId)
  {
    var ids := AllIds(t);
    EveryFilingResolved(ids, rows);
    forall r | r in FilingRecords(ids, rows)
      ensures HasId(t, r.entityId)
    {
      var i :| 0 <= i < |rows| && FilingRecords(ids, rows)[i] == r;
      FilingResolved(ids, rows[i]);
      assert t.entities[Normalize(rows[i].entityName)].id == r.entityId;
    }
  }

  lemma FilingsOnlyKeep(t: Tables, after: Tables)
    requires WellFormed(t) && after == t.(filings := after.filings) && FilingsResolve(after)
    ensures WellFormed(after) && AllIds(after) == AllIds(t) && ShareMap(after) == ShareMap(t)
  {
    assert forall id :: HasId(t, id) <==> HasId(after, id);
  }

  /** A clean batch can be applied row by row to any well-formed tables: the result keeps every
      constraint, and its ownership graph is the merge the validator checked. */
  lemma AfterWriteKeepsInvariant(t: Tables, batch: UploadBatch)
    requires WellFormed(t) && CleanBatch(batch) && EntitiesWritable(t, batch.entityRows)
    ensures AfterWrite(t, batch).Some? && WellFormed(AfterWrite(t, batch).value)
    ensures ShareMap(AfterWrite(t, batch).value) == MergeUploaded(ShareMap(t), batch.ownershipRows)
  {
    var t1, t3 := FirstThreePasses(t, batch);
    var records := FilingRecords(AllIds(t3), batch.filingRows);
    FilingRecordsResolve(t3, batch.filingRows);
    PutFilings(t3, records);
    FilingsOnlyKeep(t3, PutAll(PutFiling, t3, records).value);
  }

  lemma ChunkedFilings(t3: Tables, rows: seq<UploadFilingRow>, chunkSize: nat)
    requires chunkSize > 0 && WellFormed(t3) && forall r :: r in rows ==> FilingKnown(AllIds(t3), r)
    ensures var records := FilingRecords(AllIds(t3), rows);
      UpsertChunks(PutFiling, FilingRecordKey, t3, Chunk(records, chunkSize)) ==
      if ChunksDistinct(Chunk(rows, chunkSize), FilingNaturalKey) then PutAll(PutFiling, t3, records) else None
  {
    var records := FilingRecords(AllIds(t3), rows);
    ChunkPartitions(records, chunkSize);
    UpsertChunksIsPutAll(PutFiling, FilingRecordKey, t3, Chunk(records, chunkSize));
    IdsUniqueInjective(t3);
    FilingChunksDistinct(AllIds(t3), rows, chunkSize);
  }

  /** Writing a clean batch fails exactly when a business id is taken by then, or when one statement
      of pass 4 would see the same filing twice, which the duplicate check misses when a due date is
      spelled in two ways; in every other case the result does not depend on the chunk size. */
  lemma WriteBatchExact(t: Tables, batch: UploadBatch, chunkSize: nat)
    requires chunkSize > 0 && WellFormed(t) && CleanBatch(batch)
    ensures WriteBatch(t, batch, chunkSize) == if FilingsWritable(batch, chunkSize) then AfterWrite(t, batch) else None
    ensures AfterWrite(t, batch).Some? <==> EntitiesWritable(t, batch.entityRows)
  {
    ChunkSizeIrrelevant(PutEntity, EntityKey, t, batch.entityRows, chunkSize);
    if EntitiesWritable(t, batch.entityRows) {
      WritableBatchExact(t, batch, chunkSize);
    }
  }

  lemma WritableBatchExact(t: Tables, batch: UploadBatch, chunkSize: nat)
    requires chunkSize > 0 && WellFormed(t) && CleanBatch(batch) && EntitiesWritable(t, batch.entityRows)
    ensures WriteBatch(t, batch, chunkSize) == if FilingsWritable(batch, chunkSize) then AfterWrite(t, batch) else None
    ensures AfterWrite(t, batch).Some?
  {
    AfterWriteKeepsInvariant(t, batch);
    var t1, t2 := FirstTwoPasses(t, batch);
    var ids := AllIds(t1);
    ChunkSizeIrrelevant(PutEntity, EntityKey, t, batch.entityRows, chunkSize);
    IdsUniqueInjective(t2);
    EdgeKeysDistinct(ids, batch.ownershipRows);
    ChunkSizeIrrelevant(PutEdge, EdgeRecordKey, t2, EdgeRecords(ids, batch.ownershipRows), chunkSize);
    var s1, t3 := FirstThreePasses(t, batch);
    ChunkedFilings(t3, batch.filingRows, chunkSize);
  }

  /** Any two chunk sizes with which the write succeeds give the same tables. */
  lemma ChunkSizeInvisible(t: Tables, batch: UploadBatch, n: nat, m: nat)
    requires n > 0 && m > 0 && WellFormed(t) && CleanBatch(batch)
    requires WriteBatch(t, batch, n).Some? && WriteBatch(t, batch, m).Some?
    ensures WriteBatch(t, batch, n) == WriteBatch(t, batch, m)
  {
    WriteBatchExact(t, batch, n);
    WriteBatchExact(t, batch, m);
  }

  // ----- Writing twice -----

  lemma {:induction false} PutStoredEntities(t: Tables, rows: seq<UploadEntityRow>)
    requires WellFormed(t) && forall r :: r in rows ==> Stored(t, r)
    ensures PutAll(PutEntity, t, rows) == Some(t)
    decreases |rows|
  {
    if rows != [] {
      var row := rows[0];
      assert Stored(t, row);
      PutStoredEntity(t, row);
      PutStoredEntities(t, rows[1..]);
    }
  }

  lemma PutStoredEntity(t: Tables, row: UploadEntityRow)
    requires WellFormed(t) && Stored(t, row)
    ensures PutEntity(t, row) == Some(t) && BusinessIdFree(t, row)
  {
    PutEntitySucceeds(t, row);
    var k := EntityKey(row);
    assert t.entities[k := t.entities[k]] == t.entities;
  }

  ghost predicate InEffect(t: Tables, u: DomesticUpdate) {
    u.key in t.entities && t.entities[u.key].domesticEntityId == u.domesticId
  }

  lemma {:induction false} LinkInEffect(t: Tables, updates: seq<DomesticUpdate>)
    requires forall u :: u in updates ==> InEffect(t, u)
    ensures LinkDomestic(t, updates) == t
  {
    if updates != [] {
      var n := |updates| - 1;
      LinkInEffect(t, updates[..n]);
      assert InEffect(t, updates[n]);
      var k := updates[n].key;
      assert t.entities[k := t.entities[k].(domesticEntityId := updates[n].domesticId)] == t.entities;
    }
  }

  function UpdateKey(u: DomesticUpdate): string {
    u.key
  }

  lemma {:induction false} LinkTakesEffect(t: Tables, updates: seq<DomesticUpdate>)
    requires DistinctKeys(updates, UpdateKey) && forall u :: u in updates ==> u.key in t.entities
    ensures LinkDomestic(t, updates).entities.Keys == t.entities.Keys
    ensures forall u :: u in updates ==> InEffect(LinkDomestic(t, updates), u)
  {
    if updates != [] {
      var n := |updates| - 1;
      LinkTakesEffect(t, updates[..n]);
      var before, after := LinkDomestic(t, updates[..n]), LinkDomestic(t, updates);
      assert updates[n] in updates;
      forall u | u in updates
        ensures InEffect(after, u)
      {
        var i :| 0 <= i < |updates| && updates[i] == u;
        if i < n {
          assert updates[..n][i] == u && InEffect(before, u);
          assert UpdateKey(updates[i]) != UpdateKey(updates[n]);
        }
      }
    }
  }

  lemma {:induction false} UpdateKeysDistinct(ids: IdByName, rows: seq<UploadEntityRow>)
    requires DistinctKeys(rows, EntityKey)
    ensures DistinctKeys(DomesticUpdates(ids, rows), UpdateKey)
    ensures forall u :: u in DomesticUpdates(ids, rows) ==> exists r :: r in rows && u.key == EntityKey(r)
  {
    if rows != [] {
      var n := |rows| - 1;
      UpdateKeysDistinct(ids, rows[..n]);
      var before := DomesticUpdates(ids, rows[..n]);
      forall u | u in before
        ensures u.key != EntityKey(rows[n])
      {
        var r :| r in rows[..n] && u.key == EntityKey(r);
        var j :| 0 <= j < n && rows[..n][j] == r;
      }
      forall u | u in DomesticUpdates(ids, rows)
        ensures exists r :: r in rows && u.key == EntityKey(r)
      {
        if u in before {
          var r :| r in rows[..n] && u.key == EntityKey(r);
          assert r in rows;
        } else {
          assert rows[n] in rows && u.key == EntityKey(rows[n]);
        }
      }
    }
  }

  ghost predicate EntitiesReflect(t: Tables, rows: seq<UploadEntityRow>) {
    && (forall r :: r in rows ==> Stored(t, r))
    && (forall u :: u in DomesticUpdates(AllIds(t), rows) ==> InEffect(t, u))
  }

  lemma SameEntitiesReflect(t: Tables, after: Tables, rows: seq<UploadEntityRow>)
    requires after.entities == t.entities && EntitiesReflect(t, rows)
    ensures EntitiesReflect(after, rows) && AllIds(after) == AllIds(t)
  {
    assert AllIds(after) == AllIds(t);
    forall r | r in rows
      ensures Stored(after, r)
    {
      assert Stored(t, r);
    }
    forall u | u in DomesticUpdates(AllIds(t), rows)
      ensures InEffect(after, u)
    {
      assert InEffect(t, u);
    }
  }

  /** The batch is completely reflected in the tables. */
  ghost predicate Reflects(t: Tables, batch: UploadBatch) {
    var ids := AllIds(t);
    && EntitiesReflect(t, batch.entityRows)
    && t.edges + Overlay(EdgeRecordKey, PctOf, EdgeRecords(ids, batch.ownershipRows)) == t.edges
    && t.filings + Overlay(FilingRecordKey, ContentOf, FilingRecords(ids, batch.filingRows)) == t.filings
  }

  lemma StoredSurvives(t: Tables, after: Tables, rows: seq<UploadEntityRow>)
    requires SameButDomestic(t, after) && forall r :: r in rows ==> Stored(t, r)
    ensures forall r :: r in rows ==> Stored(after, r)
  {
    forall r | r in rows
      ensures Stored(after, r)
    {
      assert Stored(t, r);
    }
  }

  lemma TwoPassesReflect(t: Tables, batch: UploadBatch) returns (t1: Tables, t2: Tables)
    requires WellFormed(t) && CleanBatch(batch) && EntitiesWritable(t, batch.entityRows)
    ensures PutAll(PutEntity, t, batch.entityRows) == Some(t1)
    ensures t2 == LinkDomestic(t1, DomesticUpdates(AllIds(t1), batch.entityRows)) && AllIds(t2) == AllIds(t1)
    ensures EntitiesReflect(t2, batch.entityRows)
  {
    t1, t2 := FirstTwoPasses(t, batch);
    StoredSurvives(t1, t2, batch.entityRows);
    UpdateKeysDistinct(AllIds(t1), batch.entityRows);
    forall u | u in DomesticUpdates(AllIds(t1), batch.entityRows)
      ensures u.key in t1.entities
    {
      var r :| r in batch.entityRows && u.key == EntityKey(r);
      assert Stored(t1, r);
    }
    LinkTakesEffect(t1, DomesticUpdates(AllIds(t1), batch.entityRows));
  }

  lemma EdgesReflect(t: Tables, records: seq<EdgeRecord>, after: Tables)
    requires PutAll(PutEdge, t, records) == Some(after)
    ensures after.edges + Overlay(EdgeRecordKey, PctOf, records) == after.edges
    ensures after.entities == t.entities
  {
    PutEdgesOverlays(t, records);
  }

  lemma FilingsReflect(t: Tables, records: seq<FilingRecord>, after: Tables)
    requires PutAll(PutFiling, t, records) == Some(after)
    ensures after.filings + Overlay(FilingRecordKey, ContentOf, records) == after.filings
    ensures after.entities == t.entities && after.edges == t.edges
  {
    PutFilingsOverlays(t, records);
  }

  lemma WriteStages(t: Tables, batch: UploadBatch, t1: Tables, t2: Tables) returns (t3: Tables)
    requires AfterWrite(t, batch).Some?
    requires PutAll(PutEntity, t, batch.entityRows) == Some(t1)
    requires t2 == LinkDomestic(t1, DomesticUpdates(AllIds(t1), batch.entityRows))
    ensures PutAll(PutEdge, t2, EdgeRecords(AllIds(t1), batch.ownershipRows)) == Some(t3)
    ensures PutAll(PutFiling, t3, FilingRecords(AllIds(t3), batch.filingRows)) == AfterWrite(t, batch)
  {
    t3 := AfterEdges(t, batch).value;
  }

  /** A write changes nothing of the entities that the batch does not list. */
  lemma OthersUntouched(t: Tables, batch: UploadBatch, k: string)
    requires WellFormed(t) && CleanBatch(batch) && EntitiesWritable(t, batch.entityRows)
    requires k in t.entities && !IsKeyOf(batch.entityRows, k)
    ensures AfterWrite(t, batch).Some?
    ensures var after := AfterWrite(t, batch).value.entities;
      k in after && after[k] == t.entities[k].(domesticEntityId := after[k].domesticEntityId)
  {
    AfterWriteKeepsInvariant(t, batch);
    var t1, t2 := TwoPassesReflect(t, batch);
    PutEntities(t, batch.entityRows);
    var t3 := WriteStages(t, batch, t1, t2);
    EdgesReflect(t2, EdgeRecords(AllIds(t1), batch.ownershipRows), t3);
    FilingsReflect(t3, FilingRecords(AllIds(t3), batch.filingRows), AfterWrite(t, batch).value);
    var s1, s2 := FirstTwoPasses(t, batch);
  }

  /** After a write the whole batch is in the tables. */
  lemma WriteReflects(t: Tables, batch: UploadBatch)
    requires WellFormed(t) && CleanBatch(batch) && EntitiesWritable(t, batch.entityRows)
    ensures AfterWrite(t, batch).Some? && Reflects(AfterWrite(t, batch).value, batch)
  {
    AfterWriteKeepsInvariant(t, batch);
    var t1, t2 := TwoPassesReflect(t, batch);
    var t3 := WriteStages(t, batch, t1, t2);
    StagesReflect(t2, t3, AfterWrite(t, batch).value, batch);
  }

  lemma StagesReflect(t2: Tables, t3: Tables, after: Tables, batch: UploadBatch)
    requires EntitiesReflect(t2, batch.entityRows)
    requires PutAll(PutEdge, t2, EdgeRecords(AllIds(t2), batch.ownershipRows)) == Some(t3)
    requires PutAll(PutFiling, t3, FilingRecords(AllIds(t3), batch.filingRows)) == Some(after)
    ensures Reflects(after, batch)
  {
    EdgesReflect(t2, EdgeRecords(AllIds(t2), batch.ownershipRows), t3);
    FilingsReflect(t3, FilingRecords(AllIds(t3), batch.filingRows), after);
    SameEntitiesReflect(t2, after, batch.entityRows);
  }

  lemma ReflectedWriteIsIdentity(t: Tables, batch: UploadBatch)
    requires WellFormed(t) && CleanBatch(batch) && Reflects(t, batch)
    ensures EntitiesWritable(t, batch.entityRows) && AfterWrite(t, batch) == Some(t)
  {
    PutStoredEntities(t, batch.entityRows);
    LinkInEffect(t, DomesticUpdates(AllIds(t), batch.entityRows));
    AfterWriteKeepsInvariant(t, batch);
    PutEdgesOverlays(t, EdgeRecords(AllIds(t), batch.ownershipRows));
    PutFilingsOverlays(t, FilingRecords(AllIds(t), batch.filingRows));
  }

  /** Re-uploading is idempotent: a second write of the same batch succeeds and changes nothing. */
  lemma WriteIsIdempotent(t: Tables, batch: UploadBatch, chunkSize: nat)
    requires chunkSize > 0 && WellFormed(t) && CleanBatch(batch) && WriteBatch(t, batch, chunkSize).Some?
    ensures var after := WriteBatch(t, batch, chunkSize).value;
      WriteBatch(after, batch, chunkSize) == Some(after)
  {
    WriteBatchExact(t, batch, chunkSize);
    WriteReflects(t, batch);
    AfterWriteKeepsInvariant(t, batch);
    var after := AfterWrite(t, batch).value;
    ReflectedWriteIsIdentity(after, batch);
    WriteBatchExact(after, batch, chunkSize);
  }
}
