/** What a write leaves in the tables, column by column, and that it touches nothing else. */
module WrittenColumns {
  import opened Collections
  import opened Idempotence
  import opened Names
  import opened Options
  import opened StoreInvariant
  import opened Tables
  import opened Upserts
  import opened UploadTypes
  import opened UploadWriter
  import opened WriteTheorems

  // ----- Entities -----

  /** Entity `k` is stored, and its domestic entity is `d`. */
  ghost predicate PointsAt(t: Tables, k: string, d: string) {
    k in t.entities && d in t.entities && t.entities[k].domesticEntityId == Some(t.entities[d].id)
  }

  /** The row's columns are stored, and an FQ points at its domestic entity. */
  ghost predicate EntityStored(t: Tables, row: UploadEntityRow) {
    && Stored(t, row)
    && (row.registrationType == FQ ==>
          && row.domesticEntity.Some?
          && PointsAt(t, Normalize(row.entityName), Normalize(row.domesticEntity.value)))
  }

  lemma FqPoints(t: Tables, rows: seq<UploadEntityRow>, row: UploadEntityRow)
    requires EntitiesReflect(t, rows) && row in rows && row.registrationType == FQ
    requires DomesticId(AllIds(t), row).Some?
    ensures EntityStored(t, row)
  {
    var u := DomesticUpdate(EntityKey(row), DomesticId(AllIds(t), row));
    assert u in UpdateOfRow(AllIds(t), row);
    FlatMapMembers(UpdateOfRow, AllIds(t), rows, u);
    assert Stored(t, row) && InEffect(t, u);
  }

  lemma EntitiesStored(t: Tables, batch: UploadBatch)
    requires CleanBatch(batch) && EntitiesReflect(t, batch.entityRows)
    ensures forall r :: r in batch.entityRows ==> EntityStored(t, r)
  {
    AllResolve(t, batch);
    forall r | r in batch.entityRows
      ensures EntityStored(t, r)
    {
      assert Stored(t, r);
      if r.registrationType == FQ {
        FqPoints(t, batch.entityRows, r);
      }
    }
  }

  ghost predicate IsFqKey(rows: seq<UploadEntityRow>, k: string) {
    exists r :: r in rows && r.registrationType == FQ && Normalize(r.entityName) == k
  }

  /** Ids never change, new ones are fresh; a record or a domestic entity changes only by a row of its own. */
  ghost predicate OnlyListedChange(t: Tables, rows: seq<UploadEntityRow>, after: Tables) {
    && (forall k :: k in after.entities <==> k in t.entities || IsKeyOf(rows, k))
    && (forall k :: k in t.entities && k in after.entities ==> after.entities[k].id == t.entities[k].id)
    && (forall k :: k in after.entities && k !in t.entities ==> t.nextId <= after.entities[k].id)
    && (forall k :: k in t.entities && k in after.entities && !IsKeyOf(rows, k) ==>
          after.entities[k] == t.entities[k])
    && (forall k :: k in after.entities && !IsFqKey(rows, k) ==>
          after.entities[k].domesticEntityId == if k in t.entities then t.entities[k].domesticEntityId else None)
  }

  lemma {:induction false} LinkLeavesOthers(t: Tables, updates: seq<DomesticUpdate>, k: string)
    requires k in t.entities && forall u :: u in updates ==> u.key != k
    ensures k in LinkDomestic(t, updates).entities && LinkDomestic(t, updates).entities[k] == t.entities[k]
  {
    if updates != [] {
      var n := |updates| - 1;
      assert updates[n] in updates;
      LinkLeavesOthers(t, updates[..n], k);
    }
  }

  lemma UpdatesAreOfFqs(ids: IdByName, rows: seq<UploadEntityRow>)
    ensures forall u :: u in DomesticUpdates(ids, rows) ==> IsFqKey(rows, u.key)
  {
    forall u | u in DomesticUpdates(ids, rows)
      ensures IsFqKey(rows, u.key)
    {
      FlatMapMembers(UpdateOfRow, ids, rows, u);
      var r :| r in rows && u in UpdateOfRow(ids, r);
    }
  }

  lemma OnlyFqsAreLinked(t1: Tables, rows: seq<UploadEntityRow>, k: string)
    requires k in t1.entities && !IsFqKey(rows, k)
    ensures var t2 := LinkDomestic(t1, DomesticUpdates(AllIds(t1), rows));
      k in t2.entities && t2.entities[k] == t1.entities[k]
  {
    UpdatesAreOfFqs(AllIds(t1), rows);
    LinkLeavesOthers(t1, DomesticUpdates(AllIds(t1), rows), k);
  }

  lemma FqKeyIsKey(rows: seq<UploadEntityRow>, k: string)
    requires IsFqKey(rows, k)
    ensures IsKeyOf(rows, k)
  {
    var r :| r in rows && r.registrationType == FQ && Normalize(r.entityName) == k;
    assert EntityKey(r) == k;
  }

  lemma KeysAfterFirstPass(t: Tables, rows: seq<UploadEntityRow>, t1: Tables)
    requires AllStored(t, rows, t1)
    ensures forall k :: k in t1.entities <==> k in t.entities || IsKeyOf(rows, k)
  {
    forall k | IsKeyOf(rows, k)
      ensures k in t1.entities
    {
      StoredKey(t1, rows, k);
    }
  }

  lemma TwoPassesChange(t: Tables, rows: seq<UploadEntityRow>, t1: Tables, t2: Tables)
    requires AllStored(t, rows, t1) && SameButDomestic(t1, t2)
    requires t2 == LinkDomestic(t1, DomesticUpdates(AllIds(t1), rows))
    ensures OnlyListedChange(t, rows, t2)
  {
    KeysAfterFirstPass(t, rows, t1);
    forall k | k in t1.entities && !IsFqKey(rows, k)
      ensures t2.entities[k] == t1.entities[k]
    {
      OnlyFqsAreLinked(t1, rows, k);
    }
    forall k | !IsKeyOf(rows, k)
      ensures !IsFqKey(rows, k)
    {
      if IsFqKey(rows, k) {
        FqKeyIsKey(rows, k);
      }
    }
  }

  // ----- Ownership edges -----

  /** The edge between the ids of the two named entities has the row's percentage. */
  ghost predicate EdgeStored(t: Tables, row: UploadOwnershipRow) {
    var p, c := Normalize(row.parentEntity), Normalize(row.childEntity);
    && p in t.entities && c in t.entities
    && var e := (t.entities[p].id, t.entities[c].id);
       e in t.edges && t.edges[e] == row.ownershipPct
  }

  /** The edge belongs to a row of the batch. */
  ghost predicate IsEdgeOf(t: Tables, rows: seq<UploadOwnershipRow>, e: EdgeId) {
    exists r :: r in rows && Normalize(r.parentEntity) in t.entities && Normalize(r.childEntity) in t.entities
             && e == (t.entities[Normalize(r.parentEntity)].id, t.entities[Normalize(r.childEntity)].id)
  }

  ghost predicate OnlyListedEdgesChange(t: Tables, rows: seq<UploadOwnershipRow>, after: Tables) {
    forall e :: !IsEdgeOf(after, rows, e) ==>
      (e in after.edges <==> e in t.edges) && (e in t.edges ==> after.edges[e] == t.edges[e])
  }

  lemma EdgeRowStored(t: Tables, rows: seq<UploadOwnershipRow>, i: nat)
    requires IdsUnique(t) && DistinctKeys(rows, PairOf) && i < |rows|
    requires forall r :: r in rows ==> OwnershipResolves(AllIds(t), r)
    requires t.edges + Overlay(EdgeRecordKey, PctOf, EdgeRecords(AllIds(t), rows)) == t.edges
    ensures EdgeStored(t, rows[i])
  {
    var ids := AllIds(t);
    var records := EdgeRecords(ids, rows);
    IdsUniqueInjective(t);
    EveryEdgeResolved(ids, rows);
    EdgeKeysDistinct(ids, rows);
    OverlayLast(EdgeRecordKey, PctOf, records, i);
    assert rows[i] in rows;
    EdgeResolved(ids, rows[i]);
    assert records[i] == ResolvedEdge(ids, rows[i]);
  }

  lemma EdgesStored(t: Tables, batch: UploadBatch)
    requires WellFormed(t) && CleanBatch(batch) && Reflects(t, batch)
    ensures forall r :: r in batch.ownershipRows ==> EdgeStored(t, r)
  {
    AllResolve(t, batch);
    forall r | r in batch.ownershipRows
      ensures EdgeStored(t, r)
    {
      var i :| 0 <= i < |batch.ownershipRows| && batch.ownershipRows[i] == r;
      EdgeRowStored(t, batch.ownershipRows, i);
    }
  }

  lemma EdgeRecordIsOfRow(t: Tables, rows: seq<UploadOwnershipRow>, record: EdgeRecord)
    requires record in EdgeRecords(AllIds(t), rows)
    ensures IsEdgeOf(t, rows, EdgeRecordKey(record))
  {
    FlatMapMembers(EdgeOfRow, AllIds(t), rows, record);
    var r :| r in rows && record in EdgeOfRow(AllIds(t), r);
    assert Normalize(r.parentEntity) in t.entities && Normalize(r.childEntity) in t.entities;
  }

  lemma OtherEdgesStay(t: Tables, rows: seq<UploadOwnershipRow>, after: Tables)
    requires after.edges == t.edges + Overlay(EdgeRecordKey, PctOf, EdgeRecords(AllIds(after), rows))
    ensures OnlyListedEdgesChange(t, rows, after)
  {
    var records := EdgeRecords(AllIds(after), rows);
    forall e | !IsEdgeOf(after, rows, e)
      ensures e !in Overlay(EdgeRecordKey, PctOf, records)
    {
      OverlayKeys(EdgeRecordKey, PctOf, records, e);
      if record :| record in records && EdgeRecordKey(record) == e {
        EdgeRecordIsOfRow(after, rows, record);
      }
    }
  }

  // ----- Filings -----

  /** The filing of the named entity with the row's type and due date has the row's content. */
  ghost predicate FilingStored(t: Tables, row: UploadFilingRow) {
    var k := Normalize(row.entityName);
    && k in t.entities
    && var f := (t.entities[k].id, row.filingType, row.dueDate);
       f in t.filings && t.filings[f] == row.content
  }

  predicate SameFilingRow(a: UploadFilingRow, b: UploadFilingRow) {
    Normalize(a.entityName) == Normalize(b.entityName) && a.filingType == b.filingType && a.dueDate == b.dueDate
  }

  /** No later row is about the same filing. */
  ghost predicate IsLastOfFiling(rows: seq<UploadFilingRow>, i: nat)
    requires i < |rows|
  {
    forall j :: i < j < |rows| ==> !SameFilingRow(rows[i], rows[j])
  }

  ghost predicate IsFilingOf(t: Tables, rows: seq<UploadFilingRow>, f: FilingId) {
    exists r :: r in rows && Normalize(r.entityName) in t.entities
             && f == (t.entities[Normalize(r.entityName)].id, r.filingType, r.dueDate)
  }

  ghost predicate OnlyListedFilingsChange(t: Tables, rows: seq<UploadFilingRow>, after: Tables) {
    forall f :: !IsFilingOf(after, rows, f) ==>
      (f in after.filings <==> f in t.filings) && (f in t.filings ==> after.filings[f] == t.filings[f])
  }

  lemma LastRowLastRecord(t: Tables, rows: seq<UploadFilingRow>, i: nat)
    requires IdsUnique(t) && i < |rows| && IsLastOfFiling(rows, i)
    requires forall r :: r in rows ==> FilingKnown(AllIds(t), r)
    ensures var records := FilingRecords(AllIds(t), rows);
      && |records| == |rows| && FilingKnown(AllIds(t), rows[i])
      && records[i] == ResolvedFiling(AllIds(t), rows[i])
      && forall j :: i < j < |records| ==> FilingRecordKey(records[j]) != FilingRecordKey(records[i])
  {
    var ids := AllIds(t);
    IdsUniqueInjective(t);
    EveryFilingResolved(ids, rows);
    assert rows[i] in rows;
    FilingResolved(ids, rows[i]);
    forall j | i < j < |rows|
      ensures FilingRecordKey(FilingRecords(ids, rows)[j]) != FilingRecordKey(FilingRecords(ids, rows)[i])
    {
      assert rows[j] in rows;
      FilingResolved(ids, rows[j]);
      FilingKeyAgrees(ids, rows[i], rows[j]);
      assert !SameFilingRow(rows[i], rows[j]);
    }
  }

  lemma FilingRowStored(t: Tables, batch: UploadBatch, i: nat)
    requires WellFormed(t) && CleanBatch(batch) && Reflects(t, batch)
    requires i < |batch.filingRows| && IsLastOfFiling(batch.filingRows, i)
    ensures FilingStored(t, batch.filingRows[i])
  {
    AllResolve(t, batch);
    LastRowLastRecord(t, batch.filingRows, i);
    OverlayLast(FilingRecordKey, ContentOf, FilingRecords(AllIds(t), batch.filingRows), i);
    assert batch.filingRows[i] in batch.filingRows;
  }

  lemma FilingRecordIsOfRow(t: Tables, rows: seq<UploadFilingRow>, record: FilingRecord)
    requires record in FilingRecords(AllIds(t), rows)
    ensures IsFilingOf(t, rows, FilingRecordKey(record))
  {
    FlatMapMembers(FilingOfRow, AllIds(t), rows, record);
    var r :| r in rows && record in FilingOfRow(AllIds(t), r);
    assert Normalize(r.entityName) in t.entities;
  }

  lemma OtherFilingsStay(t: Tables, rows: seq<UploadFilingRow>, after: Tables)
    requires after.filings == t.filings + Overlay(FilingRecordKey, ContentOf, FilingRecords(AllIds(after), rows))
    ensures OnlyListedFilingsChange(t, rows, after)
  {
    var records := FilingRecords(AllIds(after), rows);
    forall f | !IsFilingOf(after, rows, f)
      ensures f !in Overlay(FilingRecordKey, ContentOf, records)
    {
      OverlayKeys(FilingRecordKey, ContentOf, records, f);
      if record :| record in records && FilingRecordKey(record) == f {
        FilingRecordIsOfRow(after, rows, record);
      }
    }
  }

  // ----- The whole batch -----

  /** Every row is in its own columns; of rows about one filing, the last. */
  ghost predicate AllColumnsStored(t: Tables, batch: UploadBatch) {
    && (forall r :: r in batch.entityRows ==> EntityStored(t, r))
    && (forall r :: r in batch.ownershipRows ==> EdgeStored(t, r))
    && (forall i :: 0 <= i < |batch.filingRows| && IsLastOfFiling(batch.filingRows, i) ==>
          FilingStored(t, batch.filingRows[i]))
  }

  ghost predicate NothingElseChanged(t: Tables, batch: UploadBatch, after: Tables) {
    && OnlyListedChange(t, batch.entityRows, after)
    && OnlyListedEdgesChange(t, batch.ownershipRows, after)
    && OnlyListedFilingsChange(t, batch.filingRows, after)
  }

  lemma ReflectedColumns(t: Tables, batch: UploadBatch)
    requires WellFormed(t) && CleanBatch(batch) && Reflects(t, batch)
    ensures AllColumnsStored(t, batch)
  {
    EntitiesStored(t, batch);
    EdgesStored(t, batch);
    forall i | 0 <= i < |batch.filingRows| && IsLastOfFiling(batch.filingRows, i)
      ensures FilingStored(t, batch.filingRows[i])
    {
      FilingRowStored(t, batch, i);
    }
  }

  lemma ChangeOfEqualEntities(t: Tables, rows: seq<UploadEntityRow>, t2: Tables, after: Tables)
    requires OnlyListedChange(t, rows, t2) && after.entities == t2.entities
    ensures OnlyListedChange(t, rows, after)
  {
  }

  lemma EdgesOverlaid(t2: Tables, rows: seq<UploadOwnershipRow>, t3: Tables)
    requires PutAll(PutEdge, t2, EdgeRecords(AllIds(t2), rows)) == Some(t3)
    ensures t3.entities == t2.entities && t3.filings == t2.filings
    ensures t3.edges == t2.edges + Overlay(EdgeRecordKey, PctOf, EdgeRecords(AllIds(t3), rows))
  {
    PutEdgesOverlays(t2, EdgeRecords(AllIds(t2), rows));
    assert AllIds(t3) == AllIds(t2);
  }

  lemma FilingsOverlaid(t3: Tables, rows: seq<UploadFilingRow>, after: Tables)
    requires PutAll(PutFiling, t3, FilingRecords(AllIds(t3), rows)) == Some(after)
    ensures after.entities == t3.entities && after.edges == t3.edges
    ensures after.filings == t3.filings + Overlay(FilingRecordKey, ContentOf, FilingRecords(AllIds(after), rows))
  {
    PutFilingsOverlays(t3, FilingRecords(AllIds(t3), rows));
    assert AllIds(after) == AllIds(t3);
  }

  lemma StagesChange(t: Tables, batch: UploadBatch, t2: Tables, t3: Tables, after: Tables)
    requires OnlyListedChange(t, batch.entityRows, t2) && t2.edges == t.edges && t2.filings == t.filings
    requires PutAll(PutEdge, t2, EdgeRecords(AllIds(t2), batch.ownershipRows)) == Some(t3)
    requires PutAll(PutFiling, t3, FilingRecords(AllIds(t3), batch.filingRows)) == Some(after)
    ensures NothingElseChanged(t, batch, after)
  {
    EdgesOverlaid(t2, batch.ownershipRows, t3);
    FilingsOverlaid(t3, batch.filingRows, after);
    ChangeOfEqualEntities(t, batch.entityRows, t2, after);
    assert AllIds(after) == AllIds(t3);
    OtherEdgesStay(t, batch.ownershipRows, after);
    OtherFilingsStay(t, batch.filingRows, after);
  }

  lemma WriteChanges(t: Tables, batch: UploadBatch)
    requires WellFormed(t) && CleanBatch(batch) && EntitiesWritable(t, batch.entityRows)
    ensures AfterWrite(t, batch).Some? && NothingElseChanged(t, batch, AfterWrite(t, batch).value)
  {
    AfterWriteKeepsInvariant(t, batch);
    var t1, t2 := FirstTwoPasses(t, batch);
    TwoPassesChange(t, batch.entityRows, t1, t2);
    var t3 := WriteStages(t, batch, t1, t2);
    StagesChange(t, batch, t2, t3, AfterWrite(t, batch).value);
  }

  /** A clean batch that is written stores every row in its own columns and changes nothing else. */
  lemma WrittenByColumns(t: Tables, batch: UploadBatch, chunkSize: nat, after: Tables)
    requires chunkSize > 0 && WellFormed(t) && CleanBatch(batch)
    requires WriteBatch(t, batch, chunkSize) == Some(after)
    ensures AllColumnsStored(after, batch) && NothingElseChanged(t, batch, after)
  {
    WriteBatchExact(t, batch, chunkSize);
    AfterWriteKeepsInvariant(t, batch);
    WriteReflects(t, batch);
    ReflectedColumns(after, batch);
    WriteChanges(t, batch);
  }
}
