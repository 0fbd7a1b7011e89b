/** upload-writer.ts and the transaction body of registry.service.ts: the four-pass upsert. */
module UploadWriter {
  import opened Collections
  import opened Names
  import opened Options
  import opened Tables
  import opened Upserts
  import opened UploadTypes

  /** The tables after all four passes; None when some statement fails. */
  function WriteBatch(t: Tables, batch: UploadBatch, chunkSize: nat): Option<Tables>
    requires chunkSize > 0
  {
    var t1 :- UpsertChunks(PutEntity, EntityKey, t, Chunk(batch.entityRows, chunkSize));
    var ids := AllIds(t1);
    var t2 := LinkDomestic(t1, DomesticUpdates(ids, batch.entityRows));
    var t3 :- UpsertChunks(PutEdge, EdgeRecordKey, t2, Chunk(EdgeRecords(ids, batch.ownershipRows), chunkSize));
    UpsertChunks(PutFiling, FilingRecordKey, t3, Chunk(FilingRecords(ids, batch.filingRows), chunkSize))
  }

  /** A connection inside a transaction. */
  class Database {
    var entities: map<string, EntityRecord>
    var edges: map<EdgeId, int>
    var filings: map<FilingId, FilingContent>
    var nextId: nat

    constructor ()
      ensures Contents() == EMPTY_TABLES
    {
      entities, edges, filings, nextId := map[], map[], map[], 0;
    }

    function Contents(): Tables
      reads this
    {
      Tables(entities, edges, filings, nextId)
    }

    method Restore(t: Tables)
      modifies this
      ensures Contents() == t
    {
      entities, edges, filings, nextId := t.entities, t.edges, t.filings, t.nextId;
    }

    /** Runs one multi-row statement; a failing statement changes nothing by itself. */
    method Execute<R, K(==)>(put: Put<Tables, R>, key: R -> K, rows: seq<R>) returns (ok: bool)
      modifies this
      ensures var after := Upsert(put, key, old(Contents()), rows);
        ok == after.Some? && Contents() == if ok then after.value else old(Contents())
    {
      var after := Upsert(put, key, Contents(), rows);
      ok := after.Some?;
      if ok {
        Restore(after.value);
      }
    }

    /** Runs one statement for each chunk until one fails. */
    method ExecuteChunks<R, K(==)>(put: Put<Tables, R>, key: R -> K, rows: seq<R>, chunkSize: nat) returns (ok: bool)
      requires chunkSize > 0
      modifies this
      ensures var after := UpsertChunks(put, key, old(Contents()), Chunk(rows, chunkSize));
        ok == after.Some? && (ok ==> Contents() == after.value)
    {
      var chunks := ChunkItems(rows, chunkSize);
      ghost var start := Contents();
      for i := 0 to |chunks|
        invariant UpsertChunks(put, key, start, chunks) == UpsertChunks(put, key, Contents(), chunks[i..])
      {
        assert chunks[i..][0] == chunks[i] && chunks[i..][1..] == chunks[i + 1..];
        ok := Execute(put, key, chunks[i]);
        if !ok {
          return;
        }
      }
      ok := true;
    }

    method UpdateDomestic(updates: seq<DomesticUpdate>)
      modifies this
      ensures Contents() == LinkDomestic(old(Contents()), updates)
    {
      Restore(LinkDomestic(Contents(), updates));
    }

    /** SELECT id, entity_name_key ... WHERE entity_name_key = ANY(names). */
    method SelectIds(names: set<string>) returns (ids: IdByName)
      ensures ids == map k | k in entities && k in names :: entities[k].id
    {
      ids := map k | k in entities && k in names :: entities[k].id;
    }
  }

  // ----- The names a batch can resolve -----

  ghost predicate CoversEntity(names: set<string>, row: UploadEntityRow) {
    EntityKey(row) in names && (row.domesticEntity.Some? ==> Normalize(row.domesticEntity.value) in names)
  }

  ghost predicate CoversOwnership(names: set<string>, row: UploadOwnershipRow) {
    Normalize(row.parentEntity) in names && Normalize(row.childEntity) in names
  }

  ghost predicate CoversFiling(names: set<string>, row: UploadFilingRow) {
    Normalize(row.entityName) in names
  }

  ghost predicate Covers(names: set<string>, batch: UploadBatch) {
    && (forall r :: r in batch.entityRows ==> CoversEntity(names, r))
    && (forall r :: r in batch.ownershipRows ==> CoversOwnership(names, r))
    && (forall r :: r in batch.filingRows ==> CoversFiling(names, r))
  }

  method ReferencedNames(batch: UploadBatch) returns (names: set<string>)
    ensures Covers(names, batch)
  {
    names := {};
    for i := 0 to |batch.entityRows|
      invariant forall j :: 0 <= j < i ==> CoversEntity(names, batch.entityRows[j])
    {
      var row := batch.entityRows[i];
      names := names + {EntityKey(row)};
      if row.domesticEntity.Some? {
        names := names + {Normalize(row.domesticEntity.value)};
      }
    }
    for i := 0 to |batch.ownershipRows|
      invariant forall r :: r in batch.entityRows ==> CoversEntity(names, r)
      invariant forall j :: 0 <= j < i ==> CoversOwnership(names, batch.ownershipRows[j])
    {
      var row := batch.ownershipRows[i];
      names := names + {Normalize(row.parentEntity), Normalize(row.childEntity)};
    }
    for i := 0 to |batch.filingRows|
      invariant forall r :: r in batch.entityRows ==> CoversEntity(names, r)
      invariant forall r :: r in batch.ownershipRows ==> CoversOwnership(names, r)
      invariant forall j :: 0 <= j < i ==> CoversFiling(names, batch.filingRows[j])
    {
      names := names + {Normalize(batch.filingRows[i].entityName)};
    }
  }

  /** Two lookups agree on the given names. */
  ghost predicate Agree(a: IdByName, b: IdByName, names: set<string>) {
    forall n :: n in names ==> (n in a <==> n in b) && (n in a ==> a[n] == b[n])
  }

  lemma AgreeOnEntity(a: IdByName, b: IdByName, names: set<string>, row: UploadEntityRow)
    requires Agree(a, b, names) && CoversEntity(names, row)
    ensures UpdateOfRow(a, row) == UpdateOfRow(b, row)
  {
  }

  lemma AgreeOnOwnership(a: IdByName, b: IdByName, names: set<string>, row: UploadOwnershipRow)
    requires Agree(a, b, names) && CoversOwnership(names, row)
    ensures EdgeOfRow(a, row) == EdgeOfRow(b, row)
  {
  }

  lemma AgreeOnFiling(a: IdByName, b: IdByName, names: set<string>, row: UploadFilingRow)
    requires Agree(a, b, names) && CoversFiling(names, row)
    ensures FilingOfRow(a, row) == FilingOfRow(b, row)
  {
  }

  lemma AgreeOnBatch(a: IdByName, b: IdByName, names: set<string>, batch: UploadBatch)
    requires Agree(a, b, names) && Covers(names, batch)
    ensures DomesticUpdates(a, batch.entityRows) == DomesticUpdates(b, batch.entityRows)
    ensures EdgeRecords(a, batch.ownershipRows) == EdgeRecords(b, batch.ownershipRows)
    ensures FilingRecords(a, batch.filingRows) == FilingRecords(b, batch.filingRows)
  {
    forall r | r in batch.entityRows ensures UpdateOfRow(a, r) == UpdateOfRow(b, r) {
      AgreeOnEntity(a, b, names, r);
    }
    FlatMapCongruent(UpdateOfRow, a, b, batch.entityRows);
    forall r | r in batch.ownershipRows ensures EdgeOfRow(a, r) == EdgeOfRow(b, r) {
      AgreeOnOwnership(a, b, names, r);
    }
    FlatMapCongruent(EdgeOfRow, a, b, batch.ownershipRows);
    forall r | r in batch.filingRows ensures FilingOfRow(a, r) == FilingOfRow(b, r) {
      AgreeOnFiling(a, b, names, r);
    }
    FlatMapCongruent(FilingOfRow, a, b, batch.filingRows);
  }

  function CountsOf(batch: UploadBatch): UploadCounts {
    UploadCounts(|batch.entityRows|, |batch.ownershipRows|, |batch.filingRows|)
  }

  /** Writes a batch as WriteBatch says, or fails when some statement of it does. */
  method WriteUploadBatch(batch: UploadBatch, db: Database, chunkSize: nat) returns (result: Option<UploadCounts>)
    requires chunkSize > 0
    modifies db
    ensures var after := WriteBatch(old(db.Contents()), batch, chunkSize);
      && result == (if after.Some? then Some(CountsOf(batch)) else None)
      && (after.Some? ==> db.Contents() == after.value)
  {
    var ok := db.ExecuteChunks(PutEntity, EntityKey, batch.entityRows, chunkSize);
    if !ok {
      return None;
    }
    ghost var t1 := db.Contents();
    var names := ReferencedNames(batch);
    var idByName := db.SelectIds(names);
    AgreeOnBatch(idByName, AllIds(t1), names, batch);
    var fqUpdates := DomesticUpdates(idByName, batch.entityRows);
    if |fqUpdates| > 0 {
      db.UpdateDomestic(fqUpdates);
    }
    ok := db.ExecuteChunks(PutEdge, EdgeRecordKey, EdgeRecords(idByName, batch.ownershipRows), chunkSize);
    if !ok {
      return None;
    }
    ok := db.ExecuteChunks(PutFiling, FilingRecordKey, FilingRecords(idByName, batch.filingRows), chunkSize);
    if !ok {
      return None;
    }
    result := Some(UploadCounts(|batch.entityRows|, |batch.ownershipRows|, |batch.filingRows|));
  }

  /** BEGIN, the four passes, then COMMIT, or ROLLBACK when a statement failed or `aborted` is set. */
  method WriteAtomically(batch: UploadBatch, db: Database, chunkSize: nat, aborted: bool)
    returns (result: Option<UploadCounts>)
    requires chunkSize > 0
    modifies db
    ensures var after := if aborted then None else WriteBatch(old(db.Contents()), batch, chunkSize);
      && result == (if after.Some? then Some(CountsOf(batch)) else None)
      && db.Contents() == (if after.Some? then after.value else old(db.Contents()))
  {
    var before := db.Contents();
    result := WriteUploadBatch(batch, db, chunkSize);
    if result.None? || aborted {
      db.Restore(before);
      result := None;
    }
  }
}
