/** The transaction body of RegistryService.processUpload: the same four passes over parsed rows. */
module SyncWriter {
  import opened Collections
  import opened Dates
  import opened Names
  import opened Options
  import opened Tables
  import opened Upserts
  import opened UploadTypes
  import opened UploadWriter

  /** entity_name_key is always the normalized entity_name. */
  ghost predicate KeysAreNames(t: Tables) {
    forall k :: k in t.entities ==> Normalize(t.entities[k].entityName) == k
  }

  lemma {:induction false} PutAllKeepsKeys(t: Tables, rows: seq<UploadEntityRow>)
    requires KeysAreNames(t)
    ensures var after := PutAll(PutEntity, t, rows); after.Some? ==> KeysAreNames(after.value)
    decreases |rows|
  {
    if rows != [] {
      var next := PutEntity(t, rows[0]);
      if next.Some? {
        PutAllKeepsKeys(next.value, rows[1..]);
      }
    }
  }

  lemma UpsertKeepsKeys(t: Tables, rows: seq<UploadEntityRow>, chunkSize: nat)
    requires chunkSize > 0 && KeysAreNames(t)
    ensures var after := UpsertChunks(PutEntity, EntityKey, t, Chunk(rows, chunkSize));
      after.Some? ==> KeysAreNames(after.value)
  {
    UpsertChunksIsPutAll(PutEntity, EntityKey, t, Chunk(rows, chunkSize));
    PutAllKeepsKeys(t, Flatten(Chunk(rows, chunkSize)));
  }

  /** Pass 1: each chunk of parsed rows is converted and upserted. */
  method UpsertParsedEntities(db: Database, rows: seq<EntityRow>, chunkSize: nat) returns (ok: bool)
    requires chunkSize > 0
    modifies db
    ensures var after := UpsertChunks(PutEntity, EntityKey, old(db.Contents()),
                                      Chunk(Map(ToUploadEntity, rows), chunkSize));
      ok == after.Some? && (ok ==> db.Contents() == after.value)
  {
    var chunks := ChunkItems(rows, chunkSize);
    ghost var converted := Chunk(Map(ToUploadEntity, rows), chunkSize);
    ghost var start := db.Contents();
    ChunkOfMap(ToUploadEntity, rows, chunkSize);
    for i := 0 to |chunks|
      invariant UpsertChunks(PutEntity, EntityKey, start, converted)
             == UpsertChunks(PutEntity, EntityKey, db.Contents(), converted[i..])
    {
      assert converted[i..][0] == Map(ToUploadEntity, chunks[i]) && converted[i..][1..] == converted[i + 1..];
      ok := db.Execute(PutEntity, EntityKey, Map(ToUploadEntity, chunks[i]));
      if !ok {
        return;
      }
    }
    ok := true;
  }

  /** Keys the found entities by their normalized names. */
  method KeyByName(relevant: map<string, EntityRecord>) returns (idByName: IdByName)
    requires forall k :: k in relevant ==> Normalize(relevant[k].entityName) == k
    ensures idByName == map k | k in relevant :: relevant[k].id
  {
    idByName := map[];
    var pending := relevant.Keys;
    while pending != {}
      invariant pending <= relevant.Keys
      invariant idByName == map k | k in relevant && k !in pending :: relevant[k].id
    {
      var k :| k in pending;
      idByName := idByName[Normalize(relevant[k].entityName) := relevant[k].id];
      pending := pending - {k};
    }
  }

  function ParsedEdge(ids: IdByName, row: OwnershipRow): seq<EdgeRecord> {
    match (IdOf(ids, row.parentEntity), IdOf(ids, row.childEntity))
    case (Some(p), Some(c)) => [EdgeRecord(p, c, row.ownershipPct)]
    case _ => []
  }

  function ParsedFiling(ids: IdByName, row: FilingRow): seq<FilingRecord> {
    match IdOf(ids, row.entityName)
    case None => []
    case Some(id) =>
      [FilingRecord(id, row.filingType, ToDateOnlyString(row.dueDate),
                    FilingContent(row.jurisdiction, row.filingAuthority, PrintOptional(row.filedDate), row.status))]
  }

  lemma ParsedEdgesAgree(ids: IdByName, rows: seq<OwnershipRow>)
    ensures FlatMap(ParsedEdge, ids, rows) == EdgeRecords(ids, Map(ToUploadOwnership, rows))
  {
    forall r | r in rows ensures ParsedEdge(ids, r) == EdgeOfRow(ids, ToUploadOwnership(r)) {
    }
    FlatMapOfMap(ParsedEdge, EdgeOfRow, ToUploadOwnership, ids, rows);
  }

  lemma ParsedFilingsAgree(ids: IdByName, rows: seq<FilingRow>)
    ensures FlatMap(ParsedFiling, ids, rows) == FilingRecords(ids, Map(ToUploadFiling, rows))
  {
    forall r | r in rows ensures ParsedFiling(ids, r) == FilingOfRow(ids, ToUploadFiling(r)) {
    }
    FlatMapOfMap(ParsedFiling, FilingOfRow, ToUploadFiling, ids, rows);
  }

  /** Writes exactly what the job's writer would write for the converted rows. */
  method WriteParsedRows(entityRows: seq<EntityRow>, ownershipRows: seq<OwnershipRow>, filingRows: seq<FilingRow>,
                         db: Database, chunkSize: nat) returns (result: Option<UploadCounts>)
    requires chunkSize > 0 && KeysAreNames(db.Contents())
    modifies db
    ensures var batch := ToUploadBatch(entityRows, ownershipRows, filingRows);
      var after := WriteBatch(old(db.Contents()), batch, chunkSize);
      && result == (if after.Some? then Some(CountsOf(batch)) else None)
      && (after.Some? ==> db.Contents() == after.value)
  {
    ghost var batch := ToUploadBatch(entityRows, ownershipRows, filingRows);
    ghost var t := db.Contents();
    var ok := UpsertParsedEntities(db, entityRows, chunkSize);
    if !ok {
      return None;
    }
    UpsertKeepsKeys(t, batch.entityRows, chunkSize);
    ghost var t1 := db.Contents();
    var names := ReferencedNames(ToUploadBatch(entityRows, ownershipRows, filingRows));
    var relevant := map k | k in db.entities && k in names :: db.entities[k];
    var idByName := KeyByName(relevant);
    AgreeOnBatch(idByName, AllIds(t1), names, batch);
    var fqUpdates := DomesticUpdates(idByName, Map(ToUploadEntity, entityRows));
    if |fqUpdates| > 0 {
      db.UpdateDomestic(fqUpdates);
    }
    ParsedEdgesAgree(idByName, ownershipRows);
    ok := db.ExecuteChunks(PutEdge, EdgeRecordKey, FlatMap(ParsedEdge, idByName, ownershipRows), chunkSize);
    if !ok {
      return None;
    }
    ParsedFilingsAgree(idByName, filingRows);
    ok := db.ExecuteChunks(PutFiling, FilingRecordKey, FlatMap(ParsedFiling, idByName, filingRows), chunkSize);
    if !ok {
      return None;
    }
    result := Some(UploadCounts(|entityRows|, |ownershipRows|, |filingRows|));
  }
}
