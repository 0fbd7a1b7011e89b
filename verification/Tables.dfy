/** The entities, ownership_edges and filings tables with their declared constraints, and the
    statements of the upload writers as functions from tables to tables. */
module Tables {
  import opened Collections
  import opened Names
  import opened Options
  import opened UploadTypes

  datatype EntityRecord = EntityRecord(
    id: nat,
    entityName: string,
    registrationType: RegistrationType,
    details: EntityDetails,
    businessId: Option<string>,
    domesticEntityId: Option<nat>)

  type EdgeId = (nat, nat)
  type FilingId = (nat, string, string)

  /** Entities are held by entity_name_key, the others by their unique natural keys.
      `nextId` is the source of ids that were never used before. */
  datatype Tables = Tables(
    entities: map<string, EntityRecord>,
    edges: map<EdgeId, int>,
    filings: map<FilingId, FilingContent>,
    nextId: nat)

  const EMPTY_TABLES := Tables(map[], map[], map[], 0)

  predicate HasId(t: Tables, id: nat) {
    exists k :: k in t.entities && t.entities[k].id == id
  }

  // ----- Statements, one row at a time -----

  function EntityKey(row: UploadEntityRow): string {
    Normalize(row.entityName)
  }

  /** The unique indexes on entity_name and business_id, for a row stored under its key. */
  predicate BreaksUnique(t: Tables, row: UploadEntityRow) {
    exists k :: k in t.entities && k != EntityKey(row) &&
      (t.entities[k].entityName == row.entityName ||
       (row.businessId.Some? && t.entities[k].businessId == row.businessId))
  }

  function RecordOf(row: UploadEntityRow, id: nat, domesticEntityId: Option<nat>): EntityRecord {
    EntityRecord(id, row.entityName, row.registrationType, row.details, row.businessId, domesticEntityId)
  }

  /** Inserts the row, or overwrites all but the id and the domestic entity. */
  function PutEntity(t: Tables, row: UploadEntityRow): Option<Tables> {
    var key := EntityKey(row);
    if BreaksUnique(t, row) then None
    else if key in t.entities then
      var existing := t.entities[key];
      Some(t.(entities := t.entities[key := RecordOf(row, existing.id, existing.domesticEntityId)]))
    else
      Some(t.(entities := t.entities[key := RecordOf(row, t.nextId, None)], nextId := t.nextId + 1))
  }

  datatype EdgeRecord = EdgeRecord(parentId: nat, childId: nat, pct: int)

  function EdgeRecordKey(r: EdgeRecord): EdgeId {
    (r.parentId, r.childId)
  }

  /** Foreign keys and checks of ownership_edges, then insert or overwrite. */
  function PutEdge(t: Tables, r: EdgeRecord): Option<Tables> {
    if HasId(t, r.parentId) && HasId(t, r.childId) && r.parentId != r.childId && 0 < r.pct <= 10000
    then Some(t.(edges := t.edges[EdgeRecordKey(r) := r.pct]))
    else None
  }

  datatype FilingRecord = FilingRecord(entityId: nat, filingType: string, dueDate: string, content: FilingContent)

  function FilingRecordKey(r: FilingRecord): FilingId {
    (r.entityId, r.filingType, r.dueDate)
  }

  function PutFiling(t: Tables, r: FilingRecord): Option<Tables> {
    if HasId(t, r.entityId) then Some(t.(filings := t.filings[FilingRecordKey(r) := r.content])) else None
  }

  // ----- Resolving names to ids -----

  type IdByName = map<string, nat>

  function AllIds(t: Tables): IdByName {
    map k | k in t.entities :: t.entities[k].id
  }

  function IdOf(ids: IdByName, name: string): Option<nat> {
    var key := Normalize(name);
    if key in ids then Some(ids[key]) else None
  }

  datatype DomesticUpdate = DomesticUpdate(key: string, domesticId: Option<nat>)

  function DomesticId(ids: IdByName, row: UploadEntityRow): Option<nat> {
    match row.domesticEntity
    case None => None
    case Some(name) => IdOf(ids, name)
  }

  function UpdateOfRow(ids: IdByName, row: UploadEntityRow): seq<DomesticUpdate> {
    if row.registrationType == FQ then [DomesticUpdate(EntityKey(row), DomesticId(ids, row))] else []
  }

  /** One update for each FQ row. */
  function DomesticUpdates(ids: IdByName, rows: seq<UploadEntityRow>): seq<DomesticUpdate> {
    FlatMap(UpdateOfRow, ids, rows)
  }

  /** UPDATE entities SET domestic_entity_id FROM (VALUES ...), taken in order. */
  function LinkDomestic(t: Tables, updates: seq<DomesticUpdate>): Tables {
    if updates == [] then t
    else
      var u := updates[|updates| - 1];
      var before := LinkDomestic(t, updates[..|updates| - 1]);
      if u.key in before.entities
      then before.(entities := before.entities[u.key := before.entities[u.key].(domesticEntityId := u.domesticId)])
      else before
  }

  /** The edge of one row, or nothing when an endpoint is unknown. */
  function EdgeOfRow(ids: IdByName, row: UploadOwnershipRow): seq<EdgeRecord> {
    match (IdOf(ids, row.parentEntity), IdOf(ids, row.childEntity))
    case (Some(p), Some(c)) => [EdgeRecord(p, c, row.ownershipPct)]
    case _ => []
  }

  function EdgeRecords(ids: IdByName, rows: seq<UploadOwnershipRow>): seq<EdgeRecord> {
    FlatMap(EdgeOfRow, ids, rows)
  }

  function FilingOfRow(ids: IdByName, row: UploadFilingRow): seq<FilingRecord> {
    match IdOf(ids, row.entityName)
    case Some(id) => [FilingRecord(id, row.filingType, row.dueDate, row.content)]
    case None => []
  }

  function FilingRecords(ids: IdByName, rows: seq<UploadFilingRow>): seq<FilingRecord> {
    FlatMap(FilingOfRow, ids, rows)
  }
}
