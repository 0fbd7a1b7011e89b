/** What every committed state of the tables satisfies, and how each pass of the writers keeps it. */
module StoreInvariant {
  import opened Names
  import opened Options
  import opened SyncWriter
  import opened Tables
  import opened Upserts
  import opened UploadTypes

  ghost predicate UniqueIds(entities: map<string, EntityRecord>) {
    forall j, k :: j in entities && k in entities && entities[j].id == entities[k].id ==> j == k
  }

  ghost predicate IdsUnique(t: Tables) {
    && UniqueIds(t.entities)
    && (forall k :: k in t.entities ==> t.entities[k].id < t.nextId)
  }

  ghost predicate BusinessIdsUnique(t: Tables) {
    forall j, k :: j in t.entities && k in t.entities && j != k && t.entities[j].businessId.Some? ==>
      t.entities[j].businessId != t.entities[k].businessId
  }

  ghost predicate DomesticResolves(t: Tables) {
    forall k :: k in t.entities && t.entities[k].domesticEntityId.Some? ==>
      HasId(t, t.entities[k].domesticEntityId.value)
  }

  ghost predicate EdgesResolve(t: Tables) {
    forall e :: e in t.edges ==> HasId(t, e.0) && HasId(t, e.1) && e.0 != e.1 && 0 < t.edges[e] <= 10000
  }

  ghost predicate FilingsResolve(t: Tables) {
    forall f :: f in t.filings ==> HasId(t, f.0)
  }

  /** The declared constraints, and the meaning of the key column. */
  ghost predicate WellFormed(t: Tables) {
    && KeysAreNames(t) && "" !in t.entities
    && IdsUnique(t) && BusinessIdsUnique(t)
    && DomesticResolves(t) && EdgesResolve(t) && FilingsResolve(t)
  }

  // ----- Pass 1 -----

  /** The two business-id rules an entity row must satisfy against the table. */
  ghost predicate BusinessIdFree(t: Tables, row: UploadEntityRow) {
    forall k :: k in t.entities && row.businessId.Some? && t.entities[k].businessId == row.businessId
      ==> k == EntityKey(row)
  }

  /** `after` keeps every entity's id and domestic entity and all edges and filings of `t`;
      entities it adds have ids that were never used before. */
  ghost predicate Grows(t: Tables, after: Tables) {
    && after.edges == t.edges && after.filings == t.filings && t.nextId <= after.nextId
    && (forall k :: k in t.entities ==>
          && k in after.entities && after.entities[k].id == t.entities[k].id
          && after.entities[k].domesticEntityId == t.entities[k].domesticEntityId)
    && (forall k :: k in after.entities && k !in t.entities ==>
          t.nextId <= after.entities[k].id && after.entities[k].domesticEntityId == None)
  }

  /** The record under the row's name has the row's columns, and some id and domestic entity. */
  ghost predicate Stored(t: Tables, row: UploadEntityRow) {
    var k := Normalize(row.entityName);
    && k in t.entities
    && t.entities[k].entityName == row.entityName && t.entities[k].registrationType == row.registrationType
    && t.entities[k].details == row.details && t.entities[k].businessId == row.businessId
  }

  lemma GrowsKeepsIds(t: Tables, after: Tables, id: nat)
    requires Grows(t, after) && HasId(t, id)
    ensures HasId(after, id)
  {
    var k :| k in t.entities && t.entities[k].id == id;
    assert after.entities[k].id == id;
  }

  lemma GrowsResolves(t: Tables, after: Tables)
    requires Grows(t, after) && DomesticResolves(t) && EdgesResolve(t) && FilingsResolve(t)
    ensures DomesticResolves(after) && EdgesResolve(after) && FilingsResolve(after)
  {
    forall id | HasId(t, id)
      ensures HasId(after, id)
    {
      GrowsKeepsIds(t, after, id);
    }
  }

  /** Names are as unique as keys, so only a taken business id can make the upsert of a row fail. */
  lemma PutEntitySucceeds(t: Tables, row: UploadEntityRow)
    requires KeysAreNames(t)
    ensures PutEntity(t, row).Some? <==> BusinessIdFree(t, row)
  {
  }

  lemma PutEntityStores(t: Tables, row: UploadEntityRow)
    requires PutEntity(t, row).Some?
    ensures var after := PutEntity(t, row).value;
      && Stored(after, row) && after.entities.Keys == t.entities.Keys + {EntityKey(row)}
      && (forall k :: k in t.entities && k != EntityKey(row) ==> after.entities[k] == t.entities[k])
  {
  }

  lemma PutEntityGrows(t: Tables, row: UploadEntityRow)
    requires IdsUnique(t) && PutEntity(t, row).Some?
    ensures Grows(t, PutEntity(t, row).value) && IdsUnique(PutEntity(t, row).value)
  {
  }

  lemma PutEntityKeepsBusinessIds(t: Tables, row: UploadEntityRow)
    requires BusinessIdsUnique(t) && PutEntity(t, row).Some?
    ensures BusinessIdsUnique(PutEntity(t, row).value)
  {
  }

  lemma PutEntityKeepsNames(t: Tables, row: UploadEntityRow)
    requires KeysAreNames(t) && PutEntity(t, row).Some?
    ensures KeysAreNames(PutEntity(t, row).value)
  {
  }

  lemma PutEntityKeeps(t: Tables, row: UploadEntityRow)
    requires WellFormed(t) && EntityKey(row) != "" && BusinessIdFree(t, row)
    ensures PutEntity(t, row).Some? && WellFormed(PutEntity(t, row).value)
  {
    PutEntitySucceeds(t, row);
    var after := PutEntity(t, row).value;
    PutEntityGrows(t, row);
    PutEntityKeepsBusinessIds(t, row);
    PutEntityKeepsNames(t, row);
    PutEntityStores(t, row);
    GrowsResolves(t, after);
  }

  /** Rows whose names and non-null business ids are pairwise distinct. */
  ghost predicate DistinctEntities(rows: seq<UploadEntityRow>) {
    && DistinctKeys(rows, EntityKey)
    && (forall r :: r in rows ==> EntityKey(r) != "")
    && (forall i, j :: 0 <= i < j < |rows| && rows[i].businessId.Some? ==> rows[i].businessId != rows[j].businessId)
  }

  ghost predicate BusinessIdsFree(t: Tables, rows: seq<UploadEntityRow>) {
    forall r :: r in rows ==> BusinessIdFree(t, r)
  }

  ghost predicate IsKeyOf(rows: seq<UploadEntityRow>, k: string) {
    exists r :: r in rows && EntityKey(r) == k
  }

  /** The result of pass 1: every row stored, every other entity untouched. */
  ghost predicate AllStored(t: Tables, rows: seq<UploadEntityRow>, after: Tables) {
    && WellFormed(after) && Grows(t, after)
    && (forall r :: r in rows ==> Stored(after, r))
    && (forall k :: k in after.entities ==> k in t.entities || IsKeyOf(rows, k))
    && (forall k :: k in t.entities && !IsKeyOf(rows, k) ==> after.entities[k] == t.entities[k])
  }

  lemma FreeAfterPut(t: Tables, first: UploadEntityRow, r: UploadEntityRow)
    requires PutEntity(t, first).Some? && BusinessIdFree(t, r)
    requires first.businessId.Some? ==> first.businessId != r.businessId
    ensures BusinessIdFree(PutEntity(t, first).value, r)
  {
    PutEntityStores(t, first);
  }

  lemma BusinessIdsStayFree(t: Tables, rows: seq<UploadEntityRow>)
    requires rows != [] && WellFormed(t) && DistinctEntities(rows) && BusinessIdsFree(t, rows)
    ensures PutEntity(t, rows[0]).Some? && BusinessIdsFree(PutEntity(t, rows[0]).value, rows[1..])
  {
    PutEntityKeeps(t, rows[0]);
    forall r | r in rows[1..]
      ensures BusinessIdFree(PutEntity(t, rows[0]).value, r)
    {
      var j :| 1 <= j < |rows| && rows[j] == r;
      FreeAfterPut(t, rows[0], r);
    }
  }

  /** No row of pass 1 meets a taken name or business id. */
  ghost predicate EntitiesWritable(t: Tables, rows: seq<UploadEntityRow>) {
    PutAll(PutEntity, t, rows).Some?
  }

  /** Whenever pass 1 succeeds it stores every row and keeps the invariant. */
  lemma {:induction false} PutEntities(t: Tables, rows: seq<UploadEntityRow>)
    requires WellFormed(t) && DistinctEntities(rows) && EntitiesWritable(t, rows)
    ensures AllStored(t, rows, PutAll(PutEntity, t, rows).value)
    decreases |rows|
  {
    if rows != [] {
      PutEntitySucceeds(t, rows[0]);
      var next := PutEntity(t, rows[0]).value;
      PutEntityKeeps(t, rows[0]);
      PutEntityGrows(t, rows[0]);
      PutEntityStores(t, rows[0]);
      PutEntities(next, rows[1..]);
      StoredThenRest(t, rows, next, PutAll(PutEntity, next, rows[1..]).value);
    }
  }

  /** Pass 1 of an upload whose business ids are free succeeds. */
  lemma {:induction false} FreeIdsAreWritable(t: Tables, rows: seq<UploadEntityRow>)
    requires WellFormed(t) && DistinctEntities(rows) && BusinessIdsFree(t, rows)
    ensures EntitiesWritable(t, rows)
    decreases |rows|
  {
    if rows != [] {
      PutEntityKeeps(t, rows[0]);
      BusinessIdsStayFree(t, rows);
      FreeIdsAreWritable(PutEntity(t, rows[0]).value, rows[1..]);
    }
  }

  lemma GrowsTransitive(t: Tables, mid: Tables, after: Tables)
    requires Grows(t, mid) && Grows(mid, after)
    ensures Grows(t, after)
  {
    forall k | k in after.entities && k !in t.entities
      ensures t.nextId <= after.entities[k].id && after.entities[k].domesticEntityId == None
    {
      if k in mid.entities {
        assert t.nextId <= mid.entities[k].id;
      }
    }
  }

  lemma KeyOfFirstOrRest(rows: seq<UploadEntityRow>, k: string)
    requires rows != []
    ensures IsKeyOf(rows, k) <==> k == EntityKey(rows[0]) || IsKeyOf(rows[1..], k)
    ensures DistinctKeys(rows, EntityKey) ==> !IsKeyOf(rows[1..], EntityKey(rows[0]))
  {
    assert rows == [rows[0]] + rows[1..];
    if r :| r in rows && EntityKey(r) == k {
      assert r == rows[0] || r in rows[1..];
    }
    assert rows[0] in rows;
  }

  lemma StoredThenRest(t: Tables, rows: seq<UploadEntityRow>, next: Tables, after: Tables)
    requires rows != [] && DistinctKeys(rows, EntityKey)
    requires Grows(t, next) && Stored(next, rows[0])
    requires next.entities.Keys == t.entities.Keys + {EntityKey(rows[0])}
    requires forall k :: k in t.entities && k != EntityKey(rows[0]) ==> next.entities[k] == t.entities[k]
    requires AllStored(next, rows[1..], after)
    ensures AllStored(t, rows, after)
  {
    GrowsTransitive(t, next, after);
    var first := EntityKey(rows[0]);
    forall k
      ensures IsKeyOf(rows, k) <==> k == first || IsKeyOf(rows[1..], k)
      ensures !IsKeyOf(rows[1..], first)
    {
      KeyOfFirstOrRest(rows, k);
    }
    assert after.entities[first] == next.entities[first];
    forall r | r in rows
      ensures Stored(after, r)
    {
      assert r == rows[0] || r in rows[1..];
    }
  }

  /** Business-id safety at every moment of pass 1: after each single row, not only at the end. */
  lemma EveryIntermediateTable(t: Tables, rows: seq<UploadEntityRow>, done: nat)
    requires WellFormed(t) && DistinctEntities(rows) && BusinessIdsFree(t, rows) && done <= |rows|
    ensures var mid := PutAll(PutEntity, t, rows[..done]);
      mid.Some? && BusinessIdsUnique(mid.value) && WellFormed(mid.value)
  {
    FreeIdsAreWritable(t, rows[..done]);
    PutEntities(t, rows[..done]);
  }
}
