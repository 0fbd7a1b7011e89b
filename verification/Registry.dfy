/** RegistryService.processUpload and the invariant of the registry over every run of uploads. */
module Registry {
  import opened Chains
  import opened Dates
  import opened Digraphs
  import opened GraphValidator
  import opened Idempotence
  import opened MergedGraph
  import opened Names
  import opened Options
  import opened StoreInvariant
  import opened SyncWriter
  import opened Tables
  import opened UploadAcceptance
  import opened UploadTypes
  import opened UploadValidation
  import opened UploadWriter
  import opened WriteTheorems

  /** Declared constraints, acyclic ownership, per-child totals within 100%, separator-safe names. */
  ghost predicate Invariant(t: Tables) {
    WellFormed(t) && SafeStore(t)
  }

  datatype Upload = Upload(sheets: UploadSheets, today: Date)

  datatype Limits = Limits(maxRows: nat, chunkSize: nat)

  /** The tables after writing the upload's batch: all of it, or nothing when the write fails. */
  ghost function Committed(t: Tables, upload: Upload, limits: Limits): Tables
    requires limits.chunkSize > 0
  {
    var after := WriteBatch(t, BatchOf(upload.sheets), limits.chunkSize);
    if after.Some? then after.value else t
  }

  /** What one upload may do to the tables, going by what the validator itself may report. */
  ghost predicate IsStep(t: Tables, upload: Upload, limits: Limits, t': Tables)
    requires limits.chunkSize > 0
  {
    || (MayPass(t, upload.sheets, upload.today, limits.maxRows) && t' == Committed(t, upload, limits))
    || (MayFail(t, upload.sheets, upload.today, limits.maxRows) && t' == t)
  }

  /** The tables before the first upload and after each of them. */
  ghost predicate IsHistory(states: seq<Tables>, uploads: seq<Upload>, limits: Limits)
    requires limits.chunkSize > 0
  {
    && |states| == |uploads| + 1 && states[0] == EMPTY_TABLES
    && forall i :: 0 <= i < |uploads| ==> StepAt(states, uploads, limits, i)
  }

  ghost predicate StepAt(states: seq<Tables>, uploads: seq<Upload>, limits: Limits, i: nat)
    requires limits.chunkSize > 0 && i < |uploads| && i + 1 < |states|
  {
    IsStep(states[i], uploads[i], limits, states[i + 1])
  }

  // ----- One upload -----

  /** An accepted upload is written exactly when no filing statement sees one filing twice, and the
      written tables hold the ownership graph that was validated. */
  lemma AcceptedWrite(t: Tables, upload: Upload, limits: Limits)
    requires limits.chunkSize > 0 && WellFormed(t) && SheetsAccepted(t, upload.sheets, upload.today, limits.maxRows)
    ensures var batch := BatchOf(upload.sheets);
      var after := WriteBatch(t, batch, limits.chunkSize);
      && CleanBatch(batch) && EntitiesWritable(t, batch.entityRows)
      && (after.Some? <==> FilingsWritable(batch, limits.chunkSize))
      && (after.Some? ==> WellFormed(after.value) && ShareMap(after.value) == SharesAfter(t, upload.sheets))
  {
    var sheets := upload.sheets;
    var batch := BatchOf(sheets);
    AcceptedIsClean(sheets, upload.today, limits.maxRows);
    AcceptedIdsAreFree(t, sheets, upload.today, limits.maxRows);
    FreeIdsAreWritable(t, batch.entityRows);
    WriteBatchExact(t, batch, limits.chunkSize);
    AfterWriteKeepsInvariant(t, batch);
    MergeUploadedIsMerge(ShareMap(t), OwnershipRowsOf(sheets));
  }

  /** Pass 1 leaves the old names and those of its rows. */
  lemma StoredNamesExact(t: Tables, rows: seq<UploadEntityRow>, after: Tables)
    requires AllStored(t, rows, after)
    ensures SafeNames(after) <==> SafeNames(t) && forall r :: r in rows ==> SafeName(EntityKey(r))
  {
    if SafeNames(after) {
      forall r | r in rows
        ensures SafeName(EntityKey(r))
      {
        assert Stored(after, r);
      }
    }
    if SafeNames(t) && forall r :: r in rows ==> SafeName(EntityKey(r)) {
      forall k | k in after.entities
        ensures SafeName(k)
      {
        if k !in t.entities {
          var r :| r in rows && EntityKey(r) == k;
        }
      }
    }
  }

  lemma WrittenNamesExact(t: Tables, batch: UploadBatch)
    requires WellFormed(t) && CleanBatch(batch) && EntitiesWritable(t, batch.entityRows)
    ensures AfterWrite(t, batch).Some?
    ensures SafeNames(AfterWrite(t, batch).value)
       <==> SafeNames(t) && forall r :: r in batch.entityRows ==> SafeName(EntityKey(r))
  {
    AfterWriteKeepsInvariant(t, batch);
    var t1, t2 := TwoPassesReflect(t, batch);
    PutEntities(t, batch.entityRows);
    var t3 := WriteStages(t, batch, t1, t2);
    EdgesReflect(t2, EdgeRecords(AllIds(t1), batch.ownershipRows), t3);
    FilingsReflect(t3, FilingRecords(AllIds(t3), batch.filingRows), AfterWrite(t, batch).value);
    LinkDomesticKeepsKeys(t1, DomesticUpdates(AllIds(t1), batch.entityRows));
    StoredNamesExact(t, batch.entityRows, t1);
    assert SafeNames(AfterWrite(t, batch).value) <==> SafeNames(t1);
  }

  lemma {:induction false} LinkDomesticKeepsKeys(t: Tables, updates: seq<DomesticUpdate>)
    ensures LinkDomestic(t, updates).entities.Keys == t.entities.Keys
  {
    if updates != [] {
      LinkDomesticKeepsKeys(t, updates[..|updates| - 1]);
    }
  }

  /** Every upload has a next state. */
  lemma StepExists(t: Tables, upload: Upload, limits: Limits) returns (t': Tables)
    requires limits.chunkSize > 0 && EdgesResolve(t)
    ensures IsStep(t, upload, limits, t')
  {
    VerdictExists(t, upload.sheets, upload.today, limits.maxRows);
    t' := if MayPass(t, upload.sheets, upload.today, limits.maxRows) then Committed(t, upload, limits) else t;
  }

  /** Whatever the names are, every upload keeps the declared constraints. */
  lemma StepKeepsConstraints(t: Tables, upload: Upload, limits: Limits, t': Tables)
    requires limits.chunkSize > 0 && WellFormed(t) && IsStep(t, upload, limits, t')
    ensures WellFormed(t')
  {
    if t' != t {
      AcceptedWrite(t, upload, limits);
    }
  }

  /** Every upload, passed or not, written or not, keeps the invariant. */
  lemma StepKeepsInvariant(t: Tables, upload: Upload, limits: Limits, t': Tables)
    requires limits.chunkSize > 0 && Invariant(t) && SafeUpload(upload.sheets) && IsStep(t, upload, limits, t')
    ensures Invariant(t')
  {
    VerdictIsDetermined(t, upload.sheets, upload.today, limits.maxRows);
    if t' != t {
      AcceptedWrite(t, upload, limits);
      WriteBatchExact(t, BatchOf(upload.sheets), limits.chunkSize);
      WrittenNamesExact(t, BatchOf(upload.sheets));
    }
  }

  /** The batch was written on well-formed tables and the result is `after`. */
  ghost predicate Landed(t: Tables, batch: UploadBatch, after: Tables) {
    && WellFormed(t) && CleanBatch(batch) && EntitiesWritable(t, batch.entityRows)
    && AfterWrite(t, batch) == Some(after)
  }

  /** On a sound registry an acceptable upload that can be filed is written, whatever the validator does. */
  lemma AcceptedStep(t: Tables, upload: Upload, limits: Limits, t': Tables)
    requires limits.chunkSize > 0 && Invariant(t) && SafeUpload(upload.sheets) && IsStep(t, upload, limits, t')
    requires Accepted(t, upload.sheets, upload.today, limits.maxRows)
    requires FilingsWritable(BatchOf(upload.sheets), limits.chunkSize)
    ensures Landed(t, BatchOf(upload.sheets), t') && Invariant(t')
    ensures WriteBatch(t, BatchOf(upload.sheets), limits.chunkSize) == Some(t')
  {
    VerdictIsDetermined(t, upload.sheets, upload.today, limits.maxRows);
    AcceptedWrite(t, upload, limits);
    WriteBatchExact(t, BatchOf(upload.sheets), limits.chunkSize);
    StepKeepsInvariant(t, upload, limits, t');
  }

  lemma LandedShares(t: Tables, sheets: UploadSheets, after: Tables)
    requires Landed(t, BatchOf(sheets), after)
    ensures ShareMap(after) == SharesAfter(t, sheets)
  {
    AfterWriteKeepsInvariant(t, BatchOf(sheets));
    MergeUploadedIsMerge(ShareMap(t), OwnershipRowsOf(sheets));
  }

  lemma LandedEntities(t: Tables, batch: UploadBatch, after: Tables)
    requires Landed(t, batch, after)
    ensures EntitiesReflect(after, batch.entityRows)
  {
    WriteReflects(t, batch);
  }

  lemma EmptyShares()
    ensures ShareMap(EMPTY_TABLES) == map[]
  {
  }

  lemma AcceptedParts(t: Tables, sheets: UploadSheets, today: Date, maxRows: nat, shares: Shares)
    requires SheetsAccepted(t, sheets, today, maxRows) && SharesAfter(t, sheets) == shares && SoundShares(shares)
    ensures Accepted(t, sheets, today, maxRows)
  {
  }

  // ----- Whole runs -----

  lemma EmptyTablesInvariant()
    ensures Invariant(EMPTY_TABLES)
  {
    var shares := ShareMap(EMPTY_TABLES);
    assert shares == map[];
    NoEdgesAcyclic(shares.Keys);
    forall child
      ensures Total(shares, child) <= FULL_OWNERSHIP
    {
      assert SharesOf(shares, child) == {};
    }
  }

  lemma MomentKeeps(states: seq<Tables>, uploads: seq<Upload>, limits: Limits, n: nat)
    requires limits.chunkSize > 0 && IsHistory(states, uploads, limits) && 0 < n <= |uploads|
    ensures WellFormed(states[n - 1]) ==> WellFormed(states[n])
    ensures Invariant(states[n - 1]) && SafeUpload(uploads[n - 1].sheets) ==> Invariant(states[n])
  {
    assert StepAt(states, uploads, limits, n - 1);
    if WellFormed(states[n - 1]) {
      StepKeepsConstraints(states[n - 1], uploads[n - 1], limits, states[n]);
    }
    if Invariant(states[n - 1]) && SafeUpload(uploads[n - 1].sheets) {
      StepKeepsInvariant(states[n - 1], uploads[n - 1], limits, states[n]);
    }
  }

  lemma FirstState(states: seq<Tables>, uploads: seq<Upload>, limits: Limits)
    requires limits.chunkSize > 0 && IsHistory(states, uploads, limits)
    ensures Invariant(states[0])
  {
    EmptyTablesInvariant();
  }

  lemma {:induction false} RunKeepsInvariant(states: seq<Tables>, uploads: seq<Upload>, limits: Limits, n: nat)
    requires limits.chunkSize > 0 && IsHistory(states, uploads, limits) && n <= |uploads|
    requires forall u :: u in uploads ==> SafeUpload(u.sheets)
    ensures Invariant(states[n])
  {
    if n == 0 {
      FirstState(states, uploads, limits);
    } else {
      RunKeepsInvariant(states, uploads, limits, n - 1);
      assert uploads[n - 1] in uploads;
      MomentKeeps(states, uploads, limits, n);
    }
  }

  /** Whole-run safety: at every moment of every run from empty tables, each upload being judged by
      the validator's own report, ownership is acyclic and no child is owned beyond 100%. */
  lemma RunIsSafe(states: seq<Tables>, uploads: seq<Upload>, limits: Limits, n: nat)
    requires limits.chunkSize > 0 && IsHistory(states, uploads, limits) && n <= |uploads|
    requires forall u :: u in uploads ==> SafeUpload(u.sheets)
    ensures Acyclic(ShareMap(states[n]).Keys)
    ensures forall child :: Total(ShareMap(states[n]), child) <= 10000
  {
    RunKeepsInvariant(states, uploads, limits, n);
  }

  lemma {:induction false} RunKeepsConstraints(states: seq<Tables>, uploads: seq<Upload>, limits: Limits, n: nat)
    requires limits.chunkSize > 0 && IsHistory(states, uploads, limits) && n <= |uploads|
    ensures WellFormed(states[n])
  {
    if n == 0 {
      FirstState(states, uploads, limits);
    } else {
      RunKeepsConstraints(states, uploads, limits, n - 1);
      MomentKeeps(states, uploads, limits, n);
    }
  }

  // ----- Every sequence of uploads has a history -----

  lemma AsStep(states: seq<Tables>, uploads: seq<Upload>, limits: Limits,
               step: (Tables, Upload, Tables) -> bool, i: nat)
    requires limits.chunkSize > 0 && |states| == |uploads| + 1 && i < |uploads|
    requires step(states[i], uploads[i], states[i + 1]) ==> IsStep(states[i], uploads[i], limits, states[i + 1])
    requires step(states[i], uploads[i], states[i + 1])
    ensures StepAt(states, uploads, limits, i)
  {
  }

  lemma NextState(t: Tables, upload: Upload, limits: Limits) returns (t': Tables)
    requires limits.chunkSize > 0 && WellFormed(t)
    ensures IsStep(t, upload, limits, t') && WellFormed(t')
  {
    t' := StepExists(t, upload, limits);
    StepKeepsConstraints(t, upload, limits, t');
  }

  /** Every sequence of uploads has a history. */
  lemma HistoryExists(uploads: seq<Upload>, limits: Limits) returns (states: seq<Tables>)
    requires limits.chunkSize > 0
    ensures IsHistory(states, uploads, limits)
  {
    var step := (t: Tables, upload: Upload, t': Tables) => limits.chunkSize > 0 && IsStep(t, upload, limits, t');
    var kept := (t: Tables) => WellFormed(t);
    forall t, upload
      ensures CanStep(step, kept, t, upload)
    {
      if kept(t) {
        var t' := NextState(t, upload, limits);
        assert step(t, upload, t') && kept(t');
      }
    }
    EmptyTablesInvariant();
    states := ChainExists(step, kept, EMPTY_TABLES, uploads);
    forall i | 0 <= i < |uploads|
      ensures StepAt(states, uploads, limits, i)
    {
      AsStep(states, uploads, limits, step, i);
    }
  }

  /** For uploads with any names at all: at every moment of every run names, ids and business ids are
      unique, and domestic entities, edge ends and filing entities exist. */
  lemma RunIsConsistent(states: seq<Tables>, uploads: seq<Upload>, limits: Limits, n: nat)
    requires limits.chunkSize > 0 && IsHistory(states, uploads, limits) && n <= |uploads|
    ensures var t := states[n];
      && (forall k :: k in t.entities ==> Normalize(t.entities[k].entityName) == k)
      && (forall j, k :: j in t.entities && k in t.entities && j != k ==> t.entities[j].id != t.entities[k].id)
      && (forall j, k :: j in t.entities && k in t.entities && j != k && t.entities[j].businessId.Some? ==>
            t.entities[j].businessId != t.entities[k].businessId)
      && (forall k :: k in t.entities && t.entities[k].domesticEntityId.Some? ==>
            HasId(t, t.entities[k].domesticEntityId.value))
      && (forall e :: e in t.edges ==> HasId(t, e.0) && HasId(t, e.1) && 0 < t.edges[e] <= 10000)
      && (forall f :: f in t.filings ==> HasId(t, f.0))
  {
    RunKeepsConstraints(states, uploads, limits, n);
  }

  // ----- The service -----

  datatype UploadOutcome = Rejected(errors: seq<ValidationError>) | Failed | Written(counts: UploadCounts)

  datatype AnalyticsBase = AnalyticsBase(entities: map<string, EntityRecord>, edges: map<EdgeId, int>)

  class RegistryService {
    const db: Database
    const limits: Limits
    var analyticsBaseCache: Option<AnalyticsBase>

    constructor (db: Database, limits: Limits)
      ensures this.db == db && this.limits == limits && Valid()
    {
      this.db, this.limits, analyticsBaseCache := db, limits, None;
    }

    /** A filled cache holds the current tables. */
    ghost predicate Valid()
      reads this, db
    {
      analyticsBaseCache.Some? ==> analyticsBaseCache.value == AnalyticsBase(db.entities, db.edges)
    }

    /** The two tables of the analytics page, read once between writes. */
    method GetAnalyticsBase() returns (tables: AnalyticsBase)
      requires Valid()
      modifies this
      ensures Valid() && tables == AnalyticsBase(db.entities, db.edges)
    {
      if analyticsBaseCache.None? {
        analyticsBaseCache := Some(AnalyticsBase(db.entities, db.edges));
      }
      tables := analyticsBaseCache.value;
    }

    /** Called after a write that did not go through ProcessUpload; makes the cache valid again. */
    method InvalidateAnalyticsCache()
      modifies this`analyticsBaseCache
      ensures Valid() && analyticsBaseCache == None
    {
      analyticsBaseCache := None;
    }

    /** Runs the four passes in a transaction: a failing statement leaves the tables as they were. */
    method WriteInTransaction(v: ValidatedUpload) returns (result: Option<UploadCounts>)
      requires limits.chunkSize > 0 && KeysAreNames(db.Contents())
      modifies db
      ensures var batch := ToUploadBatch(v.entityRows, v.ownershipRows, v.filingRows);
        var after := WriteBatch(old(db.Contents()), batch, limits.chunkSize);
        && result == (if after.Some? then Some(CountsOf(batch)) else None)
        && db.Contents() == (if after.Some? then after.value else old(db.Contents()))
    {
      var before := db.Contents();
      result := WriteParsedRows(v.entityRows, v.ownershipRows, v.filingRows, db, limits.chunkSize);
      if result.None? {
        db.Restore(before);
      }
    }

    /** Writes a validated upload; the cache never survives a commit. */
    method Commit(v: ValidatedUpload, sheets: UploadSheets, today: Date) returns (outcome: UploadOutcome)
      requires limits.chunkSize > 0 && Valid() && WellFormed(db.Contents()) && HoldsAllRows(v, sheets)
      requires SheetsAccepted(db.Contents(), sheets, today, limits.maxRows)
      modifies this, db
      ensures Valid() && WellFormed(db.Contents())
      ensures outcome == if FilingsWritable(BatchOf(sheets), limits.chunkSize)
                         then Written(CountsOf(BatchOf(sheets))) else Failed
      ensures var after := WriteBatch(old(db.Contents()), BatchOf(sheets), limits.chunkSize);
        && (after.Some? <==> outcome.Written?)
        && db.Contents() == (if after.Some? then after.value else old(db.Contents()))
    {
      AcceptedWrite(db.Contents(), Upload(sheets, today), limits);
      var result := WriteInTransaction(v);
      if result.None? {
        return Failed;
      }
      analyticsBaseCache := None;
      outcome := Written(result.value);
    }

    /** Validates, then writes everything or nothing: always a step of the run, and on a sound
        registry exactly the acceptable uploads pass. */
    method ProcessUpload(sheets: UploadSheets, today: Date) returns (outcome: UploadOutcome)
      requires limits.chunkSize > 0 && Valid() && WellFormed(db.Contents())
      modifies this, db
      ensures Valid() && WellFormed(db.Contents())
      ensures IsStep(old(db.Contents()), Upload(sheets, today), limits, db.Contents())
      ensures !outcome.Written? ==> db.Contents() == old(db.Contents())
      ensures outcome.Rejected? ==> outcome.errors != [] && MayFail(old(db.Contents()), sheets, today, limits.maxRows)
      ensures !outcome.Rejected? ==>
        && MayPass(old(db.Contents()), sheets, today, limits.maxRows)
        && outcome == if FilingsWritable(BatchOf(sheets), limits.chunkSize) then Written(CountsOf(BatchOf(sheets)))
                      else Failed
      ensures outcome.Written? ==>
        WriteBatch(old(db.Contents()), BatchOf(sheets), limits.chunkSize) == Some(db.Contents())
      ensures Invariant(old(db.Contents())) && SafeUpload(sheets) ==>
        && Invariant(db.Contents())
        && (outcome.Rejected? <==> !Accepted(old(db.Contents()), sheets, today, limits.maxRows))
    {
      ghost var t, upload := db.Contents(), Upload(sheets, today);
      var v := ValidateUpload(db, sheets, today, limits.maxRows);
      if |v.errors| > 0 {
        outcome := Rejected(v.errors);
      } else {
        outcome := Commit(v, sheets, today);
      }
      if Invariant(t) && SafeUpload(sheets) {
        VerdictIsDetermined(t, sheets, today, limits.maxRows);
        StepKeepsInvariant(t, upload, limits, db.Contents());
      }
    }
  }
}
