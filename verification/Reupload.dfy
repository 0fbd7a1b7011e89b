/** Uploading the same files again: they pass again, and the tables stay as they are. */
module Reupload {
  import opened Dates
  import opened Idempotence
  import opened MergedGraph
  import opened Names
  import opened Options
  import opened Registry
  import opened SheetChecks
  import opened StoreInvariant
  import opened Tables
  import opened UploadAcceptance
  import opened UploadTypes
  import opened UploadValidation
  import opened UploadWriter
  import opened WriteTheorems

  // ----- A clean sheet stays clean on later days -----

  /** The days on which the check runs. */
  ghost predicate Later(today: Date, later: Date) {
    today <= later && 0 <= CivilFromDay(today).year <= 9999 && 0 <= CivilFromDay(later).year <= 9999
  }

  lemma PastStaysPast(cell: string, today: Date, later: Date)
    requires Later(today, later) && PastDateClean(cell, today)
    ensures PastDateClean(cell, later)
  {
    if !IsBlank(cell) {
      var date := ParseDate(cell).value;
      ParsedYear(cell);
      FutureIsLater(date, today);
      FutureIsLater(date, later);
    }
  }

  lemma EntityRowStaysClean(row: E.RawEntityRow, today: Date, later: Date)
    requires Later(today, later) && E.RowClean(row, today)
    ensures E.RowClean(row, later)
  {
    PastStaysPast(row.formationDate, today, later);
  }

  lemma FilingRowStaysClean(row: F.RawFilingRow, jurisdictions: map<string, string>, today: Date, later: Date)
    requires Later(today, later) && F.RowClean(row, jurisdictions, today)
    ensures F.RowClean(row, jurisdictions, later)
  {
    PastStaysPast(row.filedDate, today, later);
  }

  lemma EntitiesStayClean(rows: seq<E.RawEntityRow>, today: Date, later: Date)
    requires Later(today, later) && E.SheetClean(rows, today)
    ensures E.SheetClean(rows, later)
  {
    forall r | r in rows
      ensures E.RowClean(r, later)
    {
      EntityRowStaysClean(r, today, later);
    }
  }

  lemma FilingsStayClean(rows: seq<F.RawFilingRow>, jurisdictions: map<string, string>, today: Date, later: Date)
    requires Later(today, later) && F.SheetClean(rows, jurisdictions, today)
    ensures F.SheetClean(rows, jurisdictions, later)
  {
    forall r | r in rows
      ensures F.RowClean(r, jurisdictions, later)
    {
      FilingRowStaysClean(r, jurisdictions, today, later);
    }
  }

  lemma SheetsStayClean(sheets: UploadSheets, today: Date, later: Date, maxRows: nat)
    requires Later(today, later) && SheetsClean(sheets, today, maxRows)
    ensures SheetsClean(sheets, later, maxRows)
  {
    EntitiesStayClean(sheets.entities.value, today, later);
    FilingsStayClean(sheets.filings.value, JurisdictionsOf(EntityRowsOf(sheets)), today, later);
  }

  // ----- The second upload -----

  lemma OwnIdsAreFree(t: Tables, rows: seq<EntityRow>)
    requires WellFormed(t) && forall i :: 0 <= i < |rows| ==> Stored(t, ToUploadEntity(rows[i]))
    ensures forall r :: r in rows ==> !TakenByOther(t, r)
  {
    forall r | r in rows
      ensures !TakenByOther(t, r)
    {
      var i :| 0 <= i < |rows| && rows[i] == r;
      PutStoredEntity(t, ToUploadEntity(r));
      BusinessIdsFreeExact(t, r);
    }
  }

  lemma StoredRows(t: Tables, sheets: UploadSheets)
    requires EntitiesReflect(t, BatchOf(sheets).entityRows)
    ensures var rows := EntityRowsOf(sheets);
      forall i :: 0 <= i < |rows| ==> Stored(t, ToUploadEntity(rows[i]))
  {
    var rows := EntityRowsOf(sheets);
    forall i | 0 <= i < |rows|
      ensures Stored(t, ToUploadEntity(rows[i]))
    {
      assert BatchOf(sheets).entityRows[i] in BatchOf(sheets).entityRows;
    }
  }

  lemma AcceptedAgain(t1: Tables, sheets: UploadSheets, later: Date, limits: Limits)
    requires limits.chunkSize > 0 && WellFormed(t1) && EntitiesReflect(t1, BatchOf(sheets).entityRows)
    requires SoundShares(ShareMap(t1)) && SheetsClean(sheets, later, limits.maxRows)
    requires WriteBatch(t1, BatchOf(sheets), limits.chunkSize) == Some(t1)
    ensures Accepted(t1, sheets, later, limits.maxRows)
  {
    StoredRows(t1, sheets);
    OwnIdsAreFree(t1, EntityRowsOf(sheets));
    AcceptedWrite(t1, Upload(sheets, later), limits);
  }

  /** Whatever the names and whatever is stored: once an upload has passed, uploading the same files
      again leaves the tables exactly as they are, whether they pass or not. */
  lemma ReuploadChangesNothing(t: Tables, sheets: UploadSheets, today: Date, later: Date, limits: Limits,
                               t1: Tables, t2: Tables)
    requires limits.chunkSize > 0 && WellFormed(t) && MayPass(t, sheets, today, limits.maxRows)
    requires t1 == Committed(t, Upload(sheets, today), limits)
    requires IsStep(t1, Upload(sheets, later), limits, t2)
    ensures t2 == t1
  {
    AcceptedWrite(t, Upload(sheets, today), limits);
    if WriteBatch(t, BatchOf(sheets), limits.chunkSize).Some? {
      WriteIsIdempotent(t, BatchOf(sheets), limits.chunkSize);
    }
  }

  /** On a sound registry an upload that was written is accepted again on any later day. */
  lemma ReuploadIsAccepted(t: Tables, sheets: UploadSheets, today: Date, later: Date, limits: Limits, t1: Tables)
    requires limits.chunkSize > 0 && Invariant(t) && SafeUpload(sheets) && Later(today, later)
    requires Accepted(t, sheets, today, limits.maxRows) && FilingsWritable(BatchOf(sheets), limits.chunkSize)
    requires IsStep(t, Upload(sheets, today), limits, t1)
    ensures Accepted(t1, sheets, later, limits.maxRows)
  {
    AcceptedStep(t, Upload(sheets, today), limits, t1);
    LandedEntities(t, BatchOf(sheets), t1);
    WriteIsIdempotent(t, BatchOf(sheets), limits.chunkSize);
    SheetsStayClean(sheets, today, later, limits.maxRows);
    AcceptedAgain(t1, sheets, later, limits);
  }
}
