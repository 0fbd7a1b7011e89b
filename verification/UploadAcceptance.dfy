/** ValidationService.validateUpload: when the error list is empty, and what that guarantees. */
module UploadAcceptance {
  import opened Collections
  import opened CycleDetection
  import opened Dates
  import opened GraphValidator
  import opened MergedGraph
  import opened Names
  import opened Options
  import opened SheetChecks
  import opened StoreInvariant
  import opened SyncWriter
  import opened Tables
  import opened Upserts
  import opened UploadTypes
  import opened UploadValidation
  import opened UploadWriter
  import opened WriteTheorems

  function NameOf(row: EntityRow): string {
    Normalize(row.entityName)
  }

  function TypeOfRow(row: EntityRow): RegistrationType {
    row.registrationType
  }

  function JurisdictionOfRow(row: EntityRow): string {
    row.jurisdiction
  }

  function TypesOf(rows: seq<EntityRow>): map<string, RegistrationType> {
    Overlay(NameOf, TypeOfRow, rows)
  }

  function JurisdictionsOf(rows: seq<EntityRow>): map<string, string> {
    Overlay(NameOf, JurisdictionOfRow, rows)
  }

  function EntityRowsOf(sheets: UploadSheets): seq<EntityRow> {
    if sheets.entities.Some? then Map(E.Candidate, sheets.entities.value) else []
  }

  function OwnershipRowsOf(sheets: UploadSheets): seq<OwnershipRow> {
    if sheets.ownership.Some? then Map(O.Candidate, sheets.ownership.value) else []
  }

  function FilingRowsOf(sheets: UploadSheets): seq<FilingRow> {
    if sheets.filings.Some? then Map(F.Candidate, sheets.filings.value) else []
  }

  function BatchOf(sheets: UploadSheets): UploadBatch {
    ToUploadBatch(EntityRowsOf(sheets), OwnershipRowsOf(sheets), FilingRowsOf(sheets))
  }

  predicate Usable<R>(sheet: Option<seq<R>>, maxRows: nat) {
    sheet.Some? && |sheet.value| <= maxRows
  }

  /** The checks that look at the upload alone. */
  ghost predicate SheetsClean(sheets: UploadSheets, today: Date, maxRows: nat) {
    && Usable(sheets.entities, maxRows) && Usable(sheets.ownership, maxRows) && Usable(sheets.filings, maxRows)
    && E.SheetClean(sheets.entities.value, today)
    && O.SheetClean(sheets.ownership.value, TypesOf(EntityRowsOf(sheets)))
    && F.SheetClean(sheets.filings.value, JurisdictionsOf(EntityRowsOf(sheets)), today)
  }

  /** All checks but the one on the ownership graph. */
  ghost predicate SheetsAccepted(t: Tables, sheets: UploadSheets, today: Date, maxRows: nat) {
    SheetsClean(sheets, today, maxRows) && forall r :: r in EntityRowsOf(sheets) ==> !TakenByOther(t, r)
  }

  /** The ownership graph after this upload. */
  ghost function SharesAfter(t: Tables, sheets: UploadSheets): Shares {
    MergeShares(ShareMap(t), OwnershipRowsOf(sheets))
  }

  ghost predicate Accepted(t: Tables, sheets: UploadSheets, today: Date, maxRows: nat) {
    SheetsAccepted(t, sheets, today, maxRows) && SoundShares(SharesAfter(t, sheets))
  }

  // ----- What acceptance guarantees of the batch -----

  lemma EntityNames(sheets: UploadSheets, i: nat)
    requires i < |EntityRowsOf(sheets)|
    ensures var cell := sheets.entities.value[i].entityName;
      && EntityKey(BatchOf(sheets).entityRows[i]) == NameOf(EntityRowsOf(sheets)[i]) == Normalize(cell)
      && (EntityKey(BatchOf(sheets).entityRows[i]) == "" <==> IsBlank(cell))
  {
    NormalizeOfTrim(sheets.entities.value[i].entityName);
    NormalizeBlank(sheets.entities.value[i].entityName);
  }

  lemma EntitiesAreDistinct(sheets: UploadSheets, today: Date)
    requires sheets.entities.Some? && E.SheetClean(sheets.entities.value, today)
    ensures DistinctEntities(BatchOf(sheets).entityRows)
  {
    var raw, rows := sheets.entities.value, BatchOf(sheets).entityRows;
    forall i | 0 <= i < |rows|
      ensures EntityKey(rows[i]) != "" && EntityKey(rows[i]) == Normalize(raw[i].entityName)
      ensures rows[i].businessId == OptionalText(raw[i].businessId)
    {
      assert raw[i] in raw;
      EntityNames(sheets, i);
    }
  }

  lemma KeyAt(sheets: UploadSheets, i: nat)
    requires i < |EntityRowsOf(sheets)|
    ensures IsKeyOf(BatchOf(sheets).entityRows, Normalize(sheets.entities.value[i].entityName))
  {
    EntityNames(sheets, i);
    assert BatchOf(sheets).entityRows[i] in BatchOf(sheets).entityRows;
  }

  lemma DomesticIsKey(sheets: UploadSheets, today: Date, i: nat)
    requires sheets.entities.Some? && E.SheetClean(sheets.entities.value, today) && i < |sheets.entities.value|
    requires BatchOf(sheets).entityRows[i].registrationType == FQ
    ensures var domestic := BatchOf(sheets).entityRows[i].domesticEntity;
      domestic.Some? && IsKeyOf(BatchOf(sheets).entityRows, Normalize(domestic.value))
  {
    var raw := sheets.entities.value;
    assert raw[i] in raw;
    var domestic := E.Candidate(raw[i]).domesticEntity;
    assert domestic.Some? && E.DomesticListed(raw, raw[i]);
    NormalizeOfTrim(raw[i].domesticEntity);
    var j :| 0 <= j < |raw| && E.IsDomestic(raw[i], raw[j]);
    KeyAt(sheets, j);
  }

  lemma NamedIsKey(sheets: UploadSheets, name: string)
    requires name in TypesOf(EntityRowsOf(sheets)) || name in JurisdictionsOf(EntityRowsOf(sheets))
    ensures IsKeyOf(BatchOf(sheets).entityRows, name)
  {
    var rows := EntityRowsOf(sheets);
    OverlayKeys(NameOf, TypeOfRow, rows, name);
    OverlayKeys(NameOf, JurisdictionOfRow, rows, name);
    var i :| 0 <= i < |rows| && NameOf(rows[i]) == name;
    EntityNames(sheets, i);
    KeyAt(sheets, i);
  }

  lemma OwnershipIsClean(sheets: UploadSheets, i: nat)
    requires sheets.ownership.Some? && O.SheetClean(sheets.ownership.value, TypesOf(EntityRowsOf(sheets)))
    requires i < |sheets.ownership.value|
    ensures var r := BatchOf(sheets).ownershipRows[i];
      && IsKeyOf(BatchOf(sheets).entityRows, PairOf(r).0) && IsKeyOf(BatchOf(sheets).entityRows, PairOf(r).1)
      && PairOf(r).0 != PairOf(r).1 && 0 < r.ownershipPct <= 10000
      && var raw := sheets.ownership.value[i];
         PairOf(r) == (Normalize(raw.parentEntity), Normalize(raw.childEntity))
  {
    var raw := sheets.ownership.value[i];
    assert raw in sheets.ownership.value;
    NormalizeOfTrim(raw.parentEntity);
    NormalizeOfTrim(raw.childEntity);
    NamedIsKey(sheets, Normalize(raw.parentEntity));
    NamedIsKey(sheets, Normalize(raw.childEntity));
  }

  lemma PairsAreDistinct(sheets: UploadSheets)
    requires sheets.ownership.Some? && O.SheetClean(sheets.ownership.value, TypesOf(EntityRowsOf(sheets)))
    ensures DistinctKeys(BatchOf(sheets).ownershipRows, PairOf)
  {
    var rows := BatchOf(sheets).ownershipRows;
    var raw := sheets.ownership.value;
    forall i, j | 0 <= i < j < |rows|
      ensures PairOf(rows[i]) != PairOf(rows[j])
    {
      OwnershipIsClean(sheets, i);
      OwnershipIsClean(sheets, j);
      assert !O.SameJoinedPair(raw[i], raw[j]);
    }
  }

  lemma FilingIsClean(sheets: UploadSheets, today: Date, i: nat)
    requires sheets.filings.Some? && F.SheetClean(sheets.filings.value, JurisdictionsOf(EntityRowsOf(sheets)), today)
    requires i < |sheets.filings.value|
    ensures IsKeyOf(BatchOf(sheets).entityRows, Normalize(BatchOf(sheets).filingRows[i].entityName))
  {
    var raw := sheets.filings.value[i];
    assert raw in sheets.filings.value;
    NormalizeOfTrim(raw.entityName);
    NamedIsKey(sheets, Normalize(raw.entityName));
  }

  lemma AllDomesticAreKeys(sheets: UploadSheets, today: Date)
    requires sheets.entities.Some? && E.SheetClean(sheets.entities.value, today)
    ensures var rows := BatchOf(sheets).entityRows;
      forall r :: r in rows && r.registrationType == FQ ==>
        r.domesticEntity.Some? && IsKeyOf(rows, Normalize(r.domesticEntity.value))
  {
    var rows := BatchOf(sheets).entityRows;
    forall r | r in rows && r.registrationType == FQ
      ensures r.domesticEntity.Some? && IsKeyOf(rows, Normalize(r.domesticEntity.value))
    {
      var i :| 0 <= i < |rows| && rows[i] == r;
      DomesticIsKey(sheets, today, i);
    }
  }

  lemma AllOwnershipIsClean(sheets: UploadSheets)
    requires sheets.ownership.Some? && O.SheetClean(sheets.ownership.value, TypesOf(EntityRowsOf(sheets)))
    ensures forall r :: r in BatchOf(sheets).ownershipRows ==> CleanOwnership(BatchOf(sheets).entityRows, r)
  {
    var rows := BatchOf(sheets).ownershipRows;
    forall r | r in rows
      ensures CleanOwnership(BatchOf(sheets).entityRows, r)
    {
      var i :| 0 <= i < |rows| && rows[i] == r;
      OwnershipIsClean(sheets, i);
    }
  }

  lemma AllFilingsAreClean(sheets: UploadSheets, today: Date)
    requires sheets.filings.Some? && F.SheetClean(sheets.filings.value, JurisdictionsOf(EntityRowsOf(sheets)), today)
    ensures var batch := BatchOf(sheets);
      forall r :: r in batch.filingRows ==> IsKeyOf(batch.entityRows, Normalize(r.entityName))
  {
    var rows := BatchOf(sheets).filingRows;
    forall r | r in rows
      ensures IsKeyOf(BatchOf(sheets).entityRows, Normalize(r.entityName))
    {
      var i :| 0 <= i < |rows| && rows[i] == r;
      FilingIsClean(sheets, today, i);
    }
  }

  /** No silent drops: every name an accepted upload mentions is a row of the same upload. */
  lemma AcceptedIsClean(sheets: UploadSheets, today: Date, maxRows: nat)
    requires SheetsClean(sheets, today, maxRows)
    ensures CleanBatch(BatchOf(sheets))
  {
    EntitiesAreDistinct(sheets, today);
    PairsAreDistinct(sheets);
    AllDomesticAreKeys(sheets, today);
    AllOwnershipIsClean(sheets);
    AllFilingsAreClean(sheets, today);
  }

  /** Against tables with their constraints, the database check decides whether ids are free. */
  lemma BusinessIdsFreeExact(t: Tables, row: EntityRow)
    requires KeysAreNames(t) && "" !in t.entities
    ensures !TakenByOther(t, row) <==> BusinessIdFree(t, ToUploadEntity(row))
  {
    forall k | k in t.entities
      ensures t.entities[k].entityName != ""
    {
      assert Normalize("") == "";
    }
  }

  lemma UntakenIdsAreFree(t: Tables, rows: seq<EntityRow>)
    requires KeysAreNames(t) && "" !in t.entities && forall r :: r in rows ==> !TakenByOther(t, r)
    ensures BusinessIdsFree(t, Map(ToUploadEntity, rows))
  {
    var mapped := Map(ToUploadEntity, rows);
    forall r | r in mapped
      ensures BusinessIdFree(t, r)
    {
      var i :| 0 <= i < |mapped| && mapped[i] == r;
      assert rows[i] in rows;
      BusinessIdsFreeExact(t, rows[i]);
    }
  }

  lemma AcceptedIdsAreFree(t: Tables, sheets: UploadSheets, today: Date, maxRows: nat)
    requires KeysAreNames(t) && "" !in t.entities && SheetsAccepted(t, sheets, today, maxRows)
    ensures BusinessIdsFree(t, BatchOf(sheets).entityRows)
  {
    UntakenIdsAreFree(t, EntityRowsOf(sheets));
  }

  // ----- The validator -----

  /** A sheet that is missing, unreadable or too long is one error and contributes no rows. */
  method UseSheet<R>(sheet: Option<seq<R>>, file: SheetFile, maxRows: nat)
    returns (rows: seq<R>, errors: seq<ValidationError>)
    ensures errors == [] <==> Usable(sheet, maxRows)
    ensures rows == if Usable(sheet, maxRows) then sheet.value else []
  {
    rows, errors := [], [];
    if sheet.None? {
      errors := [ValidationError(file, 1, WholeFile)];
    } else if |sheet.value| > maxRows {
      errors := [ValidationError(file, 1, WholeFile)];
    } else {
      rows := sheet.value;
    }
  }

  method ValidateEntities(sheet: Option<seq<E.RawEntityRow>>, today: Date, maxRows: nat)
    returns (errors: seq<ValidationError>, kept: seq<EntityRow>)
    ensures errors == [] <==> Usable(sheet, maxRows) && E.SheetClean(sheet.value, today)
    ensures errors == [] ==> kept == Map(E.Candidate, sheet.value)
  {
    var rows;
    rows, errors := UseSheet(sheet, EntitiesFile, maxRows);
    var more;
    more, kept := E.ValidateEntitiesSheet(rows, today);
    errors := errors + more;
    E.NoBadLinesExact(rows, today);
    NoLinesNoErrors(more);
    KeptAll(rows, E.LineOf, E.Candidate);
  }

  method ValidateOwnership(sheet: Option<seq<O.RawOwnershipRow>>, types: map<string, RegistrationType>, maxRows: nat)
    returns (errors: seq<ValidationError>, kept: seq<OwnershipRow>)
    ensures errors == [] <==> Usable(sheet, maxRows) && O.SheetClean(sheet.value, types)
    ensures errors == [] ==> kept == Map(O.Candidate, sheet.value)
  {
    var rows;
    rows, errors := UseSheet(sheet, OwnershipFile, maxRows);
    var more;
    more, kept := O.ValidateOwnershipSheet(rows, types);
    errors := errors + more;
    O.NoBadLinesExact(rows, types);
    NoLinesNoErrors(more);
    KeptAll(rows, O.LineOf, O.Candidate);
  }

  method ValidateFilings(sheet: Option<seq<F.RawFilingRow>>, jurisdictions: map<string, string>, today: Date,
                         maxRows: nat)
    returns (errors: seq<ValidationError>, kept: seq<FilingRow>)
    ensures errors == [] <==> Usable(sheet, maxRows) && F.SheetClean(sheet.value, jurisdictions, today)
    ensures errors == [] ==> kept == Map(F.Candidate, sheet.value)
  {
    var rows;
    rows, errors := UseSheet(sheet, FilingsFile, maxRows);
    var more;
    more, kept := F.ValidateFilingsSheet(rows, jurisdictions, today);
    errors := errors + more;
    F.NoBadLinesExact(rows, jurisdictions, today);
    NoLinesNoErrors(more);
    KeptAll(rows, F.LineOf, F.Candidate);
  }

  /** Every row of the three sheets was kept. */
  ghost predicate HoldsAllRows(v: ValidatedUpload, sheets: UploadSheets) {
    && v.entityRows == EntityRowsOf(sheets) && v.ownershipRows == OwnershipRowsOf(sheets)
    && v.filingRows == FilingRowsOf(sheets)
  }

  method ValidateSheets(sheets: UploadSheets, today: Date, maxRows: nat) returns (v: ValidatedUpload)
    ensures v.errors == [] <==> SheetsClean(sheets, today, maxRows)
    ensures v.errors == [] ==> HoldsAllRows(v, sheets)
  {
    var entityErrors, entityRows := ValidateEntities(sheets.entities, today, maxRows);
    var types, jurisdictions := TypesOf(entityRows), JurisdictionsOf(entityRows);
    var ownershipErrors, ownershipRows := ValidateOwnership(sheets.ownership, types, maxRows);
    var filingErrors, filingRows := ValidateFilings(sheets.filings, jurisdictions, today, maxRows);
    v := ValidatedUpload(entityErrors + ownershipErrors + filingErrors, entityRows, ownershipRows, filingRows);
  }

  /** No name of the upload clashes with the separator of the joined keys. */
  ghost predicate SafeUpload(sheets: UploadSheets) {
    forall r :: r in BatchOf(sheets).entityRows ==> SafeName(EntityKey(r))
  }

  lemma AcceptedRowsAreSafe(sheets: UploadSheets, today: Date, maxRows: nat)
    requires SheetsClean(sheets, today, maxRows) && SafeUpload(sheets)
    ensures SafeRows(OwnershipRowsOf(sheets))
  {
    var rows := OwnershipRowsOf(sheets);
    forall r | r in rows
      ensures SafeEdge(EdgeOf(r))
    {
      var i :| 0 <= i < |rows| && rows[i] == r;
      OwnershipIsClean(sheets, i);
      var p :| p in BatchOf(sheets).entityRows && EntityKey(p) == EdgeOf(r).0;
      var c :| c in BatchOf(sheets).entityRows && EntityKey(c) == EdgeOf(r).1;
    }
  }

  ghost predicate SafeStore(t: Tables) {
    SafeNames(t) && SoundShares(ShareMap(t))
  }

  /** A list of errors that the graph check may return, in whatever order it meets edges and nodes. */
  ghost predicate GraphErrors(t: Tables, rows: seq<OwnershipRow>, errors: seq<ValidationError>) {
    exists existing, order, flagged ::
      IsListing(t, existing, order) && IsGraphReport(rows, MergeRows(MergeExisting(existing), rows), flagged, errors)
  }

  /** Validation may end without an error, by the report of the graph check itself. */
  ghost predicate MayPass(t: Tables, sheets: UploadSheets, today: Date, maxRows: nat) {
    SheetsAccepted(t, sheets, today, maxRows) && GraphErrors(t, OwnershipRowsOf(sheets), [])
  }

  ghost predicate MayFail(t: Tables, sheets: UploadSheets, today: Date, maxRows: nat) {
    SheetsAccepted(t, sheets, today, maxRows) ==>
      exists errors :: errors != [] && GraphErrors(t, OwnershipRowsOf(sheets), errors)
  }

  /** Over a sound registry the graph check judges the registry's own graph merged with the upload. */
  lemma GraphVerdict(t: Tables, sheets: UploadSheets, today: Date, maxRows: nat, errors: seq<ValidationError>)
    requires SheetsClean(sheets, today, maxRows) && SafeUpload(sheets)
    requires WellFormed(t) && SafeStore(t) && GraphErrors(t, OwnershipRowsOf(sheets), errors)
    ensures errors == [] <==> SoundShares(SharesAfter(t, sheets))
  {
    var rows := OwnershipRowsOf(sheets);
    var existing, order, flagged :|
      IsListing(t, existing, order) && IsGraphReport(rows, MergeRows(MergeExisting(existing), rows), flagged, errors);
    AcceptedRowsAreSafe(sheets, today, maxRows);
    SharesAreSafe(AllIds(t), t.edges);
    ListingRepresents(t, existing, order);
    VerdictExact(ShareMap(t), MergeExisting(existing), rows, errors);
  }

  /** Over a sound registry the verdict is determined: the upload passes if and only if it is acceptable. */
  lemma VerdictIsDetermined(t: Tables, sheets: UploadSheets, today: Date, maxRows: nat)
    requires WellFormed(t) && SafeStore(t) && SafeUpload(sheets)
    ensures MayPass(t, sheets, today, maxRows) ==> Accepted(t, sheets, today, maxRows)
    ensures MayFail(t, sheets, today, maxRows) ==> !Accepted(t, sheets, today, maxRows)
  {
    if SheetsAccepted(t, sheets, today, maxRows) {
      forall errors | GraphErrors(t, OwnershipRowsOf(sheets), errors)
        ensures errors == [] <==> SoundShares(SharesAfter(t, sheets))
      {
        GraphVerdict(t, sheets, today, maxRows, errors);
      }
    }
  }

  /** Some report is always possible. */
  lemma GraphReportExists(t: Tables, rows: seq<OwnershipRow>) returns (errors: seq<ValidationError>)
    requires EdgesResolve(t)
    ensures GraphErrors(t, rows, errors)
  {
    var existing, order := ListingExists(t, t.edges.Keys);
    var merged := MergeRows(MergeExisting(existing), rows);
    var flagged := ReportExists(SplitEdges(merged.Keys));
    errors := CycleErrors(rows, flagged) + TotalErrors(rows, merged);
    assert IsListing(t, existing, order) && IsGraphReport(rows, merged, flagged, errors);
  }

  lemma VerdictExists(t: Tables, sheets: UploadSheets, today: Date, maxRows: nat)
    requires EdgesResolve(t)
    ensures MayPass(t, sheets, today, maxRows) || MayFail(t, sheets, today, maxRows)
  {
    var errors := GraphReportExists(t, OwnershipRowsOf(sheets));
  }

  /** Over a sound registry an acceptable upload can pass. */
  lemma AcceptedMayPass(t: Tables, sheets: UploadSheets, today: Date, maxRows: nat)
    requires WellFormed(t) && SafeStore(t) && SafeUpload(sheets) && Accepted(t, sheets, today, maxRows)
    ensures MayPass(t, sheets, today, maxRows)
  {
    VerdictExists(t, sheets, today, maxRows);
    VerdictIsDetermined(t, sheets, today, maxRows);
  }

  /** An empty error list means that every check passes, the ownership graph being judged by the
      check's own report on everything persisted merged with this upload. */
  method ValidateUpload(db: Database, sheets: UploadSheets, today: Date, maxRows: nat) returns (v: ValidatedUpload)
    requires WellFormed(db.Contents())
    ensures v.errors == [] ==> MayPass(db.Contents(), sheets, today, maxRows)
    ensures v.errors != [] ==> MayFail(db.Contents(), sheets, today, maxRows)
    ensures v.errors == [] ==> HoldsAllRows(v, sheets)
  {
    v := ValidateSheets(sheets, today, maxRows);
    var businessIdErrors := ValidateBusinessIdsAgainstDb(db, v.entityRows);
    var existingEdges := LoadExistingEdges(db);
    var graphErrors := ValidateOwnershipGraph(v.ownershipRows, existingEdges);
    assert v.errors == [] ==> GraphErrors(db.Contents(), OwnershipRowsOf(sheets), graphErrors);
    v := v.(errors := v.errors + businessIdErrors + graphErrors);
  }
}
