/** From the cells of an uploaded sheet to the columns of the tables. */
module StoredCells {
  import opened Collections
  import opened Dates
  import opened Names
  import opened Options
  import opened SheetChecks
  import opened StoreInvariant
  import opened Tables
  import opened UploadAcceptance
  import opened UploadTypes
  import opened UploadValidation
  import opened UploadWriter
  import opened WrittenColumns

  // ----- One cell -----

  /** The trimmed text of a cell, or nothing for a blank one. */
  ghost predicate TextKept(stored: Option<string>, cell: string) {
    stored == if Trim(cell) == "" then None else Some(Trim(cell))
  }

  /** A text of the ISO form for the day that the cell names. */
  ghost predicate SameDay(text: string, cell: string) {
    IsIsoShape(text) && ParseDate(text).Some? && ParseDate(text) == ParseDate(cell)
  }

  ghost predicate DateKept(stored: Option<string>, cell: string) {
    if Trim(cell) == "" then stored == None else stored.Some? && SameDay(stored.value, cell)
  }

  lemma PrintedSameDay(cell: string)
    requires ParseDate(cell).Some?
    ensures SameDay(ToDateOnlyString(ParseDate(cell).value), cell)
  {
    ParsedYear(cell);
    ParseOfPrint(ParseDate(cell).value);
  }

  lemma DateIsKept(cell: string)
    requires IsBlank(cell) || ParseDate(cell).Some?
    ensures DateKept(PrintOptional(OptionalDate(cell)), cell)
  {
    if !IsBlank(cell) {
      PrintedSameDay(cell);
    }
  }

  // ----- entities.csv -----

  ghost predicate DetailsKept(d: EntityDetails, row: E.RawEntityRow) {
    && d.jurisdiction == Trim(row.jurisdiction) && d.entityType == Trim(row.entityType)
    && d.entityStatus == Trim(row.entityStatus) && TextKept(d.globalRegion, row.globalRegion)
    && DateKept(d.statusDate, row.statusDate) && DateKept(d.formationDate, row.formationDate)
  }

  ghost predicate RecordKept(e: EntityRecord, row: E.RawEntityRow) {
    && e.entityName == Trim(row.entityName)
    && Trim(row.registrationType) == (match e.registrationType case FQ => "FQ" case Entity => "Entity")
    && TextKept(e.businessId, row.businessId) && DetailsKept(e.details, row)
  }

  /** The record under the name in the row has each cell in its own column, and an FQ points at the
      entity named in its Domestic Entity cell. */
  ghost predicate EntityKept(t: Tables, row: E.RawEntityRow) {
    var k := Normalize(row.entityName);
    && k in t.entities && RecordKept(t.entities[k], row)
    && (Trim(row.registrationType) == "FQ" ==> PointsAt(t, k, Normalize(row.domesticEntity)))
  }

  lemma DetailsAreKept(row: E.RawEntityRow, today: Date)
    requires E.RowClean(row, today)
    ensures DetailsKept(ToUploadEntity(E.Candidate(row)).details, row)
  {
    DateIsKept(row.statusDate);
    DateIsKept(row.formationDate);
  }

  lemma EntityIsKept(t: Tables, row: E.RawEntityRow, today: Date)
    requires E.RowClean(row, today) && EntityStored(t, ToUploadEntity(E.Candidate(row)))
    ensures EntityKept(t, row)
  {
    DetailsAreKept(row, today);
    NormalizeOfTrim(row.entityName);
    NormalizeOfTrim(row.domesticEntity);
  }

  // ----- ownership.csv -----

  /** The edge between the two named entities has the percentage in the row. */
  ghost predicate OwnershipKept(t: Tables, row: O.RawOwnershipRow) {
    var p, c := Normalize(row.parentEntity), Normalize(row.childEntity);
    && p in t.entities && c in t.entities
    && var e := (t.entities[p].id, t.entities[c].id);
       e in t.edges && 0 <= t.edges[e] && O.ParsePercent(Trim(row.ownershipPct)) == Some(t.edges[e])
  }

  lemma OwnershipIsKept(t: Tables, row: O.RawOwnershipRow, types: map<string, RegistrationType>)
    requires O.RowClean(row, types) && EdgeStored(t, ToUploadOwnership(O.Candidate(row)))
    ensures OwnershipKept(t, row)
  {
    NormalizeOfTrim(row.parentEntity);
    NormalizeOfTrim(row.childEntity);
  }

  // ----- filings.csv -----

  ghost predicate ContentKept(c: FilingContent, row: F.RawFilingRow) {
    && c.jurisdiction == Trim(row.jurisdiction) && c.status == Trim(row.status)
    && TextKept(c.filingAuthority, row.filingAuthority) && DateKept(c.filedDate, row.filedDate)
  }

  /** The filing of the named entity, of the type and due on the day in the row, has its content. */
  ghost predicate FilingKept(t: Tables, row: F.RawFilingRow) {
    var k := Normalize(row.entityName);
    && k in t.entities
    && exists due :: SameDay(due, row.dueDate) && FilingKeptUnder(t, (t.entities[k].id, Trim(row.filingType), due), row)
  }

  ghost predicate FilingKeptUnder(t: Tables, f: FilingId, row: F.RawFilingRow) {
    f in t.filings && ContentKept(t.filings[f], row)
  }

  /** The same entity, filing type and day. */
  ghost predicate SameObligation(a: F.RawFilingRow, b: F.RawFilingRow) {
    && Normalize(a.entityName) == Normalize(b.entityName) && Trim(a.filingType) == Trim(b.filingType)
    && ParseDate(a.dueDate) == ParseDate(b.dueDate)
  }

  ghost predicate IsLastOfKind(rows: seq<F.RawFilingRow>, i: nat)
    requires i < |rows|
  {
    forall j :: i < j < |rows| ==> !SameObligation(rows[i], rows[j])
  }

  lemma FilingIsKept(t: Tables, row: F.RawFilingRow, jurisdictions: map<string, string>, today: Date)
    requires F.RowClean(row, jurisdictions, today) && FilingStored(t, ToUploadFiling(F.Candidate(row)))
    ensures FilingKept(t, row)
  {
    NormalizeOfTrim(row.entityName);
    PrintedSameDay(row.dueDate);
    DateIsKept(row.filedDate);
    var f := (t.entities[Normalize(row.entityName)].id, Trim(row.filingType),
              ToDateOnlyString(ParseDate(row.dueDate).value));
    assert FilingKeptUnder(t, f, row);
  }

  lemma SameRowSameObligation(a: F.RawFilingRow, b: F.RawFilingRow, jurisdictions: map<string, string>, today: Date)
    requires F.RowClean(a, jurisdictions, today) && F.RowClean(b, jurisdictions, today)
    requires SameFilingRow(ToUploadFiling(F.Candidate(a)), ToUploadFiling(F.Candidate(b)))
    ensures SameObligation(a, b)
  {
    NormalizeOfTrim(a.entityName);
    NormalizeOfTrim(b.entityName);
    PrintedSameDay(a.dueDate);
    PrintedSameDay(b.dueDate);
  }

  lemma LastOfFilings(rows: seq<F.RawFilingRow>, jurisdictions: map<string, string>, today: Date, i: nat)
    requires F.RowsClean(rows, jurisdictions, today) && i < |rows| && IsLastOfKind(rows, i)
    ensures IsLastOfFiling(Map(ToUploadFiling, Map(F.Candidate, rows)), i)
  {
    var stored := Map(ToUploadFiling, Map(F.Candidate, rows));
    forall j | i < j < |rows|
      ensures !SameFilingRow(stored[i], stored[j])
    {
      assert rows[i] in rows && rows[j] in rows && !SameObligation(rows[i], rows[j]);
      if SameFilingRow(stored[i], stored[j]) {
        SameRowSameObligation(rows[i], rows[j], jurisdictions, today);
      }
    }
  }

  // ----- A whole upload -----

  /** Every cell of the three sheets is in its own column; of filing rows about one filing, the last. */
  ghost predicate AllCellsKept(t: Tables, sheets: UploadSheets)
    requires sheets.entities.Some? && sheets.ownership.Some? && sheets.filings.Some?
  {
    && (forall r :: r in sheets.entities.value ==> EntityKept(t, r))
    && (forall r :: r in sheets.ownership.value ==> OwnershipKept(t, r))
    && (forall i :: 0 <= i < |sheets.filings.value| && IsLastOfKind(sheets.filings.value, i) ==>
          FilingKept(t, sheets.filings.value[i]))
  }

  lemma EntitiesAreKept(t: Tables, rows: seq<E.RawEntityRow>, today: Date)
    requires E.SheetClean(rows, today)
    requires forall r :: r in Map(ToUploadEntity, Map(E.Candidate, rows)) ==> EntityStored(t, r)
    ensures forall r :: r in rows ==> EntityKept(t, r)
  {
    forall r | r in rows
      ensures EntityKept(t, r)
    {
      var i :| 0 <= i < |rows| && rows[i] == r;
      assert Map(ToUploadEntity, Map(E.Candidate, rows))[i] == ToUploadEntity(E.Candidate(r));
      EntityIsKept(t, r, today);
    }
  }

  lemma OwnershipsAreKept(t: Tables, rows: seq<O.RawOwnershipRow>, types: map<string, RegistrationType>)
    requires O.SheetClean(rows, types)
    requires forall r :: r in Map(ToUploadOwnership, Map(O.Candidate, rows)) ==> EdgeStored(t, r)
    ensures forall r :: r in rows ==> OwnershipKept(t, r)
  {
    forall r | r in rows
      ensures OwnershipKept(t, r)
    {
      var i :| 0 <= i < |rows| && rows[i] == r;
      assert Map(ToUploadOwnership, Map(O.Candidate, rows))[i] == ToUploadOwnership(O.Candidate(r));
      OwnershipIsKept(t, r, types);
    }
  }

  lemma FilingsAreKept(t: Tables, rows: seq<F.RawFilingRow>, jurisdictions: map<string, string>, today: Date, i: nat)
    requires F.RowsClean(rows, jurisdictions, today) && i < |rows| && IsLastOfKind(rows, i)
    requires var stored := Map(ToUploadFiling, Map(F.Candidate, rows));
      IsLastOfFiling(stored, i) ==> FilingStored(t, stored[i])
    ensures FilingKept(t, rows[i])
  {
    LastOfFilings(rows, jurisdictions, today, i);
    assert rows[i] in rows;
    FilingIsKept(t, rows[i], jurisdictions, today);
  }

  /** An accepted upload that is written has every cell in its own column. */
  lemma WrittenCells(t: Tables, sheets: UploadSheets, today: Date, maxRows: nat, chunkSize: nat, after: Tables)
    requires chunkSize > 0 && WellFormed(t) && SheetsClean(sheets, today, maxRows)
    requires WriteBatch(t, BatchOf(sheets), chunkSize) == Some(after)
    ensures AllCellsKept(after, sheets)
  {
    AcceptedIsClean(sheets, today, maxRows);
    WrittenByColumns(t, BatchOf(sheets), chunkSize, after);
    EntitiesAreKept(after, sheets.entities.value, today);
    OwnershipsAreKept(after, sheets.ownership.value, TypesOf(EntityRowsOf(sheets)));
    forall i | 0 <= i < |sheets.filings.value| && IsLastOfKind(sheets.filings.value, i)
      ensures FilingKept(after, sheets.filings.value[i])
    {
      FilingsAreKept(after, sheets.filings.value, JurisdictionsOf(EntityRowsOf(sheets)), today, i);
    }
  }
}
