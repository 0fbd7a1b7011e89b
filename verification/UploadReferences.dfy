/** What the rows of a clean upload refer to, said of the cells of its own entities sheet. */
module UploadReferences {
  import opened Collections
  import opened Dates
  import opened Names
  import opened SheetChecks
  import opened UploadAcceptance
  import opened UploadValidation

  ghost predicate IsNamed(row: E.RawEntityRow, cell: string) {
    Normalize(row.entityName) == Normalize(cell)
  }

  /** Distinct names make the row of a name unique. */
  lemma OnlyRowNamed(sheets: UploadSheets, today: Date, i: nat, j: nat)
    requires sheets.entities.Some? && E.SheetClean(sheets.entities.value, today)
    requires i < |EntityRowsOf(sheets)| && j < |EntityRowsOf(sheets)|
    requires NameOf(EntityRowsOf(sheets)[i]) == NameOf(EntityRowsOf(sheets)[j])
    ensures i == j
  {
    EntityNames(sheets, i);
    EntityNames(sheets, j);
  }

  /** The lookups by name find the columns of the row with that name. */
  lemma LookupsFind(sheets: UploadSheets, today: Date, i: nat)
    requires sheets.entities.Some? && E.SheetClean(sheets.entities.value, today) && i < |sheets.entities.value|
    ensures var row, name := EntityRowsOf(sheets)[i], Normalize(sheets.entities.value[i].entityName);
      && name in TypesOf(EntityRowsOf(sheets)) && name in JurisdictionsOf(EntityRowsOf(sheets))
      && TypesOf(EntityRowsOf(sheets))[name] == row.registrationType
      && JurisdictionsOf(EntityRowsOf(sheets))[name] == row.jurisdiction
  {
    var rows := EntityRowsOf(sheets);
    EntityNames(sheets, i);
    assert rows[i] in rows;
    forall j | i < j < |rows|
      ensures NameOf(rows[j]) != NameOf(rows[i])
    {
      if NameOf(rows[j]) == NameOf(rows[i]) {
        OnlyRowNamed(sheets, today, i, j);
      }
    }
    OverlayLast(NameOf, TypeOfRow, rows, i);
    OverlayLast(NameOf, JurisdictionOfRow, rows, i);
  }

  /** A name that is looked up with success is that of a row. */
  lemma LookedUpIsRow(sheets: UploadSheets, name: string) returns (i: nat)
    requires name in TypesOf(EntityRowsOf(sheets)) || name in JurisdictionsOf(EntityRowsOf(sheets))
    ensures i < |EntityRowsOf(sheets)| && Normalize(sheets.entities.value[i].entityName) == name
  {
    var rows := EntityRowsOf(sheets);
    OverlayKeys(NameOf, TypeOfRow, rows, name);
    OverlayKeys(NameOf, JurisdictionOfRow, rows, name);
    i :| 0 <= i < |rows| && NameOf(rows[i]) == name;
    EntityNames(sheets, i);
  }

  ghost predicate IsEntityRow(row: E.RawEntityRow, cell: string) {
    IsNamed(row, cell) && Trim(row.registrationType) == "Entity"
  }

  /** An end of an edge passes exactly when some row of the same upload registers that name as an
      Entity. */
  lemma EndCleanExact(sheets: UploadSheets, today: Date, cell: string)
    requires sheets.entities.Some? && E.SheetClean(sheets.entities.value, today)
    ensures O.EndClean(cell, TypesOf(EntityRowsOf(sheets))) <==>
      exists d :: d in sheets.entities.value && IsEntityRow(d, cell)
  {
    var raw, name := sheets.entities.value, Normalize(cell);
    NormalizeBlank(cell);
    if name in TypesOf(EntityRowsOf(sheets)) {
      var i := LookedUpIsRow(sheets, name);
      LookupsFind(sheets, today, i);
      assert raw[i] in raw && E.RowClean(raw[i], today);
    }
    if d :| d in raw && IsEntityRow(d, cell) {
      var i :| 0 <= i < |raw| && raw[i] == d;
      LookupsFind(sheets, today, i);
      EntityNames(sheets, i);
    }
  }

  ghost predicate IsEntityIn(row: E.RawEntityRow, cell: string, jurisdiction: string) {
    IsNamed(row, cell) && Trim(row.jurisdiction) == Trim(jurisdiction)
  }

  /** The entity of a filing passes exactly when some row of the same upload has that name and the
      jurisdiction of the filing. */
  lemma FiledEntityExact(sheets: UploadSheets, today: Date, row: F.RawFilingRow)
    requires sheets.entities.Some? && E.SheetClean(sheets.entities.value, today)
    ensures F.EntityClean(row, JurisdictionsOf(EntityRowsOf(sheets))) <==>
      exists d :: d in sheets.entities.value && IsEntityIn(d, row.entityName, row.jurisdiction)
  {
    var raw, name := sheets.entities.value, Normalize(row.entityName);
    NormalizeBlank(row.entityName);
    if name in JurisdictionsOf(EntityRowsOf(sheets)) {
      var i := LookedUpIsRow(sheets, name);
      LookupsFind(sheets, today, i);
      assert raw[i] in raw;
    }
    if d :| d in raw && IsEntityIn(d, row.entityName, row.jurisdiction) {
      var i :| 0 <= i < |raw| && raw[i] == d;
      LookupsFind(sheets, today, i);
      EntityNames(sheets, i);
      SameTrimSameVerdict(d.jurisdiction, row.jurisdiction);
    }
  }

  lemma SameTrimSameVerdict(a: string, b: string)
    requires Trim(a) == Trim(b)
    ensures IsJurisdiction(a) <==> IsJurisdiction(b)
  {
  }
}
