/** An upload that repeats a filing with its due date spelled in the other way: it is accepted, and it
    cannot be written. */
module RespelledUpload {
  import opened Collections
  import opened Dates
  import opened FilingSpellings
  import opened Names
  import opened Options
  import opened Registry
  import opened SampleUploads
  import opened SheetChecks
  import opened StoreInvariant
  import opened Tables
  import opened UploadAcceptance
  import opened UploadTypes
  import opened UploadValidation
  import opened UploadWriter
  import opened WriteTheorems

  function FilingCells(line: nat, name: string, dueDate: string): F.RawFilingRow {
    F.RawFilingRow(line, name, "Annual Report", "France", "", dueDate, "", "Not Started")
  }

  /** One entity, and one of its filings twice: the due date as YYYY-MM-DD and as MM/DD/YYYY. */
  function Respelled(name: string, day: Date): UploadSheets
    requires 100 <= CivilFromDay(day).year <= 9999
  {
    UploadSheets(Some(EntitySheet([name])), Some([]),
                 Some([FilingCells(2, name, ToDateOnlyString(day)), FilingCells(3, name, UsSpelling(day))]))
  }

  lemma OnlyName(name: string)
    requires IsKey(name)
    ensures AreKeys([name])
  {
  }

  lemma OverlayOne<R, K, V>(key: R -> K, value: R -> V, r: R)
    ensures Overlay(key, value, [r]) == map[key(r) := value(r)]
  {
    assert [r][..0] == [];
  }

  lemma SampleJurisdiction(line: nat, name: string)
    requires IsKey(name)
    ensures var r := E.Candidate(EntityCells(line, name)); NameOf(r) == name && r.jurisdiction == "France"
  {
    TrimmedStays("France");
  }

  lemma OneEntityRow(sheets: UploadSheets, name: string)
    requires sheets.entities == Some(EntitySheet([name]))
    ensures EntityRowsOf(sheets) == [E.Candidate(EntityCells(2, name))]
  {
    assert EntitySheet([name]) == [EntityCells(2, name)];
  }

  /** Filings of the entity are checked against its own jurisdiction. */
  lemma OneJurisdiction(sheets: UploadSheets, name: string)
    requires IsKey(name) && sheets.entities == Some(EntitySheet([name]))
    ensures var jurisdictions := JurisdictionsOf(EntityRowsOf(sheets));
      name in jurisdictions && jurisdictions[name] == "France"
  {
    OneEntityRow(sheets, name);
    SampleJurisdiction(2, name);
    OverlayOne(NameOf, JurisdictionOfRow, E.Candidate(EntityCells(2, name)));
  }

  lemma FilingTerms()
    ensures Trim("Annual Report") in F.FILING_TYPES && Trim("Not Started") in F.FILING_STATUSES
    ensures Trim("Not Started") != "Filed"
  {
    TrimmedStays("Annual Report");
    TrimmedStays("Not Started");
    assert |"Not Started"| == 11 && |"Filed"| == 5;
  }

  lemma FilingRowClean(name: string, dueDate: string, jurisdictions: map<string, string>, today: Date)
    requires IsKey(name) && name in jurisdictions && jurisdictions[name] == "France" && OptionalDate(dueDate).Some?
    ensures F.RowClean(FilingCells(2, name, dueDate), jurisdictions, today)
  {
    SampleTerms();
    FilingTerms();
    TrimmedStays("France");
  }

  lemma FilingSheetClean(name: string, day: Date, today: Date)
    requires IsKey(name) && 100 <= CivilFromDay(day).year <= 9999
    ensures var sheets := Respelled(name, day);
      F.SheetClean(sheets.filings.value, JurisdictionsOf(EntityRowsOf(sheets)), today)
  {
    var sheets := Respelled(name, day);
    var jurisdictions := JurisdictionsOf(EntityRowsOf(sheets));
    var row := FilingCells(2, name, ToDateOnlyString(day));
    OneJurisdiction(sheets, name);
    SpellingsRead(day);
    FilingRowClean(name, ToDateOnlyString(day), jurisdictions, today);
    RespelledFilingSlipsThrough(row, row.(line := 3, dueDate := UsSpelling(day)), jurisdictions, today, day, 2);
  }

  lemma TwoFilings(sheets: UploadSheets, row: F.RawFilingRow, other: F.RawFilingRow)
    requires sheets.filings == Some([row, other])
    ensures BatchOf(sheets).filingRows == [ToUploadFiling(F.Candidate(row)), ToUploadFiling(F.Candidate(other))]
  {
    MapTwo(F.Candidate, row, other);
    MapTwo(ToUploadFiling, F.Candidate(row), F.Candidate(other));
  }

  lemma MapTwo<T, U>(f: T -> U, a: T, b: T)
    ensures Map(f, [a, b]) == [f(a), f(b)]
  {
  }

  lemma RespelledUnwritable(name: string, day: Date, chunkSize: nat)
    requires IsKey(name) && 100 <= CivilFromDay(day).year <= 9999 && chunkSize >= 2
    ensures !FilingsWritable(BatchOf(Respelled(name, day)), chunkSize)
  {
    var row := FilingCells(2, name, ToDateOnlyString(day));
    var other := row.(line := 3, dueDate := UsSpelling(day));
    SpellingsRead(day);
    SameNaturalKey(row, other);
    SameKeyUnwritable(ToUploadFiling(F.Candidate(row)), ToUploadFiling(F.Candidate(other)), chunkSize);
    TwoFilings(Respelled(name, day), row, other);
  }

  lemma RespelledSheetsClean(name: string, day: Date, today: Date, maxRows: nat)
    requires IsKey(name) && 100 <= CivilFromDay(day).year <= 9999 && maxRows >= 2
    ensures SheetsClean(Respelled(name, day), today, maxRows)
  {
    OnlyName(name);
    EntitySheetClean([name], today);
    FilingSheetClean(name, day, today);
  }

  lemma RespelledAccepted(t: Tables, name: string, day: Date, today: Date, maxRows: nat)
    requires IsKey(name) && 100 <= CivilFromDay(day).year <= 9999 && maxRows >= 2
    ensures SheetsAccepted(t, Respelled(name, day), today, maxRows)
  {
    RespelledSheetsClean(name, day, today, maxRows);
    SheetHasNoIds([name]);
    NoIdsTaken(t, EntitySheet([name]));
  }

  /** For every entity name, day and state of the tables: the upload passes all checks on its sheets and
      business ids, and its write fails. */
  lemma RespelledUploadFails(t: Tables, name: string, day: Date, today: Date, maxRows: nat, chunkSize: nat)
    requires WellFormed(t) && IsKey(name) && 100 <= CivilFromDay(day).year <= 9999
    requires maxRows >= 2 && chunkSize >= 2
    ensures SheetsAccepted(t, Respelled(name, day), today, maxRows)
    ensures WriteBatch(t, BatchOf(Respelled(name, day)), chunkSize) == None
  {
    RespelledAccepted(t, name, day, today, maxRows);
    RespelledUnwritable(name, day, chunkSize);
    AcceptedWrite(t, Upload(Respelled(name, day), today), Limits(maxRows, chunkSize));
  }

  lemma RespelledLeavesShares(t: Tables, name: string, day: Date)
    requires 100 <= CivilFromDay(day).year <= 9999
    ensures SharesAfter(t, Respelled(name, day)) == ShareMap(t)
  {
    assert OwnershipRowsOf(Respelled(name, day)) == [];
  }

  /** On a sound registry such an upload is acceptable as a whole, and the tables stay as they are. */
  lemma RespelledUploadIsLost(t: Tables, name: string, day: Date, today: Date, limits: Limits, t': Tables)
    requires limits.maxRows >= 2 && limits.chunkSize >= 2 && Invariant(t)
    requires IsKey(name) && 100 <= CivilFromDay(day).year <= 9999
    requires IsStep(t, Upload(Respelled(name, day), today), limits, t')
    ensures Accepted(t, Respelled(name, day), today, limits.maxRows) && t' == t
  {
    RespelledUploadFails(t, name, day, today, limits.maxRows, limits.chunkSize);
    RespelledLeavesShares(t, name, day);
    AcceptedParts(t, Respelled(name, day), today, limits.maxRows, ShareMap(t));
  }
}
