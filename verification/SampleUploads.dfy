/** Uploads of a few entities and edges without filings, from which concrete runs are built. */
module SampleUploads {
  import opened Collections
  import opened Dates
  import opened MergedGraph
  import opened Names
  import opened Options
  import opened SheetChecks
  import opened Tables
  import opened UploadAcceptance
  import opened UploadTypes
  import opened UploadValidation
  import opened WriteTheorems

  /** A name that is its own key. */
  predicate IsKey(name: string) {
    name != "" && Trim(name) == name && Lower(name) == name
  }

  lemma LetterIsKey(c: char)
    requires 'a' <= c <= 'z'
    ensures IsKey([c]) && SafeName([c])
  {
    TrimmedStays([c]);
    assert Lower([c]) == [c];
  }

  function EntityCells(line: nat, name: string): E.RawEntityRow {
    E.RawEntityRow(line, name, "Entity", "France", "Trust", "Active", "", "", "", "", "")
  }

  function FqCells(line: nat, name: string, domestic: string): E.RawEntityRow {
    E.RawEntityRow(line, name, "FQ", "France", "Trust", "Active", "", domestic, "", "", "")
  }

  function EntitySheet(names: seq<string>): seq<E.RawEntityRow> {
    seq(|names|, i requires 0 <= i < |names| => EntityCells(i + 2, names[i]))
  }

  function OwnershipSheet(edges: seq<Edge>, pct: string): seq<O.RawOwnershipRow> {
    seq(|edges|, i requires 0 <= i < |edges| => O.RawOwnershipRow(i + 2, edges[i].0, edges[i].1, pct))
  }

  /** An upload of entities and of edges between them, all with the same percentage. */
  function Owning(names: seq<string>, edges: seq<Edge>, pct: string): UploadSheets {
    UploadSheets(Some(EntitySheet(names)), Some(OwnershipSheet(edges, pct)), Some([]))
  }

  /** An upload that registers one entity as an FQ of the other. */
  function Registering(name: string, domestic: string): UploadSheets {
    UploadSheets(Some([FqCells(2, name, domestic), EntityCells(3, domestic)]), Some([]), Some([]))
  }

  /** The edges join different names of the list, and no two share a joined key. */
  ghost predicate Connects(edges: seq<Edge>, names: seq<string>) {
    && (forall e :: e in edges ==> e.0 in names && e.1 in names && e.0 != e.1)
    && (forall i, j :: 0 <= i < j < |edges| ==> JoinEdge(edges[i]) != JoinEdge(edges[j]))
  }

  ghost predicate AreKeys(names: seq<string>) {
    NoDuplicates(names) && forall n :: n in names ==> IsKey(n)
  }

  // ----- Single rows -----

  lemma SampleTerms()
    ensures IsBlank("") && IsJurisdiction("France") && Trim("Trust") == "Trust" && Trim("Active") == "Active"
  {
    TrimmedStays("France");
    TrimmedStays("Trust");
    TrimmedStays("Active");
    NoSlash("France");
  }

  lemma SampleTypes()
    ensures E.TypeOf("Entity") == Some(Entity) && E.TypeOf("FQ") == Some(FQ)
  {
    TrimmedStays("Entity");
    TrimmedStays("FQ");
  }

  lemma {:induction false} NoSlash(s: string)
    requires forall i :: 0 <= i < |s| ==> s[i] != '/'
    ensures FirstSlash(s) == |s|
  {
    if s != "" {
      NoSlash(s[1..]);
    }
  }

  lemma SampleTermsClean(row: E.RawEntityRow)
    requires row.jurisdiction == "France" && row.entityType == "Trust" && row.entityStatus == "Active"
    requires row.globalRegion == "" && row.statusDate == ""
    ensures E.TermsClean(row) && E.StatusDateClean(row)
  {
    SampleTerms();
    ActiveIsNotTerminal();
  }

  lemma ActiveIsNotTerminal()
    ensures "Active" !in E.TERMINAL_STATUSES && "Active" in E.ENTITY_STATUSES && "Trust" in E.ENTITY_TYPES
  {
    assert forall s :: s in E.TERMINAL_STATUSES ==> |s| >= 7;
  }

  lemma SampleRowClean(row: E.RawEntityRow, today: Date)
    requires IsKey(row.entityName) && (row.domesticEntity == "" || IsKey(row.domesticEntity))
    requires row == if row.domesticEntity == "" then EntityCells(row.line, row.entityName)
                    else FqCells(row.line, row.entityName, row.domesticEntity)
    ensures E.RowClean(row, today)
  {
    SampleTypes();
    SampleTermsClean(row);
  }

  lemma SampleRowKeys(row: E.RawEntityRow)
    requires IsKey(row.entityName) && (row.domesticEntity == "" || IsKey(row.domesticEntity))
    requires row == if row.domesticEntity == "" then EntityCells(row.line, row.entityName)
                    else FqCells(row.line, row.entityName, row.domesticEntity)
    ensures Normalize(row.entityName) == row.entityName && IsBlank(row.businessId)
    ensures Trim(row.registrationType) == if row.domesticEntity == "" then "Entity" else "FQ"
  {
    SampleTypes();
  }

  // ----- Owning -----

  lemma EntitySheetClean(names: seq<string>, today: Date)
    requires AreKeys(names)
    ensures E.SheetClean(EntitySheet(names), today)
  {
    var rows := EntitySheet(names);
    forall i | 0 <= i < |rows|
      ensures E.RowClean(rows[i], today) && E.DomesticListed(rows, rows[i])
      ensures Normalize(rows[i].entityName) == names[i] && IsBlank(rows[i].businessId)
    {
      assert names[i] in names;
      SampleRowClean(rows[i], today);
      SampleRowKeys(rows[i]);
    }
  }

  lemma SampleCandidate(line: nat, name: string)
    requires IsKey(name)
    ensures var r := E.Candidate(EntityCells(line, name));
      && r.entityName == name && NameOf(r) == name && r.registrationType == Entity && r.businessId == None
      && r.domesticEntity == None
  {
    SampleTypes();
  }

  lemma OwningEntity(names: seq<string>, edges: seq<Edge>, pct: string, i: nat)
    requires AreKeys(names) && i < |names|
    ensures var rows := EntityRowsOf(Owning(names, edges, pct));
      |rows| == |names| && rows[i] == E.Candidate(EntityCells(i + 2, names[i]))
  {
    assert EntitySheet(names)[i] == EntityCells(i + 2, names[i]);
  }

  lemma BatchEntity(sheets: UploadSheets, i: nat)
    requires i < |EntityRowsOf(sheets)|
    ensures |BatchOf(sheets).entityRows| == |EntityRowsOf(sheets)|
    ensures BatchOf(sheets).entityRows[i] == ToUploadEntity(EntityRowsOf(sheets)[i])
  {
  }

  lemma EntityOfSample(row: EntityRow, name: string)
    requires row.entityName == name && NameOf(row) == name && row.registrationType == Entity
    ensures EntityKey(ToUploadEntity(row)) == name && ToUploadEntity(row).entityName == name
    ensures ToUploadEntity(row).registrationType == Entity
  {
  }

  lemma NamedEntity(names: seq<string>, edges: seq<Edge>, pct: string, i: nat)
    requires AreKeys(names) && i < |names| && |EntityRowsOf(Owning(names, edges, pct))| == |names|
    ensures var row := EntityRowsOf(Owning(names, edges, pct))[i];
      row.entityName == names[i] && NameOf(row) == names[i] && row.registrationType == Entity
      && row.businessId == None
  {
    assert names[i] in names;
    OwningEntity(names, edges, pct, i);
    SampleCandidate(i + 2, names[i]);
  }

  lemma OwningTypes(names: seq<string>, edges: seq<Edge>, pct: string, name: string)
    requires AreKeys(names) && name in names
    ensures var types := TypesOf(EntityRowsOf(Owning(names, edges, pct)));
      name in types && types[name] == Entity
  {
    var rows := EntityRowsOf(Owning(names, edges, pct));
    forall i | 0 <= i < |names|
      ensures |rows| == |names| && NameOf(rows[i]) == names[i] && rows[i].registrationType == Entity
    {
      OwningEntity(names, edges, pct, i);
      NamedEntity(names, edges, pct, i);
    }
    var i :| 0 <= i < |names| && names[i] == name;
    assert rows[i] in rows && NameOf(rows[i]) == name;
    OverlayKeys(NameOf, TypeOfRow, rows, name);
  }

  /** The rows that an upload of edges is converted to. */
  lemma OwningRow(names: seq<string>, edges: seq<Edge>, pct: string, i: nat)
    requires i < |edges| && IsKey(edges[i].0) && IsKey(edges[i].1)
    ensures var rows := OwnershipRowsOf(Owning(names, edges, pct));
      |rows| == |edges| && rows[i] == OwnershipRow(i + 2, edges[i].0, edges[i].1, O.PercentOf(pct))
      && EdgeOf(rows[i]) == edges[i]
  {
  }

  lemma OwnershipSheetClean(names: seq<string>, edges: seq<Edge>, pct: string)
    requires AreKeys(names) && Connects(edges, names) && 0 < O.PercentOf(pct) <= 10000
    ensures O.SheetClean(OwnershipSheet(edges, pct), TypesOf(EntityRowsOf(Owning(names, edges, pct))))
  {
    var rows, types := OwnershipSheet(edges, pct), TypesOf(EntityRowsOf(Owning(names, edges, pct)));
    forall i | 0 <= i < |rows|
      ensures O.RowClean(rows[i], types)
      ensures Normalize(rows[i].parentEntity) == edges[i].0 && Normalize(rows[i].childEntity) == edges[i].1
    {
      assert edges[i] in edges;
      OwningTypes(names, edges, pct, edges[i].0);
      OwningTypes(names, edges, pct, edges[i].1);
    }
    forall i, j | 0 <= i < j < |rows|
      ensures !O.SameJoinedPair(rows[i], rows[j])
    {
      assert JoinEdge(edges[i]) != JoinEdge(edges[j]);
    }
  }

  /** Such an upload passes every check but the one on the graph, whatever is stored. */
  lemma OwningAccepted(t: Tables, names: seq<string>, edges: seq<Edge>, pct: string, today: Date, maxRows: nat)
    requires AreKeys(names) && Connects(edges, names) && 0 < O.PercentOf(pct) <= 10000
    requires |names| <= maxRows && |edges| <= maxRows
    ensures SheetsAccepted(t, Owning(names, edges, pct), today, maxRows)
  {
    var sheets := Owning(names, edges, pct);
    EntitySheetClean(names, today);
    OwnershipSheetClean(names, edges, pct);
    SheetHasNoIds(names);
    NoIdsTaken(t, EntitySheet(names));
  }

  /** An upload without business ids takes nobody's. */
  lemma NoIdsTaken(t: Tables, sheet: seq<E.RawEntityRow>)
    requires forall r :: r in sheet ==> r.businessId == ""
    ensures forall r :: r in Map(E.Candidate, sheet) ==> !TakenByOther(t, r)
  {
    var rows := Map(E.Candidate, sheet);
    forall r | r in rows
      ensures !TakenByOther(t, r)
    {
      var i :| 0 <= i < |rows| && rows[i] == r;
      assert sheet[i] in sheet;
      BlankId(sheet[i]);
    }
  }

  lemma SheetHasNoIds(names: seq<string>)
    ensures forall r :: r in EntitySheet(names) ==> r.businessId == ""
  {
    forall r | r in EntitySheet(names)
      ensures r.businessId == ""
    {
      var i :| 0 <= i < |names| && EntitySheet(names)[i] == r;
      assert EntitySheet(names)[i] == EntityCells(i + 2, names[i]);
    }
  }

  lemma BlankId(row: E.RawEntityRow)
    requires row.businessId == ""
    ensures E.Candidate(row).businessId == None
  {
  }

  lemma OwningKeys(names: seq<string>, edges: seq<Edge>, pct: string)
    requires AreKeys(names)
    ensures var rows := BatchOf(Owning(names, edges, pct)).entityRows;
      |rows| == |names| && forall i :: 0 <= i < |rows| ==>
        EntityKey(rows[i]) == names[i] && rows[i].entityName == names[i] && rows[i].registrationType == Entity
  {
    var sheets := Owning(names, edges, pct);
    forall i | 0 <= i < |names|
      ensures |BatchOf(sheets).entityRows| == |names|
      ensures BatchOf(sheets).entityRows[i].entityName == EntityKey(BatchOf(sheets).entityRows[i]) == names[i]
      ensures BatchOf(sheets).entityRows[i].registrationType == Entity
    {
      OwningEntity(names, edges, pct, i);
      NamedEntity(names, edges, pct, i);
      BatchEntity(sheets, i);
      EntityOfSample(EntityRowsOf(sheets)[i], names[i]);
    }
    assert |BatchOf(sheets).entityRows| == |EntitySheet(names)|;
  }

  lemma OwningIsSafe(names: seq<string>, edges: seq<Edge>, pct: string)
    requires AreKeys(names) && forall n :: n in names ==> SafeName(n)
    ensures SafeUpload(Owning(names, edges, pct))
  {
    OwningKeys(names, edges, pct);
  }

  lemma NothingToFile(sheets: UploadSheets, chunkSize: nat)
    requires chunkSize > 0 && sheets.filings == Some([])
    ensures FilingsWritable(BatchOf(sheets), chunkSize)
  {
  }

  // ----- Registering -----

  lemma RegisteringRows(name: string, domestic: string)
    requires IsKey(name) && IsKey(domestic)
    ensures var rows := BatchOf(Registering(name, domestic)).entityRows;
      && |rows| == 2 && EntityKey(rows[0]) == name && EntityKey(rows[1]) == domestic
      && rows[0].registrationType == FQ && rows[0].domesticEntity == Some(domestic)
      && rows[0].businessId == None && rows[1].businessId == None
  {
    SampleTypes();
    SampleCandidate(3, domestic);
  }

  lemma RegisteringSheetClean(name: string, domestic: string, today: Date)
    requires IsKey(name) && IsKey(domestic) && name != domestic
    ensures E.SheetClean([FqCells(2, name, domestic), EntityCells(3, domestic)], today)
  {
    var rows := [FqCells(2, name, domestic), EntityCells(3, domestic)];
    SampleRowClean(rows[0], today);
    SampleRowClean(rows[1], today);
    SampleRowKeys(rows[0]);
    SampleRowKeys(rows[1]);
    assert rows[1] in rows && E.IsDomestic(rows[0], rows[1]);
  }

  lemma RegisteringAccepted(t: Tables, name: string, domestic: string, today: Date, maxRows: nat)
    requires IsKey(name) && IsKey(domestic) && name != domestic && maxRows >= 2
    ensures SheetsAccepted(t, Registering(name, domestic), today, maxRows)
  {
    var sheets := Registering(name, domestic);
    RegisteringSheetClean(name, domestic, today);
    NoIdsTaken(t, sheets.entities.value);
  }

  // ----- Percentages -----

  lemma SamplePercents()
    ensures O.PercentOf("60") == 6000 && O.PercentOf("50") == 5000
  {
    TrimmedStays("60");
    TrimmedStays("50");
    assert "60"[..1] == "6" && "50"[..1] == "5" && "6"[..0] == "" && "5"[..0] == "";
    assert Number("6") == 6 && Number("5") == 5;
    assert O.FirstPoint("60") == 2 && O.FirstPoint("50") == 2;
    assert "60"[..2] == "60" && "50"[..2] == "50";
  }
}
