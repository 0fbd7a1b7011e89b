/** validation/filings-validator.ts. */
module FilingsValidator {
  import opened Collections
  import opened Dates
  import opened Names
  import opened Options
  import opened SheetChecks
  import opened UploadTypes

  const FILING_TYPES := {"Annual Report", "Statement of Information", "Franchise Tax", "Biennial Statement"}
  const FILING_STATUSES := {"Not Started", "In Progress", "Submitted", "Filed", "Rejected", "Canceled"}

  /** A sheet row by column. */
  datatype RawFilingRow = RawFilingRow(
    line: nat,
    entityName: string,
    filingType: string,
    jurisdiction: string,
    filingAuthority: string,
    dueDate: string,
    filedDate: string,
    status: string)

  type JurisdictionByName = map<string, string>

  /** A due date that cannot be read is always an error as well. */
  function DueDateOf(cell: string): Date {
    match OptionalDate(cell)
    case None => 0
    case Some(day) => day
  }

  function Candidate(row: RawFilingRow): FilingRow {
    FilingRow(row.line, Trim(row.entityName), Trim(row.filingType), Trim(row.jurisdiction),
              OptionalText(row.filingAuthority), DueDateOf(row.dueDate), OptionalDate(row.filedDate), Trim(row.status))
  }

  function LineOf(row: RawFilingRow): nat {
    row.line
  }

  /** The entity is a row of the same upload with the same jurisdiction. */
  predicate EntityClean(row: RawFilingRow, jurisdictions: JurisdictionByName) {
    && !IsBlank(row.entityName) && Normalize(row.entityName) in jurisdictions
    && IsJurisdiction(row.jurisdiction) && jurisdictions[Normalize(row.entityName)] == Trim(row.jurisdiction)
  }

  predicate FiledClean(row: RawFilingRow, today: Date) {
    && PastDateClean(row.filedDate, today)
    && (IsBlank(row.filedDate) ==> Trim(row.status) != "Filed")
  }

  predicate RowClean(row: RawFilingRow, jurisdictions: JurisdictionByName, today: Date) {
    && EntityClean(row, jurisdictions)
    && Trim(row.filingType) in FILING_TYPES
    && OptionalDate(row.dueDate).Some?
    && Trim(row.status) in FILING_STATUSES
    && FiledClean(row, today)
  }

  /** The columns of a row with an error of its own. */
  function FaultyColumns(row: RawFilingRow, jurisdictions: JurisdictionByName, today: Date): set<Column> {
    FaultyEntity(row, jurisdictions) + FaultyTerms(row) + FaultyIf(!FiledClean(row, today), FiledDateColumn)
  }

  function FaultyEntity(row: RawFilingRow, jurisdictions: JurisdictionByName): set<Column> {
    FaultyIf(!IsRegistered(row, jurisdictions), EntityNameColumn)
    + FaultyIf(!JurisdictionFits(row, jurisdictions), JurisdictionColumn)
  }

  function FaultyTerms(row: RawFilingRow): set<Column> {
    FaultyIf(Trim(row.filingType) !in FILING_TYPES, FilingTypeColumn)
    + FaultyIf(OptionalDate(row.dueDate).None?, DueDateColumn)
    + FaultyIf(Trim(row.status) !in FILING_STATUSES, FilingStatusColumn)
  }

  predicate IsRegistered(row: RawFilingRow, jurisdictions: JurisdictionByName) {
    !IsBlank(row.entityName) && Normalize(row.entityName) in jurisdictions
  }

  /** Well-formed, and that of the entity when the entity is known. */
  predicate JurisdictionFits(row: RawFilingRow, jurisdictions: JurisdictionByName) {
    && IsJurisdiction(row.jurisdiction)
    && (IsRegistered(row, jurisdictions) ==> jurisdictions[Normalize(row.entityName)] == Trim(row.jurisdiction))
  }

  ghost predicate IsRowError(row: RawFilingRow, jurisdictions: JurisdictionByName, today: Date, e: ValidationError) {
    IsOnLine(e, FilingsFile, row.line, FaultyColumns(row, jurisdictions, today))
  }

  /** Every error that the sheet deserves: of its rows by themselves, and of repeated keys. */
  ghost predicate IsSheetError(rows: seq<RawFilingRow>, jurisdictions: JurisdictionByName, today: Date,
                               e: ValidationError) {
    || (exists r :: r in rows && IsRowError(r, jurisdictions, today, e))
    || IsAt(e, FilingsFile, DueDateColumn, RepeatedLines(Map(FilingKeyed, rows)))
  }

  /** The duplicate check compares the due date as it is spelled, not as a date. */
  function FilingKeyed(row: RawFilingRow): Keyed {
    Keyed(row.line,
          if !IsBlank(row.entityName) && !IsBlank(row.filingType) && OptionalDate(row.dueDate).Some?
          then Some(Normalize(row.entityName) + "|||" + Trim(row.filingType) + "|||" + Trim(row.dueDate))
          else None)
  }

  ghost function FaultyLines(rows: seq<RawFilingRow>, jurisdictions: JurisdictionByName, today: Date): set<nat> {
    set r | r in rows && !RowClean(r, jurisdictions, today) :: r.line
  }

  ghost function BadLines(rows: seq<RawFilingRow>, jurisdictions: JurisdictionByName, today: Date): set<nat> {
    FaultyLines(rows, jurisdictions, today) + RepeatedLines(Map(FilingKeyed, rows))
  }

  method CheckEntity(row: RawFilingRow, jurisdictions: JurisdictionByName) returns (errors: seq<ValidationError>)
    ensures OnLine(errors, FilingsFile, row.line, FaultyEntity(row, jurisdictions))
  {
    errors := [];
    var registered: Option<string> := None;
    if IsBlank(row.entityName) {
      errors := [ValidationError(FilingsFile, row.line, EntityNameColumn)];
    } else if Normalize(row.entityName) in jurisdictions {
      registered := Some(jurisdictions[Normalize(row.entityName)]);
    } else {
      errors := [ValidationError(FilingsFile, row.line, EntityNameColumn)];
    }
    if !IsJurisdiction(row.jurisdiction) {
      errors := errors + [ValidationError(FilingsFile, row.line, JurisdictionColumn)];
    } else if registered.Some? && Trim(row.jurisdiction) != registered.value {
      errors := errors + [ValidationError(FilingsFile, row.line, JurisdictionColumn)];
    }
  }

  method CheckFiled(row: RawFilingRow, today: Date) returns (errors: seq<ValidationError>)
    ensures OnLine(errors, FilingsFile, row.line, FaultyIf(!FiledClean(row, today), FiledDateColumn))
  {
    errors := CheckPastDate(row.filedDate, today, FilingsFile, row.line, FiledDateColumn);
    if Trim(row.status) == "Filed" && IsBlank(row.filedDate) {
      errors := errors + [ValidationError(FilingsFile, row.line, FiledDateColumn)];
    }
  }

  method CheckTerms(row: RawFilingRow) returns (errors: seq<ValidationError>)
    ensures OnLine(errors, FilingsFile, row.line, FaultyTerms(row))
  {
    errors := ErrorIf(Trim(row.filingType) !in FILING_TYPES, FilingsFile, row.line, FilingTypeColumn);
    ghost var columns := FaultyIf(Trim(row.filingType) !in FILING_TYPES, FilingTypeColumn);
    var undated := IsBlank(row.dueDate) || ParseDate(row.dueDate) == None;
    var more := ErrorIf(undated, FilingsFile, row.line, DueDateColumn);
    OnLineAppend(errors, more, FilingsFile, row.line, columns, FaultyIf(undated, DueDateColumn));
    errors, columns := errors + more, columns + FaultyIf(undated, DueDateColumn);
    more := ErrorIf(Trim(row.status) !in FILING_STATUSES, FilingsFile, row.line, FilingStatusColumn);
    OnLineAppend(errors, more, FilingsFile, row.line, columns,
                 FaultyIf(Trim(row.status) !in FILING_STATUSES, FilingStatusColumn));
    errors := errors + more;
  }

  method CheckRow(row: RawFilingRow, jurisdictions: JurisdictionByName, today: Date)
    returns (errors: seq<ValidationError>)
    ensures forall e :: e in errors <==> IsRowError(row, jurisdictions, today, e)
  {
    errors := CheckEntity(row, jurisdictions);
    var terms := CheckTerms(row);
    OnLineAppend(errors, terms, FilingsFile, row.line, FaultyEntity(row, jurisdictions), FaultyTerms(row));
    errors := errors + terms;
    var filed := CheckFiled(row, today);
    OnLineAppend(errors, filed, FilingsFile, row.line, FaultyEntity(row, jurisdictions) + FaultyTerms(row),
                 FaultyIf(!FiledClean(row, today), FiledDateColumn));
    errors := errors + filed;
  }

  lemma CleanRow(row: RawFilingRow, jurisdictions: JurisdictionByName, today: Date)
    ensures RowClean(row, jurisdictions, today) <==> FaultyColumns(row, jurisdictions, today) == {}
  {
  }

  /** The errors are exactly those of the rows by themselves. */
  ghost predicate AreRowErrors(errors: seq<ValidationError>, rows: seq<RawFilingRow>,
                               jurisdictions: JurisdictionByName, today: Date) {
    forall e :: e in errors <==> exists r :: r in rows && IsRowError(r, jurisdictions, today, e)
  }

  lemma OneMoreRow(errors: seq<ValidationError>, rows: seq<RawFilingRow>, jurisdictions: JurisdictionByName,
                   today: Date, row: RawFilingRow, more: seq<ValidationError>)
    requires AreRowErrors(errors, rows, jurisdictions, today)
    requires forall e :: e in more <==> IsRowError(row, jurisdictions, today, e)
    ensures AreRowErrors(errors + more, rows + [row], jurisdictions, today)
  {
    assert forall r :: r in rows + [row] <==> r in rows || r == row;
    forall e
      ensures e in errors + more <==> exists r :: r in rows + [row] && IsRowError(r, jurisdictions, today, e)
    {
      assert e in errors <==> exists r :: r in rows && IsRowError(r, jurisdictions, today, e);
    }
  }

  lemma RowErrorLines(errors: seq<ValidationError>, rows: seq<RawFilingRow>, jurisdictions: JurisdictionByName,
                      today: Date)
    requires AreRowErrors(errors, rows, jurisdictions, today)
    ensures ErrorLines(errors) == FaultyLines(rows, jurisdictions, today)
  {
    forall l
      ensures l in ErrorLines(errors) <==> l in FaultyLines(rows, jurisdictions, today)
    {
      if e :| e in errors && e.line == l {
        var r :| r in rows && IsRowError(r, jurisdictions, today, e);
        CleanRow(r, jurisdictions, today);
      }
      if r :| r in rows && !RowClean(r, jurisdictions, today) && r.line == l {
        CleanRow(r, jurisdictions, today);
        var c :| c in FaultyColumns(r, jurisdictions, today);
        assert IsRowError(r, jurisdictions, today, ValidationError(FilingsFile, l, c));
      }
    }
  }

  method RowErrors(rows: seq<RawFilingRow>, jurisdictions: JurisdictionByName, today: Date)
    returns (errors: seq<ValidationError>)
    ensures AreRowErrors(errors, rows, jurisdictions, today)
    ensures ErrorLines(errors) == FaultyLines(rows, jurisdictions, today)
  {
    errors := [];
    for i := 0 to |rows|
      invariant AreRowErrors(errors, rows[..i], jurisdictions, today)
    {
      var more := CheckRow(rows[i], jurisdictions, today);
      OneMoreRow(errors, rows[..i], jurisdictions, today, rows[i], more);
      assert rows[..i + 1] == rows[..i] + [rows[i]];
      errors := errors + more;
    }
    assert rows[..|rows|] == rows;
    RowErrorLines(errors, rows, jurisdictions, today);
  }

  /** Reports exactly the errors of the sheet and keeps exactly the rows on lines without any. */
  method ValidateFilingsSheet(rows: seq<RawFilingRow>, entityJurisdictionByName: JurisdictionByName, today: Date)
    returns (errors: seq<ValidationError>, kept: seq<FilingRow>)
    ensures forall e :: e in errors <==> IsSheetError(rows, entityJurisdictionByName, today, e)
    ensures ErrorLines(errors) == BadLines(rows, entityJurisdictionByName, today)
    ensures kept == Kept(rows, LineOf, Candidate, BadLines(rows, entityJurisdictionByName, today))
    ensures forall c :: c in kept <==>
      exists r :: r in rows && r.line !in BadLines(rows, entityJurisdictionByName, today) && c == Candidate(r)
  {
    errors := RowErrors(rows, entityJurisdictionByName, today);
    var more := DuplicateErrors(Map(FilingKeyed, rows), FilingsFile, DueDateColumn);
    ErrorsOfColumn(more, FilingsFile, DueDateColumn);
    LinesOfAppend(errors, more);
    errors := errors + more;
    kept := Kept(rows, LineOf, Candidate, ErrorLines(errors));
    KeptMembers(rows, LineOf, Candidate, ErrorLines(errors));
  }

  // ----- Which filings are the same -----

  predicate NoBar(s: string) {
    forall i :: 0 <= i < |s| ==> s[i] != '|'
  }

  lemma NoLaterBar(a: string, x: string)
    requires NoBar(x)
    ensures forall i :: |a| < i < |a + "|" + x| ==> (a + "|" + x)[i] != '|'
  {
    forall i | |a| < i < |a + "|" + x|
      ensures (a + "|" + x)[i] != '|'
    {
      assert (a + "|" + x)[i] == x[i - |a| - 1];
    }
  }

  /** The last bar cuts a text in only one way. */
  lemma CutAtLastBar(a: string, x: string, b: string, y: string)
    requires NoBar(x) && NoBar(y) && a + "|" + x == b + "|" + y
    ensures a == b && x == y
  {
    var s := a + "|" + x;
    assert s[|a|] == '|' && s[|b|] == '|';
    NoLaterBar(a, x);
    NoLaterBar(b, y);
    assert a == s[..|a|] && b == s[..|b|] && x == s[|a| + 1..] && y == s[|b| + 1..];
  }

  lemma SameEnding(a: string, b: string, c: string)
    requires a + c == b + c
    ensures a == b
  {
    assert |a| == |b| && a == (a + c)[..|a|] && b == (b + c)[..|b|];
  }

  /** Whatever the name contains, the joined key tells its three parts apart. */
  lemma KeyParts(n: string, t: string, d: string, n': string, t': string, d': string)
    requires NoBar(t) && NoBar(d) && NoBar(t') && NoBar(d')
    requires n + "|||" + t + "|||" + d == n' + "|||" + t' + "|||" + d'
    ensures n == n' && t == t' && d == d'
  {
    var a, a' := n + "|||" + t, n' + "|||" + t';
    assert n + "|||" + t + "|||" + d == (a + "||") + "|" + d;
    assert n' + "|||" + t' + "|||" + d' == (a' + "||") + "|" + d';
    CutAtLastBar(a + "||", d, a' + "||", d');
    SameEnding(a, a', "||");
    assert a == (n + "||") + "|" + t && a' == (n' + "||") + "|" + t';
    CutAtLastBar(n + "||", t, n' + "||", t');
    SameEnding(n, n', "||");
  }

  lemma TypeHasNoBar(t: string)
    requires t in FILING_TYPES
    ensures NoBar(t) && t != ""
  {
  }

  lemma IsoHasNoBar(v: string)
    requires IsIsoShape(v)
    ensures NoBar(v)
  {
    forall i | 0 <= i < |v|
      ensures v[i] != '|'
    {
      if i < 4 {
        assert v[i] == v[..4][i];
      } else if 4 < i < 7 {
        assert v[i] == v[5..7][i - 5];
      } else if 7 < i {
        assert v[i] == v[8..][i - 8];
      }
    }
  }

  lemma BarsAppend(a: string, b: string)
    requires NoBar(a) && NoBar(b)
    ensures NoBar(a + b)
  {
  }

  lemma CutAtSlash(v: string)
    requires FirstSlash(v) < |v|
    ensures v == v[..FirstSlash(v)] + ("/" + v[FirstSlash(v) + 1..])
  {
  }

  lemma UsHasNoBar(v: string)
    requires IsUsShape(v)
    ensures NoBar(v)
  {
    var g := UsGroups(v);
    CutAtSlash(v);
    CutAtSlash(v[FirstSlash(v) + 1..]);
    BarsAppend("/", g.year);
    BarsAppend(g.date, "/" + g.year);
    BarsAppend("/", g.date + ("/" + g.year));
    BarsAppend(g.month, "/" + (g.date + ("/" + g.year)));
  }

  lemma DateHasNoBar(cell: string)
    requires OptionalDate(cell).Some?
    ensures NoBar(Trim(cell))
  {
    if IsIsoShape(Trim(cell)) {
      IsoHasNoBar(Trim(cell));
    } else {
      UsHasNoBar(Trim(cell));
    }
  }

  /** One entity, one filing type, and one spelling of the due date. */
  predicate SameFiling(a: RawFilingRow, b: RawFilingRow) {
    && Normalize(a.entityName) == Normalize(b.entityName)
    && Trim(a.filingType) == Trim(b.filingType) && Trim(a.dueDate) == Trim(b.dueDate)
  }

  /** Two clean rows have one key exactly when they are the same filing, for names of any kind. */
  lemma SameKeyExact(a: RawFilingRow, b: RawFilingRow, jurisdictions: JurisdictionByName, today: Date)
    requires RowClean(a, jurisdictions, today) && RowClean(b, jurisdictions, today)
    ensures FilingKeyed(a).key.Some? && (FilingKeyed(a).key == FilingKeyed(b).key <==> SameFiling(a, b))
  {
    KeyOfClean(a, jurisdictions, today);
    KeyOfClean(b, jurisdictions, today);
    if FilingKeyed(a).key == FilingKeyed(b).key {
      KeyParts(Normalize(a.entityName), Trim(a.filingType), Trim(a.dueDate), Normalize(b.entityName),
               Trim(b.filingType), Trim(b.dueDate));
    }
  }

  lemma KeyOfClean(row: RawFilingRow, jurisdictions: JurisdictionByName, today: Date)
    requires RowClean(row, jurisdictions, today)
    ensures NoBar(Trim(row.filingType)) && NoBar(Trim(row.dueDate))
    ensures FilingKeyed(row).key
         == Some(Normalize(row.entityName) + "|||" + Trim(row.filingType) + "|||" + Trim(row.dueDate))
  {
    TypeHasNoBar(Trim(row.filingType));
    DateHasNoBar(row.dueDate);
  }

  // ----- A sheet without errors -----

  ghost predicate RowsClean(rows: seq<RawFilingRow>, jurisdictions: JurisdictionByName, today: Date) {
    forall r :: r in rows ==> RowClean(r, jurisdictions, today)
  }

  ghost predicate AllDifferent(rows: seq<RawFilingRow>) {
    forall i, j :: 0 <= i < j < |rows| ==> !SameFiling(rows[i], rows[j])
  }

  /** What an accepted sheet satisfies, said without lines and keys. */
  ghost predicate SheetClean(rows: seq<RawFilingRow>, jurisdictions: JurisdictionByName, today: Date) {
    RowsClean(rows, jurisdictions, today) && AllDifferent(rows)
  }

  lemma KeysDifferExact(rows: seq<RawFilingRow>, jurisdictions: JurisdictionByName, today: Date)
    requires RowsClean(rows, jurisdictions, today)
    ensures NoneRepeated(Map(FilingKeyed, rows)) <==> AllDifferent(rows)
  {
    var keyed := Map(FilingKeyed, rows);
    forall i, j | 0 <= i < |rows| && 0 <= j < |rows|
      ensures keyed[i].key.Some? && (keyed[i].key == keyed[j].key <==> SameFiling(rows[i], rows[j]))
    {
      assert rows[i] in rows && rows[j] in rows;
      SameKeyExact(rows[i], rows[j], jurisdictions, today);
    }
    if NoneRepeated(keyed) {
      forall i, j | 0 <= i < j < |rows|
        ensures !SameFiling(rows[i], rows[j])
      {
        assert !Repeated(keyed, i);
      }
    }
  }

  lemma NoBadLinesExact(rows: seq<RawFilingRow>, jurisdictions: JurisdictionByName, today: Date)
    ensures BadLines(rows, jurisdictions, today) == {} <==> SheetClean(rows, jurisdictions, today)
  {
    NoRepeatedLines(Map(FilingKeyed, rows));
    if r :| r in rows && !RowClean(r, jurisdictions, today) {
      assert r.line in FaultyLines(rows, jurisdictions, today);
    } else {
      KeysDifferExact(rows, jurisdictions, today);
    }
  }
}
