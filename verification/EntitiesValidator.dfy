/** validation/entities-validator.ts. */
module EntitiesValidator {
  import opened Collections
  import opened Dates
  import opened Names
  import opened Options
  import opened SheetChecks
  import opened UploadTypes

  const ENTITY_TYPES := {"Corporation", "Limited Liability Company", "Limited Partnership", "General Partnership",
                         "Nonprofit", "Trust"}
  const TERMINAL_STATUSES := {"Revoked/Terminated", "Merged/Acquired", "Divested/Sold", "Dormant", "Dissolved"}
  const ENTITY_STATUSES := {"In Formation", "Active"} + TERMINAL_STATUSES
  const GLOBAL_REGIONS := {"North America", "Asia Pacific", "Europe Middle East Africa", "Latin America",
                           "European Economic Area"}

  /** A sheet row by column. */
  datatype RawEntityRow = RawEntityRow(
    line: nat,
    entityName: string,
    registrationType: string,
    jurisdiction: string,
    entityType: string,
    entityStatus: string,
    statusDate: string,
    domesticEntity: string,
    formationDate: string,
    businessId: string,
    globalRegion: string)

  function TypeOf(cell: string): Option<RegistrationType> {
    var text := Trim(cell);
    if text == "Entity" then Some(Entity) else if text == "FQ" then Some(FQ) else None
  }

  /** The domestic entity of an FQ row. */
  function DomesticOf(row: RawEntityRow): Option<string> {
    if TypeOf(row.registrationType) == Some(FQ) then OptionalText(row.domesticEntity) else None
  }

  /** The row as it will be stored; an unknown registration type is always an error as well. */
  function Candidate(row: RawEntityRow): EntityRow {
    var isFQ := TypeOf(row.registrationType) == Some(FQ);
    EntityRow(row.line, Trim(row.entityName), if isFQ then FQ else Entity, Trim(row.jurisdiction),
              Trim(row.entityType), Trim(row.entityStatus), OptionalDate(row.statusDate),
              DomesticOf(row), OptionalDate(row.formationDate),
              OptionalText(row.businessId), OptionalText(row.globalRegion))
  }

  predicate StatusDateClean(row: RawEntityRow) {
    if IsBlank(row.statusDate) then Trim(row.entityStatus) !in TERMINAL_STATUSES else ParseDate(row.statusDate).Some?
  }

  predicate TermsClean(row: RawEntityRow) {
    && IsJurisdiction(row.jurisdiction)
    && Trim(row.entityType) in ENTITY_TYPES
    && Trim(row.entityStatus) in ENTITY_STATUSES
    && (IsBlank(row.globalRegion) || Trim(row.globalRegion) in GLOBAL_REGIONS)
  }

  /** No check on the row by itself fails. */
  predicate RowClean(row: RawEntityRow, today: Date) {
    && !IsBlank(row.entityName)
    && TypeOf(row.registrationType).Some?
    && (IsBlank(row.domesticEntity) <==> TypeOf(row.registrationType) == Some(Entity))
    && TermsClean(row) && StatusDateClean(row)
    && PastDateClean(row.formationDate, today)
  }

  /** The columns of a row with an error of its own. */
  function FaultyColumns(row: RawEntityRow, today: Date): set<Column> {
    FaultyIf(IsBlank(row.entityName), EntityNameColumn) + FaultyTerms(row)
    + FaultyIf(!StatusDateClean(row), StatusDateColumn) + FaultyKind(row)
    + FaultyIf(!PastDateClean(row.formationDate, today), FormationDateColumn)
  }

  function FaultyTerms(row: RawEntityRow): set<Column> {
    FaultyIf(!IsJurisdiction(row.jurisdiction), JurisdictionColumn)
    + FaultyIf(Trim(row.entityType) !in ENTITY_TYPES, EntityTypeColumn)
    + FaultyIf(Trim(row.entityStatus) !in ENTITY_STATUSES, EntityStatusColumn)
    + FaultyIf(!IsBlank(row.globalRegion) && Trim(row.globalRegion) !in GLOBAL_REGIONS, GlobalRegionColumn)
  }

  function FaultyKind(row: RawEntityRow): set<Column> {
    FaultyIf(TypeOf(row.registrationType).None?, RegistrationTypeColumn)
    + FaultyIf(!DomesticFits(row), DomesticEntityColumn)
  }

  /** FQs name a domestic entity and entities do not. */
  predicate DomesticFits(row: RawEntityRow) {
    match TypeOf(row.registrationType)
    case None => true
    case Some(Entity) => IsBlank(row.domesticEntity)
    case Some(FQ) => !IsBlank(row.domesticEntity)
  }

  ghost predicate IsRowError(row: RawEntityRow, today: Date, e: ValidationError) {
    IsOnLine(e, EntitiesFile, row.line, FaultyColumns(row, today))
  }

  /** Every error that the sheet deserves: of its rows by themselves, of repeated names and business
      ids, and of domestic entities that are not Entity rows of the sheet. */
  ghost predicate IsSheetError(rows: seq<RawEntityRow>, today: Date, e: ValidationError) {
    || (exists r :: r in rows && IsRowError(r, today, e))
    || IsAt(e, EntitiesFile, EntityNameColumn, RepeatedLines(Map(NameKeyed, rows)))
    || IsAt(e, EntitiesFile, BusinessIdColumn, RepeatedLines(Map(BusinessIdKeyed, rows)))
    || IsAt(e, EntitiesFile, DomesticEntityColumn, UnresolvedLines(rows, rows))
  }

  function NameKeyed(row: RawEntityRow): Keyed {
    Keyed(row.line, if IsBlank(row.entityName) then None else Some(Normalize(row.entityName)))
  }

  function BusinessIdKeyed(row: RawEntityRow): Keyed {
    Keyed(row.line, OptionalText(row.businessId))
  }

  /** The registration type of the last row with this name, among rows with a usable name and type. */
  function TypeNamed(rows: seq<RawEntityRow>, key: string): Option<RegistrationType> {
    if rows == [] then None
    else
      var last := rows[|rows| - 1];
      if !IsBlank(last.entityName) && TypeOf(last.registrationType).Some? && Normalize(last.entityName) == key
      then TypeOf(last.registrationType)
      else TypeNamed(rows[..|rows| - 1], key)
  }

  /** An FQ row whose domestic entity is not an Entity row of the same sheet. */
  predicate DomesticUnresolved(rows: seq<RawEntityRow>, row: RawEntityRow) {
    match DomesticOf(row)
    case None => false
    case Some(name) => TypeNamed(rows, Normalize(name)) != Some(Entity)
  }

  ghost function FaultyLines(rows: seq<RawEntityRow>, today: Date): set<nat> {
    set r | r in rows && !RowClean(r, today) :: r.line
  }

  ghost function UnresolvedLines(sheet: seq<RawEntityRow>, rows: seq<RawEntityRow>): set<nat> {
    set r | r in rows && DomesticUnresolved(sheet, r) :: r.line
  }

  /** Every line that has something wrong with it. */
  ghost function BadLines(rows: seq<RawEntityRow>, today: Date): set<nat> {
    FaultyLines(rows, today) + RepeatedLines(Map(NameKeyed, rows)) + RepeatedLines(Map(BusinessIdKeyed, rows))
    + UnresolvedLines(rows, rows)
  }

  function LineOf(row: RawEntityRow): nat {
    row.line
  }

  method CheckKind(row: RawEntityRow) returns (errors: seq<ValidationError>)
    ensures OnLine(errors, EntitiesFile, row.line, FaultyKind(row))
  {
    var registrationType := TypeOf(row.registrationType);
    var blank := IsBlank(row.domesticEntity);
    errors := [];
    if registrationType == None {
      errors := errors + [ValidationError(EntitiesFile, row.line, RegistrationTypeColumn)];
    }
    if registrationType == Some(FQ) && blank {
      errors := errors + [ValidationError(EntitiesFile, row.line, DomesticEntityColumn)];
    }
    if registrationType == Some(Entity) && !blank {
      errors := errors + [ValidationError(EntitiesFile, row.line, DomesticEntityColumn)];
    }
  }

  method CheckTerms(row: RawEntityRow) returns (errors: seq<ValidationError>)
    ensures OnLine(errors, EntitiesFile, row.line, FaultyTerms(row))
  {
    var line := row.line;
    var place, kind := !IsJurisdiction(row.jurisdiction), Trim(row.entityType) !in ENTITY_TYPES;
    var status := Trim(row.entityStatus) !in ENTITY_STATUSES;
    var region := !IsBlank(row.globalRegion) && Trim(row.globalRegion) !in GLOBAL_REGIONS;
    errors := TermErrors(line, place, kind, status, region);
  }

  method TermErrors(line: nat, place: bool, kind: bool, status: bool, region: bool)
    returns (errors: seq<ValidationError>)
    ensures OnLine(errors, EntitiesFile, line,
                   FaultyIf(place, JurisdictionColumn) + FaultyIf(kind, EntityTypeColumn)
                   + FaultyIf(status, EntityStatusColumn) + FaultyIf(region, GlobalRegionColumn))
  {
    errors := [];
    if place {
      errors := errors + [ValidationError(EntitiesFile, line, JurisdictionColumn)];
    }
    if kind {
      errors := errors + [ValidationError(EntitiesFile, line, EntityTypeColumn)];
    }
    if status {
      errors := errors + [ValidationError(EntitiesFile, line, EntityStatusColumn)];
    }
    if region {
      errors := errors + [ValidationError(EntitiesFile, line, GlobalRegionColumn)];
    }
  }

  method CheckStatusDate(row: RawEntityRow) returns (errors: seq<ValidationError>)
    ensures OnLine(errors, EntitiesFile, row.line, FaultyIf(!StatusDateClean(row), StatusDateColumn))
  {
    errors := [];
    if !IsBlank(row.statusDate) && ParseDate(row.statusDate) == None {
      errors := errors + [ValidationError(EntitiesFile, row.line, StatusDateColumn)];
    }
    if Trim(row.entityStatus) in TERMINAL_STATUSES && IsBlank(row.statusDate) {
      errors := errors + [ValidationError(EntitiesFile, row.line, StatusDateColumn)];
    }
  }

  method CheckName(row: RawEntityRow) returns (errors: seq<ValidationError>)
    ensures OnLine(errors, EntitiesFile, row.line, FaultyIf(IsBlank(row.entityName), EntityNameColumn))
  {
    errors := [];
    if IsBlank(row.entityName) {
      errors := [ValidationError(EntitiesFile, row.line, EntityNameColumn)];
    }
  }

  method CheckRow(row: RawEntityRow, today: Date) returns (errors: seq<ValidationError>)
    ensures forall e :: e in errors <==> IsRowError(row, today, e)
  {
    errors := CheckName(row);
    ghost var columns := FaultyIf(IsBlank(row.entityName), EntityNameColumn);
    var more := CheckTerms(row);
    OnLineAppend(errors, more, EntitiesFile, row.line, columns, FaultyTerms(row));
    errors, columns := errors + more, columns + FaultyTerms(row);
    more := CheckStatusDate(row);
    OnLineAppend(errors, more, EntitiesFile, row.line, columns, FaultyIf(!StatusDateClean(row), StatusDateColumn));
    errors, columns := errors + more, columns + FaultyIf(!StatusDateClean(row), StatusDateColumn);
    more := CheckKind(row);
    OnLineAppend(errors, more, EntitiesFile, row.line, columns, FaultyKind(row));
    errors, columns := errors + more, columns + FaultyKind(row);
    more := CheckPastDate(row.formationDate, today, EntitiesFile, row.line, FormationDateColumn);
    OnLineAppend(errors, more, EntitiesFile, row.line, columns,
                 FaultyIf(!PastDateClean(row.formationDate, today), FormationDateColumn));
    errors := errors + more;
  }

  method TypesByName(rows: seq<RawEntityRow>) returns (typeByName: map<string, RegistrationType>)
    ensures forall k :: TypeNamed(rows, k) == if k in typeByName then Some(typeByName[k]) else None
  {
    typeByName := map[];
    for i := 0 to |rows|
      invariant forall k :: TypeNamed(rows[..i], k) == if k in typeByName then Some(typeByName[k]) else None
    {
      assert rows[..i + 1][..i] == rows[..i];
      var registrationType := TypeOf(rows[i].registrationType);
      if !IsBlank(rows[i].entityName) && registrationType.Some? {
        typeByName := typeByName[Normalize(rows[i].entityName) := registrationType.value];
      }
    }
    assert rows[..|rows|] == rows;
  }

  lemma CleanRow(row: RawEntityRow, today: Date)
    ensures RowClean(row, today) <==> FaultyColumns(row, today) == {}
  {
  }

  /** The errors are exactly those of the rows by themselves. */
  ghost predicate AreRowErrors(errors: seq<ValidationError>, rows: seq<RawEntityRow>, today: Date) {
    forall e :: e in errors <==> exists r :: r in rows && IsRowError(r, today, e)
  }

  lemma OneMoreRow(errors: seq<ValidationError>, rows: seq<RawEntityRow>, today: Date,
                   row: RawEntityRow, more: seq<ValidationError>)
    requires AreRowErrors(errors, rows, today) && forall e :: e in more <==> IsRowError(row, today, e)
    ensures AreRowErrors(errors + more, rows + [row], today)
  {
    assert forall r :: r in rows + [row] <==> r in rows || r == row;
    forall e
      ensures e in errors + more <==> exists r :: r in rows + [row] && IsRowError(r, today, e)
    {
      assert e in errors <==> exists r :: r in rows && IsRowError(r, today, e);
    }
  }

  lemma ErrorOfRow(row: RawEntityRow, today: Date, e: ValidationError)
    requires IsRowError(row, today, e)
    ensures !RowClean(row, today) && e.line == row.line
  {
    CleanRow(row, today);
  }

  lemma FaultOfRow(row: RawEntityRow, today: Date) returns (e: ValidationError)
    requires !RowClean(row, today)
    ensures IsRowError(row, today, e) && e.line == row.line
  {
    CleanRow(row, today);
    var c :| c in FaultyColumns(row, today);
    e := ValidationError(EntitiesFile, row.line, c);
  }

  lemma RowErrorLines(errors: seq<ValidationError>, rows: seq<RawEntityRow>, today: Date)
    requires AreRowErrors(errors, rows, today)
    ensures ErrorLines(errors) == FaultyLines(rows, today)
  {
    forall l
      ensures l in ErrorLines(errors) <==> l in FaultyLines(rows, today)
    {
      if e :| e in errors && e.line == l {
        var r :| r in rows && IsRowError(r, today, e);
        ErrorOfRow(r, today, e);
      }
      if r :| r in rows && !RowClean(r, today) && r.line == l {
        var e := FaultOfRow(r, today);
        assert e in errors;
      }
    }
  }

  method RowErrors(rows: seq<RawEntityRow>, today: Date) returns (errors: seq<ValidationError>)
    ensures AreRowErrors(errors, rows, today) && ErrorLines(errors) == FaultyLines(rows, today)
  {
    errors := [];
    for i := 0 to |rows|
      invariant AreRowErrors(errors, rows[..i], today)
    {
      var more := CheckRow(rows[i], today);
      OneMoreRow(errors, rows[..i], today, rows[i], more);
      assert rows[..i + 1] == rows[..i] + [rows[i]];
      errors := errors + more;
    }
    assert rows[..|rows|] == rows;
    RowErrorLines(errors, rows, today);
  }

  method DomesticErrors(rows: seq<RawEntityRow>) returns (errors: seq<ValidationError>)
    ensures ErrorLines(errors) == UnresolvedLines(rows, rows)
    ensures forall e :: e in errors ==> e.file == EntitiesFile && e.column == DomesticEntityColumn
  {
    var typeByName := TypesByName(rows);
    errors := [];
    for i := 0 to |rows|
      invariant ErrorLines(errors) == UnresolvedLines(rows, rows[..i])
      invariant forall e :: e in errors ==> e.file == EntitiesFile && e.column == DomesticEntityColumn
    {
      assert rows[..i + 1] == rows[..i] + [rows[i]];
      var domesticEntity := DomesticOf(rows[i]);
      if domesticEntity.Some? {
        var key := Normalize(domesticEntity.value);
        if key !in typeByName || typeByName[key] != Entity {
          LinesOfAppend(errors, [ValidationError(EntitiesFile, rows[i].line, DomesticEntityColumn)]);
          errors := errors + [ValidationError(EntitiesFile, rows[i].line, DomesticEntityColumn)];
        }
      }
    }
    assert rows[..|rows|] == rows;
  }

  method SheetErrors(rows: seq<RawEntityRow>, today: Date) returns (errors: seq<ValidationError>)
    ensures forall e :: e in errors <==> IsSheetError(rows, today, e)
    ensures ErrorLines(errors) == BadLines(rows, today)
  {
    errors := RowErrors(rows, today);
    var more := DuplicateErrors(Map(NameKeyed, rows), EntitiesFile, EntityNameColumn);
    ErrorsOfColumn(more, EntitiesFile, EntityNameColumn);
    LinesOfAppend(errors, more);
    errors := errors + more;
    more := DuplicateErrors(Map(BusinessIdKeyed, rows), EntitiesFile, BusinessIdColumn);
    ErrorsOfColumn(more, EntitiesFile, BusinessIdColumn);
    LinesOfAppend(errors, more);
    errors := errors + more;
    more := DomesticErrors(rows);
    ErrorsOfColumn(more, EntitiesFile, DomesticEntityColumn);
    LinesOfAppend(errors, more);
    errors := errors + more;
  }

  /** Reports exactly the errors of the sheet and keeps exactly the rows on lines without any. */
  method ValidateEntitiesSheet(rows: seq<RawEntityRow>, today: Date)
    returns (errors: seq<ValidationError>, kept: seq<EntityRow>)
    ensures forall e :: e in errors <==> IsSheetError(rows, today, e)
    ensures ErrorLines(errors) == BadLines(rows, today)
    ensures kept == Kept(rows, LineOf, Candidate, BadLines(rows, today))
    ensures forall c :: c in kept <==>
      exists r :: r in rows && r.line !in BadLines(rows, today) && c == Candidate(r)
  {
    errors := SheetErrors(rows, today);
    kept := Kept(rows, LineOf, Candidate, ErrorLines(errors));
    KeptMembers(rows, LineOf, Candidate, ErrorLines(errors));
  }

  // ----- A sheet without errors -----

  ghost predicate RowsClean(rows: seq<RawEntityRow>, today: Date) {
    forall r :: r in rows ==> RowClean(r, today)
  }

  ghost predicate NamesDiffer(rows: seq<RawEntityRow>) {
    forall i, j :: 0 <= i < j < |rows| ==> Normalize(rows[i].entityName) != Normalize(rows[j].entityName)
  }

  ghost predicate BusinessIdsDiffer(rows: seq<RawEntityRow>) {
    forall i, j :: 0 <= i < j < |rows| && !IsBlank(rows[i].businessId) ==>
      Trim(rows[i].businessId) != Trim(rows[j].businessId)
  }

  /** Some row of the sheet is the Entity row that the row, if it is an FQ, names as domestic. */
  ghost predicate DomesticListed(rows: seq<RawEntityRow>, row: RawEntityRow) {
    Trim(row.registrationType) == "FQ" ==> exists d :: d in rows && IsDomestic(row, d)
  }

  predicate IsDomestic(row: RawEntityRow, d: RawEntityRow) {
    Trim(d.registrationType) == "Entity" && Normalize(d.entityName) == Normalize(row.domesticEntity)
  }

  /** What an accepted sheet satisfies, said without lines and keys. */
  ghost predicate SheetClean(rows: seq<RawEntityRow>, today: Date) {
    && RowsClean(rows, today) && NamesDiffer(rows) && BusinessIdsDiffer(rows)
    && forall r :: r in rows ==> DomesticListed(rows, r)
  }

  lemma NamesDifferExact(rows: seq<RawEntityRow>, today: Date)
    requires RowsClean(rows, today)
    ensures NoneRepeated(Map(NameKeyed, rows)) <==> NamesDiffer(rows)
  {
    var keyed := Map(NameKeyed, rows);
    forall i | 0 <= i < |rows|
      ensures keyed[i].key == Some(Normalize(rows[i].entityName))
    {
      assert rows[i] in rows;
    }
    if NoneRepeated(keyed) {
      forall i, j | 0 <= i < j < |rows|
        ensures Normalize(rows[i].entityName) != Normalize(rows[j].entityName)
      {
        assert !Repeated(keyed, i);
      }
    }
  }

  lemma BusinessIdsDifferExact(rows: seq<RawEntityRow>)
    ensures NoneRepeated(Map(BusinessIdKeyed, rows)) <==> BusinessIdsDiffer(rows)
  {
    var keyed := Map(BusinessIdKeyed, rows);
    if NoneRepeated(keyed) {
      forall i, j | 0 <= i < j < |rows| && !IsBlank(rows[i].businessId)
        ensures Trim(rows[i].businessId) != Trim(rows[j].businessId)
      {
        assert !Repeated(keyed, i);
      }
    }
  }

  /** Every row has a name and a type. */
  ghost predicate AllTyped(rows: seq<RawEntityRow>) {
    forall r :: r in rows ==> !IsBlank(r.entityName) && TypeOf(r.registrationType).Some?
  }

  ghost predicate IsEntityNamed(d: RawEntityRow, key: string) {
    Trim(d.registrationType) == "Entity" && Normalize(d.entityName) == key
  }

  /** Where the names differ, the type of a name is that of its only row. */
  lemma {:induction false} TypeNamedExact(rows: seq<RawEntityRow>, key: string)
    requires AllTyped(rows) && NamesDiffer(rows)
    ensures TypeNamed(rows, key) == Some(Entity) <==> exists d :: d in rows && IsEntityNamed(d, key)
  {
    if rows != [] {
      var n := |rows| - 1;
      assert rows[n] in rows && forall d :: d in rows <==> d in rows[..n] || d == rows[n];
      if Normalize(rows[n].entityName) == key {
        forall d | d in rows[..n]
          ensures !IsEntityNamed(d, key)
        {
          var i :| 0 <= i < n && rows[i] == d;
        }
      } else {
        TypeNamedExact(rows[..n], key);
      }
    }
  }

  lemma CleanIsTyped(rows: seq<RawEntityRow>, today: Date)
    requires RowsClean(rows, today)
    ensures AllTyped(rows)
  {
  }

  lemma DomesticListedExact(rows: seq<RawEntityRow>, row: RawEntityRow)
    requires AllTyped(rows) && NamesDiffer(rows) && DomesticFits(row)
    ensures !DomesticUnresolved(rows, row) <==> DomesticListed(rows, row)
  {
    NormalizeOfTrim(row.domesticEntity);
    TypeNamedExact(rows, Normalize(row.domesticEntity));
    forall d
      ensures IsDomestic(row, d) <==> IsEntityNamed(d, Normalize(row.domesticEntity))
    {
    }
  }

  lemma UnresolvedExact(rows: seq<RawEntityRow>, today: Date)
    requires RowsClean(rows, today) && NamesDiffer(rows)
    ensures UnresolvedLines(rows, rows) == {} <==> forall r :: r in rows ==> DomesticListed(rows, r)
  {
    CleanIsTyped(rows, today);
    forall r | r in rows
      ensures DomesticUnresolved(rows, r) <==> !DomesticListed(rows, r)
    {
      assert RowClean(r, today);
      DomesticListedExact(rows, r);
    }
    if r :| r in rows && DomesticUnresolved(rows, r) {
      assert r.line in UnresolvedLines(rows, rows);
    }
  }

  lemma NoBadLinesExact(rows: seq<RawEntityRow>, today: Date)
    ensures BadLines(rows, today) == {} <==> SheetClean(rows, today)
  {
    NoRepeatedLines(Map(NameKeyed, rows));
    NoRepeatedLines(Map(BusinessIdKeyed, rows));
    BusinessIdsDifferExact(rows);
    if r :| r in rows && !RowClean(r, today) {
      assert r.line in FaultyLines(rows, today);
    } else {
      NamesDifferExact(rows, today);
      if NamesDiffer(rows) {
        UnresolvedExact(rows, today);
      }
    }
  }
}
