/** validation/ownership-validator.ts. */
module OwnershipValidator {
  import opened Collections
  import opened Dates
  import opened GraphValidator
  import opened Names
  import opened Options
  import opened SheetChecks
  import opened UploadTypes

  datatype RawOwnershipRow = RawOwnershipRow(line: nat, parentEntity: string, childEntity: string, ownershipPct: string)

  type TypeByName = map<string, RegistrationType>

  function FirstPoint(s: string): (i: nat)
    ensures i <= |s|
  {
    if s == "" || s[0] == '.' then 0 else 1 + FirstPoint(s[1..])
  }

  /** A number with at most two decimals, in hundredths. */
  function ParsePercent(s: string): Option<nat> {
    var i := FirstPoint(s);
    var whole := s[..i];
    if whole == "" || !AllDigits(whole) then None
    else if i == |s| then Some(Number(whole) * 100)
    else
      var decimals := s[i + 1..];
      if !AllDigits(decimals) then None
      else if |decimals| == 1 then Some(Number(whole) * 100 + Number(decimals) * 10)
      else if |decimals| == 2 then Some(Number(whole) * 100 + Number(decimals))
      else None
  }

  // ----- What number a percentage denotes -----

  /** Digits, optionally followed by a point and one or two digits. */
  ghost predicate IsDecimal(s: string, whole: string, decimals: string) {
    && whole != "" && AllDigits(whole) && AllDigits(decimals) && |decimals| <= 2
    && s == if decimals == "" then whole else whole + "." + decimals
  }

  /** All digits read as one number, in units of a hundredth. */
  function Hundredths(whole: string, decimals: string): nat
    requires AllDigits(whole) && AllDigits(decimals) && |decimals| <= 2
  {
    assert AllDigits(whole + decimals);
    Number(whole + decimals) * PowerOfTen(2 - |decimals|)
  }

  lemma {:induction false} PointAt(whole: string, rest: string)
    requires AllDigits(whole) && (rest == "" || rest[0] == '.')
    ensures FirstPoint(whole + rest) == |whole|
  {
    if whole != "" {
      assert (whole + rest)[0] == whole[0] && (whole + rest)[1..] == whole[1..] + rest;
      PointAt(whole[1..], rest);
    }
  }

  lemma {:induction false} FirstPointIs(s: string)
    ensures FirstPoint(s) < |s| ==> s[FirstPoint(s)] == '.'
  {
    if s != "" && s[0] != '.' {
      FirstPointIs(s[1..]);
    }
  }

  lemma WholeIsRead(whole: string)
    requires whole != "" && AllDigits(whole)
    ensures ParsePercent(whole) == Some(Number(whole) * 100)
  {
    PointAt(whole, "");
    assert whole + "" == whole && whole[..|whole|] == whole;
  }

  lemma CutAtPoint(whole: string, decimals: string)
    requires AllDigits(whole)
    ensures var s := whole + "." + decimals;
      |s| > |whole| && FirstPoint(s) == |whole| && s[..|whole|] == whole && s[|whole| + 1..] == decimals
  {
    PointAt(whole, "." + decimals);
    assert whole + "." + decimals == whole + ("." + decimals);
  }

  lemma PlacesAreRead(whole: string, decimals: string)
    requires whole != "" && AllDigits(whole) && AllDigits(decimals) && 1 <= |decimals| <= 2
    ensures var read := ParsePercent(whole + "." + decimals);
      && read.Some?
      && (|decimals| == 1 ==> read.value == Number(whole) * 100 + Number(decimals) * 10)
      && (|decimals| == 2 ==> read.value == Number(whole) * 100 + Number(decimals))
  {
    CutAtPoint(whole, decimals);
    ReadPlaces(whole + "." + decimals, whole, decimals);
  }

  lemma ReadPlaces(s: string, whole: string, decimals: string)
    requires |s| > |whole| && FirstPoint(s) == |whole| && s[..|whole|] == whole && s[|whole| + 1..] == decimals
    requires whole != "" && AllDigits(whole) && AllDigits(decimals) && 1 <= |decimals| <= 2
    ensures ParsePercent(s).Some?
    ensures |decimals| == 1 ==> ParsePercent(s).value == Number(whole) * 100 + Number(decimals) * 10
    ensures |decimals| == 2 ==> ParsePercent(s).value == Number(whole) * 100 + Number(decimals)
  {
  }

  lemma HundredthsOfPlaces(whole: string, decimals: string)
    requires AllDigits(whole) && AllDigits(decimals) && |decimals| <= 2
    ensures |decimals| == 0 ==> Hundredths(whole, decimals) == Number(whole) * 100
    ensures |decimals| == 1 ==> Hundredths(whole, decimals) == Number(whole) * 100 + Number(decimals) * 10
    ensures |decimals| == 2 ==> Hundredths(whole, decimals) == Number(whole) * 100 + Number(decimals)
  {
    NumberAppend(whole, decimals);
    assert PowerOfTen(0) == 1 && PowerOfTen(1) == 10 && PowerOfTen(2) == 100;
    var n, m := Number(whole), Number(decimals);
    if |decimals| == 0 {
      assert whole + decimals == whole;
    } else if |decimals| == 1 {
      assert Number(whole + decimals) == n * 10 + m && Hundredths(whole, decimals) == (n * 10 + m) * 10;
    } else {
      assert Number(whole + decimals) == n * 100 + m && Hundredths(whole, decimals) == n * 100 + m;
    }
  }

  /** A decimal is read as the number it denotes. */
  lemma DecimalIsRead(s: string, whole: string, decimals: string)
    requires IsDecimal(s, whole, decimals)
    ensures ParsePercent(s) == Some(Hundredths(whole, decimals))
  {
    HundredthsOfPlaces(whole, decimals);
    if decimals == "" {
      WholeIsRead(whole);
    } else {
      PlacesAreRead(whole, decimals);
    }
  }

  /** Only decimals are read. */
  lemma ReadIsDecimal(s: string) returns (whole: string, decimals: string)
    requires ParsePercent(s).Some?
    ensures IsDecimal(s, whole, decimals)
  {
    var i := FirstPoint(s);
    FirstPointIs(s);
    whole := s[..i];
    decimals := if i == |s| then "" else s[i + 1..];
    if i < |s| {
      assert s == whole + "." + decimals;
    }
  }

  /** A cell is a percentage exactly when it is a decimal with at most two places, and then it denotes
      that decimal's value. */
  lemma ParsePercentExact(s: string, pct: nat)
    ensures ParsePercent(s) == Some(pct) <==>
      exists whole, decimals :: IsDecimal(s, whole, decimals) && pct == Hundredths(whole, decimals)
  {
    if ParsePercent(s) == Some(pct) {
      var whole, decimals := ReadIsDecimal(s);
      DecimalIsRead(s, whole, decimals);
    }
    if whole, decimals :| IsDecimal(s, whole, decimals) && pct == Hundredths(whole, decimals) {
      DecimalIsRead(s, whole, decimals);
    }
  }

  /** A trailing zero changes nothing. */
  lemma TrailingZero(whole: string, digit: string)
    requires whole != "" && AllDigits(whole) && AllDigits(digit) && |digit| == 1
    ensures ParsePercent(whole + "." + digit) == ParsePercent(whole + "." + (digit + "0")) != None
  {
    var zero := digit + "0";
    DecimalIsRead(whole + "." + digit, whole, digit);
    DecimalIsRead(whole + "." + zero, whole, zero);
    HundredthsOfPlaces(whole, digit);
    HundredthsOfPlaces(whole, zero);
    NumberAppend(digit, "0");
    assert PowerOfTen(1) == 10 && Number("0") == 0;
  }

  /** A percentage printed with two decimals, with at least `width` digits before the point. */
  function PrintPercent(pct: nat, width: nat): string {
    Pad(pct / 100, width) + "." + Pad(pct % 100, 2)
  }

  /** Printing with two decimals and reading gives the percentage back. */
  lemma PercentOfPrint(pct: nat, width: nat)
    requires width > 0 && pct / 100 < PowerOfTen(width)
    ensures ParsePercent(PrintPercent(pct, width)) == Some(pct)
  {
    var whole, decimals := Pad(pct / 100, width), Pad(pct % 100, 2);
    DecimalIsRead(PrintPercent(pct, width), whole, decimals);
    HundredthsOfPlaces(whole, decimals);
    NumberOfPad(pct / 100, width);
    assert PowerOfTen(2) == 100;
    NumberOfPad(pct % 100, 2);
  }

  /** The percentage of a row, 0 when it cannot be read. */
  function PercentOf(cell: string): nat {
    match ParsePercent(Trim(cell))
    case None => 0
    case Some(pct) => pct
  }

  function Candidate(row: RawOwnershipRow): OwnershipRow {
    OwnershipRow(row.line, Trim(row.parentEntity), Trim(row.childEntity), PercentOf(row.ownershipPct))
  }

  function LineOf(row: RawOwnershipRow): nat {
    row.line
  }

  /** An end of an edge is named and is an Entity row of the same upload. */
  predicate EndClean(cell: string, types: TypeByName) {
    !IsBlank(cell) && Normalize(cell) in types && types[Normalize(cell)] == Entity
  }

  predicate EndsDiffer(row: RawOwnershipRow) {
    !IsBlank(row.parentEntity) && !IsBlank(row.childEntity) && Normalize(row.parentEntity) != Normalize(row.childEntity)
  }

  predicate RowClean(row: RawOwnershipRow, types: TypeByName) {
    && EndClean(row.parentEntity, types) && EndClean(row.childEntity, types) && EndsDiffer(row)
    && 0 < PercentOf(row.ownershipPct) <= 10000
  }

  /** The columns of a row with an error of its own. */
  function FaultyColumns(row: RawOwnershipRow, types: TypeByName): set<Column> {
    FaultyIf(!EndClean(row.parentEntity, types), ParentEntity)
    + FaultyIf(!EndClean(row.childEntity, types), ChildEntity) + FaultyIf(IsSelfOwned(row), ChildEntity)
    + FaultyIf(!(0 < PercentOf(row.ownershipPct) <= 10000), OwnershipPercent)
  }

  predicate IsSelfOwned(row: RawOwnershipRow) {
    !IsBlank(row.parentEntity) && !IsBlank(row.childEntity) && Normalize(row.parentEntity) == Normalize(row.childEntity)
  }

  ghost predicate IsRowError(row: RawOwnershipRow, types: TypeByName, e: ValidationError) {
    IsOnLine(e, OwnershipFile, row.line, FaultyColumns(row, types))
  }

  /** Every error that the sheet deserves: of its rows by themselves, and of repeated pairs. */
  ghost predicate IsSheetError(rows: seq<RawOwnershipRow>, types: TypeByName, e: ValidationError) {
    || (exists r :: r in rows && IsRowError(r, types, e))
    || IsAt(e, OwnershipFile, ParentEntity, RepeatedLines(Map(PairKeyed, rows)))
  }

  function PairKeyed(row: RawOwnershipRow): Keyed {
    Keyed(row.line, if EndsDiffer(row) then Some(EdgeKey(row.parentEntity, row.childEntity)) else None)
  }

  ghost function FaultyLines(rows: seq<RawOwnershipRow>, types: TypeByName): set<nat> {
    set r | r in rows && !RowClean(r, types) :: r.line
  }

  ghost function BadLines(rows: seq<RawOwnershipRow>, types: TypeByName): set<nat> {
    FaultyLines(rows, types) + RepeatedLines(Map(PairKeyed, rows))
  }

  method CheckEnd(line: nat, cell: string, column: Column, types: TypeByName) returns (errors: seq<ValidationError>)
    ensures OnLine(errors, OwnershipFile, line, FaultyIf(!EndClean(cell, types), column))
  {
    errors := [];
    if IsBlank(cell) {
      errors := [ValidationError(OwnershipFile, line, column)];
    } else if Normalize(cell) !in types {
      errors := [ValidationError(OwnershipFile, line, column)];
    } else if types[Normalize(cell)] == FQ {
      errors := [ValidationError(OwnershipFile, line, column)];
    }
  }

  method CheckPercent(line: nat, cell: string) returns (errors: seq<ValidationError>)
    ensures OnLine(errors, OwnershipFile, line, FaultyIf(!(0 < PercentOf(cell) <= 10000), OwnershipPercent))
  {
    errors := [];
    var parsed := ParsePercent(Trim(cell));
    if parsed == None {
      errors := [ValidationError(OwnershipFile, line, OwnershipPercent)];
    } else if !(0 < parsed.value <= 10000) {
      errors := [ValidationError(OwnershipFile, line, OwnershipPercent)];
    }
  }

  method CheckDistinct(row: RawOwnershipRow) returns (errors: seq<ValidationError>)
    ensures OnLine(errors, OwnershipFile, row.line, FaultyIf(IsSelfOwned(row), ChildEntity))
  {
    errors := [];
    if !IsBlank(row.parentEntity) && !IsBlank(row.childEntity) &&
       Normalize(row.parentEntity) == Normalize(row.childEntity) {
      errors := [ValidationError(OwnershipFile, row.line, ChildEntity)];
    }
  }

  method CheckRow(row: RawOwnershipRow, types: TypeByName) returns (errors: seq<ValidationError>)
    ensures forall e :: e in errors <==> IsRowError(row, types, e)
  {
    errors := CheckEnd(row.line, row.parentEntity, ParentEntity, types);
    ghost var columns := FaultyIf(!EndClean(row.parentEntity, types), ParentEntity);
    var more := CheckEnd(row.line, row.childEntity, ChildEntity, types);
    OnLineAppend(errors, more, OwnershipFile, row.line, columns,
                 FaultyIf(!EndClean(row.childEntity, types), ChildEntity));
    errors, columns := errors + more, columns + FaultyIf(!EndClean(row.childEntity, types), ChildEntity);
    more := CheckDistinct(row);
    OnLineAppend(errors, more, OwnershipFile, row.line, columns, FaultyIf(IsSelfOwned(row), ChildEntity));
    errors, columns := errors + more, columns + FaultyIf(IsSelfOwned(row), ChildEntity);
    more := CheckPercent(row.line, row.ownershipPct);
    OnLineAppend(errors, more, OwnershipFile, row.line, columns,
                 FaultyIf(!(0 < PercentOf(row.ownershipPct) <= 10000), OwnershipPercent));
    errors := errors + more;
  }

  lemma CleanRow(row: RawOwnershipRow, types: TypeByName)
    ensures RowClean(row, types) <==> FaultyColumns(row, types) == {}
  {
  }

  /** The errors are exactly those of the rows by themselves. */
  ghost predicate AreRowErrors(errors: seq<ValidationError>, rows: seq<RawOwnershipRow>, types: TypeByName) {
    forall e :: e in errors <==> exists r :: r in rows && IsRowError(r, types, e)
  }

  lemma OneMoreRow(errors: seq<ValidationError>, rows: seq<RawOwnershipRow>, types: TypeByName,
                   row: RawOwnershipRow, more: seq<ValidationError>)
    requires AreRowErrors(errors, rows, types) && forall e :: e in more <==> IsRowError(row, types, e)
    ensures AreRowErrors(errors + more, rows + [row], types)
  {
    assert forall r :: r in rows + [row] <==> r in rows || r == row;
    forall e
      ensures e in errors + more <==> exists r :: r in rows + [row] && IsRowError(r, types, e)
    {
      assert e in errors <==> exists r :: r in rows && IsRowError(r, types, e);
    }
  }

  lemma RowErrorLines(errors: seq<ValidationError>, rows: seq<RawOwnershipRow>, types: TypeByName)
    requires AreRowErrors(errors, rows, types)
    ensures ErrorLines(errors) == FaultyLines(rows, types)
  {
    forall l
      ensures l in ErrorLines(errors) <==> l in FaultyLines(rows, types)
    {
      if e :| e in errors && e.line == l {
        var r :| r in rows && IsRowError(r, types, e);
        CleanRow(r, types);
      }
      if r :| r in rows && !RowClean(r, types) && r.line == l {
        CleanRow(r, types);
        var c :| c in FaultyColumns(r, types);
        assert IsRowError(r, types, ValidationError(OwnershipFile, l, c));
      }
    }
  }

  method RowErrors(rows: seq<RawOwnershipRow>, types: TypeByName) returns (errors: seq<ValidationError>)
    ensures AreRowErrors(errors, rows, types) && ErrorLines(errors) == FaultyLines(rows, types)
  {
    errors := [];
    for i := 0 to |rows|
      invariant AreRowErrors(errors, rows[..i], types)
    {
      var more := CheckRow(rows[i], types);
      OneMoreRow(errors, rows[..i], types, rows[i], more);
      assert rows[..i + 1] == rows[..i] + [rows[i]];
      errors := errors + more;
    }
    assert rows[..|rows|] == rows;
    RowErrorLines(errors, rows, types);
  }

  /** Reports exactly the errors of the sheet and keeps exactly the rows on lines without any. */
  method ValidateOwnershipSheet(rows: seq<RawOwnershipRow>, entityTypeByName: TypeByName)
    returns (errors: seq<ValidationError>, kept: seq<OwnershipRow>)
    ensures forall e :: e in errors <==> IsSheetError(rows, entityTypeByName, e)
    ensures ErrorLines(errors) == BadLines(rows, entityTypeByName)
    ensures kept == Kept(rows, LineOf, Candidate, BadLines(rows, entityTypeByName))
    ensures forall c :: c in kept <==>
      exists r :: r in rows && r.line !in BadLines(rows, entityTypeByName) && c == Candidate(r)
  {
    errors := RowErrors(rows, entityTypeByName);
    var more := DuplicateErrors(Map(PairKeyed, rows), OwnershipFile, ParentEntity);
    ErrorsOfColumn(more, OwnershipFile, ParentEntity);
    LinesOfAppend(errors, more);
    errors := errors + more;
    kept := Kept(rows, LineOf, Candidate, ErrorLines(errors));
    KeptMembers(rows, LineOf, Candidate, ErrorLines(errors));
  }

  ghost predicate RowsClean(rows: seq<RawOwnershipRow>, types: TypeByName) {
    forall r :: r in rows ==> RowClean(r, types)
  }

  /** The two rows have one joined pair of names. */
  predicate SameJoinedPair(a: RawOwnershipRow, b: RawOwnershipRow) {
    Join(Normalize(a.parentEntity), Normalize(a.childEntity))
    == Join(Normalize(b.parentEntity), Normalize(b.childEntity))
  }

  ghost predicate PairsDiffer(rows: seq<RawOwnershipRow>) {
    forall i, j :: 0 <= i < j < |rows| ==> !SameJoinedPair(rows[i], rows[j])
  }

  /** What an accepted sheet satisfies, said without lines and keys. */
  ghost predicate SheetClean(rows: seq<RawOwnershipRow>, types: TypeByName) {
    RowsClean(rows, types) && PairsDiffer(rows)
  }

  /** For names that survive joining, one joined pair means one parent and one child. */
  lemma SamePairExact(a: RawOwnershipRow, b: RawOwnershipRow)
    requires SafeName(Normalize(a.parentEntity)) && SeparatorFree(Normalize(a.childEntity))
    requires SafeName(Normalize(b.parentEntity)) && SeparatorFree(Normalize(b.childEntity))
    ensures SameJoinedPair(a, b) <==>
      && Normalize(a.parentEntity) == Normalize(b.parentEntity)
      && Normalize(a.childEntity) == Normalize(b.childEntity)
  {
    SplitJoin(Normalize(a.parentEntity), Normalize(a.childEntity));
    SplitJoin(Normalize(b.parentEntity), Normalize(b.childEntity));
  }

  lemma PairsDifferExact(rows: seq<RawOwnershipRow>, types: TypeByName)
    requires RowsClean(rows, types)
    ensures NoneRepeated(Map(PairKeyed, rows)) <==> PairsDiffer(rows)
  {
    var keyed := Map(PairKeyed, rows);
    forall i | 0 <= i < |rows|
      ensures keyed[i].key == Some(Join(Normalize(rows[i].parentEntity), Normalize(rows[i].childEntity)))
    {
      assert rows[i] in rows;
    }
    if NoneRepeated(keyed) {
      forall i, j | 0 <= i < j < |rows|
        ensures !SameJoinedPair(rows[i], rows[j])
      {
        assert !Repeated(keyed, i);
      }
    }
  }

  lemma NoBadLinesExact(rows: seq<RawOwnershipRow>, types: TypeByName)
    ensures BadLines(rows, types) == {} <==> SheetClean(rows, types)
  {
    NoRepeatedLines(Map(PairKeyed, rows));
    if r :| r in rows && !RowClean(r, types) {
      assert r.line in FaultyLines(rows, types);
    } else {
      PairsDifferExact(rows, types);
    }
  }
}
