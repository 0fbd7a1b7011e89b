/** What the three sheet validators share: error lines, rows kept, and in-sheet duplicates. */
module SheetChecks {
  import opened Collections
  import opened Dates
  import opened Names
  import opened Options
  import opened UploadTypes

  function ErrorLines(errors: seq<ValidationError>): set<nat> {
    set e | e in errors :: e.line
  }

  lemma LinesOfAppend(a: seq<ValidationError>, b: seq<ValidationError>)
    ensures ErrorLines(a + b) == ErrorLines(a) + ErrorLines(b)
  {
  }

  function FaultyIf(faulty: bool, column: Column): set<Column> {
    if faulty then {column} else {}
  }

  /** The errors are exactly those of these columns of one line. */
  ghost predicate OnLine(errors: seq<ValidationError>, file: SheetFile, line: nat, columns: set<Column>) {
    forall e :: e in errors <==> IsOnLine(e, file, line, columns)
  }

  ghost predicate IsOnLine(e: ValidationError, file: SheetFile, line: nat, columns: set<Column>) {
    e.file == file && e.line == line && e.column in columns
  }

  function ErrorIf(faulty: bool, file: SheetFile, line: nat, column: Column): (errors: seq<ValidationError>)
    ensures OnLine(errors, file, line, FaultyIf(faulty, column))
  {
    if faulty then [ValidationError(file, line, column)] else []
  }

  lemma OnLineAppend(a: seq<ValidationError>, b: seq<ValidationError>, file: SheetFile, line: nat, c: set<Column>,
                     d: set<Column>)
    requires OnLine(a, file, line, c) && OnLine(b, file, line, d)
    ensures OnLine(a + b, file, line, c + d)
  {
    forall e
      ensures e in a + b <==> IsOnLine(e, file, line, c + d)
    {
      assert e in a <==> IsOnLine(e, file, line, c);
      assert e in b <==> IsOnLine(e, file, line, d);
    }
  }

  ghost predicate IsAt(e: ValidationError, file: SheetFile, column: Column, lines: set<nat>) {
    e.file == file && e.column == column && e.line in lines
  }

  /** The errors are exactly those of one column of one file, on these lines. */
  ghost predicate AllAt(errors: seq<ValidationError>, file: SheetFile, column: Column, lines: set<nat>) {
    forall e :: e in errors <==> IsAt(e, file, column, lines)
  }

  lemma ErrorsOfColumn(errors: seq<ValidationError>, file: SheetFile, column: Column)
    requires forall e :: e in errors ==> e.file == file && e.column == column
    ensures AllAt(errors, file, column, ErrorLines(errors))
  {
    forall e | IsAt(e, file, column, ErrorLines(errors))
      ensures e in errors
    {
      var d :| d in errors && d.line == e.line;
      assert d == e;
    }
  }

  lemma NoLinesNoErrors(errors: seq<ValidationError>)
    ensures ErrorLines(errors) == {} <==> errors == []
  {
    if errors != [] {
      assert errors[0].line in ErrorLines(errors);
    }
  }

  // ----- Cells -----

  function OptionalText(cell: string): Option<string> {
    if IsBlank(cell) then None else Some(Trim(cell))
  }

  /** One segment, or two separated by a slash, none of them blank. */
  predicate IsJurisdiction(cell: string) {
    var text := Trim(cell);
    var i := FirstSlash(text);
    if i == |text| then text != ""
    else
      var rest := text[i + 1..];
      FirstSlash(rest) == |rest| && !IsBlank(text[..i]) && !IsBlank(rest)
  }

  ghost predicate SlashFree(s: string) {
    forall i :: 0 <= i < |s| ==> s[i] != '/'
  }

  /** The name of a country or state: some character that is not white space, and no slash. */
  ghost predicate IsPlace(s: string) {
    SlashFree(s) && !AllSpace(s)
  }

  lemma {:induction false} FirstSlashExact(s: string)
    ensures FirstSlash(s) == |s| <==> SlashFree(s)
    ensures SlashFree(s[..FirstSlash(s)])
  {
    if s != "" && s[0] != '/' {
      FirstSlashExact(s[1..]);
      forall i | 0 <= i < FirstSlash(s)
        ensures s[i] != '/'
      {
        if i > 0 {
          assert s[i] == s[1..][..FirstSlash(s[1..])][i - 1];
        }
      }
      assert SlashFree(s) ==> SlashFree(s[1..]);
    }
  }

  lemma BlankExact(s: string)
    ensures IsBlank(s) <==> AllSpace(s)
  {
    var lead, tail := TrimExact(s);
    if IsBlank(s) {
      assert s == lead + tail;
    } else {
      assert Trim(s)[0] in s;
    }
  }

  lemma {:induction false} SlashAfter(a: string, b: string)
    requires SlashFree(a)
    ensures FirstSlash(a + "/" + b) == |a|
  {
    var s := a + "/" + b;
    if a == "" {
      assert s[0] == '/';
    } else {
      assert s[0] == a[0] && s[1..] == a[1..] + "/" + b;
      SlashAfter(a[1..], b);
    }
  }

  ghost predicate IsCountryAndState(text: string, country: string, state: string) {
    IsPlace(country) && IsPlace(state) && text == country + "/" + state
  }

  lemma PartsAreAccepted(cell: string, country: string, state: string)
    requires IsCountryAndState(Trim(cell), country, state)
    ensures IsJurisdiction(cell)
  {
    var text := Trim(cell);
    SlashAfter(country, state);
    assert text[..|country|] == country && text[|country| + 1..] == state;
    BlankExact(country);
    BlankExact(state);
    FirstSlashExact(state);
  }

  lemma AcceptedHasParts(cell: string)
    requires IsJurisdiction(cell) && FirstSlash(Trim(cell)) < |Trim(cell)|
    ensures var i := FirstSlash(Trim(cell)); IsCountryAndState(Trim(cell), Trim(cell)[..i], Trim(cell)[i + 1..])
  {
    var text := Trim(cell);
    var i := FirstSlash(text);
    FirstSlashExact(text);
    FirstSlashExact(text[i + 1..]);
    BlankExact(text[..i]);
    BlankExact(text[i + 1..]);
  }

  /** A jurisdiction is a country, or a country and a state with one slash between them. */
  lemma JurisdictionExact(cell: string)
    ensures IsJurisdiction(cell) <==>
      IsPlace(Trim(cell)) || exists country, state :: IsCountryAndState(Trim(cell), country, state)
  {
    var text := Trim(cell);
    FirstSlashExact(text);
    BlankExact(text);
    TrimIsTrimmed(cell);
    TrimmedStays(text);
    if country, state :| IsCountryAndState(text, country, state) {
      PartsAreAccepted(cell, country, state);
    }
    if IsJurisdiction(cell) && FirstSlash(text) < |text| {
      AcceptedHasParts(cell);
    }
  }

  function OptionalDate(cell: string): Option<Date> {
    if IsBlank(cell) then None else ParseDate(cell)
  }

  /** A date that may be missing but, when given, is readable and not after today. */
  predicate PastDateClean(cell: string, today: Date) {
    IsBlank(cell) || (ParseDate(cell).Some? && !IsFutureDate(ParseDate(cell).value, today))
  }

  method CheckPastDate(cell: string, today: Date, file: SheetFile, line: nat, column: Column)
    returns (errors: seq<ValidationError>)
    ensures OnLine(errors, file, line, FaultyIf(!PastDateClean(cell, today), column))
  {
    var faulty := false;
    if !IsBlank(cell) {
      var date := ParseDate(cell);
      faulty := date == None || IsFutureDate(date.value, today);
    }
    errors := ErrorIf(faulty, file, line, column);
  }

  // ----- Rows kept -----

  /** The converted rows, in order, whose lines carry no error. */
  function Kept<R, T>(rows: seq<R>, line: R -> nat, candidate: R -> T, errored: set<nat>): seq<T> {
    if rows == [] then []
    else
      var last := rows[|rows| - 1];
      Kept(rows[..|rows| - 1], line, candidate, errored) + if line(last) in errored then [] else [candidate(last)]
  }

  lemma {:induction false} KeptMembers<R, T>(rows: seq<R>, line: R -> nat, candidate: R -> T, errored: set<nat>)
    ensures forall c :: c in Kept(rows, line, candidate, errored) <==>
      exists r :: r in rows && line(r) !in errored && c == candidate(r)
  {
    if rows != [] {
      var n := |rows| - 1;
      KeptMembers(rows[..n], line, candidate, errored);
      assert forall r :: r in rows <==> r in rows[..n] || r == rows[n];
    }
  }

  /** Without errors every row is kept. */
  lemma {:induction false} KeptAll<R, T>(rows: seq<R>, line: R -> nat, candidate: R -> T)
    ensures Kept(rows, line, candidate, {}) == Map(candidate, rows)
  {
    if rows != [] {
      KeptAll(rows[..|rows| - 1], line, candidate);
      assert Map(candidate, rows) == Map(candidate, rows[..|rows| - 1]) + [candidate(rows[|rows| - 1])];
    }
  }

  // ----- Duplicates -----

  /** A row's line and the key under which it must be unique, if it has one. */
  datatype Keyed = Keyed(line: nat, key: Option<string>)

  ghost predicate Repeated(rows: seq<Keyed>, i: nat)
    requires i < |rows|
  {
    rows[i].key.Some? && exists j :: 0 <= j < |rows| && j != i && rows[j].key == rows[i].key
  }

  ghost predicate NoneRepeated(rows: seq<Keyed>) {
    forall i :: 0 <= i < |rows| ==> !Repeated(rows, i)
  }

  /** The lines of the rows with a given key, in order. */
  function LinesWith(rows: seq<Keyed>, key: string): seq<nat> {
    if rows == [] then []
    else
      var last := rows[|rows| - 1];
      LinesWith(rows[..|rows| - 1], key) + if last.key == Some(key) then [last.line] else []
  }

  lemma {:induction false} LinesWithMembers(rows: seq<Keyed>, key: string)
    ensures forall l :: l in LinesWith(rows, key) <==> exists i :: 0 <= i < |rows| && rows[i] == Keyed(l, Some(key))
  {
    if rows != [] {
      var n := |rows| - 1;
      LinesWithMembers(rows[..n], key);
      forall l | exists i :: 0 <= i < |rows| && rows[i] == Keyed(l, Some(key))
        ensures l in LinesWith(rows, key)
      {
        var i :| 0 <= i < |rows| && rows[i] == Keyed(l, Some(key));
        if i < n {
          assert rows[..n][i] == Keyed(l, Some(key));
        }
      }
    }
  }

  lemma {:induction false} LinesWithOne(rows: seq<Keyed>, key: string)
    ensures LinesWith(rows, key) == [] <==> forall i :: 0 <= i < |rows| ==> rows[i].key != Some(key)
  {
    if rows != [] {
      LinesWithOne(rows[..|rows| - 1], key);
    }
  }

  lemma {:induction false} LinesWithMany(rows: seq<Keyed>, key: string)
    ensures |LinesWith(rows, key)| > 1 <==>
      exists i, j :: 0 <= i < j < |rows| && rows[i].key == Some(key) && rows[j].key == Some(key)
  {
    if rows != [] {
      var n := |rows| - 1;
      LinesWithMany(rows[..n], key);
      LinesWithOne(rows[..n], key);
      if i, j :| 0 <= i < j < n && rows[..n][i].key == Some(key) && rows[..n][j].key == Some(key) {
        assert rows[i].key == Some(key) && rows[j].key == Some(key);
      }
      if i :| 0 <= i < n && rows[..n][i].key == Some(key) && rows[n].key == Some(key) {
        assert rows[i].key == Some(key);
      }
    }
  }

  ghost function RepeatedLines(rows: seq<Keyed>): set<nat> {
    set i | 0 <= i < |rows| && Repeated(rows, i) :: rows[i].line
  }

  /** A line is repeated exactly when it is listed under a key that has several lines. */
  lemma RepeatedByGroups(rows: seq<Keyed>, l: nat)
    ensures l in RepeatedLines(rows) <==> exists k :: |LinesWith(rows, k)| > 1 && l in LinesWith(rows, k)
  {
    if l in RepeatedLines(rows) {
      var i :| 0 <= i < |rows| && Repeated(rows, i) && rows[i].line == l;
      var k := rows[i].key.value;
      LinesWithMany(rows, k);
      LinesWithMembers(rows, k);
    }
    if k :| |LinesWith(rows, k)| > 1 && l in LinesWith(rows, k) {
      LinesWithMany(rows, k);
      LinesWithMembers(rows, k);
      var i :| 0 <= i < |rows| && rows[i] == Keyed(l, Some(k));
      assert Repeated(rows, i);
    }
  }

  function GroupOf(groups: map<string, seq<nat>>, key: string): seq<nat> {
    if key in groups then groups[key] else []
  }

  method GroupLines(rows: seq<Keyed>) returns (groups: map<string, seq<nat>>)
    ensures forall k :: LinesWith(rows, k) == GroupOf(groups, k)
  {
    groups := map[];
    for i := 0 to |rows|
      invariant forall k :: LinesWith(rows[..i], k) == GroupOf(groups, k)
    {
      assert rows[..i + 1][..i] == rows[..i];
      if rows[i].key.Some? {
        var k := rows[i].key.value;
        groups := groups[k := GroupOf(groups, k) + [rows[i].line]];
      }
    }
    assert rows[..|rows|] == rows;
  }

  method ErrorsAt(lines: seq<nat>, file: SheetFile, column: Column) returns (errors: seq<ValidationError>)
    ensures ErrorLines(errors) == set l | l in lines
    ensures forall e :: e in errors ==> e.file == file && e.column == column
  {
    errors := [];
    for i := 0 to |lines|
      invariant ErrorLines(errors) == set l | l in lines[..i]
      invariant forall e :: e in errors ==> e.file == file && e.column == column
    {
      LinesOfAppend(errors, [ValidationError(file, lines[i], column)]);
      assert lines[..i + 1] == lines[..i] + [lines[i]];
      errors := errors + [ValidationError(file, lines[i], column)];
    }
  }

  /** The lines of the groups with more than one member. */
  ghost function CrowdedLines(groups: map<string, seq<nat>>, keys: set<string>): set<nat> {
    set k, l | k in keys && k in groups && |groups[k]| > 1 && l in groups[k] :: l
  }

  lemma NoRepeatedLines(rows: seq<Keyed>)
    ensures RepeatedLines(rows) == {} <==> NoneRepeated(rows)
  {
    if i :| 0 <= i < |rows| && Repeated(rows, i) {
      assert rows[i].line in RepeatedLines(rows);
    }
  }

  /** One error for each line of each key that occurs more than once. */
  method DuplicateErrors(rows: seq<Keyed>, file: SheetFile, column: Column) returns (errors: seq<ValidationError>)
    ensures ErrorLines(errors) == RepeatedLines(rows)
    ensures forall e :: e in errors ==> e.file == file && e.column == column
  {
    var groups := GroupLines(rows);
    errors := [];
    var pending := groups.Keys;
    while pending != {}
      invariant pending <= groups.Keys
      invariant ErrorLines(errors) == CrowdedLines(groups, groups.Keys - pending)
      invariant forall e :: e in errors ==> e.file == file && e.column == column
    {
      var k :| k in pending;
      ghost var done := groups.Keys - pending;
      assert groups.Keys - (pending - {k}) == done + {k};
      if |groups[k]| > 1 {
        var more := ErrorsAt(groups[k], file, column);
        LinesOfAppend(errors, more);
        assert CrowdedLines(groups, done + {k}) == CrowdedLines(groups, done) + set l | l in groups[k];
        errors := errors + more;
      } else {
        assert CrowdedLines(groups, done + {k}) == CrowdedLines(groups, done);
      }
      pending := pending - {k};
    }
    CrowdedAreRepeated(rows, groups);
  }

  lemma CrowdedAreRepeated(rows: seq<Keyed>, groups: map<string, seq<nat>>)
    requires forall k :: LinesWith(rows, k) == GroupOf(groups, k)
    ensures CrowdedLines(groups, groups.Keys) == RepeatedLines(rows)
  {
    forall l
      ensures l in CrowdedLines(groups, groups.Keys) <==> l in RepeatedLines(rows)
    {
      RepeatedByGroups(rows, l);
      if l in CrowdedLines(groups, groups.Keys) {
        CrowdedIsListed(rows, groups, l);
      }
      if k :| |LinesWith(rows, k)| > 1 && l in LinesWith(rows, k) {
        ListedIsCrowded(rows, groups, l, k);
      }
    }
  }

  lemma CrowdedIsListed(rows: seq<Keyed>, groups: map<string, seq<nat>>, l: nat)
    requires forall k :: LinesWith(rows, k) == GroupOf(groups, k)
    requires l in CrowdedLines(groups, groups.Keys)
    ensures exists k :: |LinesWith(rows, k)| > 1 && l in LinesWith(rows, k)
  {
    var k :| k in groups && |groups[k]| > 1 && l in groups[k];
    assert LinesWith(rows, k) == groups[k];
  }

  lemma ListedIsCrowded(rows: seq<Keyed>, groups: map<string, seq<nat>>, l: nat, k: string)
    requires LinesWith(rows, k) == GroupOf(groups, k) && |LinesWith(rows, k)| > 1 && l in LinesWith(rows, k)
    ensures l in CrowdedLines(groups, groups.Keys)
  {
    assert k in groups;
  }
}
