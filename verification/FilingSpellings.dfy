/** One due date spelled in two ways: the in-sheet duplicate check lets both rows pass, and the
    write then fails on the unique key of filings. */
module FilingSpellings {
  import opened Collections
  import opened Dates
  import opened FilingsValidator
  import opened Names
  import opened Options
  import opened SheetChecks
  import opened Upserts
  import opened UploadTypes
  import opened WriteTheorems

  function UsFields(month: nat, date: nat, year: nat): (s: string)
    ensures |s| == 10 && s[..2] == Pad(month, 2) && s[2] == '/' && s[3..5] == Pad(date, 2)
    ensures s[5] == '/' && s[6..] == Pad(year, 4)
  {
    Pad(month, 2) + "/" + Pad(date, 2) + "/" + Pad(year, 4)
  }

  /** The same calendar date as MM/DD/YYYY. */
  function UsSpelling(day: Date): string
    requires 100 <= CivilFromDay(day).year <= 9999
  {
    var c := CivilFromDay(day);
    UsFields(c.month + 1, c.date, c.year)
  }

  lemma SlashAt(s: string, i: nat)
    requires i < |s| && s[i] == '/' && AllDigits(s[..i])
    ensures FirstSlash(s) == i
  {
    if i > 0 {
      assert s[0] == s[..i][0];
      assert s[1..][..i - 1] == s[..i][1..];
      SlashAt(s[1..], i - 1);
    }
  }

  lemma UsFieldsParse(month: nat, date: nat, year: nat)
    requires month < 100 && date < 100 && year < 10000
    ensures var s := UsFields(month, date, year);
      Trim(s) == s && ParseDate(s) == CheckedDate(year, month, date)
  {
    var s := UsFields(month, date, year);
    var rest := s[3..];
    assert s[0] == s[..2][0] && s[9] == s[6..][3];
    DigitsNeedNoTrim(s);
    SlashAt(s, 2);
    assert rest[..2] == s[3..5] && rest[2] == s[5] && rest[3..] == s[6..];
    SlashAt(rest, 2);
    assert s[4] == s[3..5][1];
    assert PowerOfTen(4) == 10000 && PowerOfTen(2) == 100;
    NumberOfPad(month, 2);
    NumberOfPad(date, 2);
    NumberOfPad(year, 4);
  }

  /** Both spellings parse to the same day. */
  lemma UsSpellingParses(day: Date)
    requires 100 <= CivilFromDay(day).year <= 9999
    ensures ParseDate(UsSpelling(day)) == Some(day) && Trim(UsSpelling(day)) == UsSpelling(day)
    ensures UsSpelling(day) != ToDateOnlyString(day)
  {
    var c := CivilFromDay(day);
    UsFieldsParse(c.month + 1, c.date, c.year);
    CheckedCivil(day);
    var iso := IsoFields(c.year, c.month + 1, c.date);
    assert iso[2] == iso[..4][2];
  }

  lemma ReadsAs(cell: string, day: Date)
    requires cell != "" && Trim(cell) == cell && ParseDate(cell) == Some(day)
    ensures OptionalDate(cell) == Some(day)
  {
  }

  lemma IsoSpellingTrimmed(day: Date)
    requires 100 <= CivilFromDay(day).year <= 9999
    ensures var s := ToDateOnlyString(day); Trim(s) == s && |s| == 10
  {
    var c := CivilFromDay(day);
    PrintedFields(c.year, c.month + 1, c.date);
  }

  lemma SpellingsRead(day: Date)
    requires 100 <= CivilFromDay(day).year <= 9999
    ensures OptionalDate(ToDateOnlyString(day)) == Some(day) && OptionalDate(UsSpelling(day)) == Some(day)
    ensures |ToDateOnlyString(day)| == |UsSpelling(day)|
  {
    UsSpellingParses(day);
    ParseOfPrint(day);
    IsoSpellingTrimmed(day);
    ReadsAs(ToDateOnlyString(day), day);
    ReadsAs(UsSpelling(day), day);
  }

  lemma RowWithOtherDate(row: RawFilingRow, other: RawFilingRow, jurisdictions: JurisdictionByName, today: Date)
    requires other == row.(line := other.line, dueDate := other.dueDate)
    requires RowClean(row, jurisdictions, today) && OptionalDate(other.dueDate).Some?
    ensures RowClean(other, jurisdictions, today)
  {
  }

  lemma TwoRowsClean(row: RawFilingRow, other: RawFilingRow, jurisdictions: JurisdictionByName, today: Date)
    requires RowClean(row, jurisdictions, today) && RowClean(other, jurisdictions, today)
    ensures RowsClean([row, other], jurisdictions, today)
  {
  }

  lemma TwoRowsDiffer(row: RawFilingRow, other: RawFilingRow)
    requires Trim(row.dueDate) != Trim(other.dueDate)
    ensures AllDifferent([row, other])
  {
  }

  lemma SpellingsDiffer(day: Date)
    requires 100 <= CivilFromDay(day).year <= 9999
    ensures Trim(ToDateOnlyString(day)) != Trim(UsSpelling(day))
  {
    UsSpellingParses(day);
    IsoSpellingTrimmed(day);
  }

  lemma SameNaturalKey(row: RawFilingRow, other: RawFilingRow)
    requires other == row.(line := other.line, dueDate := other.dueDate)
    requires OptionalDate(row.dueDate) == OptionalDate(other.dueDate)
    ensures FilingNaturalKey(ToUploadFiling(Candidate(row))) == FilingNaturalKey(ToUploadFiling(Candidate(other)))
  {
  }

  lemma SameKeyUnwritable(a: UploadFilingRow, b: UploadFilingRow, chunkSize: nat)
    requires FilingNaturalKey(a) == FilingNaturalKey(b) && chunkSize >= 2
    ensures !ChunksDistinct(Chunk([a, b], chunkSize), FilingNaturalKey)
  {
    assert Chunk([a, b], chunkSize) == [[a, b]] && [a, b] in [[a, b]];
    assert FilingNaturalKey([a, b][0]) == FilingNaturalKey([a, b][1]);
  }

  /** For every acceptable filing row: the sheet that repeats it with its due date respelled is
      accepted without errors, yet no statement that receives both rows can be executed. */
  lemma RespelledFilingSlipsThrough(row: RawFilingRow, other: RawFilingRow, jurisdictions: JurisdictionByName,
                                    today: Date, day: Date, chunkSize: nat)
    requires 100 <= CivilFromDay(day).year <= 9999 && RowClean(row, jurisdictions, today)
    requires row.dueDate == ToDateOnlyString(day) && other == row.(line := other.line, dueDate := UsSpelling(day))
    requires chunkSize >= 2
    ensures SheetClean([row, other], jurisdictions, today)
    ensures !ChunksDistinct(Chunk([ToUploadFiling(Candidate(row)), ToUploadFiling(Candidate(other))], chunkSize),
                            FilingNaturalKey)
  {
    SpellingsRead(day);
    SpellingsDiffer(day);
    RowWithOtherDate(row, other, jurisdictions, today);
    TwoRowsClean(row, other, jurisdictions, today);
    TwoRowsDiffer(row, other);
    SameNaturalKey(row, other);
    SameKeyUnwritable(ToUploadFiling(Candidate(row)), ToUploadFiling(Candidate(other)), chunkSize);
  }
}
