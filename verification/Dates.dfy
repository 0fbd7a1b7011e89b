/** Calendar dates of validation/common.ts, over the day arithmetic of section 21.4.1 of ECMA-262. */
module Dates {
  import opened Names
  import opened Options

  /** A UTC calendar date as its day number, 1970-01-01 being day 0. */
  type Date = int

  // ----- Day numbers, years and months -----

  function DayFromYear(y: int): int {
    365 * (y - 1970) + (y - 1969) / 4 - (y - 1901) / 100 + (y - 1601) / 400
  }

  predicate IsLeap(y: int) {
    y % 4 == 0 && (y % 100 != 0 || y % 400 == 0)
  }

  lemma FourYears(y: int)
    ensures (y - 1968) / 4 == (y - 1969) / 4 + if y % 4 == 0 then 1 else 0
  {
  }

  lemma Centuries(y: int)
    ensures (y - 1900) / 100 == (y - 1901) / 100 + if y % 100 == 0 then 1 else 0
  {
  }

  lemma FourCenturies(y: int)
    ensures (y - 1600) / 400 == (y - 1601) / 400 + if y % 400 == 0 then 1 else 0
  {
  }

  lemma Divisible(y: int)
    ensures (y % 400 == 0 ==> y % 100 == 0) && (y % 100 == 0 ==> y % 4 == 0)
  {
  }

  lemma YearLength(y: int)
    ensures DayFromYear(y + 1) == DayFromYear(y) + if IsLeap(y) then 366 else 365
  {
    FourYears(y);
    Centuries(y);
    FourCenturies(y);
    Divisible(y);
  }

  /** Days of the year before a zero-based month. */
  function DaysBeforeMonth(month: int, leap: bool): int
    requires 0 <= month < 12
  {
    [0, 31, 59, 90, 120, 151, 181, 212, 243, 273, 304, 334][month] + if leap && month >= 2 then 1 else 0
  }

  function MonthLength(month: int, leap: bool): int
    requires 0 <= month < 12
  {
    if month == 1 then if leap then 29 else 28
    else if month == 3 || month == 5 || month == 8 || month == 10 then 30
    else 31
  }

  lemma MonthsTile(month: int, leap: bool)
    requires 0 <= month < 12
    ensures DaysBeforeMonth(month, leap) + MonthLength(month, leap)
         == if month == 11 then if leap then 366 else 365 else DaysBeforeMonth(month + 1, leap)
  {
  }

  /** The day number of a date of a zero-based month of the year itself. */
  function DayOf(year: int, month: int, date: int): Date
    requires 0 <= month < 12
  {
    DayFromYear(year) + DaysBeforeMonth(month, IsLeap(year)) + date - 1
  }

  /** MakeDay: months past the year's end carry into following years, days are added as they are. */
  function MakeDay(year: int, month: int, date: int): Date {
    DayOf(year + month / 12, month % 12, date)
  }

  /** Date.UTC (section 21.4.3.4 of ECMA-262): years 0 to 99 mean 1900 to 1999. */
  function UtcDay(year: int, month: int, date: int): Date {
    MakeDay(if 0 <= year <= 99 then 1900 + year else year, month, date)
  }

  /** The year of a day, searched downwards from a year that does not start after it. */
  function YearDownFrom(day: Date, y: int): (r: int)
    requires day < DayFromYear(y + 1)
    ensures DayFromYear(r) <= day < DayFromYear(r + 1)
    decreases DayFromYear(y + 1) - day
  {
    YearLength(y);
    if DayFromYear(y) <= day then y else YearDownFrom(day, y - 1)
  }

  function YearFromDay(day: Date): (r: int)
    ensures DayFromYear(r) <= day < DayFromYear(r + 1)
  {
    var guess := 1970 + if day < 0 then 0 else day / 365;
    YearDownFrom(day, guess)
  }

  lemma {:induction false} YearsIncrease(a: int, b: int)
    requires a < b
    ensures DayFromYear(a) < DayFromYear(a + 1) <= DayFromYear(b)
    decreases b - a
  {
    YearLength(a);
    YearLength(b - 1);
    if a + 1 < b {
      YearsIncrease(a, b - 1);
    }
  }

  lemma YearIsUnique(day: Date, y: int)
    requires DayFromYear(y) <= day < DayFromYear(y + 1)
    ensures YearFromDay(day) == y
  {
    var r := YearFromDay(day);
    if r < y {
      YearsIncrease(r, y);
    } else if y < r {
      YearsIncrease(y, r);
    }
  }

  function MonthDownFrom(dayInYear: int, leap: bool, month: int): (r: int)
    requires 0 <= month < 12 && 0 <= dayInYear < DaysBeforeMonth(month, leap) + MonthLength(month, leap)
    ensures 0 <= r < 12
    ensures DaysBeforeMonth(r, leap) <= dayInYear < DaysBeforeMonth(r, leap) + MonthLength(r, leap)
  {
    if DaysBeforeMonth(month, leap) <= dayInYear then month
    else
      MonthsTile(month - 1, leap);
      MonthDownFrom(dayInYear, leap, month - 1)
  }

  /** UTC year, zero-based month and day of month. */
  datatype Civil = Civil(year: int, month: int, date: int)

  function CivilFromDay(day: Date): (c: Civil)
    ensures 0 <= c.month < 12 && 1 <= c.date <= MonthLength(c.month, IsLeap(c.year))
    ensures day == DayOf(c.year, c.month, c.date)
  {
    var year := YearFromDay(day);
    var leap := IsLeap(year);
    YearLength(year);
    MonthsTile(11, leap);
    var dayInYear := day - DayFromYear(year);
    var month := MonthDownFrom(dayInYear, leap, 11);
    Civil(year, month, dayInYear - DaysBeforeMonth(month, leap) + 1)
  }

  /** A date of the Gregorian calendar, with a month counted from 1. */
  predicate RealDate(year: int, month: int, date: int) {
    1 <= month <= 12 && 1 <= date <= MonthLength(month - 1, IsLeap(year))
  }

  lemma MonthsIncrease(a: int, b: int, leap: bool)
    requires 0 <= a < b < 12
    ensures DaysBeforeMonth(a, leap) + MonthLength(a, leap) <= DaysBeforeMonth(b, leap)
  {
  }

  lemma CivilOfRealDate(year: int, month: int, date: int)
    requires RealDate(year, month, date)
    ensures CivilFromDay(MakeDay(year, month - 1, date)) == Civil(year, month - 1, date)
  {
    var day := MakeDay(year, month - 1, date);
    var leap := IsLeap(year);
    var m := month - 1;
    YearLength(year);
    MonthsTile(11, leap);
    if m < 11 {
      MonthsIncrease(m, 11, leap);
    }
    YearIsUnique(day, year);
    var c := CivilFromDay(day);
    if c.month < m {
      MonthsIncrease(c.month, m, leap);
    } else if m < c.month {
      MonthsIncrease(m, c.month, leap);
    }
  }

  // ----- Parsing -----

  predicate AllDigits(s: string) {
    forall i :: 0 <= i < |s| ==> '0' <= s[i] <= '9'
  }

  function Number(s: string): nat
    requires AllDigits(s)
  {
    if s == "" then 0 else Number(s[..|s| - 1]) * 10 + (s[|s| - 1] - '0') as nat
  }

  /** Four digits, two digits, two digits, separated by hyphens. */
  predicate IsIsoShape(s: string) {
    |s| == 10 && s[4] == '-' && s[7] == '-' && AllDigits(s[..4]) && AllDigits(s[5..7]) && AllDigits(s[8..])
  }

  function FirstSlash(s: string): (i: nat)
    ensures i <= |s| && (i < |s| ==> s[i] == '/')
  {
    if s == "" || s[0] == '/' then 0 else 1 + FirstSlash(s[1..])
  }

  /** One or two digits, one or two digits, four digits, separated by slashes. */
  predicate IsUsShape(s: string) {
    var i := FirstSlash(s);
    && 1 <= i <= 2 && i < |s| && AllDigits(s[..i])
    && var rest := s[i + 1..];
       var j := FirstSlash(rest);
       1 <= j <= 2 && |rest| == j + 5 && AllDigits(rest[..j]) && AllDigits(rest[j + 1..])
  }

  /** Builds the date and checks that it reads back as the same year, month and day. */
  function CheckedDate(year: int, month: int, date: int): Option<Date> {
    var day := UtcDay(year, month - 1, date);
    if CivilFromDay(day) == Civil(year, month - 1, date) then Some(day) else None
  }

  /** The three captured groups of a date. */
  datatype Groups = Groups(year: string, month: string, date: string)

  predicate AreNumerals(g: Groups) {
    && AllDigits(g.year) && AllDigits(g.month) && AllDigits(g.date)
    && |g.year| == 4 && 1 <= |g.month| <= 2 && 1 <= |g.date| <= 2
  }

  function SpelledDate(g: Groups): Option<Date>
    requires AreNumerals(g)
  {
    CheckedDate(Number(g.year), Number(g.month), Number(g.date))
  }

  function IsoGroups(v: string): (g: Groups)
    requires IsIsoShape(v)
    ensures AreNumerals(g)
  {
    Groups(v[..4], v[5..7], v[8..])
  }

  function UsGroups(v: string): (g: Groups)
    requires IsUsShape(v)
    ensures AreNumerals(g)
  {
    var i := FirstSlash(v);
    var rest := v[i + 1..];
    var j := FirstSlash(rest);
    Groups(rest[j + 1..], v[..i], rest[..j])
  }

  function IsoDate(v: string): Option<Date>
    requires IsIsoShape(v)
  {
    SpelledDate(IsoGroups(v))
  }

  function UsDate(v: string): Option<Date>
    requires IsUsShape(v)
  {
    SpelledDate(UsGroups(v))
  }

  function ParseDate(raw: string): Option<Date> {
    var value := Trim(raw);
    if IsIsoShape(value) then IsoDate(value)
    else if IsUsShape(value) then UsDate(value)
    else None
  }

  /** A date is accepted exactly when it is a real Gregorian date of the year 100 or later. */
  lemma CheckedDateExact(year: int, month: int, date: int)
    requires 0 <= year <= 9999 && 0 <= month <= 99 && 0 <= date <= 99
    ensures CheckedDate(year, month, date).Some? <==> year >= 100 && RealDate(year, month, date)
    ensures CheckedDate(year, month, date).Some? ==>
              CheckedDate(year, month, date).value == MakeDay(year, month - 1, date)
  {
    if RealDate(year, month, date) && year >= 100 {
      CivilOfRealDate(year, month, date);
    }
    if year <= 99 {
      SmallYearsMove(year, month - 1, date);
    }
  }

  /** A two-digit year is moved to the twentieth century, so it never reads back as itself. */
  lemma SmallYearsMove(year: int, month: int, date: int)
    requires 0 <= year <= 99 && -1 <= month <= 98 && 0 <= date <= 99
    ensures CivilFromDay(UtcDay(year, month, date)).year > 99
  {
    var day := UtcDay(year, month, date);
    var y := CivilFromDay(day).year;
    var carried := 1900 + year + month / 12;
    if y <= 99 {
      YearsIncrease(y, carried);
      YearsIncrease(y + 1, carried);
    }
  }

  // ----- Printing -----

  function Digit(n: nat): char
    requires n < 10
  {
    '0' + n as char
  }

  /** The last `width` decimal digits. */
  function Pad(n: nat, width: nat): (s: string)
    ensures |s| == width && AllDigits(s)
  {
    if width == 0 then "" else Pad(n / 10, width - 1) + [Digit(n % 10)]
  }

  function IsoFields(year: nat, month: nat, date: nat): (s: string)
    ensures |s| == 10 && IsIsoShape(s)
    ensures s[..4] == Pad(year, 4) && s[5..7] == Pad(month, 2) && s[8..] == Pad(date, 2)
  {
    Pad(year, 4) + "-" + Pad(month, 2) + "-" + Pad(date, 2)
  }

  /** toISOString().slice(0, 10); years outside 0 to 9999 print with a sign and six digits. */
  function ToDateOnlyString(day: Date): string {
    var c := CivilFromDay(day);
    if 0 <= c.year <= 9999 then IsoFields(c.year, c.month + 1, c.date)
    else (if c.year < 0 then "-" else "+") + Pad(if c.year < 0 then -c.year else c.year, 6) + "-" + Pad(c.month + 1, 2)
  }

  function PowerOfTen(width: nat): nat {
    if width == 0 then 1 else 10 * PowerOfTen(width - 1)
  }

  lemma {:induction false} NumberOfPad(n: nat, width: nat)
    requires n < PowerOfTen(width)
    ensures Number(Pad(n, width)) == n
  {
    if width > 0 {
      NumberOfPad(n / 10, width - 1);
      assert Pad(n, width)[..width - 1] == Pad(n / 10, width - 1);
    }
  }

  lemma {:induction false} NumberPad(s: string)
    requires AllDigits(s)
    ensures Pad(Number(s), |s|) == s
  {
    if s != "" {
      NumberPad(s[..|s| - 1]);
    }
  }

  lemma OneMorePlace(x: int, p: int, y: int, d: int, before: int, q: int)
    requires before == x * p + y && q == 10 * p
    ensures before * 10 + d == x * q + (y * 10 + d)
  {
    assert x * q == 10 * (x * p);
  }

  lemma DigitsAppend(a: string, b: string)
    requires AllDigits(a) && AllDigits(b)
    ensures AllDigits(a + b)
  {
  }

  lemma NumberSnoc(s: string, c: char)
    requires AllDigits(s) && '0' <= c <= '9'
    ensures AllDigits(s + [c]) && Number(s + [c]) == Number(s) * 10 + (c - '0') as int
  {
    assert (s + [c])[..|s|] == s;
  }

  lemma AppendSnoc(a: string, b: string, c: char)
    requires AllDigits(a) && AllDigits(b) && AllDigits(a + b) && '0' <= c <= '9'
    requires Number(a + b) == Number(a) * PowerOfTen(|b|) + Number(b)
    ensures AllDigits((a + b) + [c]) && AllDigits(b + [c])
    ensures Number((a + b) + [c]) == Number(a) * PowerOfTen(|b| + 1) + Number(b + [c])
  {
    NumberSnoc(a + b, c);
    NumberSnoc(b, c);
    OneMorePlace(Number(a), PowerOfTen(|b|), Number(b), (c - '0') as int, Number(a + b), PowerOfTen(|b| + 1));
  }

  lemma LastApart(a: string, b: string)
    requires b != ""
    ensures b == b[..|b| - 1] + [b[|b| - 1]] && a + b == (a + b[..|b| - 1]) + [b[|b| - 1]]
  {
  }

  lemma {:induction false} NumberAppend(a: string, b: string)
    requires AllDigits(a) && AllDigits(b)
    ensures AllDigits(a + b) && Number(a + b) == Number(a) * PowerOfTen(|b|) + Number(b)
  {
    DigitsAppend(a, b);
    if b == "" {
      assert a + b == a;
    } else {
      var front, last := b[..|b| - 1], b[|b| - 1];
      LastApart(a, b);
      NumberAppend(a, front);
      AppendSnoc(a, front, last);
    }
  }

  lemma DigitsNeedNoTrim(s: string)
    requires s != "" && '0' <= s[0] <= '9' && '0' <= s[|s| - 1] <= '9'
    ensures Trim(s) == s
  {
  }

  /** The printed form is already trimmed, and its fields read back as they were printed. */
  lemma PrintedFields(year: nat, month: nat, date: nat)
    requires year < 10000 && month < 100 && date < 100
    ensures var s := IsoFields(year, month, date);
      Trim(s) == s && Number(s[..4]) == year && Number(s[5..7]) == month && Number(s[8..]) == date
  {
    var s := IsoFields(year, month, date);
    assert s[0] == s[..4][0] && s[9] == s[8..][1];
    DigitsNeedNoTrim(s);
    assert PowerOfTen(4) == 10000 && PowerOfTen(2) == 100;
    NumberOfPad(year, 4);
    NumberOfPad(month, 2);
    NumberOfPad(date, 2);
  }

  lemma MakeDayInYear(year: int, month: int, date: int)
    requires 0 <= month < 12
    ensures MakeDay(year, month, date) == DayOf(year, month, date)
  {
  }

  lemma CheckedCivil(day: Date)
    requires 100 <= CivilFromDay(day).year <= 9999
    ensures var c := CivilFromDay(day); CheckedDate(c.year, c.month + 1, c.date) == Some(day)
  {
    var c := CivilFromDay(day);
    MakeDayInYear(c.year, c.month, c.date);
  }

  /** Printing then parsing is the identity on every date of the years 100 to 9999. */
  lemma ParseOfPrint(day: Date)
    requires 100 <= CivilFromDay(day).year <= 9999
    ensures ParseDate(ToDateOnlyString(day)) == Some(day)
  {
    var c := CivilFromDay(day);
    CheckedCivil(day);
    IsoDateOfFields(c.year, c.month + 1, c.date);
  }

  lemma IsoDateOfFields(year: nat, month: nat, date: nat)
    requires year < 10000 && month < 100 && date < 100
    ensures ParseDate(IsoFields(year, month, date)) == CheckedDate(year, month, date)
  {
    PrintedFields(year, month, date);
  }

  lemma NumberBound(s: string)
    requires AllDigits(s) && |s| <= 4
    ensures Number(s) <= 9999 && (|s| <= 2 ==> Number(s) <= 99)
  {
    if s != "" {
      var t := s[..|s| - 1];
      NumberBound(t);
      if |s| == 2 { assert t[..0] == ""; }
    }
  }

  /** The fields name a real Gregorian date of the year 100 or later. */
  predicate NamesRealDate(g: Groups)
    requires AreNumerals(g)
  {
    Number(g.year) >= 100 && RealDate(Number(g.year), Number(g.month), Number(g.date))
  }

  lemma SpelledDateExact(g: Groups)
    requires AreNumerals(g)
    ensures SpelledDate(g).Some? <==> NamesRealDate(g)
  {
    NumberBound(g.year);
    NumberBound(g.month);
    NumberBound(g.date);
    CheckedDateExact(Number(g.year), Number(g.month), Number(g.date));
  }

  /** A well-shaped string parses exactly when it spells a real date of the year 100 or later. */
  lemma ParseIsoExact(raw: string)
    requires IsIsoShape(Trim(raw))
    ensures ParseDate(raw).Some? <==> NamesRealDate(IsoGroups(Trim(raw)))
  {
    SpelledDateExact(IsoGroups(Trim(raw)));
  }

  lemma UsIsNotIso(v: string)
    requires IsUsShape(v)
    ensures !IsIsoShape(v)
  {
    assert v[FirstSlash(v)] == '/';
  }

  lemma ParseUsExact(raw: string)
    requires IsUsShape(Trim(raw))
    ensures ParseDate(raw).Some? <==> NamesRealDate(UsGroups(Trim(raw)))
  {
    UsIsNotIso(Trim(raw));
    SpelledDateExact(UsGroups(Trim(raw)));
  }

  lemma PrintOfChecked(year: nat, month: nat, date: nat)
    requires year <= 9999 && month <= 99 && date <= 99 && CheckedDate(year, month, date).Some?
    ensures ToDateOnlyString(CheckedDate(year, month, date).value) == IsoFields(year, month, date)
  {
    CheckedReadsBack(year, month, date);
  }

  lemma CheckedReadsBack(year: int, month: int, date: int)
    requires CheckedDate(year, month, date).Some?
    ensures CivilFromDay(CheckedDate(year, month, date).value) == Civil(year, month - 1, date)
  {
  }

  /** An accepted ISO date prints back as its trimmed self. */
  lemma PrintOfParse(raw: string)
    requires IsIsoShape(Trim(raw)) && ParseDate(raw).Some?
    ensures ToDateOnlyString(ParseDate(raw).value) == Trim(raw)
  {
    var v := Trim(raw);
    IsoFieldsOfNumbers(v);
    NumberBound(v[..4]);
    NumberBound(v[5..7]);
    NumberBound(v[8..]);
    PrintOfChecked(Number(v[..4]), Number(v[5..7]), Number(v[8..]));
  }

  lemma IsoFieldsOfNumbers(v: string)
    requires IsIsoShape(v)
    ensures IsoFields(Number(v[..4]), Number(v[5..7]), Number(v[8..])) == v
  {
    NumberPad(v[..4]);
    NumberPad(v[5..7]);
    NumberPad(v[8..]);
    assert v == v[..4] + "-" + v[5..7] + "-" + v[8..];
  }

  lemma SpelledYear(g: Groups)
    requires AreNumerals(g) && SpelledDate(g).Some?
    ensures 100 <= CivilFromDay(SpelledDate(g).value).year <= 9999
  {
    NumberBound(g.year);
    SpelledDateExact(g);
    CheckedReadsBack(Number(g.year), Number(g.month), Number(g.date));
  }

  lemma ParsedYear(cell: string)
    requires ParseDate(cell).Some?
    ensures 100 <= CivilFromDay(ParseDate(cell).value).year <= 9999
  {
    var v := Trim(cell);
    if IsIsoShape(v) {
      SpelledYear(IsoGroups(v));
    } else {
      SpelledYear(UsGroups(v));
    }
  }

  // ----- Order -----

  /** Lexicographic order of strings by code unit. */
  predicate TextLess(a: string, b: string) {
    if b == "" then false
    else if a == "" then true
    else if a[0] != b[0] then a[0] < b[0]
    else TextLess(a[1..], b[1..])
  }

  predicate IsFutureDate(date: Date, today: Date) {
    TextLess(ToDateOnlyString(today), ToDateOnlyString(date))
  }

  lemma {:induction false} TextLessAppend(a: string, b: string, c: string, d: string)
    requires |a| == |b|
    ensures TextLess(a + c, b + d) <==> TextLess(a, b) || (a == b && TextLess(c, d))
  {
    if a == "" {
      assert a + c == c && b + d == d;
    } else {
      assert (a + c)[1..] == a[1..] + c && (b + d)[1..] == b[1..] + d;
      if a[0] == b[0] {
        TextLessAppend(a[1..], b[1..], c, d);
        assert a == [a[0]] + a[1..] && b == [b[0]] + b[1..];
      }
    }
  }

  lemma OneCharOrder(c: char, d: char)
    ensures TextLess([c], [d]) <==> c < d
  {
  }

  lemma LastCharOrder(a: string, b: string, c: char, d: char)
    requires |a| == |b|
    ensures TextLess(a + [c], b + [d]) <==> TextLess(a, b) || (a == b && c < d)
  {
    TextLessAppend(a, b, [c], [d]);
    OneCharOrder(c, d);
  }

  /** Numerals of equal length are ordered as texts exactly as they are as numbers. */
  lemma {:induction false} NumeralOrder(a: string, b: string)
    requires |a| == |b| && AllDigits(a) && AllDigits(b)
    ensures TextLess(a, b) <==> Number(a) < Number(b)
    ensures a == b <==> Number(a) == Number(b)
  {
    if a != "" {
      var n := |a| - 1;
      NumeralOrder(a[..n], b[..n]);
      LastCharOrder(a[..n], b[..n], a[n], b[n]);
      assert a == a[..n] + [a[n]] && b == b[..n] + [b[n]];
    }
  }

  lemma PadOrder(a: nat, b: nat, width: nat)
    requires a < PowerOfTen(width) && b < PowerOfTen(width)
    ensures TextLess(Pad(a, width), Pad(b, width)) <==> a < b
    ensures Pad(a, width) == Pad(b, width) <==> a == b
  {
    NumberOfPad(a, width);
    NumberOfPad(b, width);
    NumeralOrder(Pad(a, width), Pad(b, width));
  }

  predicate CivilLess(a: Civil, b: Civil) {
    a.year < b.year || (a.year == b.year && (a.month < b.month || (a.month == b.month && a.date < b.date)))
  }

  lemma DayOrder(a: Date, b: Date)
    ensures CivilLess(CivilFromDay(a), CivilFromDay(b)) <==> a < b
  {
    if a < b {
      LaterDay(a, b);
    } else if b < a {
      LaterDay(b, a);
    }
  }

  lemma LaterDay(a: Date, b: Date)
    requires a < b
    ensures CivilLess(CivilFromDay(a), CivilFromDay(b))
  {
    var p, q := CivilFromDay(a), CivilFromDay(b);
    if q.year < p.year {
      YearsIncrease(q.year, p.year);
    } else if p.year == q.year && q.month < p.month {
      MonthsIncrease(q.month, p.month, IsLeap(p.year));
    }
  }

  lemma HyphenOrder(a: string, b: string, c: string, d: string)
    requires |a| == |b|
    ensures TextLess(a + ("-" + c), b + ("-" + d)) <==> TextLess(a, b) || (a == b && TextLess(c, d))
  {
    TextLessAppend(a, b, "-" + c, "-" + d);
    TextLessAppend("-", "-", c, d);
  }

  lemma FieldsOrder(y: nat, m: nat, d: nat, y': nat, m': nat, d': nat)
    requires y < 10000 && y' < 10000 && m < 100 && m' < 100 && d < 100 && d' < 100
    ensures TextLess(IsoFields(y, m, d), IsoFields(y', m', d'))
       <==> y < y' || (y == y' && (m < m' || (m == m' && d < d')))
  {
    var ys, ms, ds := Pad(y, 4), Pad(m, 2), Pad(d, 2);
    var ys', ms', ds' := Pad(y', 4), Pad(m', 2), Pad(d', 2);
    FieldNumbers(y, y', m, m', d, d');
    assert IsoFields(y, m, d) == ys + ("-" + (ms + ("-" + ds)));
    assert IsoFields(y', m', d') == ys' + ("-" + (ms' + ("-" + ds')));
    HyphenOrder(ms, ms', ds, ds');
    HyphenOrder(ys, ys', ms + ("-" + ds), ms' + ("-" + ds'));
  }

  lemma FieldNumbers(y: nat, y': nat, m: nat, m': nat, d: nat, d': nat)
    requires y < 10000 && y' < 10000 && m < 100 && m' < 100 && d < 100 && d' < 100
    ensures (TextLess(Pad(y, 4), Pad(y', 4)) <==> y < y') && (Pad(y, 4) == Pad(y', 4) <==> y == y')
    ensures (TextLess(Pad(m, 2), Pad(m', 2)) <==> m < m') && (Pad(m, 2) == Pad(m', 2) <==> m == m')
    ensures (TextLess(Pad(d, 2), Pad(d', 2)) <==> d < d') && (Pad(d, 2) == Pad(d', 2) <==> d == d')
  {
    FourDigitOrder(y, y');
    TwoDigitOrder(m, m');
    TwoDigitOrder(d, d');
  }

  lemma FourDigitOrder(y: nat, y': nat)
    requires y < 10000 && y' < 10000
    ensures (TextLess(Pad(y, 4), Pad(y', 4)) <==> y < y') && (Pad(y, 4) == Pad(y', 4) <==> y == y')
  {
    assert PowerOfTen(4) == 10000;
    PadOrder(y, y', 4);
  }

  lemma TwoDigitOrder(m: nat, m': nat)
    requires m < 100 && m' < 100
    ensures (TextLess(Pad(m, 2), Pad(m', 2)) <==> m < m') && (Pad(m, 2) == Pad(m', 2) <==> m == m')
  {
    assert PowerOfTen(2) == 100;
    PadOrder(m, m', 2);
  }

  lemma AtMostThirtyOneDays(day: Date)
    ensures CivilFromDay(day).date <= 31
  {
    var c := CivilFromDay(day);
    assert MonthLength(c.month, IsLeap(c.year)) <= 31;
  }

  lemma PrintsFields(day: Date)
    requires 0 <= CivilFromDay(day).year <= 9999
    ensures var c := CivilFromDay(day); ToDateOnlyString(day) == IsoFields(c.year, c.month + 1, c.date)
  {
  }

  /** Comparing printed dates as texts compares the days, for the years 0 to 9999. */
  lemma FutureIsLater(date: Date, today: Date)
    requires 0 <= CivilFromDay(date).year <= 9999 && 0 <= CivilFromDay(today).year <= 9999
    ensures IsFutureDate(date, today) <==> today < date
  {
    var p, q := CivilFromDay(today), CivilFromDay(date);
    PrintsFields(today);
    PrintsFields(date);
    AtMostThirtyOneDays(today);
    AtMostThirtyOneDays(date);
    FieldsOrder(p.year, p.month + 1, p.date, q.year, q.month + 1, q.date);
    DayOrder(today, date);
  }
}
