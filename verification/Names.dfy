/** Entity-name matching (validation/common.ts) and the joined edge keys of graph-validator.ts. */
module Names {

  /** White space and line terminators of sections 12.2 and 12.3 of ECMA-262. */
  predicate IsSpace(c: char) {
    || '\U{0009}' <= c <= '\U{000D}' || c == ' ' || c == '\U{00A0}' || c == '\U{1680}'
    || '\U{2000}' <= c <= '\U{200A}' || c == '\U{2028}' || c == '\U{2029}' || c == '\U{202F}' || c == '\U{205F}'
    || c == '\U{3000}' || c == '\U{FEFF}'
  }

  function TrimStart(s: string): string {
    if s != "" && IsSpace(s[0]) then TrimStart(s[1..]) else s
  }

  function TrimEnd(s: string): string {
    if s != "" && IsSpace(s[|s| - 1]) then TrimEnd(s[..|s| - 1]) else s
  }

  function Trim(s: string): string {
    TrimEnd(TrimStart(s))
  }

  predicate IsBlank(s: string) {
    Trim(s) == ""
  }

  function LowerChar(c: char): char {
    if 'A' <= c <= 'Z' then c + 32 as char else c
  }

  function Lower(s: string): (r: string)
    ensures |r| == |s| && forall i :: 0 <= i < |s| ==> r[i] == LowerChar(s[i])
  {
    if s == "" then "" else [LowerChar(s[0])] + Lower(s[1..])
  }

  /** The identity of an entity: its name trimmed and lower-cased. */
  function Normalize(name: string): string {
    Lower(Trim(name))
  }

  lemma NormalizeBlank(name: string)
    ensures Normalize(name) == "" <==> IsBlank(name)
  {
  }

  // ----- Trimming is idempotent, so normalizing twice changes nothing. -----

  /** No white space at either end. */
  predicate IsTrimmed(s: string) {
    s != "" ==> !IsSpace(s[0]) && !IsSpace(s[|s| - 1])
  }

  lemma {:induction false} TrimStartStops(s: string)
    ensures TrimStart(s) != "" ==> !IsSpace(TrimStart(s)[0])
  {
    if s != "" && IsSpace(s[0]) {
      TrimStartStops(s[1..]);
    }
  }

  lemma {:induction false} TrimEndStops(s: string)
    ensures TrimEnd(s) <= s
    ensures TrimEnd(s) != "" ==> !IsSpace(TrimEnd(s)[|TrimEnd(s)| - 1])
  {
    if s != "" && IsSpace(s[|s| - 1]) {
      TrimEndStops(s[..|s| - 1]);
    }
  }

  lemma TrimIsTrimmed(s: string)
    ensures IsTrimmed(Trim(s))
  {
    TrimStartStops(s);
    TrimEndStops(TrimStart(s));
  }

  lemma TrimmedStays(s: string)
    requires IsTrimmed(s)
    ensures Trim(s) == s
  {
  }

  lemma LowerKeepsTrimmed(s: string)
    requires IsTrimmed(s)
    ensures IsTrimmed(Lower(s))
  {
    var r := Lower(s);
    assert r != "" ==> r[0] == LowerChar(s[0]) && r[|r| - 1] == LowerChar(s[|s| - 1]);
  }

  lemma LowerTwice(s: string)
    ensures Lower(Lower(s)) == Lower(s)
  {
    assert forall i :: 0 <= i < |s| ==> Lower(Lower(s))[i] == Lower(s)[i];
  }

  lemma NormalizeOfTrim(name: string)
    ensures Normalize(Trim(name)) == Normalize(name) && (IsBlank(Trim(name)) <==> IsBlank(name))
  {
    TrimIsTrimmed(name);
    TrimmedStays(Trim(name));
  }

  /** A normalized name is its own identity, whatever the spelling it came from. */
  lemma NormalizeIdempotent(name: string)
    ensures Normalize(Normalize(name)) == Normalize(name)
  {
    TrimIsTrimmed(name);
    LowerKeepsTrimmed(Trim(name));
    TrimmedStays(Lower(Trim(name)));
    LowerTwice(Trim(name));
  }

  // ----- Which names are one name -----

  ghost predicate AllSpace(s: string) {
    forall c :: c in s ==> IsSpace(c)
  }

  lemma {:induction false} TrimStartCuts(s: string) returns (lead: string)
    ensures s == lead + TrimStart(s) && AllSpace(lead)
  {
    lead := "";
    if s != "" && IsSpace(s[0]) {
      var more := TrimStartCuts(s[1..]);
      lead := [s[0]] + more;
      assert s == [s[0]] + s[1..];
    }
  }

  lemma {:induction false} TrimEndCuts(s: string) returns (tail: string)
    ensures s == TrimEnd(s) + tail && AllSpace(tail)
  {
    tail := "";
    if s != "" && IsSpace(s[|s| - 1]) {
      var more := TrimEndCuts(s[..|s| - 1]);
      tail := more + [s[|s| - 1]];
      assert s == s[..|s| - 1] + [s[|s| - 1]];
    }
  }

  /** Trimming cuts white space off both ends, all of it and nothing else. */
  lemma TrimExact(s: string) returns (lead: string, tail: string)
    ensures s == lead + Trim(s) + tail && AllSpace(lead) && AllSpace(tail) && IsTrimmed(Trim(s))
  {
    lead := TrimStartCuts(s);
    tail := TrimEndCuts(TrimStart(s));
    TrimIsTrimmed(s);
  }

  predicate IsCapital(c: char) {
    'A' <= c <= 'Z'
  }

  /** The same character, or the two cases of one letter. */
  predicate SameLetter(c: char, d: char) {
    c == d || (IsCapital(c) && d as int == c as int + 32) || (IsCapital(d) && c as int == d as int + 32)
  }

  /** Two spellings are one name exactly when, white space around them aside, they agree in every
      character but for the case of letters. */
  lemma NormalizeExact(a: string, b: string)
    ensures Normalize(a) == Normalize(b) <==>
      && |Trim(a)| == |Trim(b)|
      && forall i :: 0 <= i < |Trim(a)| ==> SameLetter(Trim(a)[i], Trim(b)[i])
  {
    var s, t := Trim(a), Trim(b);
    if Normalize(a) == Normalize(b) {
      forall i | 0 <= i < |s|
        ensures SameLetter(s[i], t[i])
      {
        assert Lower(s)[i] == Lower(t)[i];
      }
    }
  }

  /** No normalized name has a capital letter. */
  lemma NormalizeHasNoCapitals(name: string)
    ensures forall i :: 0 <= i < |Normalize(name)| ==> !IsCapital(Normalize(name)[i])
  {
  }

  // ----- Joined keys -----

  /** The separator "|||" stands at position `i`. */
  predicate SeparatorAt(s: string, i: int) {
    0 <= i && i + 3 <= |s| && s[i] == '|' && s[i + 1] == '|' && s[i + 2] == '|'
  }

  predicate SeparatorFree(s: string) {
    forall i :: 0 <= i < |s| ==> !SeparatorAt(s, i)
  }

  /** A name that survives joining and splitting on either side of the separator. */
  predicate SafeName(s: string) {
    SeparatorFree(s) && (s != "" ==> s[|s| - 1] != '|')
  }

  /** The position of the first separator, or the length when there is none. */
  function FirstSeparator(s: string): (i: nat)
    ensures i <= |s| && (i < |s| ==> SeparatorAt(s, i))
    ensures forall j :: 0 <= j < i ==> !SeparatorAt(s, j)
  {
    if s == "" then 0
    else if SeparatorAt(s, 0) then 0
    else
      var rest := FirstSeparator(s[1..]);
      assert forall j :: 0 < j < |s| ==> SeparatorAt(s, j) == SeparatorAt(s[1..], j - 1);
      1 + rest
  }

  function Join(parent: string, child: string): string {
    parent + "|||" + child
  }

  /** The first two parts of splitting a key at every separator. */
  function Split(key: string): (string, string) {
    var i := FirstSeparator(key);
    var rest := if i < |key| then key[i + 3..] else "";
    (key[..i], rest[..FirstSeparator(rest)])
  }

  /** Splitting gives back exactly the joined pair under a condition on the two names alone. */
  lemma SplitJoin(parent: string, child: string)
    ensures Split(Join(parent, child)) == (parent, child) <==> SafeName(parent) && SeparatorFree(child)
  {
    var key := Join(parent, child);
    var i := FirstSeparator(key);
    SplitParent(parent, child);
    assert SeparatorAt(key, |parent|) && key[|parent| + 3..] == child;
    if i == |parent| {
      assert child[..FirstSeparator(child)] == child <==> SeparatorFree(child);
    }
  }

  /** The first part is never longer than the first name, and is that name exactly when it is safe. */
  lemma SplitParent(parent: string, child: string)
    ensures Split(Join(parent, child)).0 <= parent
    ensures Split(Join(parent, child)).0 == parent <==> SafeName(parent)
  {
    var key := Join(parent, child);
    var i := FirstSeparator(key);
    assert SeparatorAt(key, |parent|);
    assert key[..i] == parent[..i];
    if SafeName(parent) {
      forall j | 0 <= j < |parent|
        ensures !SeparatorAt(key, j)
      {
        assert !SeparatorAt(parent, j);
        assert key[|parent| - 1] == parent[|parent| - 1];
      }
    } else if SeparatorFree(parent) {
      assert SeparatorAt(key, |parent| - 1);
    } else {
      var j :| 0 <= j < |parent| && SeparatorAt(parent, j);
      assert SeparatorAt(key, j);
    }
  }

  /** Both parts of any split are themselves safe. */
  lemma SplitIsSafe(key: string)
    requires !SeparatorFree(key)
    ensures SafeName(Split(key).0) && SeparatorFree(Split(key).1)
  {
    var i := FirstSeparator(key);
    var rest := if i < |key| then key[i + 3..] else "";
    var parent, child := Split(key).0, Split(key).1;
    forall j | 0 <= j < |parent| ensures !SeparatorAt(parent, j) {
      assert !SeparatorAt(key, j);
    }
    forall j | 0 <= j < |child| ensures !SeparatorAt(child, j) {
      assert !SeparatorAt(rest, j);
    }
    if 0 < i < |key| && key[i - 1] == '|' {
      assert SeparatorAt(key, i - 1);
    }
  }
}
