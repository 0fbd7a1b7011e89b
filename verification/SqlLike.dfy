/** util/sql-like.ts against a LIKE matcher (section 9.7.1 of the PostgreSQL documentation), and the
    search over subtrees that uses it. */
module SqlLike {
  import opened Collections
  import opened Digraphs
  import opened Hierarchy
  import opened Names
  import opened SubtreeQuery

  /** `%` matches any text, `_` any character, and a backslash makes the next character literal; a
      pattern that ends in a lone backslash matches nothing. */
  predicate LikeMatch(p: string, s: string)
    decreases |p| + |s|
  {
    if p == "" then s == ""
    else if p[0] == '%' then LikeMatch(p[1..], s) || (s != "" && LikeMatch(p, s[1..]))
    else if p[0] == '\\' then |p| > 1 && s != "" && s[0] == p[1] && LikeMatch(p[2..], s[1..])
    else s != "" && (p[0] == '_' || p[0] == s[0]) && LikeMatch(p[1..], s[1..])
  }

  predicate IsSpecial(c: char) {
    c == '\\' || c == '%' || c == '_'
  }

  function EscapeLikePattern(value: string): string {
    if value == "" then ""
    else (if IsSpecial(value[0]) then ['\\', value[0]] else [value[0]]) + EscapeLikePattern(value[1..])
  }

  /** `t` occurs in `s` at position `i`. */
  predicate OccursAt(s: string, t: string, i: nat) {
    i + |t| <= |s| && s[i..i + |t|] == t
  }

  predicate Contains(s: string, t: string) {
    exists i :: 0 <= i <= |s| && OccursAt(s, t, i)
  }

  /** An escaped text matches exactly itself, and the rest of the pattern what follows. */
  lemma {:induction false} EscapedIsLiteral(t: string, p: string, s: string)
    ensures LikeMatch(EscapeLikePattern(t) + p, s) <==> |t| <= |s| && s[..|t|] == t && LikeMatch(p, s[|t|..])
    decreases |t|
  {
    if t == "" {
      assert EscapeLikePattern(t) + p == p && s[0..] == s;
    } else {
      var q := EscapeLikePattern(t) + p;
      var rest := EscapeLikePattern(t[1..]) + p;
      assert if IsSpecial(t[0]) then q[0] == '\\' && q[1] == t[0] && q[2..] == rest else q[0] == t[0] && q[1..] == rest;
      if s != "" {
        EscapedIsLiteral(t[1..], p, s[1..]);
        assert |t| <= |s| ==> s[..|t|] == [s[0]] + s[1..][..|t| - 1] && s[|t|..] == s[1..][|t| - 1..];
        assert t == [t[0]] + t[1..];
      }
    }
  }

  lemma {:induction false} PercentMatchesAll(s: string)
    ensures LikeMatch("%", s)
  {
    assert "%"[1..] == "";
    if s != "" {
      PercentMatchesAll(s[1..]);
    }
  }

  lemma {:induction false} PercentSkips(p: string, s: string)
    ensures LikeMatch("%" + p, s) <==> exists i :: 0 <= i <= |s| && LikeMatch(p, s[i..])
    decreases |s|
  {
    var q := "%" + p;
    assert q[0] == '%' && q[1..] == p && s[0..] == s;
    if s != "" {
      PercentSkips(p, s[1..]);
      forall i | 1 <= i <= |s|
        ensures s[i..] == s[1..][i - 1..]
      {
      }
      if i :| 0 <= i <= |s[1..]| && LikeMatch(p, s[1..][i..]) {
        assert s[i + 1..] == s[1..][i..];
      }
      if i :| 0 <= i <= |s| && LikeMatch(p, s[i..]) && i > 0 {
        assert s[1..][i - 1..] == s[i..];
      }
    }
  }

  /** LIKE escaping is exact: the escaped pattern between two % finds exactly the texts that contain
      the term, whatever characters it is made of. */
  lemma EscapedPatternIsSubstring(t: string, s: string)
    ensures LikeMatch("%" + (EscapeLikePattern(t) + "%"), s) <==> Contains(s, t)
  {
    PercentSkips(EscapeLikePattern(t) + "%", s);
    forall i | 0 <= i <= |s|
      ensures LikeMatch(EscapeLikePattern(t) + "%", s[i..]) <==> OccursAt(s, t, i)
    {
      EscapedIsLiteral(t, "%", s[i..]);
      if |t| <= |s[i..]| {
        PercentMatchesAll(s[i..][|t|..]);
        assert s[i..][..|t|] == s[i..i + |t|];
      }
    }
  }

  // ----- Case-insensitive search -----

  /** ILIKE folds the case of both sides. */
  predicate ILikeMatch(p: string, s: string) {
    LikeMatch(Lower(p), Lower(s))
  }

  lemma LowerAppend(a: string, b: string)
    ensures Lower(a + b) == Lower(a) + Lower(b)
  {
  }

  lemma {:induction false} LowerEscape(t: string)
    ensures Lower(EscapeLikePattern(t)) == EscapeLikePattern(Lower(t))
  {
    if t != "" {
      LowerEscape(t[1..]);
      assert Lower(t)[0] == LowerChar(t[0]) && Lower(t)[1..] == Lower(t[1..]);
      LowerAppend(if IsSpecial(t[0]) then ['\\', t[0]] else [t[0]], EscapeLikePattern(t[1..]));
    }
  }

  function SearchPattern(term: string): string {
    "%" + (EscapeLikePattern(term) + "%")
  }

  /** The name contains the term, case aside. */
  predicate MatchesSearch(name: string, term: string) {
    Contains(Lower(name), Lower(term))
  }

  /** The database's filter and the application's highlighting agree on every name and term. */
  lemma FilterIsHighlight(name: string, term: string)
    ensures ILikeMatch(SearchPattern(term), name) <==> MatchesSearch(name, term)
  {
    LowerEscape(term);
    LowerAppend(EscapeLikePattern(term), "%");
    LowerAppend("%", EscapeLikePattern(term) + "%");
    assert Lower("%") == "%";
    EscapedPatternIsSubstring(Lower(term), Lower(name));
  }

  /** The roots with a row whose name passes the filter. */
  ghost function RootsMatchingSearch(rows: seq<Row>, names: map<nat, string>, term: string): set<nat> {
    set r | r in rows && r.id in names && ILikeMatch(SearchPattern(term), names[r.id]) :: r.rootId
  }

  /** The subtree of a root, by reachability. */
  ghost predicate InSubtree(links: seq<Link>, root: nat, id: nat) {
    id == root || Reaches(GraphOf(links), root, id)
  }

  lemma RowsCoverSubtree(links: seq<Link>, roots: seq<nat>, rows: seq<Row>, depth: nat, root: nat, id: nat)
    requires IsSubtree(links, roots, rows, depth) && NoDuplicates(links) && NoDuplicates(roots) && root in roots
    ensures (exists r :: r in rows && r.rootId == root && r.id == id) <==> InSubtree(links, root, id)
  {
    var walks := ShortWalks(links, roots, depth);
    SubtreeHasAllWalks(links, roots, rows, depth);
    if r :| r in rows && r.rootId == root && r.id == id {
      var i :| 0 <= i < |rows| && rows[i] == r;
      assert r == RowOf(walks[i]) && walks[i] in walks;
      WalkReaches(links, walks[i]);
    }
    if InSubtree(links, root, id) {
      var p := [root];
      if id != root {
        p :| Leads(GraphOf(links), p, root, id);
      }
      var w := FollowPath(links, StartAt(p[0]), p);
      var i :| 0 <= i < |walks| && walks[i] == w;
      assert rows[i] == RowOf(w) && rows[i] in rows;
    }
  }

  /** A top-level entity survives the search exactly when some entity of its subtree matches. */
  lemma SearchIsExact(links: seq<Link>, roots: seq<nat>, rows: seq<Row>, depth: nat, names: map<nat, string>,
                      term: string, root: nat)
    requires IsSubtree(links, roots, rows, depth) && NoDuplicates(links) && NoDuplicates(roots) && root in roots
    ensures root in RootsMatchingSearch(rows, names, term) <==>
      exists id :: id in names && InSubtree(links, root, id) && MatchesSearch(names[id], term)
  {
    if root in RootsMatchingSearch(rows, names, term) {
      var r :| r in rows && r.id in names && ILikeMatch(SearchPattern(term), names[r.id]) && r.rootId == root;
      RowsCoverSubtree(links, roots, rows, depth, root, r.id);
      FilterIsHighlight(names[r.id], term);
    }
    if id :| id in names && InSubtree(links, root, id) && MatchesSearch(names[id], term) {
      RowsCoverSubtree(links, roots, rows, depth, root, id);
      FilterIsHighlight(names[id], term);
      var r :| r in rows && r.rootId == root && r.id == id;
      assert root in RootsMatchingSearch(rows, names, term);
    }
  }
}
