/** The merged ownership graph as a map from name pairs to percentages, and what the
    validator's error list says about it. */
module MergedGraph {
  import opened CycleDetection
  import opened Digraphs
  import opened GraphValidator
  import opened Names
  import opened Sums
  import opened UploadTypes

  type Edge = (string, string)
  type Shares = map<Edge, int>

  function EdgeOf(row: OwnershipRow): Edge {
    (Normalize(row.parentEntity), Normalize(row.childEntity))
  }

  /** Upsert semantics: a row overwrites the share of its own pair and keeps every other. */
  function MergeShares(base: Shares, rows: seq<OwnershipRow>): Shares {
    if rows == [] then base
    else
      var r := rows[|rows| - 1];
      MergeShares(base, rows[..|rows| - 1])[EdgeOf(r) := r.ownershipPct]
  }

  ghost function SharesOf(shares: Shares, child: string): set<Edge> {
    set e | e in shares && e.1 == child
  }

  ghost function Total(shares: Shares, child: string): int {
    SumOver(shares, SharesOf(shares, child))
  }

  ghost predicate FullyAllocatedAtMost(shares: Shares) {
    forall child :: Total(shares, child) <= FULL_OWNERSHIP
  }

  function JoinEdge(e: Edge): string {
    Join(e.0, e.1)
  }

  predicate SafeEdge(e: Edge) {
    SafeName(e.0) && SeparatorFree(e.1)
  }

  ghost predicate SafeEdges(edges: set<Edge>) {
    forall e :: e in edges ==> SafeEdge(e)
  }

  // ----- Joined keys against pairs -----

  /** Reading edges back from their joined keys returns the same edges under a condition on the names. */
  lemma SplitEdgesExact(edges: set<Edge>)
    ensures SplitEdges(set e | e in edges :: JoinEdge(e)) == edges <==> SafeEdges(edges)
  {
    var keys := set e | e in edges :: JoinEdge(e);
    forall e | e in edges
      ensures Split(JoinEdge(e)) in SplitEdges(keys)
      ensures Split(JoinEdge(e)) == e <==> SafeEdge(e)
      ensures SafeEdge(Split(JoinEdge(e)))
    {
      assert JoinEdge(e) in keys;
      SplitJoin(e.0, e.1);
      assert SeparatorAt(JoinEdge(e), |e.0|);
      SplitIsSafe(JoinEdge(e));
    }
    if SafeEdges(edges) {
      assert forall k :: k in keys ==> Split(k) in edges;
    }
  }

  ghost predicate Represents(keyed: map<string, int>, shares: Shares) {
    && keyed.Keys == (set e | e in shares :: JoinEdge(e))
    && forall e :: e in shares ==> keyed[JoinEdge(e)] == shares[e]
  }

  lemma RepresentsUpdate(keyed: map<string, int>, shares: Shares, e: Edge, pct: int)
    requires Represents(keyed, shares) && SafeEdges(shares.Keys) && SafeEdge(e)
    ensures Represents(keyed[JoinEdge(e) := pct], shares[e := pct])
  {
    var after := shares[e := pct];
    forall d | d in after
      ensures keyed[JoinEdge(e) := pct][JoinEdge(d)] == after[d]
    {
      SplitJoin(d.0, d.1);
      SplitJoin(e.0, e.1);
    }
    assert (set d | d in after :: JoinEdge(d)) == (set d | d in shares :: JoinEdge(d)) + {JoinEdge(e)};
  }

  lemma {:induction false} MergedKeys(base: Shares, rows: seq<OwnershipRow>)
    ensures MergeShares(base, rows).Keys == base.Keys + set r | r in rows :: EdgeOf(r)
  {
    if rows != [] {
      var n := |rows| - 1;
      MergedKeys(base, rows[..n]);
      assert rows == rows[..n] + [rows[n]];
      assert (set r | r in rows :: EdgeOf(r)) == (set r | r in rows[..n] :: EdgeOf(r)) + {EdgeOf(rows[n])};
    }
  }

  ghost predicate SafeRows(rows: seq<OwnershipRow>) {
    forall r :: r in rows ==> SafeEdge(EdgeOf(r))
  }

  lemma {:induction false} RepresentsMerge(keyed: map<string, int>, base: Shares, rows: seq<OwnershipRow>)
    requires Represents(keyed, base) && SafeEdges(base.Keys) && SafeRows(rows)
    ensures Represents(MergeRows(keyed, rows), MergeShares(base, rows))
    ensures SafeEdges(MergeShares(base, rows).Keys)
  {
    if rows != [] {
      var n := |rows| - 1;
      RepresentsMerge(keyed, base, rows[..n]);
      RepresentsUpdate(MergeRows(keyed, rows[..n]), MergeShares(base, rows[..n]), EdgeOf(rows[n]),
                       rows[n].ownershipPct);
    }
  }

  lemma RepresentedKeysInto(keyed: map<string, int>, shares: Shares, child: string)
    requires Represents(keyed, shares) && SafeEdges(shares.Keys)
    ensures KeysInto(keyed, child) == set e | e in SharesOf(shares, child) :: JoinEdge(e)
  {
    forall e | e in shares
      ensures Split(JoinEdge(e)) == e
    {
      SplitJoin(e.0, e.1);
    }
  }

  lemma RepresentsTotals(keyed: map<string, int>, shares: Shares, child: string)
    requires Represents(keyed, shares) && SafeEdges(shares.Keys)
    ensures KeyedTotal(keyed, child) == Total(shares, child)
  {
    RepresentedKeysInto(keyed, shares, child);
    SumOfJoined(keyed, shares, SharesOf(shares, child));
  }

  lemma JoinWithout(edges: set<Edge>, d: Edge)
    requires d in edges && SafeEdges(edges)
    ensures (set e | e in edges :: JoinEdge(e)) - {JoinEdge(d)} == set e | e in edges - {d} :: JoinEdge(e)
  {
    forall e | e in edges - {d}
      ensures JoinEdge(e) != JoinEdge(d)
    {
      SplitJoin(d.0, d.1);
      SplitJoin(e.0, e.1);
    }
  }

  /** Renaming pairs to their joined keys, values kept, leaves a sum unchanged. */
  lemma {:induction false} SumOfJoined(keyed: map<string, int>, shares: Shares, edges: set<Edge>)
    requires edges <= shares.Keys && SafeEdges(edges)
    requires forall e :: e in edges ==> JoinEdge(e) in keyed && keyed[JoinEdge(e)] == shares[e]
    ensures var keys := set e | e in edges :: JoinEdge(e);
      keys <= keyed.Keys && SumOver(keyed, keys) == SumOver(shares, edges)
    decreases edges
  {
    var keys := set e | e in edges :: JoinEdge(e);
    if edges != {} {
      var d :| d in edges;
      SumSplit(shares, edges, d);
      SumSplit(keyed, keys, JoinEdge(d));
      SumOfJoined(keyed, shares, edges - {d});
      JoinWithout(edges, d);
    }
  }

  // ----- The error list -----

  lemma {:induction false} CycleErrorsMeaning(rows: seq<OwnershipRow>, flagged: set<string>)
    ensures forall err :: err in CycleErrors(rows, flagged) <==>
      exists r :: r in rows && BothFlagged(r, flagged) && err == ValidationError(OwnershipFile, r.line, ParentEntity)
  {
    if rows != [] {
      var n := |rows| - 1;
      CycleErrorsMeaning(rows[..n], flagged);
      assert forall r :: r in rows <==> r in rows[..n] || r == rows[n];
    }
  }

  lemma {:induction false} TotalErrorsMeaning(rows: seq<OwnershipRow>, merged: map<string, int>)
    ensures forall err :: err in TotalErrors(rows, merged) <==>
      exists r :: r in rows && Overallocated(r, merged)
               && err == ValidationError(OwnershipFile, r.line, OwnershipPercent)
  {
    if rows != [] {
      var n := |rows| - 1;
      TotalErrorsMeaning(rows[..n], merged);
      assert forall r :: r in rows <==> r in rows[..n] || r == rows[n];
    }
  }

  ghost predicate OnCycle(g: set<Edge>, n: string) {
    Reaches(g, n, n)
  }

  /** What an error claims about the row it is placed on. */
  ghost predicate ErrorHolds(err: ValidationError, r: OwnershipRow, merged: map<string, int>) {
    && err.file == OwnershipFile && err.line == r.line
    && match err.column
       case ParentEntity =>
         var g := SplitEdges(merged.Keys);
         OnCycle(g, Normalize(r.parentEntity)) && OnCycle(g, Normalize(r.childEntity))
       case OwnershipPercent => KeyedTotal(merged, Normalize(r.childEntity)) > FULL_OWNERSHIP
       case _ => false
  }

  /** Every error is on a row of this upload: a cycle error on a row whose two ends both lie on
      cycles of the merged graph, a percentage error on a row whose child is over-allocated. */
  lemma ErrorsPointAtRows(rows: seq<OwnershipRow>, merged: map<string, int>, flagged: set<string>,
                          errors: seq<ValidationError>, err: ValidationError)
    requires IsGraphReport(rows, merged, flagged, errors) && err in errors
    ensures exists r :: r in rows && ErrorHolds(err, r, merged)
  {
    if err in CycleErrors(rows, flagged) {
      CycleErrorsMeaning(rows, flagged);
      var r :| r in rows && BothFlagged(r, flagged) && err == ValidationError(OwnershipFile, r.line, ParentEntity);
      ReportDecidesAcyclicity(SplitEdges(merged.Keys), flagged);
      assert ErrorHolds(err, r, merged);
    } else {
      TotalErrorsMeaning(rows, merged);
      var r :| r in rows && Overallocated(r, merged)
               && err == ValidationError(OwnershipFile, r.line, OwnershipPercent);
      assert ErrorHolds(err, r, merged);
    }
  }

  /** A flagged cycle over an acyclic base runs through a row of the upload. */
  lemma RowOnCycle(base: Shares, rows: seq<OwnershipRow>, flagged: set<string>, p: seq<string>)
    returns (r: OwnershipRow)
    requires Acyclic(base.Keys) && IsCycle(MergeShares(base, rows).Keys, p) && forall n :: n in p ==> n in flagged
    ensures r in rows && BothFlagged(r, flagged) && EdgeOf(r).0 in p && EdgeOf(r).1 in p
  {
    var i := CycleUsesNewEdge(base.Keys, MergeShares(base, rows).Keys, p);
    MergedKeys(base, rows);
    assert p[i] in p && p[i + 1] in p;
    r :| r in rows && EdgeOf(r) == (p[i], p[i + 1]);
  }

  /** A cycle over an acyclic base passes through a row of the upload with both ends flagged. */
  lemma SomeRowClosesCycle(base: Shares, rows: seq<OwnershipRow>, flagged: set<string>) returns (r: OwnershipRow)
    requires Acyclic(base.Keys) && flagged != {}
    requires IsCycleReport(MergeShares(base, rows).Keys, flagged)
    ensures r in rows && BothFlagged(r, flagged)
  {
    var graph := MergeShares(base, rows).Keys;
    var n :| n in flagged;
    var p :| CycleWithin(graph, p, n, flagged);
    r := RowOnCycle(base, rows, flagged, p);
  }

  predicate HasErrorIn(errors: seq<ValidationError>, column: Column) {
    exists err :: err in errors && err.column == column
  }

  predicate AnyFlagged(rows: seq<OwnershipRow>, flagged: set<string>) {
    exists r :: r in rows && BothFlagged(r, flagged)
  }

  ghost predicate AnyOverallocated(rows: seq<OwnershipRow>, merged: map<string, int>) {
    exists r :: r in rows && Overallocated(r, merged)
  }

  lemma ReportMeaning(rows: seq<OwnershipRow>, merged: map<string, int>, flagged: set<string>,
                      errors: seq<ValidationError>)
    requires IsGraphReport(rows, merged, flagged, errors)
    ensures HasErrorIn(errors, ParentEntity) <==> AnyFlagged(rows, flagged)
    ensures HasErrorIn(errors, OwnershipPercent) <==> AnyOverallocated(rows, merged)
    ensures errors == [] <==> !AnyFlagged(rows, flagged) && !AnyOverallocated(rows, merged)
  {
    CycleErrorsEmpty(rows, flagged);
    TotalErrorsEmpty(rows, merged);
    ColumnsOfAppend(CycleErrors(rows, flagged), TotalErrors(rows, merged));
  }

  lemma ColumnsOfAppend(cycles: seq<ValidationError>, totals: seq<ValidationError>)
    requires forall err :: err in cycles ==> err.column == ParentEntity
    requires forall err :: err in totals ==> err.column == OwnershipPercent
    ensures HasErrorIn(cycles + totals, ParentEntity) <==> cycles != []
    ensures HasErrorIn(cycles + totals, OwnershipPercent) <==> totals != []
    ensures cycles + totals == [] <==> cycles == [] && totals == []
  {
    if cycles != [] {
      assert (cycles + totals)[0] == cycles[0];
    }
    if totals != [] {
      assert (cycles + totals)[|cycles|] == totals[0];
    }
  }

  lemma CycleErrorsEmpty(rows: seq<OwnershipRow>, flagged: set<string>)
    ensures forall err :: err in CycleErrors(rows, flagged) ==> err.column == ParentEntity
    ensures CycleErrors(rows, flagged) == [] <==> !AnyFlagged(rows, flagged)
  {
    CycleErrorsMeaning(rows, flagged);
    if r :| r in rows && BothFlagged(r, flagged) {
      assert ValidationError(OwnershipFile, r.line, ParentEntity) in CycleErrors(rows, flagged);
    }
    assert CycleErrors(rows, flagged) != [] ==> CycleErrors(rows, flagged)[0] in CycleErrors(rows, flagged);
  }

  lemma TotalErrorsEmpty(rows: seq<OwnershipRow>, merged: map<string, int>)
    ensures forall err :: err in TotalErrors(rows, merged) ==> err.column == OwnershipPercent
    ensures TotalErrors(rows, merged) == [] <==> !AnyOverallocated(rows, merged)
  {
    TotalErrorsMeaning(rows, merged);
    if r :| r in rows && Overallocated(r, merged) {
      assert ValidationError(OwnershipFile, r.line, OwnershipPercent) in TotalErrors(rows, merged);
    }
    assert TotalErrors(rows, merged) != [] ==> TotalErrors(rows, merged)[0] in TotalErrors(rows, merged);
  }

  /** Incremental cycle safety: over an acyclic base, a cycle error is reported exactly when
      the merged graph has a cycle, although only this upload's rows can carry it. */
  lemma CycleErrorsExact(base: Shares, rows: seq<OwnershipRow>, merged: map<string, int>, flagged: set<string>,
                         errors: seq<ValidationError>)
    requires Acyclic(base.Keys)
    requires Represents(merged, MergeShares(base, rows)) && SafeEdges(MergeShares(base, rows).Keys)
    requires IsGraphReport(rows, merged, flagged, errors)
    ensures HasErrorIn(errors, ParentEntity) <==> !Acyclic(MergeShares(base, rows).Keys)
  {
    var graph := MergeShares(base, rows).Keys;
    assert IsCycleReport(graph, flagged) by {
      SplitEdgesExact(graph);
    }
    ReportMeaning(rows, merged, flagged, errors);
    ReportDecidesAcyclicity(graph, flagged);
    if flagged != {} {
      var r := SomeRowClosesCycle(base, rows, flagged);
    }
  }

  /** Each reaches the other. */
  ghost predicate Connected(g: set<Edge>, u: string, v: string) {
    Reaches(g, u, v) && Reaches(g, v, u)
  }

  lemma CyclesMeet(g: set<Edge>, p: seq<string>, i: nat, q: seq<string>, k: nat, j: nat)
    requires IsCycle(g, p) && IsCycle(g, q) && i < |p| && k < |q| && j < |q| && p[i] == q[k]
    ensures Connected(g, p[0], q[j])
  {
    CycleConnects(g, p, 0, i);
    CycleConnects(g, p, i, 0);
    CycleConnects(g, q, k, j);
    CycleConnects(g, q, j, k);
    ReachesTransitive(g, p[0], p[i], q[j]);
    ReachesTransitive(g, q[j], p[i], p[0]);
  }

  /** Every cycle meets a flagged one, and that one runs through a row of the upload. */
  lemma RowNearCycle(base: Shares, rows: seq<OwnershipRow>, flagged: set<string>, p: seq<string>)
    returns (r: OwnershipRow)
    requires Acyclic(base.Keys) && IsCycle(MergeShares(base, rows).Keys, p)
    requires IsCycleReport(MergeShares(base, rows).Keys, flagged)
    ensures r in rows && BothFlagged(r, flagged)
    ensures var g := MergeShares(base, rows).Keys;
      Connected(g, p[0], EdgeOf(r).0) && Connected(g, p[0], EdgeOf(r).1)
  {
    var g := MergeShares(base, rows).Keys;
    assert IsHit(g, flagged, p);
    var i :| IsFlaggedEdge(flagged, p, i);
    var q :| CycleWithin(g, q, p[i], flagged);
    r := RowOnCycle(base, rows, flagged, q);
    var k :| 0 <= k < |q| && q[k] == p[i];
    var j :| 0 <= j < |q| && q[j] == EdgeOf(r).0;
    var l :| 0 <= l < |q| && q[l] == EdgeOf(r).1;
    CyclesMeet(g, p, i, q, k, j);
    CyclesMeet(g, p, i, q, k, l);
  }

  /** Every single cycle over an acyclic base, and not only some cycle, leads to an error on a row
      both ends of which are on loops with it. */
  lemma EveryCycleHasAnError(base: Shares, rows: seq<OwnershipRow>, merged: map<string, int>, flagged: set<string>,
                             errors: seq<ValidationError>, p: seq<string>) returns (r: OwnershipRow)
    requires Acyclic(base.Keys)
    requires Represents(merged, MergeShares(base, rows)) && SafeEdges(MergeShares(base, rows).Keys)
    requires IsGraphReport(rows, merged, flagged, errors) && IsCycle(MergeShares(base, rows).Keys, p)
    ensures r in rows && ValidationError(OwnershipFile, r.line, ParentEntity) in errors
    ensures var g := MergeShares(base, rows).Keys;
      Connected(g, p[0], EdgeOf(r).0) && Connected(g, p[0], EdgeOf(r).1)
  {
    SplitEdgesExact(MergeShares(base, rows).Keys);
    r := RowNearCycle(base, rows, flagged, p);
    CycleErrorsMeaning(rows, flagged);
  }

  /** A child that no row of the upload names keeps its total. */
  lemma {:induction false} UntouchedTotal(base: Shares, rows: seq<OwnershipRow>, child: string)
    requires forall r :: r in rows ==> Normalize(r.childEntity) != child
    ensures Total(MergeShares(base, rows), child) == Total(base, child)
  {
    if rows != [] {
      var n := |rows| - 1;
      UntouchedTotal(base, rows[..n], child);
      var before := MergeShares(base, rows[..n]);
      assert SharesOf(MergeShares(base, rows), child) == SharesOf(before, child);
      SumCongruent(MergeShares(base, rows), before, SharesOf(before, child));
    }
  }

  /** Incremental over-100%: over a base within bounds, no percentage error is reported exactly
      when every child of the merged graph is within bounds. */
  lemma TotalErrorsExact(base: Shares, rows: seq<OwnershipRow>, merged: map<string, int>, flagged: set<string>,
                         errors: seq<ValidationError>)
    requires FullyAllocatedAtMost(base)
    requires Represents(merged, MergeShares(base, rows)) && SafeEdges(MergeShares(base, rows).Keys)
    requires IsGraphReport(rows, merged, flagged, errors)
    ensures !HasErrorIn(errors, OwnershipPercent) <==> FullyAllocatedAtMost(MergeShares(base, rows))
  {
    ReportMeaning(rows, merged, flagged, errors);
    OverallocationExact(base, rows, merged);
  }

  lemma OverallocationExact(base: Shares, rows: seq<OwnershipRow>, merged: map<string, int>)
    requires FullyAllocatedAtMost(base)
    requires Represents(merged, MergeShares(base, rows)) && SafeEdges(MergeShares(base, rows).Keys)
    ensures !AnyOverallocated(rows, merged) <==> FullyAllocatedAtMost(MergeShares(base, rows))
  {
    var shares := MergeShares(base, rows);
    forall child
      ensures KeyedTotal(merged, child) == Total(shares, child)
    {
      RepresentsTotals(merged, shares, child);
    }
    if !AnyOverallocated(rows, merged) {
      forall child
        ensures Total(shares, child) <= FULL_OWNERSHIP
      {
        if forall r :: r in rows ==> Normalize(r.childEntity) != child {
          UntouchedTotal(base, rows, child);
        } else {
          var r :| r in rows && Normalize(r.childEntity) == child;
          assert !Overallocated(r, merged);
        }
      }
    }
  }

  /** A merged graph the validator must accept. */
  ghost predicate SoundShares(shares: Shares) {
    Acyclic(shares.Keys) && FullyAllocatedAtMost(shares)
  }

  /** The verdict: over a sound base, the upload passes exactly when the merged graph is sound. */
  lemma VerdictExact(base: Shares, keyed: map<string, int>, rows: seq<OwnershipRow>, errors: seq<ValidationError>)
    requires SoundShares(base) && SafeEdges(base.Keys) && SafeRows(rows) && Represents(keyed, base)
    requires exists flagged :: IsGraphReport(rows, MergeRows(keyed, rows), flagged, errors)
    ensures errors == [] <==> SoundShares(MergeShares(base, rows))
  {
    var merged := MergeRows(keyed, rows);
    var flagged :| IsGraphReport(rows, merged, flagged, errors);
    RepresentsMerge(keyed, base, rows);
    CycleErrorsExact(base, rows, merged, flagged, errors);
    TotalErrorsExact(base, rows, merged, flagged, errors);
    ReportMeaning(rows, merged, flagged, errors);
  }

  /** A graph in which nothing has two owners is sound when it is ordered. */
  lemma OneOwnerSound(shares: Shares, order: seq<string>)
    requires Ordered(shares.Keys, order)
    requires forall d, e :: d in shares && e in shares && d.1 == e.1 ==> d == e
    requires forall e :: e in shares ==> shares[e] <= FULL_OWNERSHIP
    ensures SoundShares(shares)
  {
    OrderedIsAcyclic(shares.Keys, order);
    forall child
      ensures Total(shares, child) <= FULL_OWNERSHIP
    {
      if e :| e in SharesOf(shares, child) {
        assert SharesOf(shares, child) == {e};
        SumSplit(shares, {e}, e);
        assert {e} - {e} == {};
      }
    }
  }

  /** A single edge is sound. */
  lemma SingleShareSound(a: string, b: string, pct: int)
    requires a != b && pct <= FULL_OWNERSHIP
    ensures SoundShares(map[(a, b) := pct])
  {
    var order := [b, a];
    assert order[0] == b && order[1] == a;
    OneOwnerSound(map[(a, b) := pct], order);
  }

  lemma MutualEdges(g: set<Edge>, u: string, v: string)
    requires (u, v) in g && (v, u) in g
    ensures !Acyclic(g)
  {
    assert IsCycle(g, [u, v, u]);
  }

  // ----- Two entities that own each other -----

  /** Two rows that make `p` and `b` own each other. */
  ghost predicate AreMutual(rows: seq<OwnershipRow>, p: string, b: string, pct: int) {
    && |rows| == 2 && EdgeOf(rows[0]) == (p, b) && EdgeOf(rows[1]) == (b, p)
    && rows[0].ownershipPct == pct && rows[1].ownershipPct == pct
  }

  lemma MutualMerged(rows: seq<OwnershipRow>, p: string, b: string, pct: int)
    requires AreMutual(rows, p, b, pct)
    ensures MergeRows(map[], rows) == map[Join(p, b) := pct][Join(b, p) := pct]
    ensures MergeShares(map[], rows) == map[(p, b) := pct][(b, p) := pct]
  {
    assert rows[..1] == [rows[0]] && rows[..1][..0] == [];
    assert MergeRows(map[], rows[..1]) == map[Join(p, b) := pct];
    assert MergeShares(map[], rows[..1]) == map[(p, b) := pct];
  }

  /** Two shares of at most half each never exceed the whole. */
  lemma TwoHalves(merged: map<string, int>, k: string, l: string, keys: set<string>)
    requires merged.Keys <= {k, l} && keys <= merged.Keys && forall m :: m in merged ==> 0 <= merged[m] <= 5000
    ensures SumOver(merged, keys) <= FULL_OWNERSHIP
  {
    if k in keys {
      SumSplit(merged, keys, k);
    }
    if l in keys - {k} {
      SumSplit(merged, keys - {k}, l);
    }
    assert keys - {k} - {l} == {};
    assert l !in keys - {k} ==> keys - {k} == {};
    assert k !in keys ==> keys - {k} == keys;
  }

  /** A node on a cycle of the split edges is the first part of some key. */
  lemma CyclicIsParent(keys: set<string>, n: string)
    requires OnCycle(SplitEdges(keys), n)
    ensures exists k :: k in keys && Split(k).0 == n
  {
    ReachesByFirstEdge(SplitEdges(keys), n, n);
    var m :| (n, m) in SplitEdges(keys) && (m == n || Reaches(SplitEdges(keys), m, n));
  }

  /** If both names are first parts of the two keys, both are safe. */
  lemma BothPartsSafe(p: string, b: string)
    requires p != b
    requires p == Split(Join(p, b)).0 || p == Split(Join(b, p)).0
    requires b == Split(Join(p, b)).0 || b == Split(Join(b, p)).0
    ensures SafeName(p) && SafeName(b)
  {
    SplitParent(p, b);
    SplitParent(b, p);
  }

  /** At most one of two names that own each other can be flagged, unless both are safe. */
  lemma UnsafeNotBothFlagged(p: string, b: string, flagged: set<string>)
    requires p != b && !(SafeName(p) && SafeName(b))
    requires IsCycleReport(SplitEdges({Join(p, b), Join(b, p)}), flagged)
    ensures p !in flagged || b !in flagged
  {
    var keys := {Join(p, b), Join(b, p)};
    ReportDecidesAcyclicity(SplitEdges(keys), flagged);
    if p in flagged && b in flagged {
      CyclicIsParent(keys, p);
      CyclicIsParent(keys, b);
      BothPartsSafe(p, b);
    }
  }

  /** Mutual ownership is reported if and only if both names are safe: a name that contains the
      separator or ends in its character hides the cycle, in whatever pair it occurs. */
  lemma MutualReportExact(rows: seq<OwnershipRow>, p: string, b: string, pct: int, flagged: set<string>,
                          errors: seq<ValidationError>)
    requires p != b && 0 < pct <= 5000 && AreMutual(rows, p, b, pct)
    requires IsGraphReport(rows, MergeRows(map[], rows), flagged, errors)
    ensures errors != [] <==> SafeName(p) && SafeName(b)
    ensures !Acyclic(MergeShares(map[], rows).Keys)
  {
    MutualMerged(rows, p, b, pct);
    MutualEdges(MergeShares(map[], rows).Keys, p, b);
    if SafeName(p) && SafeName(b) {
      SafeMutualReported(rows, p, b, flagged, errors);
    } else {
      UnsafeMutualUnreported(rows, p, b, MergeRows(map[], rows), flagged, errors);
    }
  }

  lemma MutualFlagged(rows: seq<OwnershipRow>, p: string, b: string, flagged: set<string>)
    requires |rows| == 2 && EdgeOf(rows[0]) == (p, b) && EdgeOf(rows[1]) == (b, p)
    ensures AnyFlagged(rows, flagged) ==> p in flagged && b in flagged
  {
  }

  lemma UnsafeMutualUnreported(rows: seq<OwnershipRow>, p: string, b: string, merged: map<string, int>,
                               flagged: set<string>, errors: seq<ValidationError>)
    requires p != b && !(SafeName(p) && SafeName(b))
    requires |rows| == 2 && EdgeOf(rows[0]) == (p, b) && EdgeOf(rows[1]) == (b, p)
    requires merged.Keys == {Join(p, b), Join(b, p)} && forall m :: m in merged ==> 0 <= merged[m] <= 5000
    requires IsGraphReport(rows, merged, flagged, errors)
    ensures errors == []
  {
    ReportMeaning(rows, merged, flagged, errors);
    UnsafeNotBothFlagged(p, b, flagged);
    MutualFlagged(rows, p, b, flagged);
    NeitherOverallocated(rows, merged, Join(p, b), Join(b, p));
  }

  lemma NeitherOverallocated(rows: seq<OwnershipRow>, merged: map<string, int>, k: string, l: string)
    requires merged.Keys <= {k, l} && forall m :: m in merged ==> 0 <= merged[m] <= 5000
    ensures !AnyOverallocated(rows, merged)
  {
    forall r | r in rows
      ensures !Overallocated(r, merged)
    {
      TwoHalves(merged, k, l, KeysInto(merged, Normalize(r.childEntity)));
    }
  }

  lemma SafeMutualReported(rows: seq<OwnershipRow>, p: string, b: string, flagged: set<string>,
                           errors: seq<ValidationError>)
    requires |rows| == 2 && EdgeOf(rows[0]) == (p, b) && EdgeOf(rows[1]) == (b, p) && SafeName(p) && SafeName(b)
    requires IsGraphReport(rows, MergeRows(map[], rows), flagged, errors)
    requires !Acyclic(MergeShares(map[], rows).Keys)
    ensures errors != []
  {
    assert forall r :: r in rows ==> r == rows[0] || r == rows[1];
    RepresentsMerge(map[], map[], rows);
    NoEdgesAcyclic(var none: Shares := map[]; none.Keys);
    CycleErrorsExact(map[], rows, MergeRows(map[], rows), flagged, errors);
  }
}
