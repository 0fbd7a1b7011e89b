/** validation/graph-validator.ts: cycles and over-100% totals in the merged ownership graph. */
module GraphValidator {
  import opened CycleDetection
  import opened Names
  import opened Sums
  import opened UploadTypes

  const FULL_OWNERSHIP := 10000

  function EdgeKey(parentName: string, childName: string): string {
    Join(Normalize(parentName), Normalize(childName))
  }

  function MergeExisting(existing: seq<ExistingEdge>): map<string, int> {
    if existing == [] then map[]
    else
      var e := existing[|existing| - 1];
      MergeExisting(existing[..|existing| - 1])[EdgeKey(e.parentName, e.childName) := e.pct]
  }

  function MergeRows(base: map<string, int>, rows: seq<OwnershipRow>): map<string, int> {
    if rows == [] then base
    else
      var r := rows[|rows| - 1];
      MergeRows(base, rows[..|rows| - 1])[EdgeKey(r.parentEntity, r.childEntity) := r.ownershipPct]
  }

  /** The edges read back from the joined keys. */
  ghost function SplitEdges(keys: set<string>): set<(string, string)> {
    set k | k in keys :: Split(k)
  }

  ghost function KeysInto(merged: map<string, int>, child: string): set<string> {
    set k | k in merged && Split(k).1 == child
  }

  ghost function KeyedTotal(merged: map<string, int>, child: string): int {
    SumOver(merged, KeysInto(merged, child))
  }

  predicate BothFlagged(row: OwnershipRow, flagged: set<string>) {
    Normalize(row.parentEntity) in flagged && Normalize(row.childEntity) in flagged
  }

  ghost predicate Overallocated(row: OwnershipRow, merged: map<string, int>) {
    KeyedTotal(merged, Normalize(row.childEntity)) > FULL_OWNERSHIP
  }

  function CycleErrors(rows: seq<OwnershipRow>, flagged: set<string>): seq<ValidationError> {
    if rows == [] then []
    else
      var r := rows[|rows| - 1];
      CycleErrors(rows[..|rows| - 1], flagged)
      + if BothFlagged(r, flagged) then [ValidationError(OwnershipFile, r.line, ParentEntity)] else []
  }

  ghost function TotalErrors(rows: seq<OwnershipRow>, merged: map<string, int>): seq<ValidationError> {
    if rows == [] then []
    else
      var r := rows[|rows| - 1];
      TotalErrors(rows[..|rows| - 1], merged)
      + if Overallocated(r, merged) then [ValidationError(OwnershipFile, r.line, OwnershipPercent)] else []
  }

  /** The error list, for some set of nodes flagged by a correct search of the merged graph. */
  ghost predicate IsGraphReport(rows: seq<OwnershipRow>, merged: map<string, int>, flagged: set<string>,
                                errors: seq<ValidationError>) {
    && IsCycleReport(SplitEdges(merged.Keys), flagged)
    && errors == CycleErrors(rows, flagged) + TotalErrors(rows, merged)
  }

  method BuildAdjacency(keys: set<string>) returns (adjacency: Adjacency)
    ensures EdgesOf(adjacency) == SplitEdges(keys)
  {
    adjacency := map[];
    var pending := keys;
    while pending != {}
      invariant pending <= keys
      invariant EdgesOf(adjacency) == SplitEdges(keys - pending)
    {
      var key :| key in pending;
      var (parent, child) := Split(key);
      var children := if parent in adjacency then adjacency[parent] else [];
      ghost var before := EdgesOf(adjacency);
      adjacency := adjacency[parent := children + [child]];
      assert EdgesOf(adjacency) == before + {(parent, child)};
      assert keys - (pending - {key}) == keys - pending + {key};
      pending := pending - {key};
    }
  }

  function Lookup(totals: map<string, int>, child: string): int {
    if child in totals then totals[child] else 0
  }

  method SumByChild(merged: map<string, int>) returns (totals: map<string, int>)
    ensures forall child :: Lookup(totals, child) == KeyedTotal(merged, child)
  {
    totals := map[];
    var pending := merged.Keys;
    while pending != {}
      invariant pending <= merged.Keys
      invariant forall child :: Lookup(totals, child) == SumOver(merged, KeysInto(merged, child) - pending)
    {
      var key :| key in pending;
      var child := Split(key).1;
      ghost var before := totals;
      totals := totals[child := Lookup(totals, child) + merged[key]];
      forall c
        ensures Lookup(totals, c) == SumOver(merged, KeysInto(merged, c) - (pending - {key}))
      {
        var summed := KeysInto(merged, c) - (pending - {key});
        if c == child {
          SumSplit(merged, summed, key);
          assert summed - {key} == KeysInto(merged, c) - pending;
        } else {
          assert summed == KeysInto(merged, c) - pending;
        }
      }
      pending := pending - {key};
    }
    assert forall child :: KeysInto(merged, child) - {} == KeysInto(merged, child);
  }

  /** Overlays the upload's rows on the persisted edges; a repeated key is overwritten. */
  method MergeEdges(rows: seq<OwnershipRow>, existingEdges: seq<ExistingEdge>) returns (merged: map<string, int>)
    ensures merged == MergeRows(MergeExisting(existingEdges), rows)
  {
    merged := map[];
    for i := 0 to |existingEdges|
      invariant merged == MergeExisting(existingEdges[..i])
    {
      var edge := existingEdges[i];
      assert existingEdges[..i + 1][..i] == existingEdges[..i];
      merged := merged[EdgeKey(edge.parentName, edge.childName) := edge.pct];
    }
    assert existingEdges[..|existingEdges|] == existingEdges;
    ghost var base := merged;
    for i := 0 to |rows|
      invariant merged == MergeRows(base, rows[..i])
    {
      var row := rows[i];
      assert rows[..i + 1][..i] == rows[..i];
      merged := merged[EdgeKey(row.parentEntity, row.childEntity) := row.ownershipPct];
    }
    assert rows[..|rows|] == rows;
  }

  method ReportCycles(rows: seq<OwnershipRow>, cyclicNodes: set<string>) returns (errors: seq<ValidationError>)
    ensures errors == CycleErrors(rows, cyclicNodes)
  {
    errors := [];
    if cyclicNodes != {} {
      for i := 0 to |rows|
        invariant errors == CycleErrors(rows[..i], cyclicNodes)
      {
        assert rows[..i + 1][..i] == rows[..i];
        if BothFlagged(rows[i], cyclicNodes) {
          errors := errors + [ValidationError(OwnershipFile, rows[i].line, ParentEntity)];
        }
      }
      assert rows[..|rows|] == rows;
    } else {
      NothingFlagged(rows);
    }
  }

  lemma TotalErrorsLast(rows: seq<OwnershipRow>, merged: map<string, int>)
    requires rows != []
    ensures var r := rows[|rows| - 1];
      TotalErrors(rows, merged) == TotalErrors(rows[..|rows| - 1], merged)
        + if Overallocated(r, merged) then [ValidationError(OwnershipFile, r.line, OwnershipPercent)] else []
  {
  }

  method ReportTotals(rows: seq<OwnershipRow>, merged: map<string, int>) returns (errors: seq<ValidationError>)
    ensures errors == TotalErrors(rows, merged)
  {
    var totals := SumByChild(merged);
    errors := [];
    for i := 0 to |rows|
      invariant errors == TotalErrors(rows[..i], merged)
    {
      assert rows[..i + 1][..i] == rows[..i];
      TotalErrorsLast(rows[..i + 1], merged);
      var total := Lookup(totals, Normalize(rows[i].childEntity));
      if total > FULL_OWNERSHIP {
        errors := errors + [ValidationError(OwnershipFile, rows[i].line, OwnershipPercent)];
      }
    }
    assert rows[..|rows|] == rows;
  }

  method ValidateOwnershipGraph(rows: seq<OwnershipRow>, existingEdges: seq<ExistingEdge>)
    returns (errors: seq<ValidationError>)
    ensures exists flagged :: IsGraphReport(rows, MergeRows(MergeExisting(existingEdges), rows), flagged, errors)
  {
    var merged := MergeEdges(rows, existingEdges);
    var adjacency := BuildAdjacency(merged.Keys);
    var cyclicNodes := DetectCyclicNodes(adjacency);
    var cycleErrors := ReportCycles(rows, cyclicNodes);
    var totalErrors := ReportTotals(rows, merged);
    errors := cycleErrors + totalErrors;
    assert IsGraphReport(rows, merged, cyclicNodes, errors);
  }

  lemma {:induction false} NothingFlagged(rows: seq<OwnershipRow>)
    ensures CycleErrors(rows, {}) == []
  {
    if rows != [] {
      NothingFlagged(rows[..|rows| - 1]);
    }
  }
}
