/** Uploads in which two entities own each other: which of them the registry lets through. */
module HiddenCycle {
  import opened Digraphs
  import opened GraphValidator
  import opened MergedGraph
  import opened Names
  import opened Registry
  import opened SampleUploads
  import opened Tables
  import opened UploadAcceptance
  import opened UploadTypes
  import opened UploadValidation
  import opened WriteTheorems

  /** `p` and `b` each own half of the other. */
  function Mutual(p: string, b: string): UploadSheets {
    Owning([p, b], [(p, b), (b, p)], "50")
  }

  ghost predicate TwoKeys(p: string, b: string) {
    IsKey(p) && IsKey(b) && p != b && Join(p, b) != Join(b, p)
  }

  lemma MutualConnects(p: string, b: string)
    requires TwoKeys(p, b)
    ensures AreKeys([p, b]) && Connects([(p, b), (b, p)], [p, b])
  {
  }

  lemma MutualRows(p: string, b: string)
    requires TwoKeys(p, b)
    ensures AreMutual(OwnershipRowsOf(Mutual(p, b)), p, b, 5000)
  {
    SamplePercents();
    OwningRow([p, b], [(p, b), (b, p)], "50", 0);
    OwningRow([p, b], [(p, b), (b, p)], "50", 1);
  }

  lemma NothingListed(existing: seq<ExistingEdge>, order: seq<EdgeId>)
    requires IsListing(EMPTY_TABLES, existing, order)
    ensures existing == []
  {
    if order != [] {
      ListsOneLess(EMPTY_TABLES, existing, order, EMPTY_TABLES.edges.Keys);
    }
  }

  /** Whatever order the check works in, it reports the pair if and only if both names are safe. */
  lemma MutualVerdict(p: string, b: string, errors: seq<ValidationError>)
    requires TwoKeys(p, b) && GraphErrors(EMPTY_TABLES, OwnershipRowsOf(Mutual(p, b)), errors)
    ensures errors != [] <==> SafeName(p) && SafeName(b)
  {
    var rows := OwnershipRowsOf(Mutual(p, b));
    var existing, order, flagged :|
      IsListing(EMPTY_TABLES, existing, order)
      && IsGraphReport(rows, MergeRows(MergeExisting(existing), rows), flagged, errors);
    NothingListed(existing, order);
    MutualRows(p, b);
    MutualReportExact(rows, p, b, 5000, flagged, errors);
  }

  lemma MutualAccepted(p: string, b: string, today: int, maxRows: nat)
    requires TwoKeys(p, b) && maxRows >= 2
    ensures SheetsAccepted(EMPTY_TABLES, Mutual(p, b), today, maxRows)
  {
    MutualConnects(p, b);
    SamplePercents();
    OwningAccepted(EMPTY_TABLES, [p, b], [(p, b), (b, p)], "50", today, maxRows);
  }

  lemma MutualSharesCyclic(p: string, b: string)
    requires TwoKeys(p, b)
    ensures !Acyclic(SharesAfter(EMPTY_TABLES, Mutual(p, b)).Keys)
  {
    EmptyShares();
    MutualRows(p, b);
    MutualMerged(OwnershipRowsOf(Mutual(p, b)), p, b, 5000);
    MutualEdges(SharesAfter(EMPTY_TABLES, Mutual(p, b)).Keys, p, b);
  }

  lemma OnlyVerdict(p: string, b: string, today: int, maxRows: nat)
    requires TwoKeys(p, b) && maxRows >= 2
    ensures MayPass(EMPTY_TABLES, Mutual(p, b), today, maxRows) ==> !(SafeName(p) && SafeName(b))
    ensures MayFail(EMPTY_TABLES, Mutual(p, b), today, maxRows) ==> SafeName(p) && SafeName(b)
  {
    MutualAccepted(p, b, today, maxRows);
    forall errors | GraphErrors(EMPTY_TABLES, OwnershipRowsOf(Mutual(p, b)), errors)
      ensures errors != [] <==> SafeName(p) && SafeName(b)
    {
      MutualVerdict(p, b, errors);
    }
  }

  /** An upload of two entities that own each other is rejected if both names are safe; otherwise it
      is written, and the registry holds a cycle. */
  lemma MutualUploadExact(p: string, b: string, today: int, limits: Limits, t': Tables)
    requires TwoKeys(p, b) && limits.maxRows >= 2 && limits.chunkSize > 0
    requires IsStep(EMPTY_TABLES, Upload(Mutual(p, b), today), limits, t')
    ensures SafeName(p) && SafeName(b) ==> t' == EMPTY_TABLES
    ensures Acyclic(ShareMap(t').Keys) <==> SafeName(p) && SafeName(b)
  {
    var upload := Upload(Mutual(p, b), today);
    EmptyTablesInvariant();
    OnlyVerdict(p, b, today, limits.maxRows);
    if !(SafeName(p) && SafeName(b)) {
      NothingToFile(Mutual(p, b), limits.chunkSize);
      AcceptedWrite(EMPTY_TABLES, upload, limits);
      MutualSharesCyclic(p, b);
    }
  }

  /** For every unsafe name there is an upload of two rows that puts a cycle into the registry. */
  lemma EveryUnsafeNameHidesACycle(p: string, today: int, limits: Limits) returns (b: string)
    requires IsKey(p) && !SafeName(p) && limits.maxRows >= 2 && limits.chunkSize > 0
    ensures TwoKeys(p, b) && SafeName(b)
    ensures forall t' :: IsStep(EMPTY_TABLES, Upload(Mutual(p, b), today), limits, t') ==> !Acyclic(ShareMap(t').Keys)
  {
    b := if p[0] == 'a' then "b" else "a";
    LetterIsKey('a');
    LetterIsKey('b');
    assert Join(p, b)[0] == p[0] && Join(b, p)[0] == b[0];
    forall t' | IsStep(EMPTY_TABLES, Upload(Mutual(p, b), today), limits, t')
      ensures !Acyclic(ShareMap(t').Keys)
    {
      MutualUploadExact(p, b, today, limits, t');
    }
  }
}
