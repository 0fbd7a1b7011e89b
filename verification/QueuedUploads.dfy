/** Two asynchronous uploads that are each acceptable when they are queued, and break a global rule
    when both have been written. */
module QueuedUploads {
  import opened AsyncSafety
  import opened Digraphs
  import opened JobProtocol
  import opened JobTable
  import opened MergedGraph
  import opened Names
  import opened Options
  import opened Registry
  import opened SampleUploads
  import opened StoreInvariant
  import opened Sums
  import opened Tables
  import opened UploadAcceptance
  import opened UploadTypes
  import opened UploadValidation
  import opened UploadWriter
  import opened WriteTheorems

  // ----- A run of two jobs -----

  /** Both jobs are created before either is delivered. */
  function QueuedThenWritten(first: UploadBatch, second: UploadBatch): seq<Action> {
    [Create(0, first, 0, 0)] + ([Create(1, second, 1, 1)] + (CompletedWrite(0, 0) + CompletedWrite(1, 1)))
  }

  lemma BothCompleted(s: System, chunkSize: nat, t1: Tables, t2: Tables)
    requires chunkSize > 0 && IsQueued(s.jobs, 0) && IsQueued(s.jobs, 1) && s.workers == map[]
    requires WriteBatch(s.tables, s.jobs[0].payload, chunkSize) == Some(t1)
    requires WriteBatch(t1, s.jobs[1].payload, chunkSize) == Some(t2)
    ensures IsRun(s, CompletedWrite(0, 0) + CompletedWrite(1, 1), chunkSize)
    ensures var s' := After(s, CompletedWrite(0, 0) + CompletedWrite(1, 1), chunkSize);
      && 0 in s'.jobs && 1 in s'.jobs && s'.jobs[0].status == Completed && s'.jobs[1].status == Completed
      && s'.tables == t2
  {
    JobCompletes(s, chunkSize, 0, 0);
    var s1 := After(s, CompletedWrite(0, 0), chunkSize);
    JobCompletes(s1, chunkSize, 1, 1);
    RunAppend(s, CompletedWrite(0, 0), CompletedWrite(1, 1), chunkSize);
  }

  /** Each batch passes the validator's own report on the tables at the moment its job is created. */
  ghost predicate PassedWhenQueued(first: UploadBatch, second: UploadBatch, maxRows: nat, chunkSize: nat)
    requires chunkSize > 0
  {
    && PassedBatch(NO_JOBS.tables, first, maxRows)
    && PassedBatch(Do(NO_JOBS, Create(0, first, 0, 0), chunkSize).tables, second, maxRows)
  }

  /** The run exists, completes both jobs and leaves these tables. */
  ghost predicate EndsWith(first: UploadBatch, second: UploadBatch, chunkSize: nat, t: Tables)
    requires chunkSize > 0
  {
    var actions := QueuedThenWritten(first, second);
    && IsRun(NO_JOBS, actions, chunkSize)
    && var s := After(NO_JOBS, actions, chunkSize);
       && 0 in s.jobs && 1 in s.jobs && s.jobs[0].status == Completed && s.jobs[1].status == Completed
       && s.tables == t
  }

  lemma TwoQueuedJobs(first: UploadBatch, second: UploadBatch, chunkSize: nat, t1: Tables, t2: Tables)
    requires chunkSize > 0
    requires WriteBatch(EMPTY_TABLES, first, chunkSize) == Some(t1) && WriteBatch(t1, second, chunkSize) == Some(t2)
    ensures EndsWith(first, second, chunkSize, t2)
  {
    var s1 := Do(NO_JOBS, Create(0, first, 0, 0), chunkSize);
    var s2 := Do(s1, Create(1, second, 1, 1), chunkSize);
    var writes := CompletedWrite(0, 0) + CompletedWrite(1, 1);
    BothCompleted(s2, chunkSize, t1, t2);
    RunCons(s1, Create(1, second, 1, 1), writes, chunkSize);
    RunCons(NO_JOBS, Create(0, first, 0, 0), [Create(1, second, 1, 1)] + writes, chunkSize);
  }

  lemma PassedAtBothCreates(first: UploadBatch, second: UploadBatch, maxRows: nat, chunkSize: nat)
    requires chunkSize > 0
    requires PassedBatch(EMPTY_TABLES, first, maxRows) && PassedBatch(EMPTY_TABLES, second, maxRows)
    ensures PassedWhenQueued(first, second, maxRows, chunkSize)
  {
    var s1 := Do(NO_JOBS, Create(0, first, 0, 0), chunkSize);
    assert s1.tables == EMPTY_TABLES == NO_JOBS.tables;
  }

  // ----- Uploads of one edge -----

  ghost predicate OneEdge(names: seq<string>, e: Edge, maxRows: nat) {
    && AreKeys(names) && (forall n :: n in names ==> SafeName(n)) && |names| <= maxRows && maxRows >= 1
    && e.0 in names && e.1 in names && e.0 != e.1
  }

  function EdgeUpload(names: seq<string>, e: Edge): UploadSheets {
    Owning(names, [e], "60")
  }

  lemma EdgeRows(base: Shares, names: seq<string>, e: Edge)
    requires IsKey(e.0) && IsKey(e.1)
    ensures MergeShares(base, OwnershipRowsOf(EdgeUpload(names, e))) == base[e := 6000]
  {
    SamplePercents();
    OwningRow(names, [e], "60", 0);
    var rows := OwnershipRowsOf(EdgeUpload(names, e));
    assert rows[..0] == [];
  }

  lemma EdgePasses(t: Tables, names: seq<string>, e: Edge, today: int, maxRows: nat)
    requires OneEdge(names, e, maxRows)
    ensures SheetsAccepted(t, EdgeUpload(names, e), today, maxRows)
  {
    SamplePercents();
    OwningAccepted(t, names, [e], "60", today, maxRows);
  }

  lemma EdgeAccepted(names: seq<string>, e: Edge, today: int, maxRows: nat)
    requires OneEdge(names, e, maxRows)
    ensures PassedBatch(EMPTY_TABLES, BatchOf(EdgeUpload(names, e)), maxRows)
  {
    EdgePasses(EMPTY_TABLES, names, e, today, maxRows);
    EmptyShares();
    EdgeRows(ShareMap(EMPTY_TABLES), names, e);
    SingleShareSound(e.0, e.1, 6000);
    AcceptedParts(EMPTY_TABLES, EdgeUpload(names, e), today, maxRows, map[e := 6000]);
    OwningIsSafe(names, [e], "60");
    EmptyTablesInvariant();
    AcceptedMayPass(EMPTY_TABLES, EdgeUpload(names, e), today, maxRows);
  }

  /** Whatever the tables, the upload of one edge is written and sets that edge. */
  lemma EdgeWritten(t: Tables, names: seq<string>, e: Edge, today: int, limits: Limits)
    requires limits.chunkSize > 0 && WellFormed(t) && OneEdge(names, e, limits.maxRows)
    ensures var after := WriteBatch(t, BatchOf(EdgeUpload(names, e)), limits.chunkSize);
      after.Some? && WellFormed(after.value) && ShareMap(after.value) == ShareMap(t)[e := 6000]
  {
    EdgePasses(t, names, e, today, limits.maxRows);
    NothingToFile(EdgeUpload(names, e), limits.chunkSize);
    AcceptedWrite(t, Upload(EdgeUpload(names, e), today), limits);
    EdgeRows(ShareMap(t), names, e);
  }

  /** Both edges end up in the tables. */
  lemma TwoQueuedEdges(names: seq<string>, d: Edge, e: Edge, today: int, limits: Limits) returns (t: Tables)
    requires limits.chunkSize > 0 && OneEdge(names, d, limits.maxRows) && OneEdge(names, e, limits.maxRows)
    ensures EndsWith(BatchOf(EdgeUpload(names, d)), BatchOf(EdgeUpload(names, e)), limits.chunkSize, t)
    ensures ShareMap(t) == map[d := 6000][e := 6000]
  {
    var first, second := BatchOf(EdgeUpload(names, d)), BatchOf(EdgeUpload(names, e));
    EmptyTablesInvariant();
    EmptyShares();
    EdgeWritten(EMPTY_TABLES, names, d, today, limits);
    var t1 := WriteBatch(EMPTY_TABLES, first, limits.chunkSize).value;
    EdgeWritten(t1, names, e, today, limits);
    t := WriteBatch(t1, second, limits.chunkSize).value;
    TwoQueuedJobs(first, second, limits.chunkSize, t1, t);
  }

  lemma BothPassedWhenQueued(names: seq<string>, d: Edge, e: Edge, today: int, limits: Limits)
    requires limits.chunkSize > 0 && OneEdge(names, d, limits.maxRows) && OneEdge(names, e, limits.maxRows)
    ensures PassedWhenQueued(BatchOf(EdgeUpload(names, d)), BatchOf(EdgeUpload(names, e)), limits.maxRows,
                               limits.chunkSize)
  {
    EdgeAccepted(names, d, today, limits.maxRows);
    EdgeAccepted(names, e, today, limits.maxRows);
    PassedAtBothCreates(BatchOf(EdgeUpload(names, d)), BatchOf(EdgeUpload(names, e)), limits.maxRows,
                          limits.chunkSize);
  }

  lemma MutualEdgesFit(a: string, b: string, maxRows: nat)
    requires IsKey(a) && IsKey(b) && a != b && SafeName(a) && SafeName(b) && maxRows >= 2
    ensures OneEdge([a, b], (a, b), maxRows) && OneEdge([a, b], (b, a), maxRows)
  {
    assert [a, b][0] == a && [a, b][1] == b;
  }

  /** Two queued jobs can close a cycle: whatever the two names, each upload of one edge is acceptable
      when it is queued, and with both jobs completed the entities own each other. */
  lemma QueuedJobsCanCloseCycle(a: string, b: string, today: int, limits: Limits) returns (t: Tables)
    requires limits.chunkSize > 0 && limits.maxRows >= 2
    requires IsKey(a) && IsKey(b) && a != b && SafeName(a) && SafeName(b)
    ensures var first, second := BatchOf(EdgeUpload([a, b], (a, b))), BatchOf(EdgeUpload([a, b], (b, a)));
      && PassedWhenQueued(first, second, limits.maxRows, limits.chunkSize)
      && EndsWith(first, second, limits.chunkSize, t)
    ensures !Acyclic(ShareMap(t).Keys)
  {
    MutualEdgesFit(a, b, limits.maxRows);
    BothPassedWhenQueued([a, b], (a, b), (b, a), today, limits);
    t := TwoQueuedEdges([a, b], (a, b), (b, a), today, limits);
    MutualEdges(ShareMap(t).Keys, a, b);
  }

  lemma TwoOwners(shares: Shares, a: string, b: string, c: string)
    requires a != b && shares == map[(a, c) := 6000][(b, c) := 6000]
    ensures Total(shares, c) == 12000
  {
    assert SharesOf(shares, c) == {(a, c), (b, c)};
    SumSplit(shares, {(a, c), (b, c)}, (a, c));
    assert {(a, c), (b, c)} - {(a, c)} == {(b, c)};
    SumSplit(shares, {(b, c)}, (b, c));
    assert {(b, c)} - {(b, c)} == {};
  }

  lemma SharedEdgesFit(a: string, b: string, c: string, maxRows: nat)
    requires IsKey(a) && IsKey(b) && IsKey(c) && a != b && a != c && b != c && maxRows >= 3
    requires SafeName(a) && SafeName(b) && SafeName(c)
    ensures OneEdge([a, b, c], (a, c), maxRows) && OneEdge([a, b, c], (b, c), maxRows)
  {
    assert [a, b, c][0] == a && [a, b, c][1] == b && [a, b, c][2] == c;
  }

  /** Two queued jobs can allocate more than the whole of an entity. */
  lemma QueuedJobsCanOverallocate(a: string, b: string, c: string, today: int, limits: Limits) returns (t: Tables)
    requires limits.chunkSize > 0 && limits.maxRows >= 3
    requires IsKey(a) && IsKey(b) && IsKey(c) && a != b && a != c && b != c
    requires SafeName(a) && SafeName(b) && SafeName(c)
    ensures var first, second := BatchOf(EdgeUpload([a, b, c], (a, c))), BatchOf(EdgeUpload([a, b, c], (b, c)));
      && PassedWhenQueued(first, second, limits.maxRows, limits.chunkSize)
      && EndsWith(first, second, limits.chunkSize, t)
    ensures Total(ShareMap(t), c) == 12000
  {
    SharedEdgesFit(a, b, c, limits.maxRows);
    BothPassedWhenQueued([a, b, c], (a, c), (b, c), today, limits);
    t := TwoQueuedEdges([a, b, c], (a, c), (b, c), today, limits);
    TwoOwners(ShareMap(t), a, b, c);
  }
}
