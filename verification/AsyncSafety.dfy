/** What every interleaving of synchronous and asynchronous uploads guarantees of the tables. */
module AsyncSafety {
  import opened Idempotence
  import opened JobProtocol
  import opened MergedGraph
  import opened Names
  import opened Registry
  import opened StoreInvariant
  import opened Tables
  import opened UploadAcceptance
  import opened UploadTypes
  import opened UploadValidation
  import opened UploadWriter
  import opened WriteTheorems

  /** Batches come from validation, which ran at some earlier moment and on other tables. */
  ghost predicate BringsCleanBatch(a: Action) {
    match a
    case Create(_, payload, _, _) => CleanBatch(payload)
    case SyncUpload(batch) => CleanBatch(batch)
    case _ => true
  }

  ghost predicate AllClean(s: System) {
    && (forall job :: job in s.jobs ==> CleanBatch(s.jobs[job].payload))
    && (forall c :: c in s.commits ==> CleanBatch(c.batch))
  }

  lemma StepKeepsClean(s: System, a: Action, chunkSize: nat)
    requires chunkSize > 0 && Enabled(s, a, chunkSize) && AllClean(s) && BringsCleanBatch(a)
    ensures AllClean(Do(s, a, chunkSize))
  {
    var s' := Do(s, a, chunkSize);
    forall c | c in s'.commits
      ensures CleanBatch(c.batch)
    {
      assert c in s.commits || c == s'.commits[|s.commits|];
    }
  }

  lemma {:induction false} RunKeepsClean(s: System, actions: seq<Action>, chunkSize: nat)
    requires chunkSize > 0 && IsRun(s, actions, chunkSize) && AllClean(s)
    requires forall a :: a in actions ==> BringsCleanBatch(a)
    ensures AllClean(After(s, actions, chunkSize))
    decreases |actions|
  {
    if actions != [] {
      StepKeepsClean(s, actions[0], chunkSize);
      RunKeepsClean(Do(s, actions[0], chunkSize), actions[1..], chunkSize);
    }
  }

  /** The ownership rows of all committed batches, in commit order. */
  ghost function CommittedRows(commits: seq<Commit>): seq<UploadOwnershipRow> {
    if commits == [] then []
    else CommittedRows(commits[..|commits| - 1]) + commits[|commits| - 1].batch.ownershipRows
  }

  lemma MergeLast(base: Shares, rows: seq<UploadOwnershipRow>, r: UploadOwnershipRow)
    ensures MergeUploaded(base, rows + [r]) == MergeUploaded(base, rows)[PairOf(r) := r.ownershipPct]
  {
    assert (rows + [r])[..|rows|] == rows;
  }

  lemma {:induction false} MergeAppend(base: Shares, a: seq<UploadOwnershipRow>, b: seq<UploadOwnershipRow>)
    ensures MergeUploaded(base, a + b) == MergeUploaded(MergeUploaded(base, a), b)
  {
    if b == [] {
      assert a + b == a;
    } else {
      var n := |b| - 1;
      assert a + b == (a + b[..n]) + [b[n]] && b == b[..n] + [b[n]];
      MergeAppend(base, a, b[..n]);
      MergeLast(base, a + b[..n], b[n]);
      MergeLast(MergeUploaded(base, a), b[..n], b[n]);
    }
  }

  /** A write that succeeds keeps every constraint and merges the batch's edges, even when the tables
      have changed since the batch was validated. */
  lemma LateWriteKeepsConstraints(t: Tables, batch: UploadBatch, chunkSize: nat)
    requires chunkSize > 0 && WellFormed(t) && CleanBatch(batch) && WriteBatch(t, batch, chunkSize).Some?
    ensures var after := WriteBatch(t, batch, chunkSize).value;
      WellFormed(after) && ShareMap(after) == MergeUploaded(ShareMap(t), batch.ownershipRows)
  {
    WriteBatchExact(t, batch, chunkSize);
    AfterWriteKeepsInvariant(t, batch);
  }

  /** A commit leaves the registry sound if and only if the graph it is merged into comes out sound, on
      safe names, whenever the batch was validated. */
  lemma CommitKeepsSoundExact(t: Tables, batch: UploadBatch, chunkSize: nat)
    requires chunkSize > 0 && WellFormed(t) && CleanBatch(batch) && WriteBatch(t, batch, chunkSize).Some?
    ensures Invariant(WriteBatch(t, batch, chunkSize).value)
       <==> && SoundShares(MergeUploaded(ShareMap(t), batch.ownershipRows))
            && SafeNames(t) && forall r :: r in batch.entityRows ==> SafeName(EntityKey(r))
  {
    LateWriteKeepsConstraints(t, batch, chunkSize);
    WriteBatchExact(t, batch, chunkSize);
    WrittenNamesExact(t, batch);
  }

  lemma {:induction false} ReplayKeepsConstraints(commits: seq<Commit>, chunkSize: nat)
    requires chunkSize > 0 && Replay(commits, chunkSize).Some? && forall c :: c in commits ==> CleanBatch(c.batch)
    ensures var t := Replay(commits, chunkSize).value;
      WellFormed(t) && ShareMap(t) == MergeUploaded(map[], CommittedRows(commits))
  {
    if commits == [] {
      EmptyTablesInvariant();
      assert ShareMap(EMPTY_TABLES) == map[];
    } else {
      var n := |commits| - 1;
      assert commits[n] in commits;
      ReplayKeepsConstraints(commits[..n], chunkSize);
      LateWriteKeepsConstraints(Replay(commits[..n], chunkSize).value, commits[n].batch, chunkSize);
      MergeAppend(map[], CommittedRows(commits[..n]), commits[n].batch.ownershipRows);
    }
  }

  /** In every interleaving the names, ids and business ids stay unique and every reference resolves,
      and the ownership graph is the merge of all committed uploads in commit order. */
  lemma InterleavingsKeepConstraints(actions: seq<Action>, chunkSize: nat)
    requires chunkSize > 0 && IsRun(NO_JOBS, actions, chunkSize)
    requires forall a :: a in actions ==> BringsCleanBatch(a)
    ensures var s := After(NO_JOBS, actions, chunkSize);
      WellFormed(s.tables) && ShareMap(s.tables) == MergeUploaded(map[], CommittedRows(s.commits))
  {
    RunsAreSerial(actions, chunkSize);
    RunKeepsClean(NO_JOBS, actions, chunkSize);
    ReplayKeepsConstraints(After(NO_JOBS, actions, chunkSize).commits, chunkSize);
  }

  // ----- Nothing committed between acceptance and write -----

  /** The batch is that of an upload which is acceptable on these tables. */
  ghost predicate AcceptedBatch(t: Tables, batch: UploadBatch, maxRows: nat) {
    exists sheets, today ::
      Accepted(t, sheets, today, maxRows) && SafeUpload(sheets) && batch == BatchOf(sheets)
  }

  /** The batch is that of an upload which passes the validator's own report on these tables. */
  ghost predicate PassedBatch(t: Tables, batch: UploadBatch, maxRows: nat) {
    exists sheets, today ::
      MayPass(t, sheets, today, maxRows) && SafeUpload(sheets) && batch == BatchOf(sheets)
  }

  lemma PassedIsAccepted(t: Tables, batch: UploadBatch, maxRows: nat)
    requires Invariant(t) && PassedBatch(t, batch, maxRows)
    ensures AcceptedBatch(t, batch, maxRows)
  {
    var sheets, today :| MayPass(t, sheets, today, maxRows) && SafeUpload(sheets) && batch == BatchOf(sheets);
    VerdictIsDetermined(t, sheets, today, maxRows);
  }

  lemma AcceptedCommit(t: Tables, batch: UploadBatch, maxRows: nat, chunkSize: nat)
    requires chunkSize > 0 && Invariant(t) && AcceptedBatch(t, batch, maxRows)
    requires WriteBatch(t, batch, chunkSize).Some?
    ensures Invariant(WriteBatch(t, batch, chunkSize).value)
  {
    var sheets, today :| Accepted(t, sheets, today, maxRows) && SafeUpload(sheets) && batch == BatchOf(sheets);
    AcceptedIsClean(sheets, today, maxRows);
    MergeUploadedIsMerge(ShareMap(t), OwnershipRowsOf(sheets));
    CommitKeepsSoundExact(t, batch, chunkSize);
  }

  /** Every batch passes the validator when it enters, and a job commits only if the log of commits is as
      long as it was when the job was created: `stamps` remembers that length. */
  ghost predicate IsUndisturbed(s: System, a: Action, stamps: map<nat, nat>, maxRows: nat) {
    match a
    case Create(_, payload, _, _) => PassedBatch(s.tables, payload, maxRows)
    case SyncUpload(batch) => PassedBatch(s.tables, batch, maxRows)
    case CommitWrite(w, _) =>
      w in s.workers && s.workers[w].job in stamps && stamps[s.workers[w].job] == |s.commits|
    case _ => true
  }

  function Stamped(s: System, a: Action, stamps: map<nat, nat>): map<nat, nat> {
    match a
    case Create(job, _, _, _) => stamps[job := |s.commits|]
    case _ => stamps
  }

  ghost predicate Undisturbed(s: System, actions: seq<Action>, stamps: map<nat, nat>, maxRows: nat, chunkSize: nat)
    requires chunkSize > 0 && IsRun(s, actions, chunkSize)
    decreases |actions|
  {
    actions != [] ==>
      && IsUndisturbed(s, actions[0], stamps, maxRows)
      && Undisturbed(Do(s, actions[0], chunkSize), actions[1..], Stamped(s, actions[0], stamps), maxRows, chunkSize)
  }

  /** As long as nothing has been committed since a job was created, its batch is still acceptable. */
  ghost predicate StampsFit(s: System, stamps: map<nat, nat>, maxRows: nat) {
    forall job :: job in s.jobs && job in stamps ==> StampFits(s, job, stamps[job], maxRows)
  }

  ghost predicate StampFits(s: System, job: nat, stamp: nat, maxRows: nat)
    requires job in s.jobs
  {
    stamp <= |s.commits| && (stamp == |s.commits| ==> AcceptedBatch(s.tables, s.jobs[job].payload, maxRows))
  }

  /** No step changes a batch, and the tables change only with a commit. */
  lemma StepShape(s: System, a: Action, chunkSize: nat)
    requires chunkSize > 0 && Enabled(s, a, chunkSize)
    ensures var s' := Do(s, a, chunkSize);
      && (forall job :: job in s.jobs ==> job in s'.jobs && s'.jobs[job].payload == s.jobs[job].payload)
      && (forall job :: job in s'.jobs && job !in s.jobs ==>
            a.Create? && job == a.job && s'.jobs[job].payload == a.payload)
      && (if a.CommitWrite? || a.SyncUpload? then |s'.commits| == |s.commits| + 1
          else s'.commits == s.commits && s'.tables == s.tables)
  {
  }

  lemma StampsStep(s: System, a: Action, stamps: map<nat, nat>, maxRows: nat, chunkSize: nat)
    requires chunkSize > 0 && Enabled(s, a, chunkSize) && StampsFit(s, stamps, maxRows)
    requires Invariant(s.tables) && IsUndisturbed(s, a, stamps, maxRows)
    ensures StampsFit(Do(s, a, chunkSize), Stamped(s, a, stamps), maxRows)
  {
    var s' := Do(s, a, chunkSize);
    StepShape(s, a, chunkSize);
    forall job | job in s'.jobs && job in Stamped(s, a, stamps)
      ensures StampFits(s', job, Stamped(s, a, stamps)[job], maxRows)
    {
      if job !in s.jobs {
        PassedIsAccepted(s.tables, a.payload, maxRows);
      } else {
        assert StampFits(s, job, stamps[job], maxRows);
      }
    }
  }

  lemma UndisturbedStep(s: System, a: Action, stamps: map<nat, nat>, maxRows: nat, chunkSize: nat)
    requires chunkSize > 0 && Enabled(s, a, chunkSize) && StampsFit(s, stamps, maxRows)
    requires Invariant(s.tables) && IsUndisturbed(s, a, stamps, maxRows)
    ensures Invariant(Do(s, a, chunkSize).tables)
  {
    StepShape(s, a, chunkSize);
    match a
    case CommitWrite(w, _) =>
      assert StampFits(s, s.workers[w].job, stamps[s.workers[w].job], maxRows);
      AcceptedCommit(s.tables, s.jobs[s.workers[w].job].payload, maxRows, chunkSize);
    case SyncUpload(batch) =>
      PassedIsAccepted(s.tables, batch, maxRows);
      AcceptedCommit(s.tables, batch, maxRows, chunkSize);
    case _ =>
  }

  lemma {:induction false} UndisturbedRun(s: System, actions: seq<Action>, stamps: map<nat, nat>, maxRows: nat,
                                          chunkSize: nat)
    requires chunkSize > 0 && IsRun(s, actions, chunkSize) && Invariant(s.tables) && StampsFit(s, stamps, maxRows)
    requires Undisturbed(s, actions, stamps, maxRows, chunkSize)
    ensures Invariant(After(s, actions, chunkSize).tables)
    decreases |actions|
  {
    if actions != [] {
      UndisturbedStep(s, actions[0], stamps, maxRows, chunkSize);
      StampsStep(s, actions[0], stamps, maxRows, chunkSize);
      UndisturbedRun(Do(s, actions[0], chunkSize), actions[1..], Stamped(s, actions[0], stamps), maxRows, chunkSize);
    }
  }

  /** Every interleaving in which no commit falls between a batch's acceptance and its own commit keeps
      the whole invariant: acyclic ownership and the 100% bound included. */
  lemma UndisturbedIsSafe(actions: seq<Action>, maxRows: nat, chunkSize: nat)
    requires chunkSize > 0 && IsRun(NO_JOBS, actions, chunkSize)
    requires Undisturbed(NO_JOBS, actions, map[], maxRows, chunkSize)
    ensures Invariant(After(NO_JOBS, actions, chunkSize).tables)
  {
    EmptyTablesInvariant();
    UndisturbedRun(NO_JOBS, actions, map[], maxRows, chunkSize);
  }
}
