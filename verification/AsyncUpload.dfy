/** The asynchronous upload routes run without interference: dispatch, callback, local fallback and sweep. */
module AsyncUpload {
  import opened Dates
  import opened JobTable
  import opened Options
  import opened Registry
  import opened StoreInvariant
  import opened Tables
  import opened UploadAcceptance
  import opened UploadTypes
  import opened UploadValidation
  import opened UploadWriter

  /** The tables and job rows after running a queued job to its end; `aborted` stands for a writer
      that died before committing. */
  ghost predicate RanJob(id: nat, aborted: bool, chunkSize: nat, t: Tables, jobs: Jobs, t': Tables, jobs': Jobs)
    requires chunkSize > 0
  {
    if !IsQueued(jobs, id) then t' == t && jobs' == jobs
    else
      var after := if aborted then None else WriteBatch(t, jobs[id].payload, chunkSize);
      match after
      case None => t' == t && jobs' == MarkedFailed(Claimed(jobs, id), id)
      case Some(written) =>
        t' == written && jobs' == MarkedCompleted(Claimed(jobs, id), id, CountsOf(jobs[id].payload))
  }

  /** Claims the job, writes it in the worker and records the outcome; a no-op when the claim is lost. */
  method RunFallback(jobs: UploadJobsService, registry: RegistryService, id: nat, payload: UploadBatch, aborted: bool)
    requires registry.limits.chunkSize > 0 && jobs.Valid() && registry.Valid()
    requires IsQueued(jobs.jobs, id) ==> jobs.jobs[id].payload == payload
    modifies jobs, registry, registry.db
    ensures jobs.Valid() && registry.Valid()
    ensures RanJob(id, aborted, registry.limits.chunkSize, old(registry.db.Contents()), old(jobs.jobs),
                   registry.db.Contents(), jobs.jobs)
  {
    var won := jobs.Claim(id);
    if !won {
      return;
    }
    var outcome := WriteAtomically(payload, registry.db, registry.limits.chunkSize, aborted);
    if outcome.Some? {
      registry.InvalidateAnalyticsCache();
      jobs.MarkCompleted(id, outcome.value);
    } else {
      jobs.MarkFailed(id);
    }
  }

  /** A QStash delivery: unknown and already claimed jobs are acknowledged without doing anything. */
  method Callback(jobs: UploadJobsService, registry: RegistryService, id: nat, aborted: bool)
    requires registry.limits.chunkSize > 0 && jobs.Valid() && registry.Valid()
    modifies jobs, registry, registry.db
    ensures jobs.Valid() && registry.Valid()
    ensures RanJob(id, aborted, registry.limits.chunkSize, old(registry.db.Contents()), old(jobs.jobs),
                   registry.db.Contents(), jobs.jobs)
  {
    var job := jobs.FindById(id);
    if job.None? || job.value.status != Queued {
      return;
    }
    var won := jobs.Claim(id);
    if !won {
      return;
    }
    var result := WriteAtomically(job.value.payload, registry.db, registry.limits.chunkSize, aborted);
    if result.Some? {
      registry.InvalidateAnalyticsCache();
      jobs.MarkCompleted(id, result.value);
    } else {
      jobs.MarkFailed(id);
    }
  }

  datatype AsyncOutcome = Refused(errors: seq<ValidationError>) | Enqueued(jobId: nat)

  /** Stores the job, and runs it at once when publishing failed. */
  method Dispatch(jobs: UploadJobsService, registry: RegistryService, payload: UploadBatch, now: int,
                  published: bool, aborted: bool) returns (id: nat)
    requires registry.limits.chunkSize > 0 && jobs.Valid() && registry.Valid()
    modifies jobs, registry, registry.db
    ensures jobs.Valid() && registry.Valid() && id !in old(jobs.jobs)
    ensures var created := Dispatched(old(jobs.jobs)[id := NewJob(payload, now)], id,
                                      if published then QStash else LocalFallback);
      if published then jobs.jobs == created && registry.db.Contents() == old(registry.db.Contents())
      else RanJob(id, aborted, registry.limits.chunkSize, old(registry.db.Contents()), created,
                  registry.db.Contents(), jobs.jobs)
  {
    id := jobs.Create(payload, now);
    jobs.SetDispatchMethod(id, if published then QStash else LocalFallback);
    if !published {
      RunFallback(jobs, registry, id, payload, aborted);
    }
  }

  /** Validates, stores the job, and runs it at once when publishing failed. */
  method UploadAsync(jobs: UploadJobsService, registry: RegistryService, sheets: UploadSheets, today: Date, now: int,
                     published: bool, aborted: bool) returns (outcome: AsyncOutcome)
    requires registry.limits.chunkSize > 0 && jobs.Valid() && registry.Valid() && WellFormed(registry.db.Contents())
    modifies jobs, registry, registry.db
    ensures jobs.Valid() && registry.Valid()
    ensures outcome.Refused? ==>
      && jobs.jobs == old(jobs.jobs) && registry.db.Contents() == old(registry.db.Contents())
      && MayFail(old(registry.db.Contents()), sheets, today, registry.limits.maxRows)
    ensures Invariant(old(registry.db.Contents())) && SafeUpload(sheets) ==>
      (outcome.Refused? <==> !Accepted(old(registry.db.Contents()), sheets, today, registry.limits.maxRows))
    ensures outcome.Enqueued? ==>
      && outcome.jobId !in old(jobs.jobs)
      && MayPass(old(registry.db.Contents()), sheets, today, registry.limits.maxRows)
      && var created := Dispatched(old(jobs.jobs)[outcome.jobId := NewJob(BatchOf(sheets), now)], outcome.jobId,
                                   if published then QStash else LocalFallback);
         if published then jobs.jobs == created && registry.db.Contents() == old(registry.db.Contents())
         else RanJob(outcome.jobId, aborted, registry.limits.chunkSize, old(registry.db.Contents()), created,
                     registry.db.Contents(), jobs.jobs)
  {
    if Invariant(registry.db.Contents()) && SafeUpload(sheets) {
      VerdictIsDetermined(registry.db.Contents(), sheets, today, registry.limits.maxRows);
    }
    var v := ValidateUpload(registry.db, sheets, today, registry.limits.maxRows);
    if |v.errors| > 0 {
      return Refused(v.errors);
    }
    var payload := ToUploadBatch(v.entityRows, v.ownershipRows, v.filingRows);
    var id := Dispatch(jobs, registry, payload, now, published, aborted);
    outcome := Enqueued(id);
  }

  predicate IsFinal(job: UploadJob) {
    job.status == Completed || job.status == JobStatus.Failed
  }

  lemma RanJobTouchesOne(id: nat, aborted: bool, chunkSize: nat, t: Tables, jobs: Jobs, t': Tables, jobs': Jobs)
    requires chunkSize > 0 && RanJob(id, aborted, chunkSize, t, jobs, t', jobs')
    ensures jobs'.Keys == jobs.Keys && forall j :: j in jobs && j != id ==> jobs'[j] == jobs[j]
    ensures IsQueued(jobs, id) ==> IsFinal(jobs'[id])
  {
  }

  /** The jobs were run one after another, each on what the one before left. */
  ghost predicate RanInOrder(ids: seq<nat>, chunkSize: nat, t: Tables, jobs: Jobs, t': Tables, jobs': Jobs)
    requires chunkSize > 0
    decreases |ids|
  {
    if ids == [] then t' == t && jobs' == jobs
    else
      var n := |ids| - 1;
      exists aborted: bool, mid: Tables, midJobs: Jobs ::
        RanInOrder(ids[..n], chunkSize, t, jobs, mid, midJobs)
        && RanJob(ids[n], aborted, chunkSize, mid, midJobs, t', jobs')
  }

  lemma RanOneMore(ids: seq<nat>, id: nat, aborted: bool, chunkSize: nat, t: Tables, jobs: Jobs, mid: Tables,
                   midJobs: Jobs, t': Tables, jobs': Jobs)
    requires chunkSize > 0 && RanInOrder(ids, chunkSize, t, jobs, mid, midJobs)
    requires RanJob(id, aborted, chunkSize, mid, midJobs, t', jobs')
    ensures RanInOrder(ids + [id], chunkSize, t, jobs, t', jobs')
  {
    var all := ids + [id];
    assert all[..|all| - 1] == ids && all[|all| - 1] == id;
    assert RanInOrder(all[..|all| - 1], chunkSize, t, jobs, mid, midJobs);
  }

  /** Exactly these jobs have become final, and no other has changed. */
  ghost predicate Finishes(ids: seq<nat>, jobs: Jobs, jobs': Jobs) {
    && jobs'.Keys == jobs.Keys
    && (forall id :: id in jobs && id !in ids ==> jobs'[id] == jobs[id])
    && (forall id :: id in ids ==> id in jobs' && IsFinal(jobs'[id]))
  }

  lemma FinishesOneMore(ids: seq<nat>, id: nat, jobs: Jobs, mid: Jobs, jobs': Jobs)
    requires Finishes(ids, jobs, mid) && Finishes([id], mid, jobs')
    ensures Finishes(ids + [id], jobs, jobs')
  {
    forall j | j in ids + [id]
      ensures j in jobs' && IsFinal(jobs'[j])
    {
      if j == id {
        assert id in [id];
      } else {
        assert j in ids && j in mid && j !in [id];
      }
    }
  }

  lemma LastRun(ids: seq<nat>, chunkSize: nat, t: Tables, jobs: Jobs, t': Tables, jobs': Jobs)
    returns (mid: Tables, midJobs: Jobs)
    requires chunkSize > 0 && ids != [] && RanInOrder(ids, chunkSize, t, jobs, t', jobs')
    ensures RanInOrder(ids[..|ids| - 1], chunkSize, t, jobs, mid, midJobs)
    ensures IsQueued(midJobs, ids[|ids| - 1]) ==> Finishes([ids[|ids| - 1]], midJobs, jobs')
  {
    var n := |ids| - 1;
    var aborted: bool;
    aborted, mid, midJobs :|
      RanInOrder(ids[..n], chunkSize, t, jobs, mid, midJobs)
      && RanJob(ids[n], aborted, chunkSize, mid, midJobs, t', jobs');
    if IsQueued(midJobs, ids[n]) {
      RanJobFinishes(ids[n], aborted, chunkSize, mid, midJobs, t', jobs');
    }
  }

  /** Running queued jobs, each once, finishes each of them and touches no other. */
  lemma {:induction false} RanInOrderFinishes(ids: seq<nat>, chunkSize: nat, t: Tables, jobs: Jobs, t': Tables,
                                              jobs': Jobs)
    requires chunkSize > 0 && RanInOrder(ids, chunkSize, t, jobs, t', jobs')
    requires forall id :: id in ids ==> IsQueued(jobs, id)
    requires forall i, j :: 0 <= i < j < |ids| ==> ids[i] != ids[j]
    ensures Finishes(ids, jobs, jobs')
    decreases |ids|
  {
    if ids != [] {
      var n := |ids| - 1;
      assert ids[n] in ids && ids[n] !in ids[..n];
      var mid, midJobs := LastRun(ids, chunkSize, t, jobs, t', jobs');
      RanInOrderFinishes(ids[..n], chunkSize, t, jobs, mid, midJobs);
      FinishesOneMore(ids[..n], ids[n], jobs, midJobs, jobs');
      assert ids == ids[..n] + [ids[n]];
    }
  }

  lemma RanJobFinishes(id: nat, aborted: bool, chunkSize: nat, t: Tables, jobs: Jobs, t': Tables, jobs': Jobs)
    requires chunkSize > 0 && RanJob(id, aborted, chunkSize, t, jobs, t', jobs') && IsQueued(jobs, id)
    ensures Finishes([id], jobs, jobs')
  {
    RanJobTouchesOne(id, aborted, chunkSize, t, jobs, t', jobs');
  }

  ghost predicate IsStale(jobs: Jobs, id: nat, cutoff: int) {
    IsQueued(jobs, id) && jobs[id].createdAt < cutoff
  }

  ghost predicate ListsStale(ids: seq<nat>, jobs: Jobs, cutoff: int) {
    && (forall id :: id in ids <==> IsStale(jobs, id, cutoff))
    && (forall i, j :: 0 <= i < j < |ids| ==> ids[i] != ids[j])
  }

  /** Runs exactly the stale jobs, each once, on the tables that the one before left. */
  method SweepStaleJobs(jobs: UploadJobsService, registry: RegistryService, cutoff: int)
    requires registry.limits.chunkSize > 0 && jobs.Valid() && registry.Valid()
    modifies jobs, registry, registry.db
    ensures jobs.Valid() && registry.Valid()
    ensures exists ids ::
      && ListsStale(ids, old(jobs.jobs), cutoff)
      && RanInOrder(ids, registry.limits.chunkSize, old(registry.db.Contents()), old(jobs.jobs),
                    registry.db.Contents(), jobs.jobs)
  {
    var stale := jobs.FindStaleQueued(cutoff);
    ghost var t0, before := registry.db.Contents(), jobs.jobs;
    for i := 0 to |stale|
      invariant jobs.Valid() && registry.Valid() && jobs.jobs.Keys == before.Keys
      invariant RanInOrder(stale[..i], registry.limits.chunkSize, t0, before, registry.db.Contents(), jobs.jobs)
    {
      var id := stale[i];
      assert id in stale && stale[..i + 1] == stale[..i] + [id];
      var aborted: bool := *;
      ghost var t, rows := registry.db.Contents(), jobs.jobs;
      RunFallback(jobs, registry, id, jobs.jobs[id].payload, aborted);
      RanJobTouchesOne(id, aborted, registry.limits.chunkSize, t, rows, registry.db.Contents(), jobs.jobs);
      RanOneMore(stale[..i], id, aborted, registry.limits.chunkSize, t0, before, t, rows, registry.db.Contents(),
                 jobs.jobs);
    }
    assert stale[..|stale|] == stale && ListsStale(stale, before, cutoff);
  }

  /** After a sweep every stale job is final, and no other job has changed. */
  lemma SweepFinishesStale(ids: seq<nat>, cutoff: int, chunkSize: nat, t: Tables, jobs: Jobs, t': Tables, jobs': Jobs)
    requires chunkSize > 0 && ListsStale(ids, jobs, cutoff) && RanInOrder(ids, chunkSize, t, jobs, t', jobs')
    ensures jobs'.Keys == jobs.Keys
    ensures forall id :: id in jobs ==>
      if IsStale(jobs, id, cutoff) then IsFinal(jobs'[id]) else jobs'[id] == jobs[id]
  {
    RanInOrderFinishes(ids, chunkSize, t, jobs, t', jobs');
  }

  /** An asynchronous upload that falls back at once leaves the same tables as the synchronous route. */
  lemma FallbackIsSynchronous(t: Tables, upload: Upload, limits: Limits, id: nat, jobs: Jobs, t': Tables, jobs': Jobs)
    requires limits.chunkSize > 0 && MayPass(t, upload.sheets, upload.today, limits.maxRows)
    requires IsQueued(jobs, id) && jobs[id].payload == BatchOf(upload.sheets)
    requires RanJob(id, false, limits.chunkSize, t, jobs, t', jobs')
    ensures IsStep(t, upload, limits, t')
    ensures jobs'[id].status == Completed <==> WriteBatch(t, BatchOf(upload.sheets), limits.chunkSize).Some?
  {
  }
}
