/** upload-jobs.service.ts: the rows of upload_jobs and the statements on them. */
module JobTable {
  import opened Options
  import opened UploadTypes

  datatype JobStatus = Queued | Processing | Completed | Failed

  datatype DispatchMethod = QStash | LocalFallback

  datatype UploadJob = UploadJob(
    status: JobStatus,
    dispatchMethod: Option<DispatchMethod>,
    payload: UploadBatch,
    result: Option<UploadCounts>,
    createdAt: int)

  type Jobs = map<nat, UploadJob>

  function NewJob(payload: UploadBatch, now: int): UploadJob {
    UploadJob(Queued, None, payload, None, now)
  }

  predicate IsQueued(jobs: Jobs, id: nat) {
    id in jobs && jobs[id].status == Queued
  }

  /** UPDATE ... SET status = 'processing' WHERE id = id AND status = 'queued'. */
  function Claimed(jobs: Jobs, id: nat): Jobs {
    if IsQueued(jobs, id) then jobs[id := jobs[id].(status := Processing)] else jobs
  }

  function MarkedCompleted(jobs: Jobs, id: nat, result: UploadCounts): Jobs {
    if id in jobs then jobs[id := jobs[id].(status := Completed, result := Some(result))] else jobs
  }

  function MarkedFailed(jobs: Jobs, id: nat): Jobs {
    if id in jobs then jobs[id := jobs[id].(status := Failed)] else jobs
  }

  function Dispatched(jobs: Jobs, id: nat, dispatch: DispatchMethod): Jobs {
    if id in jobs then jobs[id := jobs[id].(dispatchMethod := Some(dispatch))] else jobs
  }

  class UploadJobsService {
    var jobs: Jobs
    var nextId: nat

    constructor ()
      ensures Valid() && jobs == map[]
    {
      jobs, nextId := map[], 0;
    }

    ghost predicate Valid()
      reads this
    {
      forall id :: id in jobs ==> id < nextId
    }

    method Create(payload: UploadBatch, now: int) returns (id: nat)
      requires Valid()
      modifies this
      ensures Valid() && id !in old(jobs) && jobs == old(jobs)[id := NewJob(payload, now)]
    {
      id := nextId;
      jobs, nextId := jobs[id := NewJob(payload, now)], nextId + 1;
    }

    method FindById(id: nat) returns (job: Option<UploadJob>)
      ensures job == if id in jobs then Some(jobs[id]) else None
    {
      job := if id in jobs then Some(jobs[id]) else None;
    }

    method SetDispatchMethod(id: nat, dispatch: DispatchMethod)
      modifies this`jobs
      ensures old(Valid()) ==> Valid()
      ensures jobs == Dispatched(old(jobs), id, dispatch)
    {
      jobs := Dispatched(jobs, id, dispatch);
    }

    /** The compare-and-swap: true for the caller whose update found the job queued. */
    method Claim(id: nat) returns (won: bool)
      modifies this`jobs
      ensures old(Valid()) ==> Valid()
      ensures won <==> IsQueued(old(jobs), id)
      ensures jobs == Claimed(old(jobs), id)
      ensures !IsQueued(jobs, id)
    {
      won := IsQueued(jobs, id);
      if won {
        jobs := jobs[id := jobs[id].(status := Processing)];
      }
    }

    method MarkCompleted(id: nat, result: UploadCounts)
      modifies this`jobs
      ensures old(Valid()) ==> Valid()
      ensures jobs == MarkedCompleted(old(jobs), id, result)
    {
      jobs := MarkedCompleted(jobs, id, result);
    }

    method MarkFailed(id: nat)
      modifies this`jobs
      ensures old(Valid()) ==> Valid()
      ensures jobs == MarkedFailed(old(jobs), id)
    {
      jobs := MarkedFailed(jobs, id);
    }

    /** The queued jobs created before the cutoff, each once, in any order. */
    method FindStaleQueued(cutoff: int) returns (stale: seq<nat>)
      ensures forall id :: id in stale <==> IsQueued(jobs, id) && jobs[id].createdAt < cutoff
      ensures forall i, j :: 0 <= i < j < |stale| ==> stale[i] != stale[j]
    {
      stale := [];
      var pending := jobs.Keys;
      while pending != {}
        invariant pending <= jobs.Keys
        invariant forall id :: id in stale <==>
          id !in pending && IsQueued(jobs, id) && jobs[id].createdAt < cutoff
        invariant forall i, j :: 0 <= i < j < |stale| ==> stale[i] != stale[j]
      {
        var id :| id in pending;
        if jobs[id].status == Queued && jobs[id].createdAt < cutoff {
          stale := stale + [id];
        }
        pending := pending - {id};
      }
    }
  }
}
