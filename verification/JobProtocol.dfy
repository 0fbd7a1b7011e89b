/** The asynchronous upload job as interleaved atomic steps: dispatching requests, repeated QStash
    deliveries, local fallbacks and stale-job sweeps race for the same job rows. */
module JobProtocol {
  import opened JobTable
  import opened Options
  import opened Tables
  import opened UploadTypes
  import opened UploadWriter

  /** What a dispatching request still has to do for its job. */
  datatype DispatchPhase = Publishing | SettingMethod(published: bool) | StartingFallback | Dispatched

  datatype Dispatcher = Dispatcher(job: nat, phase: DispatchPhase)

  /** What a QStash callback or a fallback run still has to do. A callback reads the job before it
      claims it; a fallback starts by claiming. */
  datatype WorkPhase = Finding | Claiming | Writing | Completing(counts: UploadCounts) | Failing | Finished

  datatype Worker = Worker(job: nat, callback: bool, phase: WorkPhase)

  /** A committed batch, of a job or of a synchronous upload. */
  datatype Commit = Commit(job: Option<nat>, batch: UploadBatch)

  /** The job rows, the registry tables, the requests in flight, and the history of successful
      claims and of commits. */
  datatype System = System(
    jobs: Jobs,
    tables: Tables,
    dispatchers: map<nat, Dispatcher>,
    workers: map<nat, Worker>,
    claims: seq<nat>,
    commits: seq<Commit>)

  /** How the completion mark of a job ended: it may throw before or after it took effect. */
  datatype Mark = Marked | NotMarked | MarkedThenThrew

  /** One atomic step. `reported` is false when a commit took effect but its success was lost. */
  datatype Action =
    | Create(job: nat, payload: UploadBatch, now: int, dispatcher: nat)
    | Publish(dispatcher: nat, published: bool)
    | SetMethod(dispatcher: nat)
    | StartFallback(dispatcher: nat, worker: nat)
    | Deliver(worker: nat, job: nat)
    | Sweep(worker: nat, job: nat)
    | Find(worker: nat)
    | Claim(worker: nat)
    | CommitWrite(worker: nat, reported: bool)
    | FailWrite(worker: nat)
    | MarkCompleted(worker: nat, mark: Mark)
    | MarkFailed(worker: nat, applied: bool)
    | Crash(worker: nat)
    | SyncUpload(batch: UploadBatch)

  predicate InPhase(s: System, w: nat, phase: WorkPhase) {
    w in s.workers && s.workers[w].phase == phase
  }

  predicate CanCommit(s: System, w: nat, chunkSize: nat)
    requires chunkSize > 0
  {
    && InPhase(s, w, Writing) && s.workers[w].job in s.jobs
    && WriteBatch(s.tables, s.jobs[s.workers[w].job].payload, chunkSize).Some?
  }

  predicate CanSync(s: System, batch: UploadBatch, chunkSize: nat)
    requires chunkSize > 0
  {
    WriteBatch(s.tables, batch, chunkSize).Some?
  }

  predicate Enabled(s: System, a: Action, chunkSize: nat)
    requires chunkSize > 0
  {
    match a
    case Create(job, _, _, d) => job !in s.jobs && d !in s.dispatchers
    case Publish(d, _) => d in s.dispatchers && s.dispatchers[d].phase == Publishing
    case SetMethod(d) => d in s.dispatchers && s.dispatchers[d].phase.SettingMethod?
    case StartFallback(d, w) => d in s.dispatchers && s.dispatchers[d].phase == StartingFallback && w !in s.workers
    // A delivery may carry any id, may be repeated, and may follow a publish that timed out.
    case Deliver(w, _) => w !in s.workers
    case Sweep(w, job) => w !in s.workers && job in s.jobs
    case Find(w) => InPhase(s, w, Finding)
    case Claim(w) => InPhase(s, w, Claiming)
    case CommitWrite(w, _) => CanCommit(s, w, chunkSize)
    case FailWrite(w) => InPhase(s, w, Writing)
    case MarkCompleted(w, _) => w in s.workers && s.workers[w].phase.Completing?
    case MarkFailed(w, _) => InPhase(s, w, Failing)
    case Crash(w) => w in s.workers
    case SyncUpload(batch) => CanSync(s, batch, chunkSize)
  }

  function GoTo(s: System, w: nat, phase: WorkPhase): System
    requires w in s.workers
  {
    s.(workers := s.workers[w := s.workers[w].(phase := phase)])
  }

  function DoMark(s: System, w: nat, mark: Mark): System
    requires w in s.workers && s.workers[w].phase.Completing?
  {
    var jobs := if mark == NotMarked then s.jobs
                else MarkedCompleted(s.jobs, s.workers[w].job, s.workers[w].phase.counts);
    // A callback records a thrown error on the job; a fallback run simply ends.
    GoTo(s, w, if mark != Marked && s.workers[w].callback then Failing else Finished).(jobs := jobs)
  }

  function DoSetMethod(s: System, d: nat): System
    requires d in s.dispatchers && s.dispatchers[d].phase.SettingMethod?
  {
    var published := s.dispatchers[d].phase.published;
    s.(jobs := JobTable.Dispatched(s.jobs, s.dispatchers[d].job, if published then QStash else LocalFallback),
       dispatchers := s.dispatchers[d :=
         s.dispatchers[d].(phase := if published then DispatchPhase.Dispatched else StartingFallback)])
  }

  function DoCommit(s: System, w: nat, reported: bool, chunkSize: nat): System
    requires chunkSize > 0 && CanCommit(s, w, chunkSize)
  {
    var job := s.workers[w].job;
    var batch := s.jobs[job].payload;
    GoTo(s, w, if reported then Completing(CountsOf(batch)) else Failing).(
      tables := WriteBatch(s.tables, batch, chunkSize).value,
      commits := s.commits + [Commit(Some(job), batch)])
  }

  function DoCreate(s: System, job: nat, payload: UploadBatch, now: int, d: nat): System {
    s.(jobs := s.jobs[job := NewJob(payload, now)], dispatchers := s.dispatchers[d := Dispatcher(job, Publishing)])
  }

  function DoPublish(s: System, d: nat, published: bool): System
    requires d in s.dispatchers
  {
    s.(dispatchers := s.dispatchers[d := s.dispatchers[d].(phase := SettingMethod(published))])
  }

  function DoStart(s: System, w: nat, worker: Worker): System {
    s.(workers := s.workers[w := worker])
  }

  function DoFind(s: System, w: nat): System
    requires w in s.workers
  {
    GoTo(s, w, if IsQueued(s.jobs, s.workers[w].job) then Claiming else Finished)
  }

  function DoSync(s: System, batch: UploadBatch, chunkSize: nat): System
    requires chunkSize > 0 && CanSync(s, batch, chunkSize)
  {
    s.(tables := WriteBatch(s.tables, batch, chunkSize).value, commits := s.commits + [Commit(None, batch)])
  }

  function DoMarkFailed(s: System, w: nat, applied: bool): System
    requires w in s.workers
  {
    if applied then GoTo(s, w, Finished).(jobs := MarkedFailed(s.jobs, s.workers[w].job)) else GoTo(s, w, Finished)
  }

  function DoStartFallback(s: System, d: nat, w: nat): System
    requires d in s.dispatchers
  {
    s.(dispatchers := s.dispatchers[d := s.dispatchers[d].(phase := DispatchPhase.Dispatched)],
       workers := s.workers[w := Worker(s.dispatchers[d].job, false, Claiming)])
  }

  function DoClaim(s: System, w: nat): System
    requires w in s.workers
  {
    var job := s.workers[w].job;
    if IsQueued(s.jobs, job) then GoTo(s, w, Writing).(jobs := Claimed(s.jobs, job), claims := s.claims + [job])
    else GoTo(s, w, Finished)
  }

  function Do(s: System, a: Action, chunkSize: nat): System
    requires chunkSize > 0 && Enabled(s, a, chunkSize)
  {
    match a
    case Create(job, payload, now, d) => DoCreate(s, job, payload, now, d)
    case Publish(d, published) => DoPublish(s, d, published)
    case SetMethod(d) => DoSetMethod(s, d)
    case StartFallback(d, w) => DoStartFallback(s, d, w)
    case Deliver(w, job) => DoStart(s, w, Worker(job, true, Finding))
    case Sweep(w, job) => DoStart(s, w, Worker(job, false, Claiming))
    case Find(w) => DoFind(s, w)
    case Claim(w) => DoClaim(s, w)
    case CommitWrite(w, reported) => DoCommit(s, w, reported, chunkSize)
    case FailWrite(w) => GoTo(s, w, Failing)
    case MarkCompleted(w, mark) => DoMark(s, w, mark)
    case MarkFailed(w, applied) => DoMarkFailed(s, w, applied)
    case Crash(w) => GoTo(s, w, Finished)
    case SyncUpload(batch) => DoSync(s, batch, chunkSize)
  }

  // ----- Counting history -----

  ghost function ClaimsOf(claims: seq<nat>, job: nat): nat {
    if claims == [] then 0
    else ClaimsOf(claims[..|claims| - 1], job) + if claims[|claims| - 1] == job then 1 else 0
  }

  ghost function CommitsOf(commits: seq<Commit>, job: nat): nat {
    if commits == [] then 0
    else CommitsOf(commits[..|commits| - 1], job) + if commits[|commits| - 1].job == Some(job) then 1 else 0
  }

  lemma OneMoreClaim(claims: seq<nat>, claim: nat, job: nat)
    ensures ClaimsOf(claims + [claim], job) == ClaimsOf(claims, job) + if claim == job then 1 else 0
  {
    assert (claims + [claim])[..|claims|] == claims;
  }

  lemma OneMoreCommit(commits: seq<Commit>, commit: Commit, job: nat)
    ensures CommitsOf(commits + [commit], job) == CommitsOf(commits, job) + if commit.job == Some(job) then 1 else 0
  {
    assert (commits + [commit])[..|commits|] == commits;
  }

  // ----- The invariant -----

  /** Between its successful claim and its last mark a worker holds its job. */
  predicate Holds(w: Worker) {
    w.phase == Writing || w.phase.Completing? || w.phase == Failing
  }

  ghost predicate HoldersExclusive(s: System) {
    && (forall w :: w in s.workers && Holds(s.workers[w]) ==>
          s.workers[w].job in s.jobs &&
          (s.jobs[s.workers[w].job].status == Processing ||
           (s.workers[w].phase == Failing && s.jobs[s.workers[w].job].status == Completed)))
    && (forall v, w :: v in s.workers && w in s.workers && v != w && Holds(s.workers[v]) && Holds(s.workers[w]) ==>
          s.workers[v].job != s.workers[w].job)
  }

  /** What the history says of one job, by its status. */
  ghost predicate HistoryFits(s: System, job: nat) {
    var claims, commits := ClaimsOf(s.claims, job), CommitsOf(s.commits, job);
    if job !in s.jobs || s.jobs[job].status == Queued then claims == 0 && commits == 0
    else if s.jobs[job].status == Completed
    then claims == 1 && commits == 1 && s.jobs[job].result == Some(CountsOf(s.jobs[job].payload))
    else claims == 1 && commits <= 1
  }

  /** A worker about to write has not committed; one about to report completion has. */
  ghost predicate PhaseFits(s: System, w: Worker) {
    && (w.phase == Writing ==> CommitsOf(s.commits, w.job) == 0)
    && (w.phase.Completing? ==>
          CommitsOf(s.commits, w.job) == 1 && w.job in s.jobs && w.phase.counts == CountsOf(s.jobs[w.job].payload))
  }

  ghost predicate JobInvariant(s: System) {
    && HoldersExclusive(s)
    && (forall job :: HistoryFits(s, job))
    && (forall w :: w in s.workers ==> PhaseFits(s, s.workers[w]))
  }

  // ----- Every step keeps it -----

  /** Only worker `w` changed, and it holds a job only if it held the same one before. */
  lemma WorkerMoves(s: System, s': System, w: nat)
    requires JobInvariant(s) && w in s'.workers && s' == s.(workers := s'.workers, dispatchers := s'.dispatchers)
    requires s'.workers == s.workers[w := s'.workers[w]] && PhaseFits(s, s'.workers[w])
    requires Holds(s'.workers[w]) ==>
      && w in s.workers && Holds(s.workers[w]) && s'.workers[w].job == s.workers[w].job
      && (s.workers[w].phase == Failing ==> s'.workers[w].phase == Failing)
    ensures JobInvariant(s')
  {
    forall job
      ensures HistoryFits(s', job)
    {
      assert HistoryFits(s, job);
    }
    forall v | v in s'.workers
      ensures PhaseFits(s', s'.workers[v])
    {
      assert v != w ==> PhaseFits(s, s.workers[v]);
    }
  }

  /** Only fields of a job that the invariant does not look at changed. */
  lemma JobsKeepStatus(s: System, s': System)
    requires JobInvariant(s) && s' == s.(jobs := s'.jobs, dispatchers := s'.dispatchers) && s'.jobs.Keys == s.jobs.Keys
    requires forall j :: j in s.jobs ==> s'.jobs[j] == s.jobs[j].(dispatchMethod := s'.jobs[j].dispatchMethod)
    ensures JobInvariant(s')
  {
    forall job
      ensures HistoryFits(s', job)
    {
      assert HistoryFits(s, job);
    }
    forall v | v in s'.workers
      ensures PhaseFits(s', s'.workers[v])
    {
      assert PhaseFits(s, s.workers[v]);
    }
  }

  lemma CreateKeeps(s: System, s': System, job: nat, payload: UploadBatch, now: int)
    requires JobInvariant(s) && job !in s.jobs
    requires s' == s.(jobs := s.jobs[job := NewJob(payload, now)], dispatchers := s'.dispatchers)
    ensures JobInvariant(s')
  {
    forall j
      ensures HistoryFits(s', j)
    {
      assert HistoryFits(s, j);
    }
    assert HistoryFits(s, job);
    forall v | v in s'.workers
      ensures PhaseFits(s', s'.workers[v])
    {
      assert PhaseFits(s, s.workers[v]);
    }
  }

  lemma ClaimKeepsHistory(s: System, s': System, job: nat, j: nat)
    requires HistoryFits(s, job) && HistoryFits(s, j) && IsQueued(s.jobs, job)
    requires s'.jobs == Claimed(s.jobs, job) && s'.claims == s.claims + [job] && s'.commits == s.commits
    ensures HistoryFits(s', j)
  {
    OneMoreClaim(s.claims, job, j);
  }

  lemma ClaimKeepsHolders(s: System, w: nat)
    requires HoldersExclusive(s) && InPhase(s, w, Claiming) && IsQueued(s.jobs, s.workers[w].job)
    ensures HoldersExclusive(GoTo(s, w, Writing).(jobs := Claimed(s.jobs, s.workers[w].job),
                                                  claims := s.claims + [s.workers[w].job]))
  {
  }

  lemma ClaimKeeps(s: System, w: nat)
    requires JobInvariant(s) && InPhase(s, w, Claiming) && IsQueued(s.jobs, s.workers[w].job)
    ensures JobInvariant(GoTo(s, w, Writing).(jobs := Claimed(s.jobs, s.workers[w].job),
                                              claims := s.claims + [s.workers[w].job]))
  {
    var job := s.workers[w].job;
    var s' := GoTo(s, w, Writing).(jobs := Claimed(s.jobs, job), claims := s.claims + [job]);
    assert HistoryFits(s, job);
    forall j
      ensures HistoryFits(s', j)
    {
      assert HistoryFits(s, j);
      ClaimKeepsHistory(s, s', job, j);
    }
    ClaimKeepsHolders(s, w);
    forall v | v in s'.workers
      ensures PhaseFits(s', s'.workers[v])
    {
      assert PhaseFits(s, s.workers[v]);
    }
  }

  lemma CommitKeeps(s: System, s': System, w: nat, reported: bool)
    requires JobInvariant(s) && InPhase(s, w, Writing) && s.workers[w].job in s.jobs
    requires var job := s.workers[w].job;
      var batch := s.jobs[job].payload;
      s' == GoTo(s, w, if reported then Completing(CountsOf(batch)) else Failing).(
        tables := s'.tables, commits := s.commits + [Commit(Some(job), batch)])
    ensures JobInvariant(s')
  {
    var job := s.workers[w].job;
    var commit := Commit(Some(job), s.jobs[job].payload);
    assert Holds(s.workers[w]) && PhaseFits(s, s.workers[w]);
    forall j
      ensures HistoryFits(s', j)
    {
      assert HistoryFits(s, j);
      OneMoreCommit(s.commits, commit, j);
    }
    OneMoreCommit(s.commits, commit, job);
    forall v | v in s'.workers
      ensures PhaseFits(s', s'.workers[v])
    {
      if v != w {
        assert PhaseFits(s, s.workers[v]);
        OneMoreCommit(s.commits, commit, s.workers[v].job);
      }
    }
  }

  /** The holder marks its job and lets go of it, unless its completion mark threw afterwards. */
  lemma MarkKeeps(s: System, s': System, w: nat, next: WorkPhase)
    requires JobInvariant(s) && w in s.workers && Holds(s.workers[w])
    requires var job := s.workers[w].job;
      && s' == GoTo(s, w, next).(jobs := s'.jobs)
      && ((next == Finished && s'.jobs == MarkedFailed(s.jobs, job)) ||
          ((next == Finished || next == Failing) && s.workers[w].phase.Completing? &&
           s'.jobs == MarkedCompleted(s.jobs, job, s.workers[w].phase.counts)))
    ensures JobInvariant(s')
  {
    var job := s.workers[w].job;
    assert PhaseFits(s, s.workers[w]);
    forall j
      ensures HistoryFits(s', j)
    {
      assert HistoryFits(s, j);
    }
    forall v | v in s'.workers
      ensures PhaseFits(s', s'.workers[v])
    {
      assert PhaseFits(s, s.workers[v]);
    }
  }

  lemma SyncKeeps(s: System, s': System, batch: UploadBatch)
    requires JobInvariant(s) && s' == s.(tables := s'.tables, commits := s.commits + [Commit(None, batch)])
    ensures JobInvariant(s')
  {
    forall j
      ensures CommitsOf(s'.commits, j) == CommitsOf(s.commits, j)
    {
      OneMoreCommit(s.commits, Commit(None, batch), j);
    }
    forall j
      ensures HistoryFits(s', j)
    {
      assert HistoryFits(s, j);
    }
    forall v | v in s'.workers
      ensures PhaseFits(s', s'.workers[v])
    {
      assert PhaseFits(s, s.workers[v]);
    }
  }

  /** Whatever step comes next, the invariant survives it. */
  lemma StepKeeps(s: System, a: Action, chunkSize: nat)
    requires chunkSize > 0 && JobInvariant(s) && Enabled(s, a, chunkSize)
    ensures JobInvariant(Do(s, a, chunkSize))
  {
    var s' := Do(s, a, chunkSize);
    match a
    case Create(job, payload, now, d) => CreateKeeps(s, s', job, payload, now);
    case Publish(d, published) => JobsKeepStatus(s, s');
    case SetMethod(d) => JobsKeepStatus(s, s');
    case StartFallback(d, w) => WorkerMoves(s, s', w);
    case Deliver(w, job) => WorkerMoves(s, s', w);
    case Sweep(w, job) => WorkerMoves(s, s', w);
    case Find(w) => WorkerMoves(s, s', w);
    case Claim(w) =>
      if IsQueued(s.jobs, s.workers[w].job) {
        ClaimKeeps(s, w);
      } else {
        WorkerMoves(s, s', w);
      }
    case CommitWrite(w, reported) => CommitKeeps(s, s', w, reported);
    case FailWrite(w) => WorkerMoves(s, s', w);
    case MarkCompleted(w, mark) =>
      if mark == NotMarked {
        WorkerMoves(s, s', w);
      } else {
        MarkKeeps(s, s', w, s'.workers[w].phase);
      }
    case MarkFailed(w, applied) =>
      if applied {
        MarkKeeps(s, s', w, Finished);
      } else {
        WorkerMoves(s, s', w);
      }
    case Crash(w) => WorkerMoves(s, s', w);
    case SyncUpload(batch) => SyncKeeps(s, s', batch);
  }

  // ----- Whole interleavings -----

  const NO_JOBS := System(map[], EMPTY_TABLES, map[], map[], [], [])

  ghost predicate IsRun(s: System, actions: seq<Action>, chunkSize: nat)
    requires chunkSize > 0
    decreases |actions|
  {
    actions == [] || (Enabled(s, actions[0], chunkSize) && IsRun(Do(s, actions[0], chunkSize), actions[1..], chunkSize))
  }

  ghost function After(s: System, actions: seq<Action>, chunkSize: nat): System
    requires chunkSize > 0 && IsRun(s, actions, chunkSize)
    decreases |actions|
  {
    if actions == [] then s else After(Do(s, actions[0], chunkSize), actions[1..], chunkSize)
  }

  lemma RunCons(s: System, a: Action, rest: seq<Action>, chunkSize: nat)
    requires chunkSize > 0 && Enabled(s, a, chunkSize) && IsRun(Do(s, a, chunkSize), rest, chunkSize)
    ensures IsRun(s, [a] + rest, chunkSize)
    ensures After(s, [a] + rest, chunkSize) == After(Do(s, a, chunkSize), rest, chunkSize)
  {
    assert ([a] + rest)[1..] == rest;
  }

  lemma {:induction false} RunKeeps(s: System, actions: seq<Action>, chunkSize: nat)
    requires chunkSize > 0 && JobInvariant(s) && IsRun(s, actions, chunkSize)
    ensures JobInvariant(After(s, actions, chunkSize))
    decreases |actions|
  {
    if actions != [] {
      StepKeeps(s, actions[0], chunkSize);
      RunKeeps(Do(s, actions[0], chunkSize), actions[1..], chunkSize);
    }
  }

  /** At most once: in every interleaving a job is successfully claimed at most once and its batch
      committed at most once; queued means not at all, completed means exactly once. */
  lemma AtMostOnce(actions: seq<Action>, chunkSize: nat, job: nat)
    requires chunkSize > 0 && IsRun(NO_JOBS, actions, chunkSize)
    ensures var s := After(NO_JOBS, actions, chunkSize);
      && ClaimsOf(s.claims, job) <= 1 && CommitsOf(s.commits, job) <= ClaimsOf(s.claims, job)
      && (IsQueued(s.jobs, job) ==> ClaimsOf(s.claims, job) == 0 && CommitsOf(s.commits, job) == 0)
      && (job in s.jobs && s.jobs[job].status == Completed ==>
            CommitsOf(s.commits, job) == 1 && s.jobs[job].result == Some(CountsOf(s.jobs[job].payload)))
  {
    RunKeeps(NO_JOBS, actions, chunkSize);
    assert HistoryFits(After(NO_JOBS, actions, chunkSize), job);
  }

  // ----- What was asked for -----

  /** Batch and creation time, the two columns that no statement after the first one writes. */
  ghost predicate SameOrder(a: UploadJob, b: UploadJob) {
    a.payload == b.payload && a.createdAt == b.createdAt
  }

  ghost predicate IsCreation(a: Action, job: nat, row: UploadJob) {
    a.Create? && a.job == job && a.payload == row.payload && a.now == row.createdAt
  }

  /** A step keeps all orders, each other column has one action that writes it, and a job that appears
      waits with the order of its creation. */
  lemma StepKeepsOrders(s: System, a: Action, chunkSize: nat)
    requires chunkSize > 0 && Enabled(s, a, chunkSize)
    ensures var s' := Do(s, a, chunkSize);
      && (forall job :: job in s.jobs ==> job in s'.jobs && SameOrder(s.jobs[job], s'.jobs[job]))
      && (forall job :: job in s.jobs && !a.MarkCompleted? ==> s'.jobs[job].result == s.jobs[job].result)
      && (forall job :: job in s.jobs && !a.SetMethod? ==> s'.jobs[job].dispatchMethod == s.jobs[job].dispatchMethod)
      && (a.SetMethod? ==>
            var d := s.dispatchers[a.dispatcher];
            d.job in s.jobs ==>
              s'.jobs[d.job].dispatchMethod == Some(if d.phase.published then QStash else LocalFallback))
      && (forall job :: job in s'.jobs && job !in s.jobs ==>
            && IsCreation(a, job, s'.jobs[job]) && IsQueued(s'.jobs, job)
            && s'.jobs[job].result == None && s'.jobs[job].dispatchMethod == None)
  {
  }

  /** In every interleaving each job has the batch and the time with which it was created, so that
      its staleness at a cutoff is decided by its creation. */
  lemma {:induction false} JobsAsOrdered(s: System, actions: seq<Action>, chunkSize: nat, job: nat)
    requires chunkSize > 0 && IsRun(s, actions, chunkSize)
    ensures var s' := After(s, actions, chunkSize);
      && (job in s.jobs ==> job in s'.jobs && SameOrder(s.jobs[job], s'.jobs[job]))
      && (job in s'.jobs && job !in s.jobs ==>
            exists i :: 0 <= i < |actions| && IsCreation(actions[i], job, s'.jobs[job]))
    decreases |actions|
  {
    if actions != [] {
      var next, rest := Do(s, actions[0], chunkSize), actions[1..];
      StepKeepsOrders(s, actions[0], chunkSize);
      JobsAsOrdered(next, rest, chunkSize, job);
      var row := After(next, rest, chunkSize).jobs;
      if job in row && job !in s.jobs {
        if job in next.jobs {
          assert IsCreation(actions[0], job, row[job]);
        } else {
          var i :| 0 <= i < |rest| && IsCreation(rest[i], job, row[job]);
          assert IsCreation(actions[i + 1], job, row[job]);
        }
      }
    }
  }

  // ----- Where workers and fallbacks come from -----

  /** The action that starts a worker: a delivery starts a callback, the others a fallback run. */
  ghost predicate IsStart(a: Action, w: nat, worker: Worker) {
    match a
    case Deliver(v, job) => v == w && worker.callback && worker.job == job
    case Sweep(v, job) => v == w && !worker.callback && worker.job == job
    case StartFallback(_, v) => v == w && !worker.callback
    case _ => false
  }

  /** Only callbacks look a job up before they claim it. */
  ghost predicate OnlyCallbacksFind(s: System) {
    forall w :: InPhase(s, w, Finding) ==> s.workers[w].callback
  }

  lemma StepKeepsWorkers(s: System, a: Action, chunkSize: nat)
    requires chunkSize > 0 && Enabled(s, a, chunkSize)
    ensures var s' := Do(s, a, chunkSize);
      && (forall w :: w in s.workers ==>
            w in s'.workers && s'.workers[w] == s.workers[w].(phase := s'.workers[w].phase))
      && (forall w :: w in s'.workers && w !in s.workers ==> IsStart(a, w, s'.workers[w]))
      && (OnlyCallbacksFind(s) ==> OnlyCallbacksFind(s'))
  {
  }

  /** In every interleaving a worker works on the job it was started for, as a callback if and only if
      a delivery started it. */
  lemma {:induction false} WorkersAsStarted(s: System, actions: seq<Action>, chunkSize: nat, w: nat)
    requires chunkSize > 0 && IsRun(s, actions, chunkSize) && OnlyCallbacksFind(s)
    ensures var s' := After(s, actions, chunkSize);
      && OnlyCallbacksFind(s')
      && (w in s.workers ==> w in s'.workers && s'.workers[w] == s.workers[w].(phase := s'.workers[w].phase))
      && (w in s'.workers && w !in s.workers ==>
            exists i :: 0 <= i < |actions| && IsStart(actions[i], w, s'.workers[w]))
    decreases |actions|
  {
    if actions != [] {
      var next, rest := Do(s, actions[0], chunkSize), actions[1..];
      StepKeepsWorkers(s, actions[0], chunkSize);
      WorkersAsStarted(next, rest, chunkSize, w);
      var workers := After(next, rest, chunkSize).workers;
      if w in workers && w !in s.workers {
        if w in next.workers {
          assert IsStart(actions[0], w, workers[w]);
        } else {
          var i :| 0 <= i < |rest| && IsStart(rest[i], w, workers[w]);
          assert IsStart(actions[i + 1], w, workers[w]);
        }
      }
    }
  }

  /** What the request has learned from publishing, if it has tried and has not finished. */
  ghost function LearnedFrom(phase: DispatchPhase): Option<bool> {
    match phase
    case SettingMethod(published) => Some(published)
    case StartingFallback => Some(false)
    case _ => None
  }

  lemma StepKeepsLearned(s: System, a: Action, chunkSize: nat, d: nat)
    requires chunkSize > 0 && Enabled(s, a, chunkSize) && d in Do(s, a, chunkSize).dispatchers
    ensures var learned := LearnedFrom(Do(s, a, chunkSize).dispatchers[d].phase);
      learned.Some? ==>
        || a == Publish(d, learned.value)
        || (d in s.dispatchers && LearnedFrom(s.dispatchers[d].phase) == learned)
  {
  }

  /** In every interleaving a request falls back only after its own publishing failed, and records
      the queue only after it succeeded. */
  lemma {:induction false} FallbackMeansUnpublished(s: System, actions: seq<Action>, chunkSize: nat, d: nat)
    requires chunkSize > 0 && IsRun(s, actions, chunkSize) && d in After(s, actions, chunkSize).dispatchers
    ensures var learned := LearnedFrom(After(s, actions, chunkSize).dispatchers[d].phase);
      learned.Some? ==>
        || Publish(d, learned.value) in actions
        || (d in s.dispatchers && LearnedFrom(s.dispatchers[d].phase) == learned)
    decreases |actions|
  {
    if actions != [] {
      var next := Do(s, actions[0], chunkSize);
      FallbackMeansUnpublished(next, actions[1..], chunkSize, d);
      if d in next.dispatchers {
        StepKeepsLearned(s, actions[0], chunkSize, d);
      }
      assert actions == [actions[0]] + actions[1..];
    }
  }

  ghost predicate SameEnd(s: System, s': System, job: nat) {
    && job in s.jobs && job in s'.jobs && s'.jobs[job].status == s.jobs[job].status
    && s'.jobs[job].result == s.jobs[job].result && CommitsOf(s'.commits, job) == CommitsOf(s.commits, job)
  }

  /** The job has a final status and nobody holds it any more. */
  ghost predicate Settled(s: System, job: nat) {
    && job in s.jobs && (s.jobs[job].status == Completed || s.jobs[job].status == Failed)
    && forall w :: w in s.workers && Holds(s.workers[w]) ==> s.workers[w].job != job
  }

  lemma SettledHolders(s: System, a: Action, chunkSize: nat, job: nat)
    requires chunkSize > 0 && Settled(s, job) && Enabled(s, a, chunkSize)
    ensures var s' := Do(s, a, chunkSize);
      forall w :: w in s'.workers && Holds(s'.workers[w]) ==> s'.workers[w].job != job
  {
    match a
    case Claim(w) => assert s.workers[w].job == job ==> !IsQueued(s.jobs, job);
    case CommitWrite(w, _) => assert Holds(s.workers[w]);
    case MarkCompleted(w, _) => assert Holds(s.workers[w]);
    case FailWrite(w) => assert Holds(s.workers[w]);
    case _ =>
  }

  lemma SettledSameEnd(s: System, a: Action, chunkSize: nat, job: nat)
    requires chunkSize > 0 && Settled(s, job) && Enabled(s, a, chunkSize)
    ensures SameEnd(s, Do(s, a, chunkSize), job)
  {
    match a
    case CommitWrite(w, _) =>
      assert Holds(s.workers[w]);
      OneMoreCommit(s.commits, Commit(Some(s.workers[w].job), s.jobs[s.workers[w].job].payload), job);
    case SyncUpload(batch) => OneMoreCommit(s.commits, Commit(None, batch), job);
    case MarkCompleted(w, _) => assert Holds(s.workers[w]);
    case MarkFailed(w, _) => assert Holds(s.workers[w]);
    case _ =>
  }

  lemma SettledStep(s: System, a: Action, chunkSize: nat, job: nat)
    requires chunkSize > 0 && Settled(s, job) && Enabled(s, a, chunkSize)
    ensures Settled(Do(s, a, chunkSize), job) && SameEnd(s, Do(s, a, chunkSize), job)
  {
    SettledHolders(s, a, chunkSize, job);
    SettledSameEnd(s, a, chunkSize, job);
  }

  /** A settled job keeps its status, its result and its number of writes, whatever comes next. */
  lemma {:induction false} SettledForever(s: System, actions: seq<Action>, chunkSize: nat, job: nat)
    requires chunkSize > 0 && Settled(s, job) && IsRun(s, actions, chunkSize)
    ensures Settled(After(s, actions, chunkSize), job) && SameEnd(s, After(s, actions, chunkSize), job)
    decreases |actions|
  {
    if actions != [] {
      SettledStep(s, actions[0], chunkSize, job);
      SettledForever(Do(s, actions[0], chunkSize), actions[1..], chunkSize, job);
    }
  }

  /** A final status is stable if and only if nobody holds the job: the one exception is a callback
      whose completion mark took effect and then threw, and which goes on to mark the job failed. */
  lemma FinalStatusIsStable(s: System, chunkSize: nat, job: nat)
    requires chunkSize > 0 && JobInvariant(s)
    requires job in s.jobs && (s.jobs[job].status == Completed || s.jobs[job].status == Failed)
    ensures Settled(s, job) <==>
      forall actions :: IsRun(s, actions, chunkSize) ==> SameEnd(s, After(s, actions, chunkSize), job)
    ensures s.jobs[job].status == Failed ==> Settled(s, job)
  {
    if Settled(s, job) {
      forall actions | IsRun(s, actions, chunkSize)
        ensures SameEnd(s, After(s, actions, chunkSize), job)
      {
        SettledForever(s, actions, chunkSize, job);
      }
    } else {
      var w :| w in s.workers && Holds(s.workers[w]) && s.workers[w].job == job;
      var a := MarkFailed(w, true);
      RunCons(s, a, [], chunkSize);
      assert !SameEnd(s, After(s, [a] + [], chunkSize), job);
    }
  }

  // ----- Failed, and yet written -----

  /** The step hides a committed write: the commit's success is not reported, or the completion mark
      of a callback throws. */
  ghost predicate Hides(s: System, a: Action, job: nat) {
    match a
    case CommitWrite(w, reported) => !reported && w in s.workers && s.workers[w].job == job
    case MarkCompleted(w, mark) => mark != Marked && w in s.workers && s.workers[w].callback && s.workers[w].job == job
    case _ => false
  }

  ghost predicate HidesIn(s: System, actions: seq<Action>, chunkSize: nat, job: nat)
    requires chunkSize > 0 && IsRun(s, actions, chunkSize)
    decreases |actions|
  {
    actions != [] &&
    (Hides(s, actions[0], job) || HidesIn(Do(s, actions[0], chunkSize), actions[1..], chunkSize, job))
  }

  ghost predicate HolderFits(s: System, w: Worker, hidden: bool) {
    && (w.phase == Writing || w.phase.Completing? ==> !hidden)
    && (w.phase == Failing ==> (hidden <==> CommitsOf(s.commits, w.job) == 1))
  }

  /** How the job's history relates to whether its write was hidden so far. */
  ghost predicate HiddenFits(s: System, job: nat, hidden: bool) {
    && (job !in s.jobs || s.jobs[job].status == Queued ==> !hidden)
    && (job in s.jobs && s.jobs[job].status == Failed ==> (hidden <==> CommitsOf(s.commits, job) == 1))
    && (forall w :: w in s.workers && s.workers[w].job == job && Holds(s.workers[w]) ==>
          HolderFits(s, s.workers[w], hidden))
  }

  lemma HiddenCommit(s: System, w: nat, reported: bool, chunkSize: nat, job: nat, hidden: bool)
    requires chunkSize > 0 && JobInvariant(s) && Enabled(s, CommitWrite(w, reported), chunkSize)
    requires HiddenFits(s, job, hidden)
    ensures var a := CommitWrite(w, reported); HiddenFits(Do(s, a, chunkSize), job, hidden || Hides(s, a, job))
  {
    assert HistoryFits(s, job) && Holds(s.workers[w]) && PhaseFits(s, s.workers[w]);
    OneMoreCommit(s.commits, Commit(Some(s.workers[w].job), s.jobs[s.workers[w].job].payload), job);
  }

  lemma HiddenMark(s: System, w: nat, mark: Mark, chunkSize: nat, job: nat, hidden: bool)
    requires chunkSize > 0 && JobInvariant(s) && Enabled(s, MarkCompleted(w, mark), chunkSize)
    requires HiddenFits(s, job, hidden)
    ensures var a := MarkCompleted(w, mark); HiddenFits(Do(s, a, chunkSize), job, hidden || Hides(s, a, job))
  {
    assert HistoryFits(s, job) && Holds(s.workers[w]) && PhaseFits(s, s.workers[w]);
  }

  lemma HiddenFailure(s: System, a: Action, chunkSize: nat, job: nat, hidden: bool)
    requires chunkSize > 0 && JobInvariant(s) && Enabled(s, a, chunkSize) && HiddenFits(s, job, hidden)
    requires a.MarkFailed? || a.FailWrite?
    ensures HiddenFits(Do(s, a, chunkSize), job, hidden)
  {
    assert HistoryFits(s, job) && Holds(s.workers[a.worker]) && PhaseFits(s, s.workers[a.worker]);
  }

  lemma HiddenSync(s: System, batch: UploadBatch, chunkSize: nat, job: nat, hidden: bool)
    requires chunkSize > 0 && Enabled(s, SyncUpload(batch), chunkSize) && HiddenFits(s, job, hidden)
    ensures HiddenFits(Do(s, SyncUpload(batch), chunkSize), job, hidden)
  {
    OneMoreCommit(s.commits, Commit(None, batch), job);
  }

  lemma HiddenClaim(s: System, w: nat, chunkSize: nat, job: nat, hidden: bool)
    requires chunkSize > 0 && JobInvariant(s) && Enabled(s, Claim(w), chunkSize) && HiddenFits(s, job, hidden)
    ensures HiddenFits(Do(s, Claim(w), chunkSize), job, hidden)
  {
  }

  lemma HiddenElse(s: System, a: Action, chunkSize: nat, job: nat, hidden: bool)
    requires chunkSize > 0 && JobInvariant(s) && Enabled(s, a, chunkSize) && HiddenFits(s, job, hidden)
    requires !a.CommitWrite? && !a.MarkCompleted? && !a.MarkFailed? && !a.FailWrite? && !a.SyncUpload? && !a.Claim?
    ensures HiddenFits(Do(s, a, chunkSize), job, hidden)
  {
    assert HistoryFits(s, job);
  }

  lemma HiddenStep(s: System, a: Action, chunkSize: nat, job: nat, hidden: bool)
    requires chunkSize > 0 && JobInvariant(s) && Enabled(s, a, chunkSize) && HiddenFits(s, job, hidden)
    ensures HiddenFits(Do(s, a, chunkSize), job, hidden || Hides(s, a, job))
  {
    match a
    case CommitWrite(w, reported) => HiddenCommit(s, w, reported, chunkSize, job, hidden);
    case MarkCompleted(w, mark) => HiddenMark(s, w, mark, chunkSize, job, hidden);
    case MarkFailed(_, _) => HiddenFailure(s, a, chunkSize, job, hidden);
    case FailWrite(_) => HiddenFailure(s, a, chunkSize, job, hidden);
    case SyncUpload(batch) => HiddenSync(s, batch, chunkSize, job, hidden);
    case Claim(w) => HiddenClaim(s, w, chunkSize, job, hidden);
    case _ => HiddenElse(s, a, chunkSize, job, hidden);
  }

  lemma {:induction false} HiddenRun(s: System, actions: seq<Action>, chunkSize: nat, job: nat, hidden: bool)
    requires chunkSize > 0 && JobInvariant(s) && IsRun(s, actions, chunkSize) && HiddenFits(s, job, hidden)
    ensures HiddenFits(After(s, actions, chunkSize), job, hidden || HidesIn(s, actions, chunkSize, job))
    decreases |actions|
  {
    if actions != [] {
      StepKeeps(s, actions[0], chunkSize);
      HiddenStep(s, actions[0], chunkSize, job, hidden);
      HiddenRun(Do(s, actions[0], chunkSize), actions[1..], chunkSize, job, hidden || Hides(s, actions[0], job));
    }
  }

  /** In every interleaving a failed job was written if and only if its commit went unreported or
      the completion mark of its callback threw. */
  lemma FailedExact(actions: seq<Action>, chunkSize: nat, job: nat)
    requires chunkSize > 0 && IsRun(NO_JOBS, actions, chunkSize)
    requires var s := After(NO_JOBS, actions, chunkSize); job in s.jobs && s.jobs[job].status == Failed
    ensures var written := CommitsOf(After(NO_JOBS, actions, chunkSize).commits, job);
      written == if HidesIn(NO_JOBS, actions, chunkSize, job) then 1 else 0
  {
    RunKeeps(NO_JOBS, actions, chunkSize);
    HiddenRun(NO_JOBS, actions, chunkSize, job, false);
    assert HistoryFits(After(NO_JOBS, actions, chunkSize), job);
  }

  ghost predicate IsFaithful(a: Action) {
    match a
    case CommitWrite(_, reported) => reported
    case MarkCompleted(_, mark) => mark == Marked
    case _ => true
  }

  lemma {:induction false} FaithfulHidesNothing(s: System, actions: seq<Action>, chunkSize: nat, job: nat)
    requires chunkSize > 0 && IsRun(s, actions, chunkSize) && forall a :: a in actions ==> IsFaithful(a)
    ensures !HidesIn(s, actions, chunkSize, job)
    decreases |actions|
  {
    if actions != [] {
      assert actions[0] in actions;
      FaithfulHidesNothing(Do(s, actions[0], chunkSize), actions[1..], chunkSize, job);
    }
  }

  /** Failed means unwritten as long as every commit is reported and every completion mark goes through. */
  lemma FailedIsUnwritten(actions: seq<Action>, chunkSize: nat, job: nat)
    requires chunkSize > 0 && IsRun(NO_JOBS, actions, chunkSize) && forall a :: a in actions ==> IsFaithful(a)
    requires var s := After(NO_JOBS, actions, chunkSize); job in s.jobs && s.jobs[job].status == Failed
    ensures CommitsOf(After(NO_JOBS, actions, chunkSize).commits, job) == 0
  {
    FaithfulHidesNothing(NO_JOBS, actions, chunkSize, job);
    FailedExact(actions, chunkSize, job);
  }

  // ----- Particular runs -----

  /** Delivery and claim of a queued job. */
  function ClaimedBy(worker: nat, job: nat): seq<Action> {
    [Deliver(worker, job)] + ([Find(worker)] + ([Claim(worker)] + []))
  }

  /** The state in which the worker holds the job and is about to write. */
  function Holding(s: System, worker: nat, job: nat): System {
    s.(workers := s.workers[worker := Worker(job, true, Writing)],
       jobs := Claimed(s.jobs, job), claims := s.claims + [job])
  }

  lemma DeliveredIsClaimed(s: System, chunkSize: nat, worker: nat, job: nat)
    requires chunkSize > 0 && IsQueued(s.jobs, job) && worker !in s.workers
    ensures IsRun(s, ClaimedBy(worker, job), chunkSize)
    ensures After(s, ClaimedBy(worker, job), chunkSize) == Holding(s, worker, job)
  {
    var s1 := Do(s, Deliver(worker, job), chunkSize);
    var s2 := Do(s1, Find(worker), chunkSize);
    var s3 := Do(s2, Claim(worker), chunkSize);
    assert s3.workers == s.workers[worker := Worker(job, true, Writing)];
    RunCons(s2, Claim(worker), [], chunkSize);
    RunCons(s1, Find(worker), [Claim(worker)] + [], chunkSize);
    RunCons(s, Deliver(worker, job), [Find(worker)] + ([Claim(worker)] + []), chunkSize);
  }

  lemma TwoSteps(s: System, a: Action, b: Action, chunkSize: nat)
    requires chunkSize > 0 && Enabled(s, a, chunkSize) && Enabled(Do(s, a, chunkSize), b, chunkSize)
    ensures IsRun(s, [a] + ([b] + []), chunkSize)
    ensures After(s, [a] + ([b] + []), chunkSize) == Do(Do(s, a, chunkSize), b, chunkSize)
  {
    RunCons(Do(s, a, chunkSize), b, [], chunkSize);
    RunCons(s, a, [b] + [], chunkSize);
  }

  /** Delivery, claim, unreported commit and failure mark of a queued job. */
  function UnreportedWrite(worker: nat, job: nat): seq<Action> {
    ClaimedBy(worker, job) + ([CommitWrite(worker, false)] + ([MarkFailed(worker, true)] + []))
  }

  /** Every queued job whose batch can be written can end up failed with its batch in the tables. */
  lemma FailedYetWritten(s: System, chunkSize: nat, worker: nat, job: nat)
    requires chunkSize > 0 && JobInvariant(s) && IsQueued(s.jobs, job) && worker !in s.workers
    requires WriteBatch(s.tables, s.jobs[job].payload, chunkSize).Some?
    ensures IsRun(s, UnreportedWrite(worker, job), chunkSize)
    ensures var s' := After(s, UnreportedWrite(worker, job), chunkSize);
      && job in s'.jobs && s'.jobs[job].status == Failed && CommitsOf(s'.commits, job) == 1
      && Some(s'.tables) == WriteBatch(s.tables, s.jobs[job].payload, chunkSize)
  {
    assert HistoryFits(s, job);
    var held := Holding(s, worker, job);
    DeliveredIsClaimed(s, chunkSize, worker, job);
    OneMoreCommit(s.commits, Commit(Some(job), s.jobs[job].payload), job);
    TwoSteps(held, CommitWrite(worker, false), MarkFailed(worker, true), chunkSize);
    RunAppend(s, ClaimedBy(worker, job), [CommitWrite(worker, false)] + ([MarkFailed(worker, true)] + []), chunkSize);
  }

  /** Delivery, claim, write and completion mark of a queued job. */
  function CompletedWrite(worker: nat, job: nat): seq<Action> {
    ClaimedBy(worker, job) + ([CommitWrite(worker, true)] + ([MarkCompleted(worker, Marked)] + []))
  }

  lemma JobCompletes(s: System, chunkSize: nat, worker: nat, job: nat)
    requires chunkSize > 0 && IsQueued(s.jobs, job) && worker !in s.workers
    requires WriteBatch(s.tables, s.jobs[job].payload, chunkSize).Some?
    ensures IsRun(s, CompletedWrite(worker, job), chunkSize)
    ensures var s' := After(s, CompletedWrite(worker, job), chunkSize);
      && s'.jobs == MarkedCompleted(s.jobs, job, CountsOf(s.jobs[job].payload))
      && s'.workers.Keys == s.workers.Keys + {worker}
      && Some(s'.tables) == WriteBatch(s.tables, s.jobs[job].payload, chunkSize)
  {
    var held := Holding(s, worker, job);
    DeliveredIsClaimed(s, chunkSize, worker, job);
    TwoSteps(held, CommitWrite(worker, true), MarkCompleted(worker, Marked), chunkSize);
    RunAppend(s, ClaimedBy(worker, job), [CommitWrite(worker, true)] + ([MarkCompleted(worker, Marked)] + []),
              chunkSize);
  }

  lemma {:induction false} RunAppend(s: System, a: seq<Action>, b: seq<Action>, chunkSize: nat)
    requires chunkSize > 0 && IsRun(s, a, chunkSize) && IsRun(After(s, a, chunkSize), b, chunkSize)
    ensures IsRun(s, a + b, chunkSize)
    ensures After(s, a + b, chunkSize) == After(After(s, a, chunkSize), b, chunkSize)
    decreases |a|
  {
    if a == [] {
      assert a + b == b;
    } else {
      assert (a + b)[1..] == a[1..] + b;
      RunAppend(Do(s, a[0], chunkSize), a[1..], b, chunkSize);
    }
  }

  // ----- The tables are the commits replayed -----

  ghost function Replay(commits: seq<Commit>, chunkSize: nat): Option<Tables>
    requires chunkSize > 0
  {
    if commits == [] then Some(EMPTY_TABLES)
    else
      match Replay(commits[..|commits| - 1], chunkSize)
      case None => None
      case Some(t) => WriteBatch(t, commits[|commits| - 1].batch, chunkSize)
  }

  lemma ReplayOneMore(commits: seq<Commit>, commit: Commit, chunkSize: nat)
    requires chunkSize > 0 && Replay(commits, chunkSize).Some?
    ensures Replay(commits + [commit], chunkSize)
         == WriteBatch(Replay(commits, chunkSize).value, commit.batch, chunkSize)
  {
    assert (commits + [commit])[..|commits|] == commits;
  }

  lemma StepReplays(s: System, a: Action, chunkSize: nat)
    requires chunkSize > 0 && Enabled(s, a, chunkSize) && Replay(s.commits, chunkSize) == Some(s.tables)
    ensures var s' := Do(s, a, chunkSize); Replay(s'.commits, chunkSize) == Some(s'.tables)
  {
    match a
    case CommitWrite(w, _) =>
      var job := s.workers[w].job;
      ReplayOneMore(s.commits, Commit(Some(job), s.jobs[job].payload), chunkSize);
    case SyncUpload(batch) => ReplayOneMore(s.commits, Commit(None, batch), chunkSize);
    case _ =>
  }

  lemma {:induction false} RunReplays(s: System, actions: seq<Action>, chunkSize: nat)
    requires chunkSize > 0 && IsRun(s, actions, chunkSize) && Replay(s.commits, chunkSize) == Some(s.tables)
    ensures var s' := After(s, actions, chunkSize); Replay(s'.commits, chunkSize) == Some(s'.tables)
    decreases |actions|
  {
    if actions != [] {
      StepReplays(s, actions[0], chunkSize);
      RunReplays(Do(s, actions[0], chunkSize), actions[1..], chunkSize);
    }
  }

  /** However the actors interleave, the log of commits accounts for the tables. */
  lemma RunsAreSerial(actions: seq<Action>, chunkSize: nat)
    requires chunkSize > 0 && IsRun(NO_JOBS, actions, chunkSize)
    ensures var s := After(NO_JOBS, actions, chunkSize); Replay(s.commits, chunkSize) == Some(s.tables)
  {
    RunReplays(NO_JOBS, actions, chunkSize);
  }
}
