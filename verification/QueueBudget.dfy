/**
 The retry ladder. A handler is started at most maxAttempts times between two boots, a job its
 handler failed has used every attempt, the backoff requested for it is a closed formula, and
 every handler outcome uses up one unit of the work admitted, so no run settles forever.
 */
module QueueBudget {
  import opened Common
  import opened QueueModel
  import opened QueuePlacement
  import opened QueueOrder
  import opened QueueRecovery
  import opened QueueRuns

  // Runs a job may have: a non-positive maxAttempts still allows the first one.
  function Cap(j: Job): nat
  {
    Max(1, j.maxAttempts)
  }

  predicate Live(status: Status)
  {
    status == Queued || status == Running
  }

  ghost predicate RecordOk(j: Job)
  {
    && (Live(j.status) ==> j.attempts < Cap(j) && j.completedAt.None?)
    && (j.completedAt.Some? ==> j.attempts < Cap(j))
    && (j.status == Completed ==> j.completedAt.Some?)
    && (j.status == Failed ==> j.error == Some(NoHandler) || (j.error == Some(HandlerError) && j.attempts == Cap(j)))
    && j.attempts <= Cap(j)
  }

  // Handler starts a record accounts for.
  function Spent(j: Job): nat
  {
    j.attempts + (if j.status == Running then 1 else 0) + (if j.completedAt.Some? then 1 else 0)
  }

  // Backoff, in milliseconds, that a record accounts for: 2000 + 4000 + ... over its retries.
  function BackedOff(j: Job): int
  {
    1000 * (Pow2(Min(j.attempts, Cap(j) - 1) + 1) - 2)
  }

  // A record against the one the job came with: what its handler was started for and what its
  // backoffs come to is in the record, and a job that came terminal stays as it was.
  ghost predicate LedgerOk(j: Job, base: Job, starts: nat, backoff: int)
  {
    && RecordOk(j)
    && starts == Spent(j) - Spent(base)
    && backoff == BackedOff(j) - BackedOff(base)
    && j.maxAttempts == base.maxAttempts
    && (Terminal(base.status) ==>
       Terminal(j.status) && j.attempts == base.attempts && j.completedAt == base.completedAt)
  }

  predicate FreshJob(j: Job)
  {
    j.attempts == 0 && j.status == Queued && j.completedAt.None?
  }

  // The last record of every job, stored or evicted.
  function Known(s: State): map<JobId, Job>
  {
    s.hist.seen + s.jobs
  }

  // `boot` is what the jobs were when this process started.
  ghost predicate Accounts(known: map<JobId, Job>, h: History, boot: map<JobId, Job>)
  {
    && known.Keys == h.base.Keys
    && (forall id :: id in known ==> LedgerOk(known[id], h.base[id], Count(h.starts, id), Requested(h.backoff, id)))
    && (forall id :: id in h.base ==> if id in boot then h.base[id] == boot[id] else FreshJob(h.base[id]))
    && h.starts.Keys + h.backoff.Keys <= h.base.Keys
    && boot.Keys + h.base.Keys <= h.minted
  }

  ghost predicate Ledger(s: State, boot: map<JobId, Job>)
  {
    Accounts(Known(s), s.hist, boot)
  }

  // ---- every operation keeps the ledger --------------------------------------------------

  lemma KnownPut(s: State, id: JobId, j: Job)
    ensures Known(s.(jobs := s.jobs[id := j])) == Known(s)[id := j]
  {}

  lemma PutLedger(s: State, id: JobId, j: Job, boot: map<JobId, Job>)
    requires Ledger(s, boot) && id in s.jobs
    requires id in s.hist.base ==> LedgerOk(j, s.hist.base[id], Count(s.hist.starts, id), Requested(s.hist.backoff, id))
    ensures Ledger(s.(jobs := s.jobs[id := j]), boot)
  {
    KnownPut(s, id, j);
  }

  // Eviction forgets no record.
  lemma EvictKnown(c: Config, s: State)
    ensures Known(Evict(c, s)) == Known(s)
  {}

  lemma EvictLedger(c: Config, s: State, boot: map<JobId, Job>)
    requires Ledger(s, boot)
    ensures Ledger(Evict(c, s), boot)
  {
    EvictKnown(c, s);
  }

  lemma StartCounted(known: map<JobId, Job>, h: History, boot: map<JobId, Job>, id: JobId, j: Job)
    requires Accounts(known, h, boot) && id in known && known[id].status == Queued
    requires j == known[id].(status := Running, startedAt := j.startedAt)
    ensures Accounts(known[id := j], h.(starts := h.starts[id := Count(h.starts, id) + 1]), boot)
  {
    assert BackedOff(j) == BackedOff(known[id]) && Spent(j) == Spent(known[id]) + 1;
  }

  lemma LaunchLedger(c: Config, s: State, id: JobId, now: int, boot: map<JobId, Job>)
    requires Ledger(s, boot) && StillQueued(s.jobs, id)
    ensures Ledger(Launch(c, s, id, now), boot)
  {
    var j := s.jobs[id].(status := Running, startedAt := Some(now));
    StartCounted(Known(s), s.hist, boot, id, j);
    KnownPut(s, id, j);
  }

  lemma CompleteRunLedger(c: Config, s: State, id: JobId, now: int, boot: map<JobId, Job>)
    requires Ledger(s, boot) && id in s.jobs && s.jobs[id].status == Running
    ensures Ledger(CompleteRun(c, s, id, now), boot)
  {
    var j := s.jobs[id].(status := Completed, completedAt := Some(now));
    PutLedger(s, id, j, boot);
    EvictLedger(c, Release(s.(jobs := s.jobs[id := j]), id), boot);
  }

  lemma BackoffStep(j: Job, q: Job)
    requires q.attempts == j.attempts + 1 < q.maxAttempts == j.maxAttempts
    ensures BackedOff(q) == BackedOff(j) + BackoffMs(q.attempts)
  {
    assert Min(j.attempts, Cap(j) - 1) == j.attempts && Min(q.attempts, Cap(q) - 1) == q.attempts;
    assert Pow2(q.attempts + 1) == 2 * Pow2(q.attempts);
  }

  lemma BackoffCounted(known: map<JobId, Job>, h: History, boot: map<JobId, Job>, id: JobId, q: Job, now: int)
    requires Accounts(known, h, boot) && id in known && known[id].status == Running
    requires q == known[id].(attempts := known[id].attempts + 1, status := Queued, startedAt := None,
             error := Some(HandlerError))
    requires q.attempts < q.maxAttempts
    ensures Accounts(known[id := q], h.(backoff := h.backoff[id := Requested(h.backoff, id) + BackoffMs(q.attempts)],
                                        respites := h.respites[id := Respite(now + BackoffMs(q.attempts), q.attempts)]),
                     boot)
  {
    BackoffStep(known[id], q);
  }

  lemma RetryLedger(c: Config, s: State, id: JobId, j: Job, now: int, boot: map<JobId, Job>, r: State)
    requires Ledger(s, boot) && id in s.jobs && s.jobs[id].status == Running
    requires j == s.jobs[id].(attempts := s.jobs[id].attempts + 1, error := Some(HandlerError))
    requires j.attempts < j.maxAttempts && r == Retry(c, s, id, j, now)
    ensures Ledger(r, boot)
  {
    var q := j.(status := Queued, startedAt := None);
    BackoffCounted(Known(s), s.hist, boot, id, q, now);
    KnownPut(s, id, q);
  }

  lemma GaveUpOk(was: Job, f: Job, base: Job, starts: nat, backoff: int)
    requires LedgerOk(was, base, starts, backoff) && was.status == Running && was.attempts + 1 >= was.maxAttempts
    requires f == was.(attempts := was.attempts + 1, error := Some(HandlerError), status := Failed,
             failedAt := f.failedAt)
    ensures LedgerOk(f, base, starts, backoff)
  {
    assert Min(f.attempts, Cap(f) - 1) == Min(was.attempts, Cap(was) - 1);
  }

  lemma GiveUpLedger(c: Config, s: State, id: JobId, j: Job, now: int, boot: map<JobId, Job>, r: State)
    requires Ledger(s, boot) && id in s.jobs && s.jobs[id].status == Running
    requires j == s.jobs[id].(attempts := s.jobs[id].attempts + 1, error := Some(HandlerError))
    requires j.attempts >= j.maxAttempts && r == GiveUp(c, s, id, j, now)
    ensures Ledger(r, boot)
  {
    var f := j.(status := Failed, failedAt := Some(now));
    if id in s.hist.base {
      assert Known(s)[id] == s.jobs[id];
      GaveUpOk(s.jobs[id], f, s.hist.base[id], Count(s.hist.starts, id), Requested(s.hist.backoff, id));
    }
    PutLedger(s, id, f, boot);
    EvictLedger(c, Release(s.(jobs := s.jobs[id := f]), id), boot);
  }

  lemma FailRunLedger(c: Config, s: State, id: JobId, now: int, boot: map<JobId, Job>)
    requires Ledger(s, boot) && id in s.jobs && s.jobs[id].status == Running
    ensures Ledger(FailRun(c, s, id, now), boot)
  {
    FailRunLedgerTo(c, s, id, now, boot, FailRun(c, s, id, now));
  }

  lemma FailRunLedgerTo(c: Config, s: State, id: JobId, now: int, boot: map<JobId, Job>, r: State)
    requires Ledger(s, boot) && id in s.jobs && s.jobs[id].status == Running && r == FailRun(c, s, id, now)
    ensures Ledger(r, boot)
  {
    var j := s.jobs[id].(attempts := s.jobs[id].attempts + 1, error := Some(HandlerError));
    if j.attempts < j.maxAttempts {
      RetryLedger(c, s, id, j, now, boot, r);
    } else {
      GiveUpLedger(c, s, id, j, now, boot, r);
    }
  }

  lemma DispatchLedger(c: Config, s: State, t: Tick, boot: map<JobId, Job>)
    requires Inv(c, s) && Ledger(s, boot) && CanDispatch(c, s)
    ensures Ledger(Dispatch(c, s, t), boot)
  {
    var id := s.queue[0];
    var s1 := s.(queue := s.queue[1..]);
    HeadOpens(c, s);
    ExecuteLedger(c, s1, id, t, boot);
  }

  lemma ExecuteLedger(c: Config, s: State, id: JobId, t: Tick, boot: map<JobId, Job>)
    requires Ledger(s, boot) && StillQueued(s.jobs, id)
    ensures Ledger(Execute(c, s, id, t), boot)
  {
    var j, r := s.jobs[id], Execute(c, s, id, t);
    if j.kind !in s.handlers {
      PutLedger(s, id, j.(status := Failed, error := Some(NoHandler), failedAt := Some(t.now)), boot);
    } else {
      LaunchLedger(c, s, id, t.now, boot);
      if j.timeoutMs <= 0 && id in t.throws {
        assert r == FailRun(c, Launch(c, s, id, t.now), id, t.now);
        FailRunLedger(c, Launch(c, s, id, t.now), id, t.now, boot);
      } else {
        assert r == Launch(c, s, id, t.now);
      }
    }
  }

  lemma {:induction false} DrainLedger(c: Config, s: State, t: Tick, boot: map<JobId, Job>)
    requires Inv(c, s) && Ledger(s, boot)
    ensures Ledger(Drain(c, s, t), boot)
    decreases |s.queue|
  {
    if CanDispatch(c, s) {
      DispatchPlaces(c, s, t);
      DispatchLedger(c, s, t, boot);
      DrainLedger(c, Dispatch(c, s, t), t, boot);
    }
  }

  lemma StoreLedger(c: Config, s: State, r: Request, id: JobId, now: int, boot: map<JobId, Job>)
    requires Inv(c, s) && Ledger(s, boot) && id !in s.hist.minted
    ensures Ledger(Store(c, s, NewJob(c, r, id, now)), boot)
  {
    AdmitCounted(Known(s), s.hist, boot, NewJob(c, r, id, now));
    KnownPut(s, id, NewJob(c, r, id, now));
  }

  lemma AdmitCounted(known: map<JobId, Job>, h: History, boot: map<JobId, Job>, j: Job)
    requires Accounts(known, h, boot) && j.id !in h.minted && FreshJob(j) && RecordOk(j)
    ensures Accounts(known[j.id := j], h.(minted := h.minted + {j.id}, base := h.base[j.id := j]), boot)
  {}

  // A new job that is not delayed goes to the queue.
  lemma AddNowLedger(c: Config, s: State, j: Job, t: Tick, boot: map<JobId, Job>)
    requires Inv(c, s) && Ledger(Store(c, s, j), boot) && j.id !in s.hist.minted && j.status == Queued
    ensures Ledger(Drain(c, Insert(Store(c, s, j), j.id), t), boot)
  {
    StoreOpens(c, s, j);
    InsertPlaces(c, Store(c, s, j), j.id);
    DrainLedger(c, Insert(Store(c, s, j), j.id), t, boot);
  }

  lemma AddLedger(c: Config, s: State, r: Request, id: JobId, t: Tick, boot: map<JobId, Job>)
    requires Inv(c, s) && Ledger(s, boot) && id !in s.hist.minted
    ensures Ledger(Add(c, s, r, id, t).0, boot)
  {
    if |s.queue| < c.maxDepth {
      var j := NewJob(c, r, id, t.now);
      StoreLedger(c, s, r, id, t.now, boot);
      if r.delay <= 0 {
        AddNowLedger(c, s, j, t, boot);
      }
    }
  }

  lemma SettleLedger(c: Config, s: State, id: JobId, ok: bool, t: Tick, boot: map<JobId, Job>)
    requires Inv(c, s) && Ledger(s, boot) && id in s.jobs && s.jobs[id].status == Running
    ensures Ledger(Settle(c, s, id, ok, t), boot)
  {
    if ok {
      CompleteRunPlaces(c, s, id, t.now);
      CompleteRunLedger(c, s, id, t.now, boot);
      DrainLedger(c, CompleteRun(c, s, id, t.now), t, boot);
    } else {
      FailRunPlaces(c, s, id, t.now);
      FailRunLedger(c, s, id, t.now, boot);
      DrainLedger(c, FailRun(c, s, id, t.now), t, boot);
    }
  }

  lemma FireLedger(c: Config, s: State, i: nat, t: Tick, boot: map<JobId, Job>)
    requires Inv(c, s) && Ledger(s, boot) && i < |s.timers|
    ensures Ledger(Fire(c, s, i, t), boot)
  {
    var s1 := s.(timers := RemoveAt(s.timers, i));
    FireOpens(c, s, i);
    if StillQueued(s.jobs, s.timers[i].job) {
      InsertPlaces(c, s1, s.timers[i].job);
      DrainLedger(c, Insert(s1, s.timers[i].job), t, boot);
    }
  }

  lemma CancelLedger(c: Config, s: State, id: JobId, boot: map<JobId, Job>)
    requires Ledger(s, boot)
    ensures Ledger(Cancel(c, s, id).0, boot)
  {
    if id in s.jobs && s.jobs[id].status != Running {
      PutLedger(s, id, s.jobs[id].(status := Cancelled), boot);
    }
  }

  lemma StepLedger(c: Config, s: State, e: Event, t: Tick, boot: map<JobId, Job>)
    requires Inv(c, s) && Ledger(s, boot) && Enabled(s, e, t) && !e.CrashAndBoot?
    ensures Ledger(Step(c, s, e, t), boot)
  {
    var s0 := s.(clock := t.now);
    match e
    case AddJob(r, id) => AddLedger(c, s0, r, id, t, boot);
    case TimerFires(i) => FireLedger(c, s0, i, t, boot);
    case HandlerSettles(id, ok) => SettleLedger(c, s0, id, ok, t, boot);
    case CancelJob(id) => CancelLedger(c, s0, id, boot);
    case StartQueue => if !s.processing { DrainLedger(c, s0.(processing := true), t, boot); }
    case StopQueue =>
    case RegisterHandler(kind) =>
    case FlushFires =>
    case CrashAndBoot =>
  }

  lemma {:induction false} RunLedger(c: Config, s: State, run: seq<(Event, Tick)>, boot: map<JobId, Job>)
    requires Inv(c, s) && Saturated(c, s) && Ledger(s, boot) && Feasible(c, s, run) && CrashFree(run)
    ensures Ledger(Run(c, s, run), boot) && Inv(c, Run(c, s, run))
    decreases |run|
  {
    if run != [] {
      StepPlaces(c, s, run[0].0, run[0].1);
      StepLedger(c, s, run[0].0, run[0].1, boot);
      RunLedger(c, Step(c, s, run[0].0, run[0].1), run[1..], boot);
    }
  }

  // What the ledger says of a job that this process has admitted.
  lemma FreshBudget(known: map<JobId, Job>, h: History, boot: map<JobId, Job>, id: JobId)
    requires Accounts(known, h, boot) && id in h.base && id !in boot
    ensures id in known && Count(h.starts, id) <= Cap(h.base[id])
    ensures var j := known[id];
            j.status == Failed && j.error == Some(HandlerError) ==>
              && j.attempts == Cap(h.base[id]) == Count(h.starts, id)
              && Requested(h.backoff, id) == 1000 * (Pow2(Cap(h.base[id])) - 2)
  {
    assert Pow2(1) == 2 by { assert Pow2(0) == 1; }
  }

  // The retry theorem for any crash-free run from empty and any id at all: the handler of a job is
  // started at most Cap times, and a job its handler failed was started Cap times with the full
  // backoff between them, whether or not the job has been evicted since.
  lemma RetryBudget(c: Config, run: seq<(Event, Tick)>, id: JobId)
    requires Feasible(c, EMPTY, run) && CrashFree(run)
    ensures var s := Run(c, EMPTY, run);
            && (id in s.jobs ==> id in s.hist.base && Known(s)[id] == s.jobs[id])
            && (if id in s.hist.base then Count(s.hist.starts, id) <= Cap(s.hist.base[id])
                else Count(s.hist.starts, id) == 0)
    ensures var s := Run(c, EMPTY, run);
            id in s.hist.base ==>
              && id in Known(s)
              && (Known(s)[id].status == Failed && Known(s)[id].error == Some(HandlerError) ==>
                    && Known(s)[id].attempts == Cap(s.hist.base[id]) == Count(s.hist.starts, id)
                    && Requested(s.hist.backoff, id) == 1000 * (Pow2(Cap(s.hist.base[id])) - 2))
  {
    RunLedger(c, EMPTY, run, map[]);
    var s := Run(c, EMPTY, run);
    assert id in s.jobs ==> id in Known(s);
    if id in s.hist.base {
      FreshBudget(Known(s), s.hist, map[], id);
    }
  }

  // ---- across crashes --------------------------------------------------------------------

  ghost predicate RecordsOk(js: seq<Job>)
  {
    forall i :: 0 <= i < |js| ==> RecordOk(js[i])
  }

  ghost predicate DiskRecordsOk(s: State)
  {
    s.disk.Some? ==> RecordsOk(s.disk.value.jobs)
  }

  lemma {:induction false} LoadRecordsOk(s: State, js: seq<Job>)
    requires RecordsOk(js) && forall id :: id in s.jobs ==> RecordOk(s.jobs[id])
    ensures forall id :: id in LoadJobs(s, js).jobs ==> RecordOk(LoadJobs(s, js).jobs[id])
    decreases |js|
  {
    if js != [] {
      LoadRecordsOk(LoadOne(s, Requeue(js[0])), js[1..]);
    }
  }

  lemma {:induction false} SavedRecordsOk(jobs: map<JobId, Job>, ids: seq<JobId>)
    requires forall id :: id in jobs ==> RecordOk(jobs[id])
    ensures RecordsOk(Records(jobs, ids))
  {
    if ids != [] {
      SavedRecordsOk(jobs, ids[1..]);
    }
  }

  lemma CrashLedger(c: Config, s: State, now: int)
    requires Good(c, s) && DiskRecordsOk(s)
    ensures Ledger(Crash(s, now), Crash(s, now).jobs)
  {
    if s.disk.Some? {
      var snap := s.disk.value;
      RecoverPlaces(c, snap, now);
      LoadRecordsOk(EMPTY, snap.jobs);
      LoadedOkNow(snap, now);
      assert EMPTY.(clock := 0) == EMPTY;
      ResumeAdds(Booted(snap, now), Booted(snap, now).order, now);
      FreshLedger(Crash(s, now).jobs, Crash(s, now).hist);
    } else {
      FreshLedger(map[], Crash(s, now).hist);
    }
  }

  // A process that has started nothing yet has all its jobs as it first saw them.
  lemma FreshLedger(jobs: map<JobId, Job>, h: History)
    requires h.base == jobs && h.starts == map[] && h.backoff == map[] && jobs.Keys <= h.minted
    requires forall id :: id in jobs ==> RecordOk(jobs[id])
    ensures Accounts(jobs, h, jobs)
  {}

  // The jobs as they were at the last boot of a run.
  ghost function BootJobs(c: Config, s: State, boot: map<JobId, Job>, run: seq<(Event, Tick)>): map<JobId, Job>
    requires Feasible(c, s, run)
    decreases |run|
  {
    if run == [] then boot
    else
      var r := Step(c, s, run[0].0, run[0].1);
      BootJobs(c, r, if run[0].0.CrashAndBoot? then r.jobs else boot, run[1..])
  }

  ghost predicate Kept(c: Config, s: State, boot: map<JobId, Job>)
  {
    Good(c, s) && Ledger(s, boot) && DiskRecordsOk(s)
  }

  lemma CrashKept(c: Config, s: State, now: int)
    requires Good(c, s) && DiskRecordsOk(s)
    ensures Kept(c, Crash(s, now), Crash(s, now).jobs)
  {
    CrashGood(c, s, now);
    CrashLedger(c, s, now);
    if s.disk.Some? {
      RecoverPlaces(c, s.disk.value, now);
    }
  }

  lemma FlushKept(c: Config, s: State, boot: map<JobId, Job>)
    requires Kept(c, s, boot) && s.flushPending
    ensures Kept(c, Flush(s), boot)
  {
    FlushGood(c, s);
    StoredRecordsOk(s, boot);
    SavedRecordsOk(s.jobs, s.order);
  }

  lemma StoredRecordsOk(s: State, boot: map<JobId, Job>)
    requires Ledger(s, boot)
    ensures forall id :: id in s.jobs ==> RecordOk(s.jobs[id])
  {
    forall id | id in s.jobs ensures RecordOk(s.jobs[id]) {
      assert id in Known(s) && Known(s)[id] == s.jobs[id];
    }
  }

  lemma StepKept(c: Config, s: State, e: Event, t: Tick, boot: map<JobId, Job>)
    requires Kept(c, s, boot) && Enabled(s, e, t)
    ensures var r := Step(c, s, e, t); Kept(c, r, if e.CrashAndBoot? then r.jobs else boot)
  {
    var s0 := s.(clock := t.now);
    if e.CrashAndBoot? {
      CrashKept(c, s0, t.now);
    } else if e.FlushFires? {
      FlushKept(c, s0, boot);
    } else {
      StepGood(c, s, e, t);
      StepLedger(c, s, e, t, boot);
      StepTracks(c, s, e, t);
    }
  }

  lemma {:induction false} RunKept(c: Config, s: State, boot: map<JobId, Job>, run: seq<(Event, Tick)>)
    requires Kept(c, s, boot) && Feasible(c, s, run)
    ensures Kept(c, Run(c, s, run), BootJobs(c, s, boot, run))
    decreases |run|
  {
    if run != [] {
      var r := Step(c, s, run[0].0, run[0].1);
      StepKept(c, s, run[0].0, run[0].1, boot);
      RunKept(c, r, if run[0].0.CrashAndBoot? then r.jobs else boot, run[1..]);
    }
  }

  // In every run, crashes included, and for any id at all, evicted or not: since its last boot the
  // process has started the handler of a job at most as often as the job had attempts left at that
  // boot, or when it was admitted after it.
  lemma LedgerAcrossCrashes(c: Config, run: seq<(Event, Tick)>, id: JobId)
    requires Feasible(c, EMPTY, run)
    ensures var s, boot := Run(c, EMPTY, run), BootJobs(c, EMPTY, map[], run);
            Count(s.hist.starts, id) <= if id in boot then Remaining(boot[id])
                                        else if id in s.hist.base then Cap(s.hist.base[id]) else 0
  {
    EmptyGood(c);
    RunKept(c, EMPTY, map[], run);
    var s, boot := Run(c, EMPTY, run), BootJobs(c, EMPTY, map[], run);
    if id in s.hist.base {
      if id in boot {
        BootBudget(Known(s), s.hist, boot, id);
      } else {
        FreshBudget(Known(s), s.hist, boot, id);
      }
    }
  }

  // What the ledger says of a job that was there at boot.
  lemma BootBudget(known: map<JobId, Job>, h: History, boot: map<JobId, Job>, id: JobId)
    requires Accounts(known, h, boot) && id in h.base && id in boot
    ensures Count(h.starts, id) <= Remaining(boot[id])
  {
    var j, base := known[id], h.base[id];
    assert LedgerOk(j, base, Count(h.starts, id), Requested(h.backoff, id));
  }

  // Attempts a job has left.
  function Remaining(j: Job): nat
  {
    if Live(j.status) && j.attempts < Cap(j) then Cap(j) - j.attempts else 0
  }

  // ---- every outcome uses up work --------------------------------------------------------

  // Attempts still available to the jobs that are not finished.
  function Work(jobs: map<JobId, Job>, ids: seq<JobId>): nat
  {
    if ids == [] then 0
    else (if ids[0] in jobs then Remaining(jobs[ids[0]]) else 0) + Work(jobs, ids[1..])
  }

  function WorkLeft(s: State): nat
  {
    Work(s.jobs, s.order)
  }

  lemma {:induction false} WorkUpdate(jobs: map<JobId, Job>, ids: seq<JobId>, id: JobId, j: Job)
    requires Distinct(ids) && id in jobs
    ensures Work(jobs[id := j], ids)
         == if id in ids then Work(jobs, ids) - Remaining(jobs[id]) + Remaining(j) else Work(jobs, ids)
  {
    if ids != [] {
      TailElems(ids);
      WorkUpdate(jobs, ids[1..], id, j);
    }
  }

  lemma {:induction false} WorkSame(jobs: map<JobId, Job>, other: map<JobId, Job>, ids: seq<JobId>)
    requires forall id | id in ids :: (id in jobs <==> id in other) && (id in jobs ==> jobs[id] == other[id])
    ensures Work(jobs, ids) == Work(other, ids)
  {
    if ids != [] {
      var id := ids[0];
      assert id in ids;
      assert id in jobs <==> id in other;
      WorkSame(jobs, other, ids[1..]);
    }
  }

  lemma {:induction false} WorkAppend(jobs: map<JobId, Job>, ids: seq<JobId>, id: JobId)
    requires id in jobs
    ensures Work(jobs, ids + [id]) == Work(jobs, ids) + Remaining(jobs[id])
  {
    if ids == [] {
      assert [] + [id] == [id] && [id][1..] == [];
    } else {
      assert (ids + [id])[1..] == ids[1..] + [id];
      WorkAppend(jobs, ids[1..], id);
    }
  }

  lemma {:induction false} WorkSurvives(jobs: map<JobId, Job>, ids: seq<JobId>, excess: int)
    ensures Work(jobs, Survivors(ids, jobs, excess)) == Work(jobs, ids)
  {
    if excess > 0 && ids != [] {
      if ids[0] in jobs && Terminal(jobs[ids[0]].status) {
        WorkSurvives(jobs, ids[1..], excess - 1);
      } else {
        WorkSurvives(jobs, ids[1..], excess);
        var r := [ids[0]] + Survivors(ids[1..], jobs, excess);
        assert r[1..] == Survivors(ids[1..], jobs, excess);
      }
    }
  }

  lemma EvictWork(c: Config, s: State)
    ensures WorkLeft(Evict(c, s)) == WorkLeft(s)
  {
    var n := |s.order| - c.historyLimit;
    WorkSurvives(s.jobs, s.order, n);
    WorkSame(s.jobs, Restrict(s.jobs, Survivors(s.order, s.jobs, n)), Survivors(s.order, s.jobs, n));
  }

  lemma PutWork(c: Config, s: State, id: JobId, f: Job)
    requires Inv(c, s) && id in s.jobs && Remaining(f) < Remaining(s.jobs[id])
    ensures WorkLeft(Release(s.(jobs := s.jobs[id := f]), id)) < WorkLeft(s)
  {
    WorkUpdate(s.jobs, s.order, id, f);
  }

  lemma FailWorkUsed(c: Config, s: State, id: JobId, now: int)
    requires Inv(c, s) && id in s.jobs && s.jobs[id].status == Running && s.jobs[id].attempts < Cap(s.jobs[id])
    ensures WorkLeft(FailRun(c, s, id, now)) < WorkLeft(s)
  {
    var j := s.jobs[id].(attempts := s.jobs[id].attempts + 1, error := Some(HandlerError));
    if j.attempts < j.maxAttempts {
      RetryWorkUsed(c, s, id, j, now, FailRun(c, s, id, now));
    } else {
      GiveUpWorkUsed(c, s, id, j, now, FailRun(c, s, id, now));
    }
  }

  lemma RetryWorkUsed(c: Config, s: State, id: JobId, j: Job, now: int, r: State)
    requires Inv(c, s) && id in s.jobs && s.jobs[id].status == Running && s.jobs[id].attempts < Cap(s.jobs[id])
    requires j == s.jobs[id].(attempts := s.jobs[id].attempts + 1, error := Some(HandlerError))
    requires r == Retry(c, s, id, j, now)
    ensures WorkLeft(r) < WorkLeft(s)
  {
    PutWork(c, s, id, j.(status := Queued, startedAt := None));
  }

  lemma GiveUpWorkUsed(c: Config, s: State, id: JobId, j: Job, now: int, r: State)
    requires Inv(c, s) && id in s.jobs && s.jobs[id].status == Running && s.jobs[id].attempts < Cap(s.jobs[id])
    requires j == s.jobs[id].(attempts := s.jobs[id].attempts + 1, error := Some(HandlerError))
    requires r == GiveUp(c, s, id, j, now)
    ensures WorkLeft(r) < WorkLeft(s)
  {
    var f := j.(status := Failed, failedAt := Some(now));
    PutWork(c, s, id, f);
    EvictWork(c, Release(s.(jobs := s.jobs[id := f]), id));
  }

  lemma RunWorkUsed(c: Config, s: State, id: JobId, ok: bool, now: int)
    requires Inv(c, s) && id in s.jobs && s.jobs[id].status == Running && s.jobs[id].attempts < Cap(s.jobs[id])
    ensures WorkLeft(if ok then CompleteRun(c, s, id, now) else FailRun(c, s, id, now)) < WorkLeft(s)
  {
    if ok {
      var f := s.jobs[id].(status := Completed, completedAt := Some(now));
      PutWork(c, s, id, f);
      EvictWork(c, Release(s.(jobs := s.jobs[id := f]), id));
    } else {
      FailWorkUsed(c, s, id, now);
    }
  }

  lemma DispatchWork(c: Config, s: State, boot: map<JobId, Job>, t: Tick)
    requires Inv(c, s) && Ledger(s, boot) && CanDispatch(c, s)
    ensures WorkLeft(Dispatch(c, s, t)) <= WorkLeft(s)
  {
    var id := s.queue[0];
    var s1 := s.(queue := s.queue[1..]);
    HeadOpens(c, s);
    var j := s.jobs[id];
    WorkUpdate(s.jobs, s.order, id, j.(status := Failed, error := Some(NoHandler), failedAt := Some(t.now)));
    WorkUpdate(s.jobs, s.order, id, j.(status := Running, startedAt := Some(t.now)));
    if j.kind in s.handlers && j.timeoutMs <= 0 && id in t.throws {
      LaunchPlaces(c, s1, id, t.now);
      RunWorkUsed(c, Launch(c, s1, id, t.now), id, false, t.now);
    }
  }

  lemma {:induction false} DrainWork(c: Config, s: State, boot: map<JobId, Job>, t: Tick)
    requires Inv(c, s) && Ledger(s, boot)
    ensures WorkLeft(Drain(c, s, t)) <= WorkLeft(s)
    decreases |s.queue|
  {
    if CanDispatch(c, s) {
      DispatchPlaces(c, s, t);
      DispatchLedger(c, s, t, boot);
      DispatchWork(c, s, boot, t);
      DrainWork(c, Dispatch(c, s, t), boot, t);
    }
  }

  // Work an event admits: the attempts of a job the queue accepts.
  function Admitted(c: Config, s: State, e: Event, t: Tick): nat
  {
    if e.AddJob? && |s.queue| < c.maxDepth then Cap(NewJob(c, e.request, e.id, t.now)) else 0
  }

  function Outcomes(e: Event): nat
  {
    if e.HandlerSettles? then 1 else 0
  }

  lemma AddWork(c: Config, s: State, boot: map<JobId, Job>, r: Request, id: JobId, t: Tick)
    requires Inv(c, s) && Ledger(s, boot) && id !in s.hist.minted
    ensures WorkLeft(Add(c, s, r, id, t).0) <= WorkLeft(s) + Admitted(c, s, AddJob(r, id), t)
  {
    if |s.queue| < c.maxDepth {
      var j := NewJob(c, r, id, t.now);
      var s1 := Store(c, s, j);
      WorkSame(s.jobs, s1.jobs, s.order);
      WorkAppend(s1.jobs, s.order, id);
      StoreLedger(c, s, r, id, t.now, boot);
      StoreOpens(c, s, j);
      if r.delay <= 0 {
        InsertPlaces(c, s1, id);
        DrainWork(c, Insert(s1, id), boot, t);
      }
    }
  }

  lemma SettleWork(c: Config, s: State, boot: map<JobId, Job>, id: JobId, ok: bool, t: Tick)
    requires Inv(c, s) && Ledger(s, boot) && id in s.jobs && s.jobs[id].status == Running
    ensures WorkLeft(Settle(c, s, id, ok, t)) < WorkLeft(s)
  {
    RunWorkUsed(c, s, id, ok, t.now);
    if ok {
      CompleteRunPlaces(c, s, id, t.now);
      CompleteRunLedger(c, s, id, t.now, boot);
      DrainWork(c, CompleteRun(c, s, id, t.now), boot, t);
    } else {
      FailRunPlaces(c, s, id, t.now);
      FailRunLedger(c, s, id, t.now, boot);
      DrainWork(c, FailRun(c, s, id, t.now), boot, t);
    }
  }

  lemma FireWork(c: Config, s: State, boot: map<JobId, Job>, i: nat, t: Tick)
    requires Inv(c, s) && Ledger(s, boot) && i < |s.timers|
    ensures WorkLeft(Fire(c, s, i, t)) <= WorkLeft(s)
  {
    var s1 := s.(timers := RemoveAt(s.timers, i));
    FireOpens(c, s, i);
    if StillQueued(s.jobs, s.timers[i].job) {
      InsertPlaces(c, s1, s.timers[i].job);
      DrainWork(c, Insert(s1, s.timers[i].job), boot, t);
    }
  }

  lemma StepWork(c: Config, s: State, boot: map<JobId, Job>, e: Event, t: Tick)
    requires Inv(c, s) && Ledger(s, boot) && Enabled(s, e, t) && !e.CrashAndBoot?
    ensures WorkLeft(Step(c, s, e, t)) + Outcomes(e) <= WorkLeft(s) + Admitted(c, s, e, t)
  {
    var s0 := s.(clock := t.now);
    match e
    case AddJob(r, id) => AddWork(c, s0, boot, r, id, t);
    case TimerFires(i) => FireWork(c, s0, boot, i, t);
    case HandlerSettles(id, ok) => SettleWork(c, s0, boot, id, ok, t);
    case CancelJob(id) =>
      if id in s.jobs {
        WorkUpdate(s.jobs, s.order, id, s.jobs[id].(status := Cancelled));
      }
    case StartQueue => if !s.processing { DrainWork(c, s0.(processing := true), boot, t); }
    case StopQueue =>
    case RegisterHandler(kind) =>
    case FlushFires =>
    case CrashAndBoot =>
  }

  ghost function AdmittedIn(c: Config, s: State, run: seq<(Event, Tick)>): nat
    requires Feasible(c, s, run)
    decreases |run|
  {
    if run == [] then 0
    else Admitted(c, s, run[0].0, run[0].1) + AdmittedIn(c, Step(c, s, run[0].0, run[0].1), run[1..])
  }

  function OutcomesIn(run: seq<(Event, Tick)>): nat
  {
    if run == [] then 0 else Outcomes(run[0].0) + OutcomesIn(run[1..])
  }

  // Work is conserved downwards: every handler outcome of a crash-free run is paid for by an
  // attempt that was available at its start or admitted during it.
  lemma {:induction false} RunWork(c: Config, s: State, boot: map<JobId, Job>, run: seq<(Event, Tick)>)
    requires Inv(c, s) && Saturated(c, s) && Ledger(s, boot) && Feasible(c, s, run) && CrashFree(run)
    ensures WorkLeft(Run(c, s, run)) + OutcomesIn(run) <= WorkLeft(s) + AdmittedIn(c, s, run)
    decreases |run|
  {
    if run != [] {
      var r := Step(c, s, run[0].0, run[0].1);
      StepPlaces(c, s, run[0].0, run[0].1);
      StepLedger(c, s, run[0].0, run[0].1, boot);
      StepWork(c, s, boot, run[0].0, run[0].1);
      RunWork(c, r, boot, run[1..]);
    }
  }

  // Node runs a timer of more than 2^31-1 ms after one millisecond, so a backoff is honoured
  // exactly up to the 21st failed attempt.
  lemma BackoffHonoured(attempts: nat)
    ensures TimerDelay(BackoffMs(attempts)) == BackoffMs(attempts) <==> attempts <= 21
  {
    assert Pow2(21) == 2097152 by {
      assert Pow2(8) == 256;
      assert Pow2(16) == 65536;
    }
    PowMonotone(attempts, 21);
    PowMonotone(22, attempts);
  }

  lemma {:induction false} PowMonotone(a: nat, b: nat)
    ensures a <= b ==> Pow2(a) <= Pow2(b)
    decreases b
  {
    if a < b {
      PowMonotone(a, b - 1);
    }
  }
}
