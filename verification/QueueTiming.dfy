/**
 When jobs start: a delayed job not before its delay is over, a retried one not before its backoff
 is; exactly as long as a timer of the runtime can wait that long.
 */
module QueueTiming {
  import opened Common
  import opened QueueModel
  import opened QueuePlacement
  import opened QueueRecovery
  import opened QueueRuns
  import opened QueueBudget

  // Nothing has let job x start before `at`, and nothing will: neither the queue nor a timer.
  ghost predicate NotBefore(s: State, x: JobId, at: int)
  {
    && (x in s.queue ==> s.clock >= at)
    && (x in s.jobs && s.jobs[x].status == Running ==> s.clock >= at)
    && (x in Known(s) && Known(s)[x].startedAt.Some? ==> Known(s)[x].startedAt.value >= at)
    && (forall t | t in s.timers :: t.job == x ==> t.due >= at)
  }

  // ---- every operation keeps it ----------------------------------------------------------

  lemma PutNotBefore(s: State, id: JobId, j: Job, x: JobId, at: int)
    requires NotBefore(s, x, at)
    requires id == x ==> (j.status == Running ==> s.clock >= at) && (j.startedAt.Some? ==> j.startedAt.value >= at)
    ensures NotBefore(s.(jobs := s.jobs[id := j]), x, at)
  {
    KnownPut(s, id, j);
  }

  lemma EvictNotBefore(c: Config, s: State, x: JobId, at: int)
    requires NotBefore(s, x, at)
    ensures NotBefore(Evict(c, s), x, at)
  {
    EvictKnown(c, s);
  }

  lemma StartedNotBefore(s: State, x: JobId, at: int)
    requires NotBefore(s, x, at) && x in s.jobs && s.jobs[x].startedAt.Some?
    ensures s.jobs[x].startedAt.value >= at
  {
    assert Known(s)[x] == s.jobs[x];
  }

  lemma LaunchNotBefore(c: Config, s: State, id: JobId, x: JobId, at: int)
    requires NotBefore(s, x, at) && id in s.jobs && (id == x ==> s.clock >= at)
    ensures NotBefore(Launch(c, s, id, s.clock), x, at)
  {
    PutNotBefore(s, id, s.jobs[id].(status := Running, startedAt := Some(s.clock)), x, at);
  }

  lemma RetryNotBefore(c: Config, s: State, id: JobId, j: Job, x: JobId, at: int, r: State)
    requires NotBefore(s, x, at) && id in s.jobs && s.jobs[id].status == Running && r == Retry(c, s, id, j, s.clock)
    ensures NotBefore(r, x, at)
  {
    PutNotBefore(s, id, j.(status := Queued, startedAt := None), x, at);
  }

  lemma GiveUpNotBefore(c: Config, s: State, id: JobId, j: Job, x: JobId, at: int, r: State)
    requires NotBefore(s, x, at) && id in s.jobs && j.startedAt == s.jobs[id].startedAt
             && r == GiveUp(c, s, id, j, s.clock)
    ensures NotBefore(r, x, at)
  {
    var f := j.(status := Failed, failedAt := Some(s.clock));
    if id == x && f.startedAt.Some? {
      StartedNotBefore(s, x, at);
    }
    PutNotBefore(s, id, f, x, at);
    EvictNotBefore(c, Release(s.(jobs := s.jobs[id := f]), id), x, at);
  }

  lemma FailRunNotBefore(c: Config, s: State, id: JobId, x: JobId, at: int)
    requires NotBefore(s, x, at) && id in s.jobs && s.jobs[id].status == Running
    ensures NotBefore(FailRun(c, s, id, s.clock), x, at)
  {
    var j := s.jobs[id].(attempts := s.jobs[id].attempts + 1, error := Some(HandlerError));
    if j.attempts < j.maxAttempts {
      RetryNotBefore(c, s, id, j, x, at, FailRun(c, s, id, s.clock));
    } else {
      GiveUpNotBefore(c, s, id, j, x, at, FailRun(c, s, id, s.clock));
    }
  }

  lemma CompleteRunNotBefore(c: Config, s: State, id: JobId, x: JobId, at: int)
    requires NotBefore(s, x, at) && id in s.jobs
    ensures NotBefore(CompleteRun(c, s, id, s.clock), x, at)
  {
    var j := s.jobs[id].(status := Completed, completedAt := Some(s.clock));
    if id == x && j.startedAt.Some? {
      StartedNotBefore(s, x, at);
    }
    PutNotBefore(s, id, j, x, at);
    EvictNotBefore(c, Release(s.(jobs := s.jobs[id := j]), id), x, at);
  }

  lemma ExecuteNotBefore(c: Config, s: State, id: JobId, t: Tick, x: JobId, at: int, r: State)
    requires NotBefore(s, x, at) && id in s.jobs && (id == x ==> s.clock >= at) && s.clock == t.now
    requires r == Execute(c, s, id, t)
    ensures NotBefore(r, x, at)
  {
    var j := s.jobs[id];
    if j.kind !in s.handlers {
      if id == x && j.startedAt.Some? {
        StartedNotBefore(s, x, at);
      }
      PutNotBefore(s, id, j.(status := Failed, error := Some(NoHandler), failedAt := Some(t.now)), x, at);
    } else {
      LaunchNotBefore(c, s, id, x, at);
      if j.timeoutMs <= 0 && id in t.throws {
        FailRunNotBefore(c, Launch(c, s, id, t.now), id, x, at);
      }
    }
  }

  lemma DispatchNotBefore(c: Config, s: State, t: Tick, x: JobId, at: int)
    requires NotBefore(s, x, at) && s.queue != [] && s.clock == t.now
    ensures NotBefore(Dispatch(c, s, t), x, at)
  {
    var id := s.queue[0];
    var s1 := s.(queue := s.queue[1..]);
    assert Known(s1) == Known(s) && id in s.queue;
    if id in s.jobs && s.jobs[id].status == Queued {
      ExecuteNotBefore(c, s1, id, t, x, at, Dispatch(c, s, t));
    }
  }

  lemma DispatchClock(c: Config, s: State, t: Tick)
    requires s.queue != []
    ensures Dispatch(c, s, t).clock == s.clock
  {}

  lemma {:induction false} DrainNotBefore(c: Config, s: State, t: Tick, x: JobId, at: int)
    requires NotBefore(s, x, at) && s.clock == t.now
    ensures NotBefore(Drain(c, s, t), x, at)
    decreases |s.queue|
  {
    if CanDispatch(c, s) {
      DispatchNotBefore(c, s, t, x, at);
      DispatchClock(c, s, t);
      DrainNotBefore(c, Dispatch(c, s, t), t, x, at);
    }
  }

  lemma InsertNotBefore(s: State, id: JobId, x: JobId, at: int)
    requires NotBefore(s, x, at) && id in s.jobs && (id == x ==> s.clock >= at)
    ensures NotBefore(Insert(s, id), x, at)
  {
    var k := Slot(s.jobs, s.queue, s.jobs[id].priority);
    assert Known(Insert(s, id)) == Known(s);
    InsertElems(s.queue, k, id);
    assert x in Insert(s, id).queue ==> x in Elems(s.queue) + {id};
  }

  lemma FireNotBefore(c: Config, s: State, i: nat, t: Tick, x: JobId, at: int)
    requires NotBefore(s, x, at) && i < |s.timers| && s.timers[i].due <= s.clock == t.now
    ensures NotBefore(Fire(c, s, i, t), x, at)
  {
    var s1, id := s.(timers := RemoveAt(s.timers, i)), s.timers[i].job;
    assert Known(s1) == Known(s) && s.timers[i] in s.timers;
    assert NotBefore(s1, x, at);
    if StillQueued(s.jobs, id) {
      InsertNotBefore(s1, id, x, at);
      DrainNotBefore(c, Insert(s1, id), t, x, at);
    }
  }

  lemma SettleNotBefore(c: Config, s: State, id: JobId, ok: bool, t: Tick, x: JobId, at: int)
    requires NotBefore(s, x, at) && id in s.jobs && s.jobs[id].status == Running && s.clock == t.now
    ensures NotBefore(Settle(c, s, id, ok, t), x, at)
  {
    if ok {
      CompleteRunNotBefore(c, s, id, x, at);
      DrainNotBefore(c, CompleteRun(c, s, id, t.now), t, x, at);
    } else {
      FailRunNotBefore(c, s, id, x, at);
      DrainNotBefore(c, FailRun(c, s, id, t.now), t, x, at);
    }
  }

  lemma CancelNotBefore(c: Config, s: State, id: JobId, x: JobId, at: int)
    requires NotBefore(s, x, at)
    ensures NotBefore(Cancel(c, s, id).0, x, at)
  {
    if id in s.jobs && s.jobs[id].status != Running {
      var j := s.jobs[id].(status := Cancelled);
      if id == x && j.startedAt.Some? {
        StartedNotBefore(s, x, at);
      }
      PutNotBefore(s, id, j, x, at);
    }
  }

  lemma AddNotBefore(c: Config, s: State, r: Request, id: JobId, t: Tick, x: JobId, at: int)
    requires NotBefore(s, x, at) && id != x && s.clock == t.now
    ensures NotBefore(Add(c, s, r, id, t).0, x, at)
  {
    if |s.queue| < c.maxDepth {
      var j := NewJob(c, r, id, t.now);
      PutNotBefore(s, id, j, x, at);
      assert Known(Store(c, s, j)) == Known(s.(jobs := s.jobs[id := j]));
      if r.delay <= 0 {
        InsertNotBefore(Store(c, s, j), id, x, at);
        DrainNotBefore(c, Insert(Store(c, s, j), id), t, x, at);
      }
    }
  }

  // Every event but a crash, and but the arrival of x itself.
  lemma StepNotBefore(c: Config, s: State, e: Event, t: Tick, x: JobId, at: int)
    requires Inv(c, s) && NotBefore(s, x, at) && Enabled(s, e, t) && !e.CrashAndBoot? && (e.AddJob? ==> e.id != x)
    ensures NotBefore(Step(c, s, e, t), x, at)
  {
    var s0 := s.(clock := t.now);
    assert Known(s0) == Known(s);
    match e
    case AddJob(r, id) => AddNotBefore(c, s0, r, id, t, x, at);
    case TimerFires(i) => FireNotBefore(c, s0, i, t, x, at);
    case HandlerSettles(id, ok) => SettleNotBefore(c, s0, id, ok, t, x, at);
    case CancelJob(id) => CancelNotBefore(c, s0, id, x, at);
    case StartQueue =>
      if !s.processing {
        DrainNotBefore(c, s0.(processing := true), t, x, at);
      }
    case StopQueue =>
    case RegisterHandler(kind) =>
    case FlushFires =>
  }

  // ---- delays do not change --------------------------------------------------------------

  // The terms a job was added on.
  predicate SameTerms(j: Job, q: Job)
  {
    && j.id == q.id && j.kind == q.kind && j.priority == q.priority && j.createdAt == q.createdAt
    && j.runAt == q.runAt && j.delay == q.delay && j.maxAttempts == q.maxAttempts && j.timeoutMs == q.timeoutMs
  }

  // Every job known after is known before, on the same terms.
  ghost predicate SameDelays(before: map<JobId, Job>, after: map<JobId, Job>)
  {
    forall id :: id in after ==> id in before && SameTerms(after[id], before[id])
  }

  lemma PutSame(s: State, id: JobId, j: Job)
    requires id in s.jobs && SameTerms(j, s.jobs[id])
    ensures SameDelays(Known(s), Known(s.(jobs := s.jobs[id := j])))
  {
    KnownPut(s, id, j);
  }

  lemma SameDelaysTwice(a: map<JobId, Job>, b: map<JobId, Job>, c: map<JobId, Job>)
    requires SameDelays(a, b) && SameDelays(b, c)
    ensures SameDelays(a, c)
  {}

  lemma RetrySame(c: Config, s: State, id: JobId, j: Job, now: int, r: State)
    requires id in s.jobs && SameTerms(j, s.jobs[id]) && r == Retry(c, s, id, j, now)
    ensures SameDelays(Known(s), Known(r))
  {
    PutSame(s, id, j.(status := Queued, startedAt := None));
  }

  lemma GiveUpSame(c: Config, s: State, id: JobId, j: Job, now: int, r: State)
    requires id in s.jobs && SameTerms(j, s.jobs[id]) && r == GiveUp(c, s, id, j, now)
    ensures SameDelays(Known(s), Known(r))
  {
    var f := j.(status := Failed, failedAt := Some(now));
    PutSame(s, id, f);
    EvictKnown(c, Release(s.(jobs := s.jobs[id := f]), id));
  }

  lemma FailRunSame(c: Config, s: State, id: JobId, now: int)
    requires id in s.jobs
    ensures SameDelays(Known(s), Known(FailRun(c, s, id, now)))
  {
    var j := s.jobs[id].(attempts := s.jobs[id].attempts + 1, error := Some(HandlerError));
    if j.attempts < j.maxAttempts {
      RetrySame(c, s, id, j, now, FailRun(c, s, id, now));
    } else {
      GiveUpSame(c, s, id, j, now, FailRun(c, s, id, now));
    }
  }

  lemma CompleteRunSame(c: Config, s: State, id: JobId, now: int)
    requires id in s.jobs
    ensures SameDelays(Known(s), Known(CompleteRun(c, s, id, now)))
  {
    var j := s.jobs[id].(status := Completed, completedAt := Some(now));
    PutSame(s, id, j);
    EvictKnown(c, Release(s.(jobs := s.jobs[id := j]), id));
  }

  lemma ExecuteSame(c: Config, s: State, id: JobId, t: Tick, r: State)
    requires id in s.jobs && r == Execute(c, s, id, t)
    ensures SameDelays(Known(s), Known(r))
  {
    var j := s.jobs[id];
    if j.kind !in s.handlers {
      PutSame(s, id, j.(status := Failed, error := Some(NoHandler), failedAt := Some(t.now)));
    } else {
      PutSame(s, id, j.(status := Running, startedAt := Some(t.now)));
      if j.timeoutMs <= 0 && id in t.throws {
        FailRunSame(c, Launch(c, s, id, t.now), id, t.now);
        SameDelaysTwice(Known(s), Known(Launch(c, s, id, t.now)), Known(r));
      }
    }
  }

  lemma {:induction false} DrainSame(c: Config, s: State, t: Tick)
    ensures SameDelays(Known(s), Known(Drain(c, s, t)))
    decreases |s.queue|
  {
    if CanDispatch(c, s) {
      var id, s1 := s.queue[0], s.(queue := s.queue[1..]);
      assert Known(s1) == Known(s);
      if id in s.jobs && s.jobs[id].status == Queued {
        ExecuteSame(c, s1, id, t, Dispatch(c, s, t));
      }
      DrainSame(c, Dispatch(c, s, t), t);
      SameDelaysTwice(Known(s), Known(Dispatch(c, s, t)), Known(Drain(c, s, t)));
    }
  }

  // A step changes no delay, and an arrival adds one job with the delay it was given.
  ghost predicate DelaysKept(c: Config, s: State, e: Event, t: Tick, r: State)
  {
    forall id :: id in Known(r) ==>
      if e.AddJob? && id == e.id then
        SameTerms(Known(r)[id], NewJob(c, e.request, id, t.now))
      else id in Known(s) && SameTerms(Known(r)[id], Known(s)[id])
  }

  lemma StepSame(c: Config, s: State, e: Event, t: Tick)
    requires Inv(c, s) && Enabled(s, e, t) && !e.CrashAndBoot? && (e.AddJob? ==> e.id !in Known(s))
    ensures DelaysKept(c, s, e, t, Step(c, s, e, t))
  {
    var s0, r := s.(clock := t.now), Step(c, s, e, t);
    assert Known(s0) == Known(s);
    match e
    case AddJob(request, id) => AddSame(c, s0, request, id, t);
    case TimerFires(i) =>
      if StillQueued(s.jobs, s.timers[i].job) {
        var s1 := Insert(s0.(timers := RemoveAt(s.timers, i)), s.timers[i].job);
        assert Known(s1) == Known(s);
        DrainSame(c, s1, t);
      }
    case HandlerSettles(id, ok) =>
      var s1 := if ok then CompleteRun(c, s0, id, t.now) else FailRun(c, s0, id, t.now);
      if ok { CompleteRunSame(c, s0, id, t.now); } else { FailRunSame(c, s0, id, t.now); }
      DrainSame(c, s1, t);
      SameDelaysTwice(Known(s), Known(s1), Known(r));
    case CancelJob(id) =>
      if id in s.jobs && s.jobs[id].status != Running {
        PutSame(s0, id, s.jobs[id].(status := Cancelled));
      }
    case StartQueue =>
      if !s.processing {
        assert Known(s0.(processing := true)) == Known(s);
        DrainSame(c, s0.(processing := true), t);
      }
    case StopQueue =>
    case RegisterHandler(kind) =>
    case FlushFires =>
  }

  lemma AddSame(c: Config, s: State, request: Request, id: JobId, t: Tick)
    requires id !in Known(s)
    ensures DelaysKept(c, s, AddJob(request, id), t, Add(c, s, request, id, t).0)
  {
    if |s.queue| < c.maxDepth {
      var j := NewJob(c, request, id, t.now);
      KnownPut(s, id, j);
      assert Known(Store(c, s, j)) == Known(s)[id := j];
      if request.delay <= 0 {
        var s1 := Insert(Store(c, s, j), id);
        assert Known(s1) == Known(s)[id := j];
        DrainSame(c, s1, t);
      }
    }
  }

  // ---- delays are honoured ---------------------------------------------------------------

  // A delay that a timer of the runtime can wait.
  predicate Waits(j: Job)
  {
    j.runAt.Some? && 0 < j.delay <= MAX_TIMER_MS
  }

  // The jobs of a file written by `clock`: none that waits has begun early, none of those queued
  // has time left, and none was added later than the file.
  ghost predicate FileTimely(jobs: map<JobId, Job>, queue: seq<JobId>, clock: int)
  {
    forall x :: x in jobs && Waits(jobs[x]) ==>
      var at := jobs[x].runAt.value;
      && at - jobs[x].delay <= clock
      && (jobs[x].startedAt.Some? ==> jobs[x].startedAt.value >= at)
      && (x in queue ==> clock >= at)
  }

  ghost predicate DiskTimely(s: State)
  {
    s.disk.Some? ==> FileTimely(Booted(s.disk.value, 0).jobs, Booted(s.disk.value, 0).queue, s.clock)
  }

  ghost predicate DelaysOk(known: map<JobId, Job>, s: State)
  {
    forall x :: x in known && Waits(known[x]) ==>
      NotBefore(s, x, known[x].runAt.value) && known[x].runAt.value - known[x].delay <= s.clock
  }

  ghost predicate Timely(s: State)
  {
    && s.clock >= 0 && Minted(s)
    && DelaysOk(Known(s), s) && DiskTimely(s)
  }

  // A new job has not started, and its timer is the only thing that will start it.
  lemma NewNotBefore(c: Config, s: State, r: Request, id: JobId, t: Tick)
    requires Inv(c, s) && id !in s.hist.minted && id !in Known(s) && r.delay > 0 && s.clock == t.now
    requires |s.queue| < c.maxDepth
    ensures NotBefore(Add(c, s, r, id, t).0, id, t.now + r.delay) <==> r.delay <= MAX_TIMER_MS
  {
    var j, u := NewJob(c, r, id, t.now), Add(c, s, r, id, t).0;
    var timer := Timer(id, t.now + TimerDelay(r.delay));
    StoreOpens(c, s, j);
    KnownPut(s, id, j);
    assert Known(u) == Known(s)[id := j];
    assert id !in Elems(s.queue) && id !in Owners(s.timers);
    assert forall x | x in s.timers :: x.job in Owners(s.timers);
    assert u.timers == s.timers + [timer] && timer in u.timers;
  }

  // Every id on record was minted.
  ghost predicate Minted(s: State)
  {
    s.jobs.Keys + s.hist.seen.Keys + s.hist.respites.Keys <= s.hist.minted
  }

  ghost predicate MintsKept(s: State, r: State)
  {
    Minted(s) ==> Minted(r) && s.hist.minted <= r.hist.minted
  }

  lemma FailRunMinted(c: Config, s: State, id: JobId, now: int)
    requires id in s.jobs
    ensures MintsKept(s, FailRun(c, s, id, now))
  {}

  lemma ExecuteMinted(c: Config, s: State, id: JobId, t: Tick, r: State)
    requires id in s.jobs && r == Execute(c, s, id, t)
    ensures MintsKept(s, r)
  {
    if s.jobs[id].kind in s.handlers && s.jobs[id].timeoutMs <= 0 && id in t.throws {
      FailRunMinted(c, Launch(c, s, id, t.now), id, t.now);
    }
  }

  lemma {:induction false} DrainMinted(c: Config, s: State, t: Tick)
    ensures MintsKept(s, Drain(c, s, t))
    decreases |s.queue|
  {
    if CanDispatch(c, s) {
      var id, s1 := s.queue[0], s.(queue := s.queue[1..]);
      if id in s.jobs && s.jobs[id].status == Queued {
        ExecuteMinted(c, s1, id, t, Dispatch(c, s, t));
      }
      DrainMinted(c, Dispatch(c, s, t), t);
    }
  }

  lemma AddMinted(c: Config, s: State, r: Request, id: JobId, t: Tick)
    ensures MintsKept(s, Add(c, s, r, id, t).0)
  {
    if |s.queue| < c.maxDepth && r.delay <= 0 {
      DrainMinted(c, Insert(Store(c, s, NewJob(c, r, id, t.now)), id), t);
    }
  }

  lemma StepMinted(c: Config, s: State, e: Event, t: Tick)
    requires Enabled(s, e, t) && !e.CrashAndBoot?
    ensures MintsKept(s, Step(c, s, e, t))
  {
    var s0 := s.(clock := t.now);
    match e
    case AddJob(r, id) => AddMinted(c, s0, r, id, t);
    case TimerFires(i) =>
      if StillQueued(s.jobs, s.timers[i].job) {
        DrainMinted(c, Insert(s0.(timers := RemoveAt(s.timers, i)), s.timers[i].job), t);
      }
    case HandlerSettles(id, ok) =>
      if !ok { FailRunMinted(c, s0, id, t.now); }
      DrainMinted(c, if ok then CompleteRun(c, s0, id, t.now) else FailRun(c, s0, id, t.now), t);
    case CancelJob(id) =>
    case StartQueue =>
      if !s.processing { DrainMinted(c, s0.(processing := true), t); }
    case StopQueue =>
    case RegisterHandler(kind) =>
    case FlushFires =>
  }

  // The disk changes only when the flush writes it.
  lemma StepDisk(c: Config, s: State, e: Event, t: Tick)
    requires Enabled(s, e, t) && !e.CrashAndBoot? && !e.FlushFires? && DiskTimely(s)
    ensures DiskTimely(Step(c, s, e, t))
  {
    StepTracks(c, s, e, t);
    StepClock(c, s, e, t);
  }

  lemma {:induction false} DrainClock(c: Config, s: State, t: Tick)
    ensures Drain(c, s, t).clock == s.clock
    decreases |s.queue|
  {
    if CanDispatch(c, s) {
      DispatchClock(c, s, t);
      DrainClock(c, Dispatch(c, s, t), t);
    }
  }

  lemma StepClock(c: Config, s: State, e: Event, t: Tick)
    requires Enabled(s, e, t) && !e.CrashAndBoot?
    ensures Step(c, s, e, t).clock == t.now
  {
    var s0 := s.(clock := t.now);
    match e
    case AddJob(r, id) =>
      DrainClock(c, Insert(Store(c, s0, NewJob(c, r, id, t.now)), id), t);
    case TimerFires(i) =>
      if StillQueued(s.jobs, s.timers[i].job) {
        DrainClock(c, Insert(s0.(timers := RemoveAt(s.timers, i)), s.timers[i].job), t);
      }
    case HandlerSettles(id, ok) =>
      DrainClock(c, if ok then CompleteRun(c, s0, id, t.now) else FailRun(c, s0, id, t.now), t);
    case CancelJob(id) =>
    case StartQueue => DrainClock(c, s0.(processing := true), t);
    case StopQueue =>
    case RegisterHandler(kind) =>
    case FlushFires =>
  }

  // One job through one step.
  lemma DelayStep(c: Config, s: State, e: Event, t: Tick, x: JobId)
    requires Inv(c, s) && Timely(s) && Enabled(s, e, t) && !e.CrashAndBoot?
    requires var r := Step(c, s, e, t); x in Known(r) && Waits(Known(r)[x])
    ensures var r := Step(c, s, e, t); var j := Known(r)[x];
            NotBefore(r, x, j.runAt.value) && j.runAt.value - j.delay <= r.clock
  {
    StepSame(c, s, e, t);
    StepClock(c, s, e, t);
    if e.AddJob? && e.id == x {
      NewDelay(c, s, e.request, t, x, Step(c, s, e, t));
    } else {
      OldDelay(c, s, e, t, x, Step(c, s, e, t));
    }
  }

  lemma NewDelay(c: Config, s: State, request: Request, t: Tick, x: JobId, r: State)
    requires Inv(c, s) && Timely(s) && Enabled(s, AddJob(request, x), t)
    requires r == Step(c, s, AddJob(request, x), t) && DelaysKept(c, s, AddJob(request, x), t, r) && r.clock == t.now
    requires x in Known(r) && Waits(Known(r)[x])
    ensures var j := Known(r)[x]; NotBefore(r, x, j.runAt.value) && j.runAt.value - j.delay <= r.clock
  {
    RejectedKnown(c, s, AddJob(request, x), t);
    if |s.queue| < c.maxDepth {
      NewNotBefore(c, s.(clock := t.now), request, x, t);
    }
  }

  lemma OldDelay(c: Config, s: State, e: Event, t: Tick, x: JobId, r: State)
    requires Inv(c, s) && Timely(s) && Enabled(s, e, t) && !e.CrashAndBoot? && (e.AddJob? ==> e.id != x)
    requires r == Step(c, s, e, t) && DelaysKept(c, s, e, t, r) && r.clock == t.now
    requires x in Known(r) && Waits(Known(r)[x])
    ensures var j := Known(r)[x]; NotBefore(r, x, j.runAt.value) && j.runAt.value - j.delay <= r.clock
  {
    assert SameTerms(Known(r)[x], Known(s)[x]);
    StepNotBefore(c, s, e, t, x, Known(s)[x].runAt.value);
  }

  lemma RejectedKnown(c: Config, s: State, e: Event, t: Tick)
    requires Enabled(s, e, t)
    ensures e.AddJob? && |s.queue| >= c.maxDepth ==> Known(Step(c, s, e, t)) == Known(s)
  {}

  lemma FlushTimely(c: Config, s: State)
    requires Inv(c, s) && Timely(s)
    ensures Timely(Flush(s))
  {
    var r := Flush(s);
    assert Known(r) == Known(s);
    forall x | x in Known(s) && Waits(Known(s)[x]) ensures NotBefore(r, x, Known(s)[x].runAt.value) {
      assert NotBefore(s, x, Known(s)[x].runAt.value);
    }
    BootedSnapshot(c, s, 0);
    SavedTimely(s);
  }

  lemma SavedTimely(s: State)
    requires DelaysOk(Known(s), s)
    ensures FileTimely(RequeueAll(s.jobs), s.queue, s.clock)
  {
    var jobs := RequeueAll(s.jobs);
    forall x | x in jobs && Waits(jobs[x])
      ensures var at := jobs[x].runAt.value;
              && at - jobs[x].delay <= s.clock
              && (jobs[x].startedAt.Some? ==> jobs[x].startedAt.value >= at)
              && (x in s.queue ==> s.clock >= at)
    {
      assert x in Known(s) && Known(s)[x] == s.jobs[x];
      assert NotBefore(s, x, s.jobs[x].runAt.value);
    }
  }

  // Recovery arms what is left of a delay, or queues the job when nothing is left.
  lemma {:induction false} ResumeNotBefore(b: State, ids: seq<JobId>, now: int, x: JobId, at: int)
    requires NotBefore(b, x, at) && b.clock == now && now >= 0
    requires x in b.jobs ==> b.jobs[x].runAt == Some(at) && at - now <= MAX_TIMER_MS
    ensures NotBefore(Resume(b, ids, now), x, at)
    decreases |ids|
  {
    if ids != [] {
      assert Known(ResumeOne(b, ids[0], now)) == Known(b);
      ResumeNotBefore(ResumeOne(b, ids[0], now), ids[1..], now, x, at);
    }
  }

  lemma CrashTimely(c: Config, s: State, now: int)
    requires Good(c, s) && Timely(s) && s.clock <= now
    ensures Timely(Crash(s, now))
  {
    if s.disk.Some? {
      var snap := s.disk.value;
      var b, r := Booted(snap, now), Crash(s, now);
      RecoverPlaces(c, snap, now);
      LoadedOkNow(snap, now);
      ResumeAdds(b, b.order, now);
      assert Known(b) == b.jobs && Known(r) == b.jobs;
      forall x | x in b.jobs && Waits(b.jobs[x])
        ensures NotBefore(r, x, b.jobs[x].runAt.value) && b.jobs[x].runAt.value - b.jobs[x].delay <= r.clock
      {
        BootedNotBefore(s, now, x);
        ResumeNotBefore(b, b.order, now, x, b.jobs[x].runAt.value);
      }
    }
  }

  lemma BootedNotBefore(s: State, now: int, x: JobId)
    requires s.disk.Some? && DiskTimely(s) && s.clock <= now
    requires var b := Booted(s.disk.value, now); x in b.jobs && Waits(b.jobs[x])
    ensures var b := Booted(s.disk.value, now);
            var at := b.jobs[x].runAt.value;
            NotBefore(b, x, at) && at - now <= MAX_TIMER_MS && at - b.jobs[x].delay <= now
  {
    LoadedOkNow(s.disk.value, now);
    LoadedOkNow(s.disk.value, 0);
    var b, b0 := Booted(s.disk.value, now), Booted(s.disk.value, 0);
    assert b.jobs == b0.jobs && b.queue == b0.queue && Known(b) == b.jobs;
  }

  lemma StepTimely(c: Config, s: State, e: Event, t: Tick)
    requires Good(c, s) && Timely(s) && Enabled(s, e, t)
    ensures Timely(Step(c, s, e, t))
  {
    var s0 := s.(clock := t.now);
    if e.CrashAndBoot? {
      LaterTimely(s, t.now);
      CrashTimely(c, s0, t.now);
    } else if e.FlushFires? {
      LaterTimely(s, t.now);
      FlushTimely(c, s0);
    } else {
      StepMinted(c, s, e, t);
      StepDisk(c, s, e, t);
      StepClock(c, s, e, t);
      var r := Step(c, s, e, t);
      forall x | x in Known(r) && Waits(Known(r)[x])
        ensures NotBefore(r, x, Known(r)[x].runAt.value) && Known(r)[x].runAt.value - Known(r)[x].delay <= r.clock
      {
        DelayStep(c, s, e, t, x);
      }
    }
  }

  lemma LaterTimely(s: State, now: int)
    requires Timely(s) && s.clock <= now
    ensures Timely(s.(clock := now))
  {
    var r := s.(clock := now);
    assert Known(r) == Known(s);
    forall x | x in Known(s) && Waits(Known(s)[x]) ensures NotBefore(r, x, Known(s)[x].runAt.value) {
      assert NotBefore(s, x, Known(s)[x].runAt.value);
    }
  }

  lemma {:induction false} RunTimely(c: Config, s: State, run: seq<(Event, Tick)>)
    requires Good(c, s) && Timely(s) && Feasible(c, s, run)
    ensures Timely(Run(c, s, run))
    decreases |run|
  {
    if run != [] {
      StepGood(c, s, run[0].0, run[0].1);
      StepTimely(c, s, run[0].0, run[0].1);
      RunTimely(c, Step(c, s, run[0].0, run[0].1), run[1..]);
    }
  }

  // In every run, crashes included, and whether or not the job has been evicted since: a job whose
  // delay is at most what a timer can wait is not queued and not started before its time.
  lemma DelayHonoured(c: Config, run: seq<(Event, Tick)>, x: JobId)
    requires Feasible(c, EMPTY, run)
    ensures var s := Run(c, EMPTY, run);
            x in Known(s) && Waits(Known(s)[x]) ==>
              var j, at := Known(s)[x], Known(s)[x].runAt.value;
              && (x in s.queue || x in s.running ==> s.clock >= at)
              && (j.startedAt.Some? ==> j.startedAt.value >= at)
  {
    EmptyGood(c);
    RunTimely(c, EMPTY, run);
    RunGood(c, EMPTY, run);
  }

  // Some run starts a job of this delay before its time.
  ghost predicate StartsEarly(c: Config, delay: int)
  {
    exists run, x :: Feasible(c, EMPTY, run) && EarlyIn(Run(c, EMPTY, run), x, delay)
  }

  ghost predicate EarlyIn(s: State, x: JobId, delay: int)
  {
    && x in s.jobs && s.jobs[x].delay == delay && s.jobs[x].runAt.Some?
    && s.jobs[x].startedAt.Some? && s.jobs[x].startedAt.value < s.jobs[x].runAt.value
  }

  // The exact limit: with room to add and to run a job, one of this delay can start early if and
  // only if its delay is beyond what a timer can wait.
  lemma StartsEarlyIffTooLong(c: Config, delay: int)
    requires c.concurrency >= 1 && c.maxDepth >= 1 && delay > 0
    ensures StartsEarly(c, delay) <==> delay > MAX_TIMER_MS
  {
    if delay > MAX_TIMER_MS {
      EarlyRun(c, delay);
    } else if StartsEarly(c, delay) {
      var run, x :| Feasible(c, EMPTY, run) && EarlyIn(Run(c, EMPTY, run), x, delay);
      DelayHonoured(c, run, x);
    }
  }

  function Ready(): State
  {
    EMPTY.(processing := true, handlers := {"report"})
  }

  // Started, given a handler, and added at time 0; the timer is due at 1.
  lemma EarlyRun(c: Config, delay: int)
    requires c.concurrency >= 1 && c.maxDepth >= 1 && delay > MAX_TIMER_MS
    ensures StartsEarly(c, delay)
  {
    var request := Request("report", 0, delay, 0, Some(60000));
    var now, later := Tick(0, {}), Tick(1, {});
    var armed := Add(c, Ready(), request, 1, now).0;
    assert armed.timers == [Timer(1, 1)] && armed.queue == [] && armed.processing;
    EarlyFire(c, armed, later);
    var started := Step(c, armed, TimerFires(0), later);
    var fire := [(TimerFires(0), later)] + [];
    RunFrom(c, armed, TimerFires(0), later, []);
    EarlyStart(c, request, fire);
    assert EarlyIn(started, 1, delay);
  }

  lemma EarlyStart(c: Config, request: Request, rest: seq<(Event, Tick)>)
    requires Feasible(c, Add(c, Ready(), request, 1, Tick(0, {})).0, rest)
    ensures exists run ::
              && Feasible(c, EMPTY, run)
              && Run(c, EMPTY, run) == Run(c, Add(c, Ready(), request, 1, Tick(0, {})).0, rest)
  {
    var now := Tick(0, {});
    var idle := EMPTY.(processing := true);
    assert Step(c, EMPTY, StartQueue, now) == idle;
    assert Step(c, idle, RegisterHandler("report"), now) == Ready();
    assert Step(c, Ready(), AddJob(request, 1), now) == Add(c, Ready(), request, 1, now).0;
    RunFrom(c, Ready(), AddJob(request, 1), now, rest);
    RunFrom(c, idle, RegisterHandler("report"), now, [(AddJob(request, 1), now)] + rest);
    RunFrom(c, EMPTY, StartQueue, now, [(RegisterHandler("report"), now)] + ([(AddJob(request, 1), now)] + rest));
  }

  // A timer that fires for a queued job of a free queue starts it.
  lemma EarlyFire(c: Config, s: State, t: Tick)
    requires s.timers == [Timer(1, 1)] && s.queue == [] && s.processing && s.active < c.concurrency && t == Tick(1, {})
    requires StillQueued(s.jobs, 1) && s.jobs[1].kind in s.handlers && s.jobs[1].timeoutMs > 0 && s.clock <= 1
    ensures Step(c, s, TimerFires(0), t).jobs == s.jobs[1 := s.jobs[1].(status := Running, startedAt := Some(1))]
  {
    var u := Insert(s.(clock := 1, timers := []), 1);
    assert u.queue == [1];
    assert Drain(c, Dispatch(c, u, t), t) == Dispatch(c, u, t);
  }

  // ---- backoffs are honoured -------------------------------------------------------------

  // The last backoff of x, if a timer can wait that long, is not cut short.
  ghost predicate Rested(s: State, x: JobId)
  {
    x in s.hist.respites && s.hist.respites[x].attempts <= 21 ==> NotBefore(s, x, s.hist.respites[x].until)
  }

  // After a failed attempt, nothing can start the job before its backoff is over if and only if
  // there have been at most 21 of them; the 22nd makes the timer due a millisecond later.
  lemma BackoffHonouredIff(c: Config, s: State, id: JobId, r: State)
    requires Inv(c, s) && id in s.jobs && s.jobs[id].status == Running && r == FailRun(c, s, id, s.clock)
    requires s.jobs[id].attempts + 1 < s.jobs[id].maxAttempts
    ensures var a := s.jobs[id].attempts + 1;
            && id in r.hist.respites && r.hist.respites[id] == Respite(s.clock + BackoffMs(a), a)
            && (NotBefore(r, id, s.clock + BackoffMs(a)) <==> a <= 21)
            && Timer(id, if a <= 21 then s.clock + BackoffMs(a) else s.clock + 1) in r.timers
  {
    var a := s.jobs[id].attempts + 1;
    var j := s.jobs[id].(attempts := a, error := Some(HandlerError));
    var q := j.(status := Queued, startedAt := None);
    var timer := Timer(id, s.clock + TimerDelay(BackoffMs(a)));
    KnownPut(s, id, q);
    assert Known(r) == Known(s)[id := q] && r.timers == s.timers + [timer] && r.queue == s.queue;
    assert id !in Elems(s.queue) && id !in Owners(s.timers);
    assert forall t | t in s.timers :: t.job in Owners(s.timers);
    BackoffHonoured(a);
    assert timer in r.timers;
  }

  lemma FailRunRested(c: Config, s: State, id: JobId, x: JobId)
    requires Inv(c, s) && Rested(s, x) && id in s.jobs && s.jobs[id].status == Running
    ensures Rested(FailRun(c, s, id, s.clock), x)
  {
    if s.jobs[id].attempts + 1 < s.jobs[id].maxAttempts && id == x {
      BackoffHonouredIff(c, s, id, FailRun(c, s, id, s.clock));
    } else if x in s.hist.respites && s.hist.respites[x].attempts <= 21 {
      FailRunNotBefore(c, s, id, x, s.hist.respites[x].until);
    }
  }

  lemma ExecuteRested(c: Config, s: State, id: JobId, t: Tick, x: JobId, r: State)
    requires InvBut(c, s, {id}) && Rested(s, x) && StillQueued(s.jobs, id) && s.active < c.concurrency
             && s.clock == t.now
    requires (id == x && x in s.hist.respites && s.hist.respites[x].attempts <= 21 ==>
             s.clock >= s.hist.respites[x].until)
    requires r == Execute(c, s, id, t)
    ensures Rested(r, x)
  {
    var u := Launch(c, s, id, t.now);
    if s.jobs[id].kind in s.handlers && s.jobs[id].timeoutMs <= 0 && id in t.throws {
      if x in s.hist.respites && s.hist.respites[x].attempts <= 21 {
        LaunchNotBefore(c, s, id, x, s.hist.respites[x].until);
      }
      LaunchPlaces(c, s, id, t.now);
      FailRunRested(c, u, id, x);
    } else if x in s.hist.respites && s.hist.respites[x].attempts <= 21 {
      ExecuteNotBefore(c, s, id, t, x, s.hist.respites[x].until, r);
    }
  }

  lemma DispatchRested(c: Config, s: State, t: Tick, x: JobId)
    requires Inv(c, s) && Rested(s, x) && CanDispatch(c, s) && s.clock == t.now
    ensures Rested(Dispatch(c, s, t), x)
  {
    var id, s1 := s.queue[0], s.(queue := s.queue[1..]);
    HeadOpens(c, s);
    assert Known(s1) == Known(s) && id in s.queue;
    ExecuteRested(c, s1, id, t, x, Dispatch(c, s, t));
  }

  lemma {:induction false} DrainRested(c: Config, s: State, t: Tick, x: JobId)
    requires Inv(c, s) && Rested(s, x) && s.clock == t.now
    ensures Rested(Drain(c, s, t), x)
    decreases |s.queue|
  {
    if CanDispatch(c, s) {
      DispatchPlaces(c, s, t);
      DispatchRested(c, s, t, x);
      DispatchClock(c, s, t);
      DrainRested(c, Dispatch(c, s, t), t, x);
    }
  }

  lemma EnqueueRested(c: Config, s: State, id: JobId, t: Tick, x: JobId)
    requires InvBut(c, s, {id}) && StillQueued(s.jobs, id) && Rested(s, x) && s.clock == t.now
    requires (id == x && x in s.hist.respites && s.hist.respites[x].attempts <= 21 ==>
             s.clock >= s.hist.respites[x].until)
    ensures Rested(Drain(c, Insert(s, id), t), x)
  {
    if x in s.hist.respites && s.hist.respites[x].attempts <= 21 {
      InsertNotBefore(s, id, x, s.hist.respites[x].until);
    }
    InsertPlaces(c, s, id);
    DrainRested(c, Insert(s, id), t, x);
  }

  lemma AddRested(c: Config, s: State, r: Request, id: JobId, t: Tick, x: JobId)
    requires Inv(c, s) && Minted(s) && Rested(s, x) && id !in s.hist.minted && s.clock == t.now
    ensures Rested(Add(c, s, r, id, t).0, x)
  {
    if |s.queue| < c.maxDepth {
      var j := NewJob(c, r, id, t.now);
      var s1 := Store(c, s, j);
      StoreOpens(c, s, j);
      assert x == id ==> x !in s.hist.respites;
      if x in s.hist.respites && s.hist.respites[x].attempts <= 21 {
        PutNotBefore(s, id, j, x, s.hist.respites[x].until);
        assert Known(s1) == Known(s.(jobs := s.jobs[id := j]));
      }
      assert Rested(s1, x);
      if r.delay <= 0 {
        EnqueueRested(c, s1, id, t, x);
      }
    }
  }

  lemma FireRested(c: Config, s: State, i: nat, t: Tick, x: JobId)
    requires Inv(c, s) && Rested(s, x) && i < |s.timers| && s.timers[i].due <= s.clock == t.now
    ensures Rested(Fire(c, s, i, t), x)
  {
    var s1, id := s.(timers := RemoveAt(s.timers, i)), s.timers[i].job;
    FireOpens(c, s, i);
    assert Known(s1) == Known(s) && s.timers[i] in s.timers;
    if StillQueued(s.jobs, id) {
      EnqueueRested(c, s1, id, t, x);
    }
  }

  lemma SettleRested(c: Config, s: State, id: JobId, ok: bool, t: Tick, x: JobId)
    requires Inv(c, s) && Rested(s, x) && id in s.jobs && s.jobs[id].status == Running && s.clock == t.now
    ensures Rested(Settle(c, s, id, ok, t), x)
  {
    if ok {
      if x in s.hist.respites && s.hist.respites[x].attempts <= 21 {
        CompleteRunNotBefore(c, s, id, x, s.hist.respites[x].until);
      }
      CompleteRunPlaces(c, s, id, t.now);
      DrainRested(c, CompleteRun(c, s, id, t.now), t, x);
    } else {
      FailRunRested(c, s, id, x);
      FailRunPlaces(c, s, id, t.now);
      DrainRested(c, FailRun(c, s, id, t.now), t, x);
    }
  }

  lemma StepRested(c: Config, s: State, e: Event, t: Tick, x: JobId)
    requires Inv(c, s) && Minted(s) && Rested(s, x) && Enabled(s, e, t)
    ensures Rested(Step(c, s, e, t), x)
  {
    var s0 := s.(clock := t.now);
    assert Known(s0) == Known(s) && Rested(s0, x);
    match e
    case AddJob(r, id) => AddRested(c, s0, r, id, t, x);
    case TimerFires(i) => FireRested(c, s0, i, t, x);
    case HandlerSettles(id, ok) => SettleRested(c, s0, id, ok, t, x);
    case CancelJob(id) =>
      if x in s.hist.respites && s.hist.respites[x].attempts <= 21 {
        CancelNotBefore(c, s0, id, x, s.hist.respites[x].until);
      }
    case StartQueue =>
      if !s.processing {
        assert Known(s0.(processing := true)) == Known(s);
        DrainRested(c, s0.(processing := true), t, x);
      }
    case StopQueue =>
    case RegisterHandler(kind) =>
    case FlushFires => assert Known(Flush(s0)) == Known(s);
    case CrashAndBoot => CrashRested(s0, t.now, x);
  }

  // A crash forgets the backoffs.
  lemma CrashRested(s: State, now: int, x: JobId)
    ensures Rested(Crash(s, now), x)
  {
    if s.disk.Some? {
      ResumeForgets(Booted(s.disk.value, now), Booted(s.disk.value, now).order, now);
    }
  }

  lemma {:induction false} ResumeForgets(b: State, ids: seq<JobId>, now: int)
    ensures Resume(b, ids, now).hist == b.hist
    decreases |ids|
  {
    if ids != [] {
      ResumeForgets(ResumeOne(b, ids[0], now), ids[1..], now);
    }
  }

  lemma {:induction false} RunRested(c: Config, s: State, run: seq<(Event, Tick)>, x: JobId)
    requires Good(c, s) && Timely(s) && Rested(s, x) && Feasible(c, s, run)
    ensures Rested(Run(c, s, run), x)
    decreases |run|
  {
    if run != [] {
      StepGood(c, s, run[0].0, run[0].1);
      StepTimely(c, s, run[0].0, run[0].1);
      StepRested(c, s, run[0].0, run[0].1, x);
      RunRested(c, Step(c, s, run[0].0, run[0].1), run[1..], x);
    }
  }

  // In every run, whatever the job has done since, evicted or not: a job that backed off after at
  // most 21 failed attempts is not queued and not started before the backoff is over. A crash
  // forgets the backoff, and with it the promise.
  lemma RetryHonoured(c: Config, run: seq<(Event, Tick)>, x: JobId)
    requires Feasible(c, EMPTY, run)
    ensures var s := Run(c, EMPTY, run);
            x in s.hist.respites && s.hist.respites[x].attempts <= 21 ==>
              var until := s.hist.respites[x].until;
              && (x in s.queue || x in s.running ==> s.clock >= until)
              && (x in Known(s) && Known(s)[x].startedAt.Some? ==> Known(s)[x].startedAt.value >= until)
  {
    EmptyGood(c);
    RunRested(c, EMPTY, run, x);
    RunGood(c, EMPTY, run);
  }
}
