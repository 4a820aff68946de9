/**
 Handler starts over a whole run, crashes included. While every crash comes with no snapshot write
 pending, all a job gets beyond its attempts is one start for each crash that interrupts it.
 */
module QueueStarts {
  import opened Common
  import opened QueueModel
  import opened QueueRecovery
  import opened QueueRuns
  import opened QueueBudget

  // ---- what a run is counted by ----------------------------------------------------------

  // Every crash of the run comes when no write is pending.
  ghost predicate CalmCrashes(c: Config, s: State, run: seq<(Event, Tick)>)
    requires Feasible(c, s, run)
    decreases |run|
  {
    run == [] ||
    ((run[0].0.CrashAndBoot? ==> !s.flushPending) && CalmCrashes(c, Step(c, s, run[0].0, run[0].1), run[1..]))
  }

  // How often the handler of the job is started, over all processes of the run: what each has
  // counted by the time it ends.
  ghost function StartsIn(c: Config, s: State, run: seq<(Event, Tick)>, id: JobId): nat
    requires Feasible(c, s, run)
    decreases |run|
  {
    if run == [] then Count(s.hist.starts, id)
    else
      (if run[0].0.CrashAndBoot? then Count(s.hist.starts, id) else 0)
      + StartsIn(c, Step(c, s, run[0].0, run[0].1), run[1..], id)
  }

  predicate AtWork(s: State, id: JobId)
  {
    id in s.jobs && s.jobs[id].status == Running
  }

  // How many crashes come while its handler is at work.
  ghost function Interrupted(c: Config, s: State, run: seq<(Event, Tick)>, id: JobId): nat
    requires Feasible(c, s, run)
    decreases |run|
  {
    if run == [] then 0
    else
      (if run[0].0.CrashAndBoot? && AtWork(s, id) then 1 else 0)
      + Interrupted(c, Step(c, s, run[0].0, run[0].1), run[1..], id)
  }

  function Crashes(run: seq<(Event, Tick)>): nat
  {
    if run == [] then 0 else (if run[0].0.CrashAndBoot? then 1 else 0) + Crashes(run[1..])
  }

  // The attempts the job is admitted with.
  ghost function Granted(c: Config, s: State, run: seq<(Event, Tick)>, id: JobId): nat
    requires Feasible(c, s, run)
    decreases |run|
  {
    if run == [] then 0
    else Grant(c, s, run[0].0, run[0].1, id) + Granted(c, Step(c, s, run[0].0, run[0].1), run[1..], id)
  }

  function Grant(c: Config, s: State, e: Event, t: Tick, id: JobId): nat
  {
    if e.AddJob? && e.id == id then Admitted(c, s, e, t) else 0
  }

  // ---- one step --------------------------------------------------------------------------

  // What this process may start the handler for, from the job as it first saw it.
  function Allowance(base: map<JobId, Job>, id: JobId): int
  {
    if id in base then Cap(base[id]) - Spent(base[id]) else 0
  }

  lemma FailRunBase(c: Config, s: State, id: JobId, now: int)
    requires id in s.jobs
    ensures FailRun(c, s, id, now).hist.base == s.hist.base
  {
    var j := s.jobs[id].(attempts := s.jobs[id].attempts + 1, error := Some(HandlerError));
    if j.attempts < j.maxAttempts {
      RetryBase(c, s, id, j, now);
    } else {
      GiveUpBase(c, s, id, j, now);
    }
  }

  lemma RetryBase(c: Config, s: State, id: JobId, j: Job, now: int)
    ensures Retry(c, s, id, j, now).hist.base == s.hist.base
  {}

  lemma GiveUpBase(c: Config, s: State, id: JobId, j: Job, now: int)
    ensures GiveUp(c, s, id, j, now).hist.base == s.hist.base
  {}

  lemma ExecuteBase(c: Config, s: State, id: JobId, t: Tick)
    requires id in s.jobs
    ensures Execute(c, s, id, t).hist.base == s.hist.base
  {
    FailRunBase(c, Launch(c, s, id, t.now), id, t.now);
  }

  lemma DispatchBase(c: Config, s: State, t: Tick)
    requires s.queue != []
    ensures Dispatch(c, s, t).hist.base == s.hist.base
  {
    if StillQueued(s.jobs, s.queue[0]) {
      ExecuteBase(c, s.(queue := s.queue[1..]), s.queue[0], t);
    }
  }

  lemma {:induction false} DrainBase(c: Config, s: State, t: Tick)
    ensures Drain(c, s, t).hist.base == s.hist.base
    decreases |s.queue|
  {
    if CanDispatch(c, s) {
      DispatchBase(c, s, t);
      DrainBase(c, Dispatch(c, s, t), t);
    }
  }

  lemma AddBase(c: Config, s: State, r: Request, id: JobId, t: Tick)
    ensures Add(c, s, r, id, t).0.hist.base
         == if |s.queue| < c.maxDepth then s.hist.base[id := NewJob(c, r, id, t.now)] else s.hist.base
  {
    if |s.queue| < c.maxDepth && r.delay <= 0 {
      DrainBase(c, Insert(Store(c, s, NewJob(c, r, id, t.now)), id), t);
    }
  }

  lemma StepBase(c: Config, s: State, e: Event, t: Tick)
    requires Enabled(s, e, t) && !e.CrashAndBoot?
    ensures Step(c, s, e, t).hist.base
         == if e.AddJob? && |s.queue| < c.maxDepth then s.hist.base[e.id := NewJob(c, e.request, e.id, t.now)]
            else s.hist.base
  {
    var s0 := s.(clock := t.now);
    match e
    case AddJob(r, id) => AddBase(c, s0, r, id, t);
    case TimerFires(i) =>
      if StillQueued(s.jobs, s.timers[i].job) {
        DrainBase(c, Insert(s0.(timers := RemoveAt(s.timers, i)), s.timers[i].job), t);
      }
    case HandlerSettles(id, ok) =>
      DrainBase(c, if ok then CompleteRun(c, s0, id, t.now) else FailRun(c, s0, id, t.now), t);
    case CancelJob(id) =>
    case StartQueue => DrainBase(c, s0.(processing := true), t);
    case StopQueue =>
    case RegisterHandler(kind) =>
    case FlushFires =>
  }

  // A new job may be started as often as it has attempts, and nothing else changes.
  lemma StepAllowance(c: Config, s: State, boot: map<JobId, Job>, e: Event, t: Tick, id: JobId)
    requires Ledger(s, boot) && Enabled(s, e, t) && !e.CrashAndBoot?
    ensures Allowance(Step(c, s, e, t).hist.base, id) == Allowance(s.hist.base, id) + Grant(c, s, e, t, id)
  {
    StepBase(c, s, e, t);
  }

  // A process starts no handler more often than it may.
  lemma StartsAllowed(s: State, boot: map<JobId, Job>, id: JobId)
    requires Ledger(s, boot)
    ensures Count(s.hist.starts, id) <= Allowance(s.hist.base, id)
    ensures id in s.jobs ==>
              Count(s.hist.starts, id) + Cap(s.jobs[id]) - Spent(s.jobs[id]) == Allowance(s.hist.base, id)
  {
    if id in s.hist.base {
      assert id in Known(s);
      assert LedgerOk(Known(s)[id], s.hist.base[id], Count(s.hist.starts, id), Requested(s.hist.backoff, id));
    }
  }

  lemma CrashBase(s: State, now: int)
    ensures Crash(s, now).hist.base == Crash(s, now).jobs
  {
    if s.disk.Some? {
      LoadedOkNow(s.disk.value, now);
      ResumeAdds(Booted(s.disk.value, now), Booted(s.disk.value, now).order, now);
    }
  }

  // A crash with no write pending gives back the start in flight, and nothing else.
  lemma CrashAllowance(c: Config, s: State, boot: map<JobId, Job>, now: int, id: JobId)
    requires Good(c, s) && Ledger(s, boot) && !s.flushPending
    ensures Count(s.hist.starts, id) + Allowance(Crash(s, now).hist.base, id)
         <= Allowance(s.hist.base, id) + if AtWork(s, id) then 1 else 0
  {
    StartsAllowed(s, boot, id);
    CrashBase(s, now);
    CrashGood(c, s, now);
  }

  // What a process has started when it ends and its successor may start is no more than it may,
  // and what the step admits or interrupts.
  lemma StepStarts(c: Config, s: State, boot: map<JobId, Job>, e: Event, t: Tick, id: JobId, r: State)
    requires Kept(c, s, boot) && Enabled(s, e, t) && (e.CrashAndBoot? ==> !s.flushPending) && r == Step(c, s, e, t)
    ensures (if e.CrashAndBoot? then Count(s.hist.starts, id) else 0) + Allowance(r.hist.base, id)
         <= Allowance(s.hist.base, id) + Grant(c, s, e, t, id) + if e.CrashAndBoot? && AtWork(s, id) then 1 else 0
  {
    if e.CrashAndBoot? {
      CrashAllowance(c, s.(clock := t.now), boot, t.now, id);
    } else {
      StepAllowance(c, s, boot, e, t, id);
    }
  }

  // ---- whole runs ------------------------------------------------------------------------

  lemma {:induction false} RunStarts(
    c: Config, s: State, boot: map<JobId, Job>, run: seq<(Event, Tick)>, id: JobId)
    requires Kept(c, s, boot) && Feasible(c, s, run) && CalmCrashes(c, s, run)
    ensures StartsIn(c, s, run, id)
         <= Allowance(s.hist.base, id) + Granted(c, s, run, id) + Interrupted(c, s, run, id)
    decreases |run|
  {
    if run == [] {
      StartsAllowed(s, boot, id);
    } else {
      var e, t := run[0].0, run[0].1;
      var r := Step(c, s, e, t);
      StepKept(c, s, e, t, boot);
      StepStarts(c, s, boot, e, t, id, r);
      RunStarts(c, r, if e.CrashAndBoot? then r.jobs else boot, run[1..], id);
    }
  }

  lemma {:induction false} InterruptedByCrashes(c: Config, s: State, run: seq<(Event, Tick)>, id: JobId)
    requires Feasible(c, s, run)
    ensures Interrupted(c, s, run, id) <= Crashes(run)
    decreases |run|
  {
    if run != [] {
      InterruptedByCrashes(c, Step(c, s, run[0].0, run[0].1), run[1..], id);
    }
  }

  // In every run whose crashes come with no write pending, the handler of a job is started at most
  // as often as it was admitted with attempts, and once more for each crash that interrupted it.
  lemma StartsOverCrashes(c: Config, run: seq<(Event, Tick)>, id: JobId)
    requires Feasible(c, EMPTY, run) && CalmCrashes(c, EMPTY, run)
    ensures StartsIn(c, EMPTY, run, id) <= Granted(c, EMPTY, run, id) + Interrupted(c, EMPTY, run, id)
    ensures StartsIn(c, EMPTY, run, id) <= Granted(c, EMPTY, run, id) + Crashes(run)
  {
    EmptyGood(c);
    RunStarts(c, EMPTY, map[], run, id);
    InterruptedByCrashes(c, EMPTY, run, id);
  }

  // The condition is needed: a failed attempt that is not yet written is given back as well.
  lemma UnwrittenAttemptComesBack(c: Config, s: State, id: JobId, t: Tick, now: int)
    requires Good(c, s) && c.persists && !s.flushPending && AtWork(s, id) && Enabled(s, HandlerSettles(id, false), t)
    ensures var r := Crash(Step(c, s, HandlerSettles(id, false), t), now);
            id in r.jobs && r.jobs[id].status == Queued && r.jobs[id].attempts == s.jobs[id].attempts
  {
    var u := Step(c, s, HandlerSettles(id, false), t);
    StepTracks(c, s, HandlerSettles(id, false), t);
    StepGood(c, s, HandlerSettles(id, false), t);
    CrashGood(c, u, now);
  }
}
