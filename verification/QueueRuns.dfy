/**
 The queue over whole runs, crashes included: placement and saturation hold in every reachable
 state, and while no snapshot write is pending the disk holds every job.
 */
module QueueRuns {
  import opened Common
  import opened QueueModel
  import opened QueuePlacement
  import opened QueueRecovery

  // The records and the order a reboot would read from disk.
  function Saved(s: State): State
  {
    match s.disk case Some(snap) => Loaded(snap, 0) case None => EMPTY
  }

  ghost predicate DiskOk(s: State)
  {
    && (s.disk.Some? ==> Readable(s.disk.value))
    && (forall id :: id in Saved(s).jobs ==> id in s.hist.minted)
  }

  // With no write pending, the disk holds every job as it now is; a queue that does not persist
  // writes nothing.
  ghost predicate Durable(c: Config, s: State)
  {
    && (c.persists && !s.flushPending ==> Saved(s).jobs == RequeueAll(s.jobs) && Saved(s).order == s.order)
    && (!c.persists ==> !s.flushPending && s.disk.None?)
  }

  ghost predicate Good(c: Config, s: State)
  {
    Inv(c, s) && Saturated(c, s) && DiskOk(s) && Durable(c, s)
  }

  // From s to r nothing was written, and every change of a record asked for a write.
  ghost predicate Tracks(c: Config, s: State, r: State)
  {
    && r.disk == s.disk
    && s.hist.minted <= r.hist.minted
    && (s.flushPending ==> r.flushPending)
    && (c.persists && !r.flushPending ==> r.jobs == s.jobs && r.order == s.order)
    && (!c.persists && !s.flushPending ==> !r.flushPending)
  }

  lemma DispatchTracks(c: Config, s: State, t: Tick)
    requires s.queue != []
    ensures Tracks(c, s, Dispatch(c, s, t))
  {}

  lemma {:induction false} DrainTracks(c: Config, s: State, t: Tick)
    ensures Tracks(c, s, Drain(c, s, t))
    decreases |s.queue|
  {
    if CanDispatch(c, s) {
      DispatchTracks(c, s, t);
      DrainTracks(c, Dispatch(c, s, t), t);
    }
  }

  lemma StepTracks(c: Config, s: State, e: Event, t: Tick)
    requires Enabled(s, e, t) && !e.CrashAndBoot? && !e.FlushFires?
    ensures Tracks(c, s, Step(c, s, e, t))
  {
    var s0 := s.(clock := t.now);
    match e
    case AddJob(r, id) =>
      var s1 := Store(c, s0, NewJob(c, r, id, t.now));
      DrainTracks(c, Insert(s1, id), t);
    case TimerFires(i) =>
      var s1 := s0.(timers := RemoveAt(s.timers, i));
      if StillQueued(s1.jobs, s.timers[i].job) { DrainTracks(c, Insert(s1, s.timers[i].job), t); }
    case HandlerSettles(id, ok) =>
      DrainTracks(c, if ok then CompleteRun(c, s0, id, t.now) else FailRun(c, s0, id, t.now), t);
    case CancelJob(id) =>
    case StartQueue => DrainTracks(c, s0.(processing := true), t);
    case StopQueue =>
    case RegisterHandler(kind) =>
  }

  lemma TracksKeeps(c: Config, s: State, r: State)
    requires Tracks(c, s, r) && DiskOk(s) && Durable(c, s)
    ensures DiskOk(r) && Durable(c, r)
  {}

  lemma FlushGood(c: Config, s: State)
    requires Good(c, s) && s.flushPending
    ensures Good(c, Flush(s))
  {
    LoadedSnapshot(s, 0);
    assert EMPTY.(clock := 0) == EMPTY;
    BootedSnapshot(c, s, 0);
  }

  lemma CrashGood(c: Config, s: State, now: int)
    requires Good(c, s)
    ensures Good(c, Crash(s, now))
    ensures Crash(s, now).jobs == Saved(s).jobs && Crash(s, now).order == Saved(s).order
  {
    if s.disk.Some? {
      RecoverPlaces(c, s.disk.value, now);
    } else {
      assert RequeueAll(EMPTY.jobs) == EMPTY.jobs;
    }
  }

  lemma StepGood(c: Config, s: State, e: Event, t: Tick)
    requires Good(c, s) && Enabled(s, e, t)
    ensures Good(c, Step(c, s, e, t))
  {
    var s0 := s.(clock := t.now);
    if e.CrashAndBoot? {
      CrashGood(c, s0, t.now);
    } else if e.FlushFires? {
      FlushGood(c, s0);
    } else {
      StepPlaces(c, s, e, t);
      StepTracks(c, s, e, t);
      TracksKeeps(c, s, Step(c, s, e, t));
    }
  }

  // Every state of every run is good: this is the inductive invariant of the whole queue.
  lemma {:induction false} RunGood(c: Config, s: State, run: seq<(Event, Tick)>)
    requires Good(c, s) && Feasible(c, s, run)
    ensures Good(c, Run(c, s, run))
    decreases |run|
  {
    if run != [] {
      StepGood(c, s, run[0].0, run[0].1);
      RunGood(c, Step(c, s, run[0].0, run[0].1), run[1..]);
    }
  }

  lemma EmptyGood(c: Config)
    ensures Good(c, EMPTY)
  {
    assert RequeueAll(EMPTY.jobs) == EMPTY.jobs;
  }

  // The placement theorem, spelled out for any run of the queue from empty.
  lemma EveryJobHasOnePlace(c: Config, run: seq<(Event, Tick)>, id: JobId)
    requires Feasible(c, EMPTY, run) && id in Run(c, EMPTY, run).jobs
    ensures var s := Run(c, EMPTY, run);
            && Distinct(s.queue) && OneEach(s.timers)
            && (s.jobs[id].status == Queued ==> (id in s.queue <==> id !in Owners(s.timers)))
            && (s.jobs[id].status != Queued ==> id !in s.queue)
            && (s.jobs[id].status == Running <==> id in s.running)
            && (s.jobs[id].status == Running ==> id !in Owners(s.timers))
    ensures var s := Run(c, EMPTY, run);
            && s.active == |s.running| <= Max(0, c.concurrency)
            && (s.processing ==> s.active >= c.concurrency || s.queue == [])
  {
    EmptyGood(c);
    RunGood(c, EMPTY, run);
    var s := Run(c, EMPTY, run);
    assert id in s.queue <==> id in Elems(s.queue);
    assert StillQueued(s.jobs, id) <==> s.jobs[id].status == Queued;
  }

  lemma RunFrom(c: Config, s: State, e: Event, t: Tick, rest: seq<(Event, Tick)>)
    requires Enabled(s, e, t) && Feasible(c, Step(c, s, e, t), rest)
    ensures Feasible(c, s, [(e, t)] + rest) && Run(c, s, [(e, t)] + rest) == Run(c, Step(c, s, e, t), rest)
  {
    assert ([(e, t)] + rest)[1..] == rest;
  }

  lemma {:induction false} RunOn(c: Config, s: State, run: seq<(Event, Tick)>, more: seq<(Event, Tick)>)
    requires Feasible(c, s, run) && Feasible(c, Run(c, s, run), more)
    ensures Feasible(c, s, run + more) && Run(c, s, run + more) == Run(c, Run(c, s, run), more)
    decreases |run|
  {
    if run == [] {
      assert run + more == more;
    } else {
      assert (run + more)[1..] == run[1..] + more;
      RunOn(c, Step(c, s, run[0].0, run[0].1), run[1..], more);
    }
  }
}
