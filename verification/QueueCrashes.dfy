/**
 What a crash does to the queue: with no snapshot write pending every record comes back, but the
 dispatch order is the one last written, with the jobs that came due since behind it.
 */
module QueueCrashes {
  import opened Common
  import opened QueueModel
  import opened QueuePlacement
  import opened QueueRecovery
  import opened QueueRuns
  import opened QueueOrder

  // ---- recovery from a snapshot ----------------------------------------------------------

  // A job recovery puts at the end of the queue: it was in flight, or overdue but not queued.
  predicate ComesLate(jobs: map<JobId, Job>, queue: seq<JobId>, id: JobId, now: int)
  {
    && id in jobs && (jobs[id].status == Queued || jobs[id].status == Running)
    && id !in queue && RemainingMs(jobs[id], now) <= 0
  }

  // These jobs, in map order.
  function Late(jobs: map<JobId, Job>, queue: seq<JobId>, ids: seq<JobId>, now: int): seq<JobId>
  {
    if ids == [] then []
    else (if ComesLate(jobs, queue, ids[0], now) then [ids[0]] else []) + Late(jobs, queue, ids[1..], now)
  }

  lemma ResumeOneAppends(b: State, jobs: map<JobId, Job>, queue: seq<JobId>, id: JobId, now: int)
    requires b.jobs == RequeueAll(jobs) && (id in b.queue <==> id in queue)
    ensures var r := ResumeOne(b, id, now);
            r.jobs == b.jobs && r.queue == b.queue + if ComesLate(jobs, queue, id, now) then [id] else []
  {}

  lemma {:induction false} ResumeAppendsLate(
    b: State, jobs: map<JobId, Job>, queue: seq<JobId>, ids: seq<JobId>, now: int)
    requires b.jobs == RequeueAll(jobs) && Distinct(ids) && forall id | id in ids :: id in b.queue <==> id in queue
    ensures Resume(b, ids, now).queue == b.queue + Late(jobs, queue, ids, now)
    decreases |ids|
  {
    if ids != [] {
      TailElems(ids);
      ResumeOneAppends(b, jobs, queue, ids[0], now);
      ResumeAppendsLate(ResumeOne(b, ids[0], now), jobs, queue, ids[1..], now);
    }
  }

  // The recovered queue is the saved one with the late jobs behind it, in map order.
  lemma RecoveredQueue(c: Config, s: State, now: int)
    requires Inv(c, s)
    ensures Recover(TakeSnapshot(s), now).queue == s.queue + Late(s.jobs, s.queue, s.order, now)
  {
    BootedSnapshot(c, s, now);
    ResumeAppendsLate(Booted(TakeSnapshot(s), now), s.jobs, s.queue, s.order, now);
  }

  // Whatever is listed is known, and comes in descending priority.
  ghost predicate ByPriority(jobs: map<JobId, Job>, q: seq<JobId>)
  {
    && (forall id | id in q :: id in jobs)
    && (forall i, j :: 0 <= i < j < |q| ==> q[i] in jobs && q[j] in jobs && jobs[q[i]].priority >= jobs[q[j]].priority)
  }

  // No job of b outranks one of a.
  ghost predicate NoneOutranks(jobs: map<JobId, Job>, a: seq<JobId>, b: seq<JobId>)
  {
    forall x, y | x in a && y in b :: x in jobs && y in jobs && jobs[x].priority >= jobs[y].priority
  }

  lemma JoinedByPriority(jobs: map<JobId, Job>, a: seq<JobId>, b: seq<JobId>)
    ensures ByPriority(jobs, a + b) <==> ByPriority(jobs, a) && ByPriority(jobs, b) && NoneOutranks(jobs, a, b)
  {
    if ByPriority(jobs, a + b) {
      PartsByPriority(jobs, a, b);
    }
    if ByPriority(jobs, a) && ByPriority(jobs, b) && NoneOutranks(jobs, a, b) {
      WholeByPriority(jobs, a, b);
    }
  }

  lemma PartsByPriority(jobs: map<JobId, Job>, a: seq<JobId>, b: seq<JobId>)
    requires ByPriority(jobs, a + b)
    ensures ByPriority(jobs, a) && ByPriority(jobs, b) && NoneOutranks(jobs, a, b)
  {
    var q := a + b;
    forall i, j | 0 <= i < j < |a|
      ensures a[i] in jobs && a[j] in jobs && jobs[a[i]].priority >= jobs[a[j]].priority
    {
      assert q[i] == a[i] && q[j] == a[j];
    }
    forall i, j | 0 <= i < j < |b|
      ensures b[i] in jobs && b[j] in jobs && jobs[b[i]].priority >= jobs[b[j]].priority
    {
      assert q[|a| + i] == b[i] && q[|a| + j] == b[j];
    }
    forall id | id in a || id in b ensures id in jobs { assert id in q; }
    forall x, y | x in a && y in b ensures x in jobs && y in jobs && jobs[x].priority >= jobs[y].priority {
      var i :| 0 <= i < |a| && a[i] == x;
      var j :| 0 <= j < |b| && b[j] == y;
      assert q[i] == x && q[|a| + j] == y;
    }
  }

  lemma WholeByPriority(jobs: map<JobId, Job>, a: seq<JobId>, b: seq<JobId>)
    requires ByPriority(jobs, a) && ByPriority(jobs, b) && NoneOutranks(jobs, a, b)
    ensures ByPriority(jobs, a + b)
  {
    var q := a + b;
    forall id | id in q ensures id in jobs { assert id in a || id in b; }
    forall i, j | 0 <= i < j < |q|
      ensures q[i] in jobs && q[j] in jobs && jobs[q[i]].priority >= jobs[q[j]].priority
    {
      if i < |a| && j < |a| {
        assert q[i] == a[i] && q[j] == a[j];
      } else if i < |a| {
        assert q[i] == a[i] && q[j] == b[j - |a|];
        assert a[i] in a && b[j - |a|] in b;
      } else {
        assert q[i] == b[i - |a|] && q[j] == b[j - |a|];
      }
    }
  }

  lemma CarryPriority(jobs: map<JobId, Job>, now: map<JobId, Job>, q: seq<JobId>)
    requires ByPriority(jobs, q) && jobs.Keys <= now.Keys && SamePriorities(now, jobs)
    ensures ByPriority(now, q)
  {
    forall i, j | 0 <= i < j < |q| ensures q[i] in now && q[j] in now && now[q[i]].priority >= now[q[j]].priority {
      var x, y := q[i], q[j];
      assert x in q && y in q;
      assert x in jobs && y in jobs && jobs[x].priority >= jobs[y].priority;
      assert now[x].priority == jobs[x].priority && now[y].priority == jobs[y].priority;
    }
  }

  lemma SamePriority(jobs: map<JobId, Job>, q: seq<JobId>)
    ensures ByPriority(RequeueAll(jobs), q) <==> ByPriority(jobs, q)
  {
    var now := RequeueAll(jobs);
    if ByPriority(now, q) {
      CarryPriority(now, jobs, q);
    }
    if ByPriority(jobs, q) {
      CarryPriority(jobs, now, q);
    }
  }

  // Recovery from a snapshot keeps a queue in priority order if and only if the late jobs come by descending
  // priority and none of them outranks a saved one.
  lemma RecoveredInOrderIff(c: Config, s: State, now: int)
    requires Inv(c, s) && ByPriority(s.jobs, s.queue)
    ensures var r, late := Recover(TakeSnapshot(s), now), Late(s.jobs, s.queue, s.order, now);
            ByPriority(r.jobs, r.queue) <==> ByPriority(s.jobs, late) && NoneOutranks(s.jobs, s.queue, late)
  {
    var late := Late(s.jobs, s.queue, s.order, now);
    RecoverKeeps(c, s, now);
    RecoveredQueue(c, s, now);
    SamePriority(s.jobs, s.queue + late);
    JoinedByPriority(s.jobs, s.queue, late);
  }

  // A queue in dispatch order, as every crash-free run keeps it, is in priority order.
  lemma OrderedByPriority(c: Config, s: State)
    requires Inv(c, s) && Ordered(s)
    ensures ByPriority(s.jobs, s.queue)
  {
    QueuedKnown(c, s, {});
    forall i, j | 0 <= i < j < |s.queue|
      ensures s.queue[i] in s.jobs && s.queue[j] in s.jobs && s.jobs[s.queue[i]].priority >= s.jobs[s.queue[j]].priority
    {
      assert Before(s.jobs, s.hist.stamps, s.queue[i], s.queue[j]);
    }
  }

  // ---- a crash ---------------------------------------------------------------------------

  // The dispatch order a reboot finds on disk. Timers enqueue jobs without asking for a write, so
  // this need not be the queue even when no write is pending.
  function SavedQueue(s: State): seq<JobId>
  {
    match s.disk
    case Some(snap) => KeepQueued(RequeueAll(s.jobs), snap.queueOrder)
    case None => []
  }

  // The jobs that a crash at `now` would put behind that order.
  function LateAt(s: State, now: int): seq<JobId>
  {
    Late(s.jobs, SavedQueue(s), s.order, now)
  }

  lemma CrashQueue(c: Config, s: State, now: int)
    requires Good(c, s) && c.persists && !s.flushPending
    ensures Crash(s, now).queue == SavedQueue(s) + LateAt(s, now)
  {
    if s.disk.Some? {
      LoadedOkNow(s.disk.value, now);
      ResumeAppendsLate(Booted(s.disk.value, now), s.jobs, SavedQueue(s), s.order, now);
    } else {
      assert s.order == EMPTY.order;
    }
  }

  // A crash at any moment when no write is pending, after any run, brings back every job: running
  // ones as queued, all others exactly as they were, in the same order of the map. The queue is
  // the one last written, followed by every other job that is due.
  lemma CrashLosesNothing(c: Config, run: seq<(Event, Tick)>, now: int)
    requires c.persists && Feasible(c, EMPTY, run) && !Run(c, EMPTY, run).flushPending
    ensures var s := Run(c, EMPTY, run); var r := Crash(s, now);
            && Good(c, r) && r.order == s.order && r.jobs.Keys == s.jobs.Keys
            && (forall id | id in s.jobs ::
                  r.jobs[id] == if s.jobs[id].status == Running then s.jobs[id].(status := Queued, startedAt := None)
                                else s.jobs[id])
            && r.queue == SavedQueue(s) + LateAt(s, now)
            && !r.processing && r.running == {}
  {
    EmptyGood(c);
    RunGood(c, EMPTY, run);
    CrashGood(c, Run(c, EMPTY, run), now);
    CrashQueue(c, Run(c, EMPTY, run), now);
    CrashIdle(Run(c, EMPTY, run), now);
  }

  lemma CrashIdle(s: State, now: int)
    ensures !Crash(s, now).processing && Crash(s, now).running == {}
  {
    if s.disk.Some? {
      LoadedOkNow(s.disk.value, now);
      ResumeAdds(Booted(s.disk.value, now), Booted(s.disk.value, now).order, now);
    }
  }

  // In any such state the queue comes back in priority order if and only if the saved order and
  // the late jobs are, and none of these outranks a saved one.
  lemma CrashInOrderIff(c: Config, s: State, now: int)
    requires Good(c, s) && c.persists && !s.flushPending
    ensures var r := Crash(s, now);
            ByPriority(r.jobs, r.queue) <==>
              && ByPriority(s.jobs, SavedQueue(s)) && ByPriority(s.jobs, LateAt(s, now))
              && NoneOutranks(s.jobs, SavedQueue(s), LateAt(s, now))
  {
    CrashGood(c, s, now);
    CrashQueue(c, s, now);
    SamePriority(s.jobs, SavedQueue(s) + LateAt(s, now));
    JoinedByPriority(s.jobs, SavedQueue(s), LateAt(s, now));
  }

  // ---- the first crash -------------------------------------------------------------------

  // The saved order is in priority order.
  ghost predicate SavedInOrder(s: State)
  {
    s.disk.Some? ==> ByPriority(Saved(s).jobs, KeepQueued(Saved(s).jobs, s.disk.value.queueOrder))
  }

  lemma FlushInOrder(c: Config, s: State)
    requires Inv(c, s) && Ordered(s)
    ensures SavedInOrder(Flush(s))
  {
    LoadedSnapshot(s, 0);
    BootedSnapshot(c, s, 0);
    OrderedByPriority(c, s);
    SamePriority(s.jobs, s.queue);
  }

  lemma StepSavedInOrder(c: Config, s: State, e: Event, t: Tick)
    requires Inv(c, s) && Ordered(s) && SavedInOrder(s) && Enabled(s, e, t) && !e.CrashAndBoot?
    ensures SavedInOrder(Step(c, s, e, t))
  {
    if e.FlushFires? {
      FlushInOrder(c, s.(clock := t.now));
    } else {
      StepTracks(c, s, e, t);
    }
  }

  lemma {:induction false} RunSavedInOrder(c: Config, s: State, run: seq<(Event, Tick)>)
    requires Inv(c, s) && Saturated(c, s) && Ordered(s) && SavedInOrder(s) && Feasible(c, s, run) && CrashFree(run)
    ensures SavedInOrder(Run(c, s, run))
    decreases |run|
  {
    if run != [] {
      StepPlaces(c, s, run[0].0, run[0].1);
      StepOrdered(c, s, run[0].0, run[0].1);
      StepSavedInOrder(c, s, run[0].0, run[0].1);
      RunSavedInOrder(c, Step(c, s, run[0].0, run[0].1), run[1..]);
    }
  }

  // Until its first crash a queue is in priority order. A crash with no write pending keeps it so
  // if and only if the jobs that became due since the write, and those in flight, come by
  // descending priority and none of them outranks a saved one.
  lemma FirstCrashInOrderIff(c: Config, run: seq<(Event, Tick)>, now: int)
    requires c.persists && Feasible(c, EMPTY, run) && CrashFree(run) && !Run(c, EMPTY, run).flushPending
    ensures var s := Run(c, EMPTY, run); var r := Crash(s, now);
            && ByPriority(s.jobs, s.queue)
            && (ByPriority(r.jobs, r.queue) <==>
                  ByPriority(s.jobs, LateAt(s, now)) && NoneOutranks(s.jobs, SavedQueue(s), LateAt(s, now)))
  {
    var s := Run(c, EMPTY, run);
    EmptyGood(c);
    RunGood(c, EMPTY, run);
    RunOrdered(c, EMPTY, run);
    RunSavedInOrder(c, EMPTY, run);
    OrderedByPriority(c, s);
    CrashInOrderIff(c, s, now);
    SamePriority(s.jobs, SavedQueue(s));
  }

  // ---- an order that is lost -------------------------------------------------------------

  // A job of low priority, one of high priority with a delay, and the write of both.
  ghost function Written(c: Config, low: int, high: int, delay: int): State
  {
    var s := Add(c, EMPTY, Request("report", low, 0, 0, None), 1, Tick(0, {})).0;
    Flush(Add(c, s, Request("report", high, delay, 0, None), 2, Tick(0, {})).0)
  }

  lemma WrittenIs(c: Config, low: int, high: int, delay: int)
    requires c.persists && c.maxDepth >= 2 && delay > 0
    ensures var s := Written(c, low, high, delay);
            && s.jobs == map[1 := NewJob(c, Request("report", low, 0, 0, None), 1, 0),
                             2 := NewJob(c, Request("report", high, delay, 0, None), 2, 0)]
            && s.order == [1, 2] && s.queue == [1] && s.timers == [Timer(2, TimerDelay(delay))]
            && s.disk.Some? && s.disk.value.queueOrder == [1]
            && !s.flushPending && !s.processing && s.clock == 0
  {}

  // The delay passes, and the job is queued before the other; nothing is written.
  ghost function Due(c: Config, low: int, high: int, delay: int): State
  {
    var s := Written(c, low, high, delay);
    if s.timers == [] then s else Fire(c, s.(clock := delay), 0, Tick(delay, {}))
  }

  // Two queued jobs, the second of higher priority and due; only the first is in the saved order.
  ghost predicate Overtaken(s: State, now: int)
  {
    && s.jobs.Keys == {1, 2} && s.order == [1, 2] && s.queue == [2, 1]
    && s.disk.Some? && s.disk.value.queueOrder == [1] && !s.flushPending
    && s.jobs[1].status == Queued && s.jobs[2].status == Queued
    && s.jobs[1].priority < s.jobs[2].priority && RemainingMs(s.jobs[2], now) <= 0
  }

  lemma DueIs(c: Config, low: int, high: int, delay: int, now: int)
    requires c.persists && c.maxDepth >= 2 && 0 < delay <= now && low != 0 && high != 0 && low < high
    ensures Overtaken(Due(c, low, high, delay), now)
  {
    WrittenIs(c, low, high, delay);
    var w := Written(c, low, high, delay);
    assert Slot(w.jobs, [1], high) == 0;
    assert [2] + [1] == [2, 1];
  }

  lemma DueIsReached(c: Config, low: int, high: int, delay: int) returns (run: seq<(Event, Tick)>)
    requires c.persists && c.maxDepth >= 2 && 0 < delay <= MAX_TIMER_MS
    ensures Feasible(c, EMPTY, run) && Run(c, EMPTY, run) == Due(c, low, high, delay)
  {
    var now, first := Tick(0, {}), AddJob(Request("report", low, 0, 0, None), 1);
    var second := AddJob(Request("report", high, delay, 0, None), 2);
    var s1 := Step(c, EMPTY, first, now);
    var s2 := Step(c, s1, second, now);
    WrittenIs(c, low, high, delay);
    assert EMPTY.(clock := 0) == EMPTY && s1.(clock := 0) == s1 && s2.(clock := 0) == s2;
    var w := Step(c, s2, FlushFires, now);
    assert w == Written(c, low, high, delay);
    run := [(TimerFires(0), Tick(delay, {}))] + [];
    RunFrom(c, w, TimerFires(0), Tick(delay, {}), []);
    RunFrom(c, s2, FlushFires, now, run);
    run := [(FlushFires, now)] + run;
    RunFrom(c, s1, second, now, run);
    run := [(second, now)] + run;
    RunFrom(c, EMPTY, first, now, run);
    run := [(first, now)] + run;
  }

  // A crash can put a job of high priority behind one of low priority, though the queue was in
  // order and no write was pending.
  lemma CrashBreaksTheOrder(c: Config, low: int, high: int, delay: int, now: int)
    returns (run: seq<(Event, Tick)>)
    requires c.persists && c.maxDepth >= 2 && 0 < delay <= MAX_TIMER_MS && delay <= now
    requires low != 0 && high != 0 && low < high
    ensures Feasible(c, EMPTY, run) && OrderLost(Run(c, EMPTY, run), now)
  {
    run := DueIsReached(c, low, high, delay);
    EmptyGood(c);
    RunGood(c, EMPTY, run);
    DueIs(c, low, high, delay, now);
    OvertakenByCrash(c, Run(c, EMPTY, run), now);
  }

  ghost predicate OrderLost(s: State, now: int)
  {
    var r := Crash(s, now);
    && !s.flushPending && s.queue == [2, 1] && ByPriority(s.jobs, s.queue)
    && r.jobs == s.jobs && r.queue == [1, 2] && !ByPriority(r.jobs, r.queue)
  }

  lemma OvertakenByCrash(c: Config, s: State, now: int)
    requires Good(c, s) && c.persists && Overtaken(s, now)
    ensures OrderLost(s, now)
  {
    CrashGood(c, s, now);
    CrashQueue(c, s, now);
    OneIsLate(s, now);
    SwappedByPriority(s.jobs);
  }

  lemma OneIsLate(s: State, now: int)
    requires s.jobs.Keys == {1, 2} && s.order == [1, 2] && s.disk.Some? && s.disk.value.queueOrder == [1]
    requires s.jobs[1].status == Queued && s.jobs[2].status == Queued && RemainingMs(s.jobs[2], now) <= 0
    ensures RequeueAll(s.jobs) == s.jobs && SavedQueue(s) == [1] && LateAt(s, now) == [2]
    ensures [1] + [2] == [1, 2]
  {
    KeepAllQueued(RequeueAll(s.jobs), [1]);
    assert [1, 2][1..] == [2] && !ComesLate(s.jobs, [1], 1, now) && ComesLate(s.jobs, [1], 2, now);
    assert Late(s.jobs, [1], [2], now) == [2];
  }

  lemma SwappedByPriority(jobs: map<JobId, Job>)
    requires jobs.Keys == {1, 2} && jobs[1].priority < jobs[2].priority
    ensures ByPriority(jobs, [2, 1]) && !ByPriority(jobs, [1, 2])
  {
    assert [1, 2][0] == 1 && [1, 2][1] == 2;
  }
}
