/**
 The queue as the program runs it: fields updated in place, splices, shifts and deletions in
 loops, and _process re-entered by every job that ends synchronously. Each method is proved
 equal to the state function of QueueModel and keeps the placement invariant.
 */
module JobQueues {
  import opened Common
  import opened QueueModel
  import opened QueuePlacement
  import opened QueueRecovery

  class JobQueue {
    const c: Config
    var jobs: map<JobId, Job>
    var order: seq<JobId> // the insertion order of the jobs Map
    var queuedJobs: seq<JobId>
    var runningJobs: set<JobId>
    var handlers: set<string>
    var activeCount: int
    var isProcessing: bool
    var rejectedCount: nat
    var persistTimer: bool
    // The world around the queue: pending timers, the file on disk, the clock, the history.
    ghost var timers: seq<Timer>
    ghost var disk: Option<Snapshot>
    ghost var clock: int
    ghost var hist: History

    ghost function View(): State
      reads this
    {
      State(jobs, order, queuedJobs, runningJobs, activeCount, isProcessing, handlers, rejectedCount,
            timers, persistTimer, disk, clock, hist)
    }

    ghost predicate Valid()
      reads this
    {
      Inv(c, View()) && Saturated(c, View())
    }

    // A boot: `saved` is the snapshot on disk, if there is one and it parses.
    constructor (c: Config, saved: Option<Snapshot>, now: int)
      ensures this.c == c
      ensures View() == if c.persists && saved.Some? then Recover(saved.value, now) else EMPTY.(clock := now)
      ensures (saved.Some? ==> Readable(saved.value)) ==> Valid()
    {
      this.c := c;
      jobs, order, queuedJobs, runningJobs, handlers := map[], [], [], {}, {};
      activeCount, isProcessing, rejectedCount, persistTimer := 0, false, 0, false;
      timers, disk, clock, hist := [], None, now, NO_HISTORY;
      new;
      if c.persists && saved.Some? {
        LoadPersisted(saved.value, now);
        if Readable(saved.value) {
          RecoverPlaces(c, saved.value, now);
        }
      }
    }

    method RegisterHandler(kind: string)
      requires Valid()
      modifies this
      ensures Valid() && View() == old(View()).(handlers := old(View()).handlers + {kind})
    {
      handlers := handlers + {kind};
    }

    method AddJob(r: Request, id: JobId, t: Tick) returns (result: Result<JobId, QueueError>)
      requires Valid() && id !in hist.minted
      modifies this
      ensures Valid()
      ensures (View(), result) == Add(c, old(View()), r, id, t)
    {
      ghost var s := View();
      AddPlaces(c, s, r, id, t);
      if |queuedJobs| >= c.maxDepth {
        rejectedCount := rejectedCount + 1;
        return Err(QueueFull(c.maxDepth));
      }
      StoreOpens(c, s, NewJob(c, r, id, t.now));
      Accept(NewJob(c, r, id, t.now), t);
      return Ok(id);
    }

    method Accept(job: Job, t: Tick)
      requires job.status == Queued && MapOk(jobs[job.id := job], order + [job.id])
      modifies this
      ensures View() == var s1 := Store(c, old(View()), job);
                        if job.delay > 0 then Arm(s1, job.id, job.delay, t.now) else Drain(c, Insert(s1, job.id), t)
    {
      ghost var s := View();
      jobs := jobs[job.id := job];
      order := order + [job.id];
      hist := hist.(minted := hist.minted + {job.id}, base := hist.base[job.id := job]);
      SchedulePersist();
      assert View() == Store(c, s, job);
      if job.delay > 0 {
        timers := timers + [Timer(job.id, t.now + TimerDelay(job.delay))];
      } else {
        EnqueueJob(job.id, t);
      }
    }

    method CancelJob(id: JobId) returns (done: bool)
      requires Valid()
      modifies this
      ensures Valid() && (View(), done) == Cancel(c, old(View()), id)
    {
      CancelPlaces(c, View(), id);
      if id !in jobs || jobs[id].status == Running {
        return false;
      }
      jobs := jobs[id := jobs[id].(status := Cancelled)];
      RemoveFromQueue(id);
      SchedulePersist();
      return true;
    }

    method StartProcessing(t: Tick)
      requires Valid()
      modifies this
      ensures Valid() && View() == Start(c, old(View()), t)
    {
      StartPlaces(c, View(), t);
      if !isProcessing {
        isProcessing := true;
        Process(t);
      }
    }

    method StopProcessing()
      requires Valid()
      modifies this
      ensures Valid() && View() == old(View()).(processing := false)
    {
      isProcessing := false;
    }

    // A pending timer's callback.
    method TimerFires(ghost i: nat, id: JobId, t: Tick)
      requires Valid() && i < |timers| && timers[i].job == id
      modifies this
      ensures Valid() && View() == Fire(c, old(View()), i, t)
    {
      FirePlaces(c, View(), i, t);
      FireOpens(c, View(), i);
      timers := RemoveAt(timers, i);
      EnqueueJob(id, t);
    }

    // The continuation of _executeJob once the handler's promise settles or its budget runs out.
    method HandlerSettles(id: JobId, ok: bool, t: Tick)
      requires Valid() && id in runningJobs
      modifies this
      ensures Valid() && id in old(jobs) && View() == Settle(c, old(View()), id, ok, t)
    {
      SettlePlaces(c, View(), id, ok, t);
      if ok {
        CompleteRunPlaces(c, View(), id, t.now);
        CompleteJob(id, t.now);
      } else {
        FailRunPlaces(c, View(), id, t.now);
        FailJob(id, t.now);
      }
      Process(t);
    }

    method PersistNow()
      requires Valid()
      modifies this
      ensures Valid() && View() == Flush(old(View()))
    {
      var snap := SnapshotState();
      persistTimer := false;
      disk := Some(snap);
    }

    // ---- internals -----------------------------------------------------------------------

    method SchedulePersist()
      modifies this`persistTimer
      ensures View() == Persist(c, old(View()))
    {
      if !c.persists || persistTimer {
        return;
      }
      persistTimer := true;
    }

    method EnqueueJob(id: JobId, t: Tick)
      requires MapOk(jobs, order)
      modifies this
      ensures View() == Enqueue(c, old(View()), id, t)
    {
      if id !in jobs || jobs[id].status != Queued {
        return;
      }
      ghost var s := View();
      var job := jobs[id];
      var i := 0;
      while i < |queuedJobs| && !(queuedJobs[i] in jobs && job.priority > jobs[queuedJobs[i]].priority)
        invariant i <= |queuedJobs|
        invariant forall k :: 0 <= k < i ==> !(queuedJobs[k] in jobs && job.priority > jobs[queuedJobs[k]].priority)
      {
        i := i + 1;
      }
      assert Slot(jobs, queuedJobs, job.priority) == i;
      queuedJobs := queuedJobs[..i] + [id] + queuedJobs[i..];
      hist := hist.(stamps := hist.stamps[id := hist.nextStamp], nextStamp := hist.nextStamp + 1);
      assert View() == Insert(s, id);
      Process(t);
    }

    method RemoveFromQueue(id: JobId)
      modifies this`queuedJobs
      ensures queuedJobs == Dequeued(old(queuedJobs), id)
    {
      var i := 0;
      while i < |queuedJobs| && queuedJobs[i] != id
        invariant i <= |queuedJobs| && id !in queuedJobs[..i]
      {
        i := i + 1;
      }
      DequeuedAt(queuedJobs, id, i);
      if i < |queuedJobs| {
        queuedJobs := queuedJobs[..i] + queuedJobs[i + 1..];
      }
    }

    method Process(t: Tick)
      requires MapOk(jobs, order)
      modifies this
      ensures View() == Drain(c, old(View()), t)
      decreases |queuedJobs|, 0
    {
      if !isProcessing {
        return;
      }
      ghost var s := View();
      while activeCount < c.concurrency && |queuedJobs| > 0
        invariant s == View() && isProcessing && MapOk(jobs, order) && |queuedJobs| <= old(|queuedJobs|)
        invariant Drain(c, s, t) == Drain(c, old(View()), t)
        decreases |queuedJobs|
      {
        ghost var next := Dispatch(c, s, t);
        DispatchMapOk(c, s, t);
        DrainMapOk(c, next, t);
        DrainSettled(c, next, t);
        var id := queuedJobs[0];
        queuedJobs := queuedJobs[1..];
        if id in jobs && jobs[id].status == Queued {
          ExecuteJob(id, t);
        }
        assert View() == next || View() == Drain(c, next, t);
        s := View();
      }
    }

    // Up to the point where the job is running or, if it ended at once, through the nested
    // _process that follows.
    method ExecuteJob(id: JobId, t: Tick)
      requires MapOk(jobs, order) && id in jobs
      modifies this
      ensures var e := Execute(c, old(View()), id, t); View() == e || View() == Drain(c, e, t)
      decreases |queuedJobs|, 2
    {
      ghost var s := View();
      var job := jobs[id];
      if job.kind !in handlers {
        jobs := jobs[id := job.(status := Failed, error := Some(NoHandler), failedAt := Some(t.now))];
        SchedulePersist();
        assert View() == Execute(c, s, id, t);
        Process(t);
        return;
      }
      BeginJob(id, t.now);
      if job.timeoutMs <= 0 && id in t.throws {
        ThrowJob(id, t);
      }
    }

    // The job takes a slot.
    method BeginJob(id: JobId, now: int)
      requires id in jobs
      modifies this
      ensures View() == Launch(c, old(View()), id, now)
    {
      jobs := jobs[id := jobs[id].(status := Running, startedAt := Some(now))];
      activeCount := activeCount + 1;
      runningJobs := runningJobs + {id};
      hist := hist.(starts := hist.starts[id := Count(hist.starts, id) + 1]);
      SchedulePersist();
    }

    // The handler threw before it returned a promise.
    method ThrowJob(id: JobId, t: Tick)
      requires MapOk(jobs, order) && id in jobs
      modifies this
      ensures View() == Drain(c, FailRun(c, old(View()), id, t.now), t)
      decreases |queuedJobs|, 1
    {
      FailRunMapOk(c, View(), id, t.now);
      FailJob(id, t.now);
      Process(t);
    }

    method CompleteJob(id: JobId, now: int)
      requires MapOk(jobs, order) && id in jobs
      modifies this
      ensures View() == CompleteRun(c, old(View()), id, now)
    {
      ghost var s := View();
      jobs := jobs[id := jobs[id].(status := Completed, completedAt := Some(now))];
      activeCount := activeCount - 1;
      runningJobs := runningJobs - {id};
      ghost var done := s.jobs[id].(status := Completed, completedAt := Some(now));
      assert View() == Release(s.(jobs := s.jobs[id := done]), id);
      EvictOldTerminalJobs();
      SchedulePersist();
    }

    method FailJob(id: JobId, now: int)
      requires MapOk(jobs, order) && id in jobs
      modifies this
      ensures View() == FailRun(c, old(View()), id, now) && |queuedJobs| == old(|queuedJobs|)
    {
      var job := jobs[id].(attempts := jobs[id].attempts + 1, error := Some(HandlerError));
      if job.attempts < job.maxAttempts {
        RetryJob(id, job, now);
      } else {
        GiveUpJob(id, job, now);
      }
    }

    method RetryJob(id: JobId, job: Job, now: int)
      modifies this
      ensures View() == Retry(c, old(View()), id, job, now)
    {
      var backoffDelay := BackoffMs(job.attempts);
      BackOff(id, job, now);
      timers := timers + [Timer(id, now + TimerDelay(backoffDelay))];
    }

    method BackOff(id: JobId, job: Job, now: int)
      modifies this
      ensures View() == Backoff(c, old(View()), id, job, now)
    {
      jobs := jobs[id := job.(status := Queued, startedAt := None)];
      activeCount := activeCount - 1;
      runningJobs := runningJobs - {id};
      SchedulePersist();
      RecordBackoff(id, job, now);
    }

    ghost method RecordBackoff(id: JobId, job: Job, now: int)
      modifies this`hist
      ensures var ms, h := BackoffMs(job.attempts), old(hist);
              hist == h.(backoff := h.backoff[id := Requested(h.backoff, id) + ms],
                         respites := h.respites[id := Respite(now + ms, job.attempts)])
    {
      hist := hist.(backoff := hist.backoff[id := Requested(hist.backoff, id) + BackoffMs(job.attempts)],
                    respites := hist.respites[id := Respite(now + BackoffMs(job.attempts), job.attempts)]);
    }

    method GiveUpJob(id: JobId, job: Job, now: int)
      requires MapOk(jobs, order) && id in jobs && job.id == id
      modifies this
      ensures View() == GiveUp(c, old(View()), id, job, now)
    {
      ghost var s := View();
      jobs := jobs[id := job.(status := Failed, failedAt := Some(now))];
      activeCount := activeCount - 1;
      runningJobs := runningJobs - {id};
      assert View() == Release(s.(jobs := s.jobs[id := job.(status := Failed, failedAt := Some(now))]), id);
      EvictOldTerminalJobs();
      SchedulePersist();
    }

    method EvictOldTerminalJobs()
      requires MapOk(jobs, order)
      modifies this`jobs, this`order, this`persistTimer, this`hist
      ensures View() == Evict(c, old(View()))
    {
      if |order| <= c.historyLimit {
        return;
      }
      hist := hist.(seen := hist.seen + jobs);
      DeleteOldest();
      SchedulePersist();
    }

    // Deletes from the Map while iterating over it: `k` is the iterator's position.
    method DeleteOldest()
      requires MapOk(jobs, order)
      modifies this`jobs, this`order
      ensures order == Survivors(old(order), old(jobs), |old(order)| - c.historyLimit)
      ensures jobs == Restrict(old(jobs), order)
    {
      ghost var jobs0, target := jobs, Survivors(order, jobs, |order| - c.historyLimit);
      SurvivorsAll(order, jobs, c.historyLimit);
      var k: nat := 0;
      while k < |order| && |order| > c.historyLimit
        invariant k <= |order| && MapOk(jobs, order) && Within(jobs, jobs0)
        invariant target == SurvivorsFrom(order, jobs0, c.historyLimit, k)
        decreases |order| - k
      {
        k := DeleteIfTerminal(k, jobs0);
      }
      SurvivorsDone(order, jobs0, c.historyLimit, k);
      WithinRestricts(jobs, jobs0, order);
    }

    // One step of the iteration: a terminal job is deleted, any other is passed over.
    method DeleteIfTerminal(k: nat, ghost jobs0: map<JobId, Job>) returns (next: nat)
      requires k < |order| && |order| > c.historyLimit && MapOk(jobs, order) && Within(jobs, jobs0)
      modifies this`jobs, this`order
      ensures next <= |order| && |order| - next < old(|order|) - k
      ensures MapOk(jobs, order) && Within(jobs, jobs0)
      ensures SurvivorsFrom(order, jobs0, c.historyLimit, next) == old(SurvivorsFrom(order, jobs0, c.historyLimit, k))
    {
      var id := order[k];
      assert id in jobs;
      SurvivorsStep(order, jobs0, c.historyLimit, k);
      DeleteKeepsMap(jobs, order, k);
      if Terminal(jobs[id].status) {
        order := RemoveAt(order, k);
        jobs := jobs - {id};
        next := k;
      } else {
        next := k + 1;
      }
    }

    method SnapshotState() returns (snap: Snapshot)
      ensures snap == TakeSnapshot(View())
    {
      var records := [];
      var i := 0;
      while i < |order|
        invariant i <= |order|
        invariant Records(jobs, order) == records + Records(jobs, order[i..])
      {
        assert order[i..][1..] == order[i + 1..];
        if order[i] in jobs {
          records := records + [jobs[order[i]]];
        }
        i := i + 1;
      }
      return Snapshot(records, queuedJobs);
    }

    method LoadPersisted(snap: Snapshot, now: int)
      requires View() == EMPTY.(clock := now)
      modifies this
      ensures View() == Recover(snap, now)
    {
      ReadRecords(snap.jobs);
      RestoreOrder(snap.queueOrder);
      disk := Some(snap);
      hist := NO_HISTORY.(minted := jobs.Keys, base := jobs);
      ResumeJobs(order, now);
    }

    method ResumeJobs(ids: seq<JobId>, now: int)
      modifies this`queuedJobs, this`timers
      ensures View() == Resume(old(View()), ids, now)
    {
      ghost var s := View();
      var i := 0;
      while i < |ids|
        invariant i <= |ids| && s == View()
        invariant Resume(s, ids[i..], now) == Resume(old(View()), ids, now)
      {
        assert ids[i..][1..] == ids[i + 1..];
        var id := ids[i];
        if id in jobs && jobs[id].status == Queued && id !in queuedJobs {
          var remaining := RemainingMs(jobs[id], now);
          if remaining > 0 {
            timers := timers + [Timer(id, now + TimerDelay(remaining))];
          } else {
            queuedJobs := queuedJobs + [id];
          }
        }
        assert View() == ResumeOne(s, id, now);
        s := View();
        i := i + 1;
      }
    }

    method ReadRecords(records: seq<Job>)
      modifies this
      ensures View() == LoadJobs(old(View()), records)
    {
      ghost var s := View();
      var i := 0;
      while i < |records|
        invariant i <= |records| && s == View()
        invariant LoadJobs(s, records[i..]) == LoadJobs(old(View()), records)
      {
        assert records[i..][1..] == records[i + 1..];
        ReadRecord(records[i]);
        s := View();
        i := i + 1;
      }
    }

    method ReadRecord(record: Job)
      modifies this
      ensures View() == LoadOne(old(View()), Requeue(record))
    {
      var job := record;
      if job.status == Running {
        job := job.(status := Queued, startedAt := None);
      }
      order := if job.id in jobs then order else order + [job.id];
      jobs := jobs[job.id := job];
    }

    method RestoreOrder(saved: seq<JobId>)
      modifies this`queuedJobs
      ensures queuedJobs == KeepQueued(jobs, saved)
    {
      queuedJobs := [];
      var i := 0;
      while i < |saved|
        invariant i <= |saved|
        invariant KeepQueued(jobs, saved) == queuedJobs + KeepQueued(jobs, saved[i..])
      {
        KeepNext(jobs, saved, i, queuedJobs);
        if saved[i] in jobs && jobs[saved[i]].status == Queued {
          queuedJobs := queuedJobs + [saved[i]];
        }
        i := i + 1;
      }
    }
  }

  // ---- what the internals rely on --------------------------------------------------------

  ghost predicate Within(jobs: map<JobId, Job>, all: map<JobId, Job>)
  {
    forall id :: id in jobs ==> id in all && jobs[id] == all[id]
  }

  lemma KeepNext(jobs: map<JobId, Job>, saved: seq<JobId>, i: nat, done: seq<JobId>)
    requires i < |saved|
    ensures done + KeepQueued(jobs, saved[i..])
         == (if StillQueued(jobs, saved[i]) then done + [saved[i]] else done) + KeepQueued(jobs, saved[i + 1..])
  {
    assert saved[i..][1..] == saved[i + 1..];
  }

  lemma WithinRestricts(jobs: map<JobId, Job>, all: map<JobId, Job>, order: seq<JobId>)
    requires MapOk(jobs, order) && Within(jobs, all)
    ensures jobs == Restrict(all, order)
  {
    var r := Restrict(all, order);
    assert forall id :: id in r <==> id in jobs;
    assert forall id :: id in jobs ==> r[id] == jobs[id];
  }

  lemma {:induction false} DequeuedAt(queue: seq<JobId>, id: JobId, i: nat)
    requires i <= |queue| && id !in queue[..i] && (i < |queue| ==> queue[i] == id)
    ensures Dequeued(queue, id) == if i < |queue| then queue[..i] + queue[i + 1..] else queue
  {
    if i > 0 {
      assert queue[0] == queue[..i][0];
      assert queue[1..][..i - 1] == queue[..i][1..];
      DequeuedAt(queue[1..], id, i - 1);
    }
  }

  // What survives once the iteration has passed the first k jobs.
  ghost function SurvivorsFrom(order: seq<JobId>, jobs: map<JobId, Job>, limit: int, k: nat): seq<JobId>
    requires k <= |order|
  {
    order[..k] + Survivors(order[k..], jobs, |order| - limit)
  }

  lemma SurvivorsAll(order: seq<JobId>, jobs: map<JobId, Job>, limit: int)
    ensures SurvivorsFrom(order, jobs, limit, 0) == Survivors(order, jobs, |order| - limit)
  {
    assert order[..0] + order[0..] == order && order[0..] == order;
  }

  lemma SurvivorsDone(order: seq<JobId>, jobs: map<JobId, Job>, limit: int, k: nat)
    requires k <= |order| && (k == |order| || |order| <= limit)
    ensures SurvivorsFrom(order, jobs, limit, k) == order
  {
    assert order[..k] + order[k..] == order;
  }

  lemma SurvivorsStep(order: seq<JobId>, jobs: map<JobId, Job>, limit: int, k: nat)
    requires k < |order| && |order| > limit && order[k] in jobs
    ensures SurvivorsFrom(order, jobs, limit, k)
         == if Terminal(jobs[order[k]].status) then SurvivorsFrom(RemoveAt(order, k), jobs, limit, k)
            else SurvivorsFrom(order, jobs, limit, k + 1)
  {
    var r := RemoveAt(order, k);
    assert order[k..][1..] == order[k + 1..] == r[k..] && r[..k] == order[..k];
    var rest := Survivors(order[k + 1..], jobs, |order| - limit);
    assert order[..k] + ([order[k]] + rest) == order[..k + 1] + rest;
  }

  lemma DeleteKeepsMap(jobs: map<JobId, Job>, order: seq<JobId>, k: nat)
    requires k < |order| && MapOk(jobs, order)
    ensures MapOk(jobs - {order[k]}, RemoveAt(order, k)) && Within(jobs - {order[k]}, jobs)
  {
    var r := RemoveAt(order, k);
    assert forall i :: 0 <= i < |r| ==> r[i] == order[if i < k then i else i + 1];
    forall id | id in order && id != order[k] ensures id in r {
      var i :| 0 <= i < |order| && order[i] == id;
      assert r[if i < k then i else i - 1] == id;
    }
  }

  lemma EvictMapOk(c: Config, s: State)
    requires MapOk(s.jobs, s.order)
    ensures MapOk(Evict(c, s).jobs, Evict(c, s).order)
  {
    if |s.order| > c.historyLimit {
      SurvivorsDistinct(s.order, s.jobs, |s.order| - c.historyLimit);
      RestrictOk(s.jobs, s.order, Survivors(s.order, s.jobs, |s.order| - c.historyLimit));
    }
  }

  lemma FailRunMapOk(c: Config, s: State, id: JobId, now: int)
    requires MapOk(s.jobs, s.order) && id in s.jobs
    ensures MapOk(FailRun(c, s, id, now).jobs, FailRun(c, s, id, now).order)
  {
    var j := s.jobs[id].(attempts := s.jobs[id].attempts + 1, error := Some(HandlerError));
    EvictMapOk(c, Release(s.(jobs := s.jobs[id := j.(status := Failed, failedAt := Some(now))]), id));
    if j.attempts < j.maxAttempts {
      assert FailRun(c, s, id, now) == Retry(c, s, id, j, now);
    } else {
      assert FailRun(c, s, id, now) == GiveUp(c, s, id, j, now);
    }
  }

  lemma DispatchMapOk(c: Config, s: State, t: Tick)
    requires MapOk(s.jobs, s.order) && s.queue != []
    ensures MapOk(Dispatch(c, s, t).jobs, Dispatch(c, s, t).order)
  {
    var id := s.queue[0];
    var s1 := s.(queue := s.queue[1..]);
    if id in s.jobs {
      FailRunMapOk(c, Launch(c, s1, id, t.now), id, t.now);
    }
  }

  lemma {:induction false} DrainMapOk(c: Config, s: State, t: Tick)
    requires MapOk(s.jobs, s.order)
    ensures MapOk(Drain(c, s, t).jobs, Drain(c, s, t).order)
    ensures Drain(c, s, t).processing == s.processing
    decreases |s.queue|
  {
    if CanDispatch(c, s) {
      DispatchMapOk(c, s, t);
      DrainMapOk(c, Dispatch(c, s, t), t);
    }
  }

  // Draining a drained queue does nothing, so the nested _process of a job that ended at once
  // and the loop that called it together do what one flat loop does.
  lemma {:induction false} DrainSettled(c: Config, s: State, t: Tick)
    ensures Drain(c, Drain(c, s, t), t) == Drain(c, s, t)
    ensures |Drain(c, s, t).queue| <= |s.queue|
    decreases |s.queue|
  {
    if CanDispatch(c, s) {
      DrainSettled(c, Dispatch(c, s, t), t);
    }
  }
}
