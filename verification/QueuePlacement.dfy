/**
 Where a job can be. In every reachable state each QUEUED job is in the queue exactly once or
 waits on exactly one pending timer, never both; a job is RUNNING exactly when it holds a slot;
 and a processing queue never leaves a slot idle while a job is queued.
 */
module QueuePlacement {
  import opened Common
  import opened QueueModel

  function Owners(timers: seq<Timer>): set<JobId>
  {
    set t | t in timers :: t.job
  }

  ghost predicate OneEach(timers: seq<Timer>)
  {
    forall i, j :: 0 <= i < j < |timers| ==> timers[i].job != timers[j].job
  }

  // jobs and order together are one insertion-ordered Map.
  ghost predicate MapOk(jobs: map<JobId, Job>, order: seq<JobId>)
  {
    && Distinct(order)
    && (forall id :: id in jobs <==> id in order)
    && (forall id :: id in jobs ==> jobs[id].id == id)
  }

  // `queued` and `waiting` are the ids in the queue and the ids with a pending timer; `hole`
  // holds the job, if any, that an operation has picked up and not yet put down.
  ghost predicate Placed(jobs: map<JobId, Job>, queued: set<JobId>, waiting: set<JobId>, hole: set<JobId>)
  {
    && queued !! waiting && queued !! hole && waiting !! hole
    && (forall id :: id in queued ==> StillQueued(jobs, id))
    && (forall id :: id in waiting && id in jobs ==> jobs[id].status != Running)
    && (forall id :: StillQueued(jobs, id) ==> id in queued || id in waiting || id in hole)
  }

  ghost predicate Slots(c: Config, jobs: map<JobId, Job>, running: set<JobId>, active: int)
  {
    && (forall id :: id in running <==> id in jobs && jobs[id].status == Running)
    && active == |running| <= Max(0, c.concurrency)
  }

  ghost predicate InvBut(c: Config, s: State, hole: set<JobId>)
  {
    && MapOk(s.jobs, s.order)
    && Distinct(s.queue)
    && OneEach(s.timers)
    && Placed(s.jobs, Elems(s.queue), Owners(s.timers), hole)
    && s.jobs.Keys + Owners(s.timers) <= s.hist.minted
    && Slots(c, s.jobs, s.running, s.active)
  }

  ghost predicate Inv(c: Config, s: State)
  {
    InvBut(c, s, {})
  }

  ghost predicate Saturated(c: Config, s: State)
  {
    s.processing ==> s.active >= c.concurrency || s.queue == []
  }

  // ---- building blocks -------------------------------------------------------------------

  lemma ArmedOwners(timers: seq<Timer>, t: Timer)
    ensures Owners(timers + [t]) == Owners(timers) + {t.job}
    ensures OneEach(timers) && t.job !in Owners(timers) ==> OneEach(timers + [t])
  {
    AppendElems(timers, t);
    assert forall x :: x in timers + [t] <==> x in timers || x == t;
    forall id | id in Owners(timers) ensures id in Owners(timers + [t]) {
      var x :| x in timers && x.job == id;
      assert x in timers + [t];
    }
    assert t in timers + [t];
  }

  lemma FiredOwners(timers: seq<Timer>, i: nat)
    requires i < |timers| && OneEach(timers)
    ensures Owners(timers) == Owners(RemoveAt(timers, i)) + {timers[i].job}
    ensures timers[i].job !in Owners(RemoveAt(timers, i)) && OneEach(RemoveAt(timers, i))
  {
    var r := RemoveAt(timers, i);
    assert forall k :: 0 <= k < |r| ==> r[k] == timers[if k < i then k else k + 1];
    forall id | id in Owners(timers) && id != timers[i].job ensures id in Owners(r) {
      var k :| 0 <= k < |timers| && timers[k].job == id;
      assert r[if k < i then k else k - 1] == timers[k];
    }
  }

  lemma InsertPlaces(c: Config, s: State, id: JobId)
    requires InvBut(c, s, {id}) && StillQueued(s.jobs, id)
    ensures Inv(c, Insert(s, id))
  {
    InsertElems(s.queue, Slot(s.jobs, s.queue, s.jobs[id].priority), id);
  }

  lemma AppendPlaces(c: Config, s: State, id: JobId, hole: set<JobId>)
    requires InvBut(c, s, hole) && id in hole && StillQueued(s.jobs, id)
    ensures InvBut(c, s.(queue := s.queue + [id]), hole - {id})
  {
    AppendElems(s.queue, id);
  }

  lemma ArmPlaces(c: Config, s: State, id: JobId, ms: int, now: int, hole: set<JobId>)
    requires InvBut(c, s, hole) && id in hole && StillQueued(s.jobs, id)
    ensures InvBut(c, Arm(s, id, ms, now), hole - {id})
  {
    ArmedOwners(s.timers, Timer(id, now + TimerDelay(ms)));
  }

  lemma FireOpens(c: Config, s: State, i: nat)
    requires Inv(c, s) && i < |s.timers|
    ensures var r := s.(timers := RemoveAt(s.timers, i)); var id := s.timers[i].job;
            if StillQueued(s.jobs, id) then InvBut(c, r, {id}) else Inv(c, r)
  {
    FiredOwners(s.timers, i);
  }

  lemma HeadOpens(c: Config, s: State)
    requires Inv(c, s) && s.queue != []
    ensures InvBut(c, s.(queue := s.queue[1..]), {s.queue[0]}) && StillQueued(s.jobs, s.queue[0])
  {
    TailElems(s.queue);
  }

  // Replacing the record of a job that is not running by a terminal one.
  lemma TerminalPlaces(c: Config, s: State, id: JobId, j: Job, hole: set<JobId>)
    requires InvBut(c, s, hole) && hole <= {id} && id in s.jobs && s.jobs[id].status != Running
    requires j.id == id && Terminal(j.status) && id !in s.queue
    ensures Inv(c, s.(jobs := s.jobs[id := j]))
  {}

  lemma LaunchPlaces(c: Config, s: State, id: JobId, now: int)
    requires InvBut(c, s, {id}) && StillQueued(s.jobs, id) && s.active < c.concurrency
    ensures Inv(c, Launch(c, s, id, now))
  {}

  // A running job gives its slot back: as queued it is in the hole, as terminal it is done.
  lemma ReleaseOpens(c: Config, s: State, id: JobId, j: Job)
    requires Inv(c, s) && id in s.jobs && s.jobs[id].status == Running
    requires j.id == id && (j.status == Queued || Terminal(j.status))
    ensures var r := Release(s.(jobs := s.jobs[id := j]), id);
            if j.status == Queued then InvBut(c, r, {id}) else Inv(c, r)
  {
    assert s.running == s.running - {id} + {id};
  }

  lemma {:induction false} SurvivorsDistinct(order: seq<JobId>, jobs: map<JobId, Job>, excess: int)
    requires Distinct(order)
    ensures Distinct(Survivors(order, jobs, excess))
  {
    if excess > 0 && order != [] {
      var goes := order[0] in jobs && Terminal(jobs[order[0]].status);
      SurvivorsDistinct(order[1..], jobs, if goes then excess - 1 else excess);
      assert order[0] !in order[1..];
    }
  }

  lemma RestrictOk(jobs: map<JobId, Job>, order: seq<JobId>, kept: seq<JobId>)
    requires MapOk(jobs, order) && Distinct(kept)
    requires forall id | id in kept :: id in order
    requires forall id | id in order :: (id in jobs && !Terminal(jobs[id].status)) ==> id in kept
    ensures MapOk(Restrict(jobs, kept), kept)
    ensures forall id :: id in jobs && !Terminal(jobs[id].status) ==> id in Restrict(jobs, kept)
  {}

  lemma EvictPlaces(c: Config, s: State)
    requires Inv(c, s)
    ensures Inv(c, Evict(c, s))
  {
    if |s.order| > c.historyLimit {
      var kept := Survivors(s.order, s.jobs, |s.order| - c.historyLimit);
      SurvivorsDistinct(s.order, s.jobs, |s.order| - c.historyLimit);
      RestrictOk(s.jobs, s.order, kept);
      FewerPlaced(c, s.jobs, Restrict(s.jobs, kept), Elems(s.queue), Owners(s.timers), s.running, s.active);
      assert Restrict(s.jobs, kept).Keys <= s.jobs.Keys;
    }
  }

  // Dropping terminal records moves no job.
  lemma FewerPlaced(c: Config, jobs: map<JobId, Job>, fewer: map<JobId, Job>, queued: set<JobId>, waiting: set<JobId>,
      running: set<JobId>, active: int)
    requires Placed(jobs, queued, waiting, {}) && Slots(c, jobs, running, active)
    requires forall id :: id in fewer ==> id in jobs && fewer[id] == jobs[id]
    requires forall id :: id in jobs && !Terminal(jobs[id].status) ==> id in fewer
    ensures Placed(fewer, queued, waiting, {}) && Slots(c, fewer, running, active)
  {}

  // ---- operations ------------------------------------------------------------------------

  lemma RetryPlaces(c: Config, s: State, id: JobId, j: Job, now: int)
    requires Inv(c, s) && id in s.jobs && s.jobs[id].status == Running && j.id == id
    ensures Inv(c, Retry(c, s, id, j, now))
  {
    ReleaseOpens(c, s, id, j.(status := Queued, startedAt := None));
    ArmPlaces(c, Backoff(c, s, id, j, now), id, BackoffMs(j.attempts), now, {id});
    assert {id} - {id} == {};
  }

  lemma GiveUpPlaces(c: Config, s: State, id: JobId, j: Job, now: int)
    requires Inv(c, s) && id in s.jobs && s.jobs[id].status == Running && j.id == id
    ensures Inv(c, GiveUp(c, s, id, j, now))
  {
    var f := j.(status := Failed, failedAt := Some(now));
    ReleaseOpens(c, s, id, f);
    EvictPlaces(c, Release(s.(jobs := s.jobs[id := f]), id));
  }

  lemma FailRunPlaces(c: Config, s: State, id: JobId, now: int)
    requires Inv(c, s) && id in s.jobs && s.jobs[id].status == Running
    ensures Inv(c, FailRun(c, s, id, now))
  {
    var j := s.jobs[id].(attempts := s.jobs[id].attempts + 1, error := Some(HandlerError));
    if j.attempts < j.maxAttempts {
      RetryPlaces(c, s, id, j, now);
      assert FailRun(c, s, id, now) == Retry(c, s, id, j, now);
    } else {
      GiveUpPlaces(c, s, id, j, now);
      assert FailRun(c, s, id, now) == GiveUp(c, s, id, j, now);
    }
  }

  lemma CompleteRunPlaces(c: Config, s: State, id: JobId, now: int)
    requires Inv(c, s) && id in s.jobs && s.jobs[id].status == Running
    ensures Inv(c, CompleteRun(c, s, id, now))
  {
    var j := s.jobs[id].(status := Completed, completedAt := Some(now));
    ReleaseOpens(c, s, id, j);
    EvictPlaces(c, Release(s.(jobs := s.jobs[id := j]), id));
  }

  lemma DispatchPlaces(c: Config, s: State, t: Tick)
    requires Inv(c, s) && CanDispatch(c, s)
    ensures Inv(c, Dispatch(c, s, t))
  {
    var id := s.queue[0];
    var s1 := s.(queue := s.queue[1..]);
    HeadOpens(c, s);
    var j := s.jobs[id];
    if j.kind !in s.handlers {
      TerminalPlaces(c, s1, id, j.(status := Failed, error := Some(NoHandler), failedAt := Some(t.now)), {id});
    } else {
      LaunchPlaces(c, s1, id, t.now);
      if j.timeoutMs <= 0 && id in t.throws {
        FailRunPlaces(c, Launch(c, s1, id, t.now), id, t.now);
      }
    }
  }

  lemma {:induction false} DrainPlaces(c: Config, s: State, t: Tick)
    requires Inv(c, s)
    ensures Inv(c, Drain(c, s, t))
    ensures Saturated(c, Drain(c, s, t))
    decreases |s.queue|
  {
    if CanDispatch(c, s) {
      DispatchPlaces(c, s, t);
      DrainPlaces(c, Dispatch(c, s, t), t);
    }
  }

  lemma StoreOpens(c: Config, s: State, j: Job)
    requires Inv(c, s) && j.id !in s.hist.minted && j.status == Queued
    ensures InvBut(c, Store(c, s, j), {j.id})
  {
    AppendElems(s.order, j.id);
  }

  lemma AddPlaces(c: Config, s: State, r: Request, id: JobId, t: Tick)
    requires Inv(c, s) && Saturated(c, s) && id !in s.hist.minted
    ensures Inv(c, Add(c, s, r, id, t).0) && Saturated(c, Add(c, s, r, id, t).0)
  {
    if |s.queue| < c.maxDepth {
      var s1 := Store(c, s, NewJob(c, r, id, t.now));
      StoreOpens(c, s, NewJob(c, r, id, t.now));
      if r.delay > 0 {
        ArmPlaces(c, s1, id, r.delay, t.now, {id});
        assert {id} - {id} == {};
      } else {
        InsertPlaces(c, s1, id);
        DrainPlaces(c, Insert(s1, id), t);
      }
    }
  }

  lemma FirePlaces(c: Config, s: State, i: nat, t: Tick)
    requires Inv(c, s) && Saturated(c, s) && i < |s.timers|
    ensures Inv(c, Fire(c, s, i, t)) && Saturated(c, Fire(c, s, i, t))
  {
    var s1 := s.(timers := RemoveAt(s.timers, i));
    var id := s.timers[i].job;
    FireOpens(c, s, i);
    if StillQueued(s.jobs, id) {
      InsertPlaces(c, s1, id);
      DrainPlaces(c, Insert(s1, id), t);
    }
  }

  lemma SettlePlaces(c: Config, s: State, id: JobId, ok: bool, t: Tick)
    requires Inv(c, s) && id in s.jobs && s.jobs[id].status == Running
    ensures Inv(c, Settle(c, s, id, ok, t)) && Saturated(c, Settle(c, s, id, ok, t))
  {
    if ok {
      CompleteRunPlaces(c, s, id, t.now);
      DrainPlaces(c, CompleteRun(c, s, id, t.now), t);
    } else {
      FailRunPlaces(c, s, id, t.now);
      DrainPlaces(c, FailRun(c, s, id, t.now), t);
    }
  }

  lemma {:induction false} DequeuedRemoves(queue: seq<JobId>, id: JobId)
    requires Distinct(queue)
    ensures Distinct(Dequeued(queue, id)) && Elems(Dequeued(queue, id)) == Elems(queue) - {id}
  {
    if queue != [] {
      TailElems(queue);
      if queue[0] != id {
        DequeuedRemoves(queue[1..], id);
        TailElems(Dequeued(queue, id));
        assert queue[0] !in Elems(Dequeued(queue[1..], id));
      }
    }
  }

  lemma CancelPlaces(c: Config, s: State, id: JobId)
    requires Inv(c, s) && Saturated(c, s)
    ensures Inv(c, Cancel(c, s, id).0) && Saturated(c, Cancel(c, s, id).0)
  {
    if id in s.jobs && s.jobs[id].status != Running {
      DequeuedRemoves(s.queue, id);
      var hole := if id in s.queue then {id} else {};
      var s1 := s.(queue := Dequeued(s.queue, id));
      assert InvBut(c, s1, hole);
      TerminalPlaces(c, s1, id, s.jobs[id].(status := Cancelled), hole);
    }
  }

  lemma StartPlaces(c: Config, s: State, t: Tick)
    requires Inv(c, s) && Saturated(c, s)
    ensures Inv(c, Start(c, s, t)) && Saturated(c, Start(c, s, t))
  {
    if !s.processing {
      DrainPlaces(c, s.(processing := true), t);
    }
  }

  // Every step keeps the placement invariant, and leaves no slot idle while a job is queued.
  lemma StepPlaces(c: Config, s: State, e: Event, t: Tick)
    requires Inv(c, s) && Saturated(c, s) && Enabled(s, e, t) && !e.CrashAndBoot?
    ensures Inv(c, Step(c, s, e, t)) && Saturated(c, Step(c, s, e, t))
  {
    var s0 := s.(clock := t.now);
    match e
    case AddJob(r, id) => AddPlaces(c, s0, r, id, t);
    case TimerFires(i) => FirePlaces(c, s0, i, t);
    case HandlerSettles(id, ok) => SettlePlaces(c, s0, id, ok, t);
    case CancelJob(id) => CancelPlaces(c, s0, id);
    case StartQueue => StartPlaces(c, s0, t);
    case StopQueue =>
    case RegisterHandler(kind) =>
    case FlushFires =>
    case CrashAndBoot =>
  }
}
