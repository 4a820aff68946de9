/**
 The job queue as a transition system: the queue's own fields, the timers it has pending, the
 snapshot on disk, and a history of what each handler run cost. Every operation of the queue is
 a function from one state to the next; JobQueue.dfy proves the class against these functions.
 */
module QueueModel {
  import opened Common

  type JobId = int

  datatype Status = Queued | Running | Completed | Failed | Cancelled

  datatype Failure = NoHandler | HandlerError

  const PRIORITY_NORMAL := 2

  datatype Job = Job(
    id: JobId,
    kind: string,
    status: Status,
    priority: int,
    attempts: nat,
    maxAttempts: int,
    timeoutMs: int,
    delay: int,
    createdAt: int,
    runAt: Option<int>,
    startedAt: Option<int>,
    completedAt: Option<int>,
    failedAt: Option<int>,
    error: Option<Failure>)

  // What the environment variables configure.
  datatype Config = Config(
    concurrency: int,
    retryAttempts: int,
    timeoutMs: int,
    historyLimit: int,
    maxDepth: int,
    persists: bool)

  // The arguments of add(); zero stands for an option that is absent or falsy.
  datatype Request = Request(kind: string, priority: int, delay: int, maxAttempts: int, timeoutMs: Option<int>)

  datatype QueueError = QueueFull(maxDepth: int)

  datatype Timer = Timer(job: JobId, due: int)

  datatype Snapshot = Snapshot(jobs: seq<Job>, queueOrder: seq<JobId>)

  // The last backoff of a job: when it is over, and after how many failed attempts.
  datatype Respite = Respite(until: int, attempts: nat)

  // Bookkeeping the program does not keep: ids ever minted, each job as this process first saw
  // it and as it was at the last eviction, the handler starts and backoff requested since, the
  // last backoff of each job, and the enqueue stamps.
  datatype History = History(
    minted: set<JobId>,
    base: map<JobId, Job>,
    seen: map<JobId, Job>,
    starts: map<JobId, nat>,
    backoff: map<JobId, int>,
    respites: map<JobId, Respite>,
    stamps: map<JobId, nat>,
    nextStamp: nat)

  datatype State = State(
    jobs: map<JobId, Job>,
    order: seq<JobId>, // insertion order of jobs
    queue: seq<JobId>,
    running: set<JobId>,
    active: int,
    processing: bool,
    handlers: set<string>,
    rejected: nat,
    timers: seq<Timer>,
    flushPending: bool,
    disk: Option<Snapshot>,
    clock: int,
    hist: History)

  // The instant at which an event happens, and the jobs whose handler, if it is called during
  // the event without a time budget, throws before returning a promise.
  datatype Tick = Tick(now: int, throws: set<JobId>)

  const NO_HISTORY := History({}, map[], map[], map[], map[], map[], map[], 0)

  const EMPTY := State(map[], [], [], {}, 0, false, {}, 0, [], false, None, 0, NO_HISTORY)

  function Count(m: map<JobId, nat>, id: JobId): nat
  {
    if id in m then m[id] else 0
  }

  function Requested(m: map<JobId, int>, id: JobId): int
  {
    if id in m then m[id] else 0
  }

  function Pow2(n: nat): (p: nat)
    ensures p >= 1
  {
    if n == 0 then 1 else 2 * Pow2(n - 1)
  }

  function BackoffMs(attempts: nat): (ms: int)
    ensures ms >= 1000
  {
    Pow2(attempts) * 1000
  }

  predicate Terminal(status: Status)
  {
    status == Completed || status == Failed || status == Cancelled
  }

  // ---- building blocks -------------------------------------------------------------------

  function Persist(c: Config, s: State): State
  {
    s.(flushPending := s.flushPending || c.persists)
  }

  function Arm(s: State, id: JobId, ms: int, now: int): State
  {
    s.(timers := s.timers + [Timer(id, now + TimerDelay(ms))])
  }

  // Where _enqueue splices a job of priority p: before the first queued job of lower priority.
  function Slot(jobs: map<JobId, Job>, queue: seq<JobId>, p: int): (k: nat)
    ensures k <= |queue|
    ensures forall i :: 0 <= i < k ==> !(queue[i] in jobs && p > jobs[queue[i]].priority)
    ensures k < |queue| ==> queue[k] in jobs && p > jobs[queue[k]].priority
  {
    if queue == [] || (queue[0] in jobs && p > jobs[queue[0]].priority) then 0
    else 1 + Slot(jobs, queue[1..], p)
  }

  function Insert(s: State, id: JobId): State
    requires id in s.jobs
  {
    var k := Slot(s.jobs, s.queue, s.jobs[id].priority);
    s.(queue := s.queue[..k] + [id] + s.queue[k..],
       hist := s.hist.(stamps := s.hist.stamps[id := s.hist.nextStamp], nextStamp := s.hist.nextStamp + 1))
  }

  // Ids that survive deleting the oldest terminal jobs until `excess` of them are gone.
  function Survivors(order: seq<JobId>, jobs: map<JobId, Job>, excess: int): (r: seq<JobId>)
    ensures forall id | id in r :: id in order
    ensures forall id | id in order :: (id in jobs && !Terminal(jobs[id].status)) ==> id in r
  {
    if excess <= 0 || order == [] then order
    else if order[0] in jobs && Terminal(jobs[order[0]].status) then Survivors(order[1..], jobs, excess - 1)
    else [order[0]] + Survivors(order[1..], jobs, excess)
  }

  function Restrict(jobs: map<JobId, Job>, ids: seq<JobId>): map<JobId, Job>
  {
    map id | id in jobs && id in ids :: jobs[id]
  }

  function Evict(c: Config, s: State): State
  {
    if |s.order| <= c.historyLimit then s
    else
      var kept := Survivors(s.order, s.jobs, |s.order| - c.historyLimit);
      Persist(c, s.(order := kept, jobs := Restrict(s.jobs, kept), hist := s.hist.(seen := s.hist.seen + s.jobs)))
  }

  function Release(s: State, id: JobId): State
  {
    s.(active := s.active - 1, running := s.running - {id})
  }

  // Back in line after a failed attempt: the slot is freed now, the timer armed by Retry.
  function Backoff(c: Config, s: State, id: JobId, j: Job, now: int): State
  {
    var s1 := Persist(c, Release(s.(jobs := s.jobs[id := j.(status := Queued, startedAt := None)]), id));
    s1.(hist := s.hist.(backoff := s.hist.backoff[id := Requested(s.hist.backoff, id) + BackoffMs(j.attempts)],
                        respites := s.hist.respites[id := Respite(now + BackoffMs(j.attempts), j.attempts)]))
  }

  function Retry(c: Config, s: State, id: JobId, j: Job, now: int): State
  {
    Arm(Backoff(c, s, id, j, now), id, BackoffMs(j.attempts), now)
  }

  function GiveUp(c: Config, s: State, id: JobId, j: Job, now: int): State
  {
    Persist(c, Evict(c, Release(s.(jobs := s.jobs[id := j.(status := Failed, failedAt := Some(now))]), id)))
  }

  // A handler run that ended in an error: back off and retry, or give up.
  function FailRun(c: Config, s: State, id: JobId, now: int): State
    requires id in s.jobs
  {
    var j := s.jobs[id].(attempts := s.jobs[id].attempts + 1, error := Some(HandlerError));
    if j.attempts < j.maxAttempts then Retry(c, s, id, j, now) else GiveUp(c, s, id, j, now)
  }

  function CompleteRun(c: Config, s: State, id: JobId, now: int): State
    requires id in s.jobs
  {
    var j := s.jobs[id].(status := Completed, completedAt := Some(now));
    Persist(c, Evict(c, Release(s.(jobs := s.jobs[id := j]), id)))
  }

  function Launch(c: Config, s: State, id: JobId, now: int): State
    requires id in s.jobs
  {
    var j := s.jobs[id].(status := Running, startedAt := Some(now));
    Persist(c, s.(jobs := s.jobs[id := j], active := s.active + 1, running := s.running + {id},
                  hist := s.hist.(starts := s.hist.starts[id := Count(s.hist.starts, id) + 1])))
  }

  // _executeJob up to the point where it suspends or hands over to the next _process.
  function Execute(c: Config, s: State, id: JobId, t: Tick): State
    requires id in s.jobs
  {
    var j := s.jobs[id];
    if j.kind !in s.handlers then
      Persist(c, s.(jobs := s.jobs[id := j.(status := Failed, error := Some(NoHandler), failedAt := Some(t.now))]))
    else if j.timeoutMs <= 0 && id in t.throws then
      FailRun(c, Launch(c, s, id, t.now), id, t.now)
    else
      Launch(c, s, id, t.now)
  }

  // One round of the _process loop: shift the head and execute it if it is still queued.
  function Dispatch(c: Config, s: State, t: Tick): (r: State)
    requires s.queue != []
    ensures r.queue == s.queue[1..] && r.processing == s.processing
  {
    var id := s.queue[0];
    var s1 := s.(queue := s.queue[1..]);
    if id in s1.jobs && s1.jobs[id].status == Queued then Execute(c, s1, id, t) else s1
  }

  predicate CanDispatch(c: Config, s: State)
  {
    s.processing && s.active < c.concurrency && s.queue != []
  }

  function Drain(c: Config, s: State, t: Tick): State
    decreases |s.queue|
  {
    if CanDispatch(c, s) then Drain(c, Dispatch(c, s, t), t) else s
  }

  // ---- operations ------------------------------------------------------------------------

  function NewJob(c: Config, r: Request, id: JobId, now: int): Job
  {
    Job(id, r.kind, Queued,
        if r.priority == 0 then PRIORITY_NORMAL else r.priority,
        0,
        if r.maxAttempts == 0 then c.retryAttempts else r.maxAttempts,
        if r.timeoutMs.Some? then r.timeoutMs.value else c.timeoutMs,
        r.delay, now,
        if r.delay > 0 then Some(now + r.delay) else None,
        None, None, None, None)
  }

  // The record add() stores, before it is enqueued or its timer is armed.
  function Store(c: Config, s: State, j: Job): State
  {
    Persist(c, s.(jobs := s.jobs[j.id := j], order := s.order + [j.id],
                  hist := s.hist.(minted := s.hist.minted + {j.id}, base := s.hist.base[j.id := j])))
  }

  function Add(c: Config, s: State, r: Request, id: JobId, t: Tick): (State, Result<JobId, QueueError>)
  {
    if |s.queue| >= c.maxDepth then (s.(rejected := s.rejected + 1), Err(QueueFull(c.maxDepth)))
    else
      var s1 := Store(c, s, NewJob(c, r, id, t.now));
      if r.delay > 0 then (Arm(s1, id, r.delay, t.now), Ok(id))
      else (Drain(c, Insert(s1, id), t), Ok(id))
  }

  function Enqueue(c: Config, s: State, id: JobId, t: Tick): State
  {
    if id in s.jobs && s.jobs[id].status == Queued then Drain(c, Insert(s, id), t) else s
  }

  function Fire(c: Config, s: State, i: nat, t: Tick): State
    requires i < |s.timers|
  {
    Enqueue(c, s.(timers := RemoveAt(s.timers, i)), s.timers[i].job, t)
  }

  function Dequeued(queue: seq<JobId>, id: JobId): (r: seq<JobId>)
    ensures forall x | x in r :: x in queue
    ensures forall x | x in queue :: x != id ==> x in r
  {
    if queue == [] then []
    else if queue[0] == id then queue[1..]
    else [queue[0]] + Dequeued(queue[1..], id)
  }

  function Cancel(c: Config, s: State, id: JobId): (State, bool)
  {
    if id !in s.jobs || s.jobs[id].status == Running then (s, false)
    else (Persist(c, s.(jobs := s.jobs[id := s.jobs[id].(status := Cancelled)],
                        queue := Dequeued(s.queue, id))), true)
  }

  function Settle(c: Config, s: State, id: JobId, ok: bool, t: Tick): State
    requires id in s.jobs
  {
    Drain(c, if ok then CompleteRun(c, s, id, t.now) else FailRun(c, s, id, t.now), t)
  }

  function Start(c: Config, s: State, t: Tick): State
  {
    if s.processing then s else Drain(c, s.(processing := true), t)
  }

  // The records in insertion order.
  function Records(jobs: map<JobId, Job>, ids: seq<JobId>): seq<Job>
  {
    if ids == [] then []
    else if ids[0] in jobs then [jobs[ids[0]]] + Records(jobs, ids[1..])
    else Records(jobs, ids[1..])
  }

  function TakeSnapshot(s: State): Snapshot
  {
    Snapshot(Records(s.jobs, s.order), s.queue)
  }

  function Flush(s: State): State
  {
    s.(flushPending := false, disk := Some(TakeSnapshot(s)))
  }

  // ---- recovery --------------------------------------------------------------------------

  function Requeue(j: Job): Job
  {
    if j.status == Running then j.(status := Queued, startedAt := None) else j
  }

  function LoadOne(s: State, j: Job): State
  {
    s.(jobs := s.jobs[j.id := j], order := if j.id in s.jobs then s.order else s.order + [j.id])
  }

  // The jobs map after reading the saved records in order; a repeated id keeps its first place.
  function LoadJobs(s: State, js: seq<Job>): State
    decreases |js|
  {
    if js == [] then s else LoadJobs(LoadOne(s, Requeue(js[0])), js[1..])
  }

  function RemainingMs(j: Job, now: int): int
  {
    if j.runAt.Some? && j.runAt.value != 0 then j.runAt.value - now else 0
  }

  // A queued job missing from the saved order: re-arm what is left of its delay, or append it.
  function ResumeOne(s: State, id: JobId, now: int): State
  {
    if id !in s.jobs || s.jobs[id].status != Queued || id in s.queue then s
    else if RemainingMs(s.jobs[id], now) > 0 then Arm(s, id, RemainingMs(s.jobs[id], now), now)
    else s.(queue := s.queue + [id])
  }

  function Resume(s: State, ids: seq<JobId>, now: int): State
    decreases |ids|
  {
    if ids == [] then s else Resume(ResumeOne(s, ids[0], now), ids[1..], now)
  }

  predicate StillQueued(jobs: map<JobId, Job>, id: JobId)
  {
    id in jobs && jobs[id].status == Queued
  }

  // The saved ids whose job came back queued.
  function KeepQueued(jobs: map<JobId, Job>, ids: seq<JobId>): (r: seq<JobId>)
    ensures forall id | id in r :: StillQueued(jobs, id) && id in ids
    ensures forall id | id in ids :: StillQueued(jobs, id) ==> id in r
  {
    if ids == [] then []
    else if StillQueued(jobs, ids[0]) then [ids[0]] + KeepQueued(jobs, ids[1..])
    else KeepQueued(jobs, ids[1..])
  }

  function Recover(snap: Snapshot, now: int): State
  {
    var s := LoadJobs(EMPTY.(clock := now), snap.jobs);
    var s1 := s.(queue := KeepQueued(s.jobs, snap.queueOrder),
                 disk := Some(snap),
                 hist := NO_HISTORY.(minted := s.jobs.Keys, base := s.jobs));
    Resume(s1, s1.order, now)
  }

  // A process that dies and boots again; ids minted before stay used.
  function Crash(s: State, now: int): State
  {
    var r := match s.disk case Some(snap) => Recover(snap, now) case None => EMPTY.(clock := now);
    r.(hist := r.hist.(minted := r.hist.minted + s.hist.minted))
  }

  // ---- runs ------------------------------------------------------------------------------

  datatype Event =
    | AddJob(request: Request, id: JobId)
    | TimerFires(index: nat)
    | HandlerSettles(id: JobId, ok: bool)
    | CancelJob(id: JobId)
    | StartQueue
    | StopQueue
    | RegisterHandler(kind: string)
    | FlushFires
    | CrashAndBoot

  // add() mints an id never used before; a timer fires no earlier than it is due; a handler
  // settles once per run; the flush fires when its timer is pending.
  ghost predicate Enabled(s: State, e: Event, t: Tick)
  {
    && s.clock <= t.now
    && match e
       case AddJob(_, id) => id !in s.hist.minted
       case TimerFires(i) => i < |s.timers| && s.timers[i].due <= t.now
       case HandlerSettles(id, _) => id in s.running && id in s.jobs
       case FlushFires => s.flushPending
       case _ => true
  }

  ghost function Step(c: Config, s: State, e: Event, t: Tick): State
    requires Enabled(s, e, t)
  {
    var s0 := s.(clock := t.now);
    match e
    case AddJob(r, id) => Add(c, s0, r, id, t).0
    case TimerFires(i) => Fire(c, s0, i, t)
    case HandlerSettles(id, ok) => Settle(c, s0, id, ok, t)
    case CancelJob(id) => Cancel(c, s0, id).0
    case StartQueue => Start(c, s0, t)
    case StopQueue => s0.(processing := false)
    case RegisterHandler(kind) => s0.(handlers := s0.handlers + {kind})
    case FlushFires => Flush(s0)
    case CrashAndBoot => Crash(s0, t.now)
  }

  ghost predicate Feasible(c: Config, s: State, run: seq<(Event, Tick)>)
    decreases |run|
  {
    run == [] || (Enabled(s, run[0].0, run[0].1) && Feasible(c, Step(c, s, run[0].0, run[0].1), run[1..]))
  }

  ghost function Run(c: Config, s: State, run: seq<(Event, Tick)>): State
    requires Feasible(c, s, run)
    decreases |run|
  {
    if run == [] then s else Run(c, Step(c, s, run[0].0, run[0].1), run[1..])
  }
}
