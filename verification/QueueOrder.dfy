/**
 Dispatch order. From boot until a recovery, the queue is the stable sort of the waiting jobs by
 descending priority, first enqueued first among equals, so no job is started while one that
 should precede it is still queued.
 */
module QueueOrder {
  import opened Common
  import opened QueueModel
  import opened QueuePlacement

  ghost predicate Before(jobs: map<JobId, Job>, stamps: map<JobId, nat>, a: JobId, b: JobId)
  {
    && a in jobs && b in jobs && a in stamps && b in stamps
    && (jobs[a].priority > jobs[b].priority
        || (jobs[a].priority == jobs[b].priority && stamps[a] < stamps[b]))
  }

  ghost predicate Sorted(jobs: map<JobId, Job>, stamps: map<JobId, nat>, q: seq<JobId>)
  {
    forall i, j :: 0 <= i < j < |q| ==> Before(jobs, stamps, q[i], q[j])
  }

  ghost predicate Ordered(s: State)
  {
    && Sorted(s.jobs, s.hist.stamps, s.queue)
    && (forall i :: 0 <= i < |s.queue| ==> s.queue[i] in s.hist.stamps && s.hist.stamps[s.queue[i]] < s.hist.nextStamp)
  }

  // Records may be dropped or updated, but no priority changes.
  ghost predicate SamePriorities(jobs: map<JobId, Job>, now: map<JobId, Job>)
  {
    forall id :: id in now ==> id in jobs && now[id].priority == jobs[id].priority
  }

  // No priority changes, and no stamp is rewritten.
  ghost predicate SameRanks(s: State, r: State)
  {
    && r.hist.stamps == s.hist.stamps && r.hist.nextStamp == s.hist.nextStamp
    && SamePriorities(s.jobs, r.jobs)
  }

  lemma SuffixOrdered(c: Config, s: State, r: State, k: nat)
    requires Ordered(s) && Inv(c, r) && SameRanks(s, r)
    requires k <= |s.queue| && r.queue == s.queue[k..]
    ensures Ordered(r)
  {
    QueuedKnown(c, r, {});
    SuffixSorted(s.jobs, r.jobs, s.hist.stamps, s.queue, k);
    forall i | 0 <= i < |r.queue| ensures r.queue[i] in s.hist.stamps && s.hist.stamps[r.queue[i]] < s.hist.nextStamp {
      assert r.queue[i] == s.queue[i + k];
    }
  }

  lemma SuffixSorted(jobs: map<JobId, Job>, now: map<JobId, Job>, stamps: map<JobId, nat>, q: seq<JobId>, k: nat)
    requires Sorted(jobs, stamps, q) && SamePriorities(jobs, now) && k <= |q| && forall x | x in q[k..] :: x in now
    ensures Sorted(now, stamps, q[k..])
  {
    forall i, j | 0 <= i < j < |q[k..]| ensures Before(now, stamps, q[k..][i], q[k..][j]) {
      assert Before(jobs, stamps, q[i + k], q[j + k]);
      assert q[k..][i] in q[k..] && q[k..][j] in q[k..];
    }
  }

  lemma InsertOrdered(s: State, id: JobId)
    requires Ordered(s) && id in s.jobs && id !in s.queue && forall x :: x in s.queue ==> x in s.jobs
    ensures Ordered(Insert(s, id))
  {
    var r := Insert(s, id);
    var k := Slot(s.jobs, s.queue, s.jobs[id].priority);
    var p := s.jobs[id].priority;
    forall i | k <= i < |s.queue| ensures s.queue[i] in s.jobs && s.jobs[s.queue[i]].priority < p {
      assert i > k ==> Before(s.jobs, s.hist.stamps, s.queue[k], s.queue[i]);
    }
    forall i | 0 <= i < k ensures s.queue[i] in s.jobs && s.jobs[s.queue[i]].priority >= p {
      assert s.queue[i] in s.queue;
    }
    forall i, j | 0 <= i < j < |r.queue| ensures Before(r.jobs, r.hist.stamps, r.queue[i], r.queue[j]) {
      var i0 := if i < k then i else i - 1;
      var j0 := if j < k then j else j - 1;
      if i != k && j != k {
        assert Before(s.jobs, s.hist.stamps, s.queue[i0], s.queue[j0]);
      }
    }
  }

  lemma EvictRanks(c: Config, s: State)
    ensures SameRanks(s, Evict(c, s)) && Evict(c, s).queue == s.queue
  {}

  lemma CompleteRunRanks(c: Config, s: State, id: JobId, now: int)
    requires id in s.jobs
    ensures SameRanks(s, CompleteRun(c, s, id, now)) && CompleteRun(c, s, id, now).queue == s.queue
  {
    EvictRanks(c, Release(s.(jobs := s.jobs[id := s.jobs[id].(status := Completed, completedAt := Some(now))]), id));
  }

  lemma FailRunRanks(c: Config, s: State, id: JobId, now: int)
    requires id in s.jobs
    ensures SameRanks(s, FailRun(c, s, id, now)) && FailRun(c, s, id, now).queue == s.queue
  {
    var j := s.jobs[id].(attempts := s.jobs[id].attempts + 1, error := Some(HandlerError));
    EvictRanks(c, Release(s.(jobs := s.jobs[id := j.(status := Failed, failedAt := Some(now))]), id));
    if j.attempts < j.maxAttempts {
      assert FailRun(c, s, id, now) == Retry(c, s, id, j, now);
    } else {
      assert FailRun(c, s, id, now) == GiveUp(c, s, id, j, now);
    }
  }

  lemma DispatchRanks(c: Config, s: State, t: Tick)
    requires s.queue != []
    ensures SameRanks(s, Dispatch(c, s, t))
  {
    if StillQueued(s.jobs, s.queue[0]) {
      ExecuteRanks(c, s.(queue := s.queue[1..]), s.queue[0], t);
    }
  }

  lemma ExecuteRanks(c: Config, s: State, id: JobId, t: Tick)
    requires id in s.jobs
    ensures SameRanks(s, Execute(c, s, id, t))
  {
    FailRunRanks(c, Launch(c, s, id, t.now), id, t.now);
  }

  // A drain takes jobs off the front of the queue only.
  lemma {:induction false} DrainTakesPrefix(c: Config, s: State, t: Tick) returns (k: nat)
    requires Inv(c, s)
    ensures k <= |s.queue| && Drain(c, s, t).queue == s.queue[k..]
    ensures SameRanks(s, Drain(c, s, t)) && Inv(c, Drain(c, s, t))
    decreases |s.queue|
  {
    if CanDispatch(c, s) {
      DispatchPlaces(c, s, t);
      DispatchRanks(c, s, t);
      k := DrainTakesPrefix(c, Dispatch(c, s, t), t);
      k := k + 1;
    } else {
      k := 0;
    }
  }

  // Every job a drain starts comes before every job it leaves queued.
  lemma DrainStartsFirstInLine(c: Config, s: State, t: Tick, a: JobId, b: JobId)
    requires Inv(c, s) && Ordered(s)
    ensures a in s.queue && a !in Drain(c, s, t).queue && b in Drain(c, s, t).queue ==>
            Before(s.jobs, s.hist.stamps, a, b)
  {
    var k := DrainTakesPrefix(c, s, t);
    if a in s.queue && a !in s.queue[k..] && b in s.queue[k..] {
      SplitSorted(s.jobs, s.hist.stamps, s.queue, k, a, b);
    }
  }

  lemma SplitSorted(jobs: map<JobId, Job>, stamps: map<JobId, nat>, q: seq<JobId>, k: nat, a: JobId, b: JobId)
    requires Sorted(jobs, stamps, q) && k <= |q| && a in q && a !in q[k..] && b in q[k..]
    ensures Before(jobs, stamps, a, b)
  {
    assert q == q[..k] + q[k..];
    var i :| 0 <= i < k && q[..k][i] == a;
    var j :| 0 <= j < |q| - k && q[k..][j] == b;
    assert Before(jobs, stamps, q[i], q[k + j]);
  }

  lemma DrainOrdered(c: Config, s: State, t: Tick)
    requires Inv(c, s) && Ordered(s)
    ensures Ordered(Drain(c, s, t))
  {
    var k := DrainTakesPrefix(c, s, t);
    SuffixOrdered(c, s, Drain(c, s, t), k);
  }

  lemma QueuedKnown(c: Config, s: State, hole: set<JobId>)
    requires InvBut(c, s, hole)
    ensures forall x :: x in s.queue ==> x in s.jobs && x !in hole && x !in Owners(s.timers)
  {
    assert forall x :: x in s.queue <==> x in Elems(s.queue);
  }

  lemma EnqueueOrdered(c: Config, s: State, id: JobId, t: Tick)
    requires InvBut(c, s, {id}) && StillQueued(s.jobs, id) && Ordered(s)
    ensures Ordered(Drain(c, Insert(s, id), t))
  {
    QueuedKnown(c, s, {id});
    InsertOrdered(s, id);
    InsertPlaces(c, s, id);
    DrainOrdered(c, Insert(s, id), t);
  }

  lemma StoreOrdered(c: Config, s: State, j: Job)
    requires Inv(c, s) && Ordered(s) && j.id !in s.hist.minted
    ensures Ordered(Store(c, s, j))
  {
    QueuedKnown(c, s, {});
    var r := Store(c, s, j);
    forall i, k | 0 <= i < k < |r.queue| ensures Before(r.jobs, r.hist.stamps, r.queue[i], r.queue[k]) {
      assert Before(s.jobs, s.hist.stamps, s.queue[i], s.queue[k]);
    }
  }

  lemma {:induction false} DequeuedSorted(jobs: map<JobId, Job>, stamps: map<JobId, nat>, q: seq<JobId>, id: JobId)
    requires Sorted(jobs, stamps, q)
    ensures Sorted(jobs, stamps, Dequeued(q, id))
  {
    if q != [] && q[0] != id {
      DequeuedSorted(jobs, stamps, q[1..], id);
      forall x | x in q[1..] ensures Before(jobs, stamps, q[0], x) {}
    }
  }

  lemma CancelOrdered(c: Config, s: State, id: JobId)
    requires Inv(c, s) && Ordered(s)
    ensures Ordered(Cancel(c, s, id).0)
  {
    var r := Cancel(c, s, id).0;
    var q := Dequeued(s.queue, id);
    DequeuedSorted(s.jobs, s.hist.stamps, s.queue, id);
    if r != s {
      forall i | 0 <= i < |q| ensures q[i] in s.queue {}
      forall i, j | 0 <= i < j < |q| ensures Before(r.jobs, r.hist.stamps, q[i], q[j]) {
        assert Before(s.jobs, s.hist.stamps, q[i], q[j]);
      }
    }
  }

  lemma SettleOrdered(c: Config, s: State, id: JobId, ok: bool, t: Tick)
    requires Inv(c, s) && Ordered(s) && id in s.jobs && s.jobs[id].status == Running
    ensures Ordered(Settle(c, s, id, ok, t))
  {
    if ok {
      var r := CompleteRun(c, s, id, t.now);
      CompleteRunPlaces(c, s, id, t.now);
      CompleteRunRanks(c, s, id, t.now);
      SuffixOrdered(c, s, r, 0);
      DrainOrdered(c, r, t);
    } else {
      var r := FailRun(c, s, id, t.now);
      FailRunPlaces(c, s, id, t.now);
      FailRunRanks(c, s, id, t.now);
      SuffixOrdered(c, s, r, 0);
      DrainOrdered(c, r, t);
    }
  }

  lemma AddOrdered(c: Config, s: State, r: Request, id: JobId, t: Tick)
    requires Inv(c, s) && Ordered(s) && id !in s.hist.minted
    ensures Ordered(Add(c, s, r, id, t).0)
  {
    if |s.queue| < c.maxDepth {
      var j := NewJob(c, r, id, t.now);
      StoreOrdered(c, s, j);
      if r.delay <= 0 {
        EnqueueNewOrdered(c, s, j, t);
      } else {
        ArmOrdered(Store(c, s, j), id, r.delay, t.now);
      }
    }
  }

  lemma ArmOrdered(s: State, id: JobId, ms: int, now: int)
    requires Ordered(s)
    ensures Ordered(Arm(s, id, ms, now))
  {}

  lemma EnqueueNewOrdered(c: Config, s: State, j: Job, t: Tick)
    requires Inv(c, s) && Ordered(s) && j.id !in s.hist.minted && j.status == Queued
    ensures Ordered(Drain(c, Insert(Store(c, s, j), j.id), t))
  {
    StoreOpens(c, s, j);
    StoreOrdered(c, s, j);
    EnqueueOrdered(c, Store(c, s, j), j.id, t);
  }

  // Every step but a recovery keeps the queue a stable priority sort.
  lemma StepOrdered(c: Config, s: State, e: Event, t: Tick)
    requires Inv(c, s) && Ordered(s) && Enabled(s, e, t) && !e.CrashAndBoot?
    ensures Ordered(Step(c, s, e, t))
  {
    var s0 := s.(clock := t.now);
    match e
    case AddJob(r, id) => AddOrdered(c, s0, r, id, t);
    case TimerFires(i) =>
      FireOpens(c, s0, i);
      if StillQueued(s.jobs, s.timers[i].job) {
        EnqueueOrdered(c, s0.(timers := RemoveAt(s.timers, i)), s.timers[i].job, t);
      }
    case HandlerSettles(id, ok) => SettleOrdered(c, s0, id, ok, t);
    case CancelJob(id) => CancelOrdered(c, s0, id);
    case StartQueue => if !s.processing { DrainOrdered(c, s0.(processing := true), t); }
    case StopQueue =>
    case RegisterHandler(kind) =>
    case FlushFires =>
    case CrashAndBoot =>
  }

  predicate CrashFree(run: seq<(Event, Tick)>)
  {
    forall i :: 0 <= i < |run| ==> !run[i].0.CrashAndBoot?
  }

  lemma {:induction false} RunOrdered(c: Config, s: State, run: seq<(Event, Tick)>)
    requires Inv(c, s) && Saturated(c, s) && Ordered(s) && Feasible(c, s, run) && CrashFree(run)
    ensures Ordered(Run(c, s, run)) && Inv(c, Run(c, s, run)) && Saturated(c, Run(c, s, run))
    decreases |run|
  {
    if run != [] {
      StepPlaces(c, s, run[0].0, run[0].1);
      StepOrdered(c, s, run[0].0, run[0].1);
      RunOrdered(c, Step(c, s, run[0].0, run[0].1), run[1..]);
    }
  }

  lemma HeadFirst(jobs: map<JobId, Job>, stamps: map<JobId, nat>, p: seq<JobId>, x: JobId)
    requires Sorted(jobs, stamps, p) && x in Elems(p)
    ensures p != [] && (x == p[0] || Before(jobs, stamps, p[0], x))
  {}

  // Two listings of the same jobs in dispatch order are the same listing.
  lemma {:induction false} SortedUnique(jobs: map<JobId, Job>, stamps: map<JobId, nat>, p: seq<JobId>, q: seq<JobId>)
    requires Sorted(jobs, stamps, p) && Sorted(jobs, stamps, q)
    requires Distinct(p) && Distinct(q) && Elems(p) == Elems(q)
    ensures p == q
  {
    if p != [] {
      HeadFirst(jobs, stamps, q, p[0]);
      HeadFirst(jobs, stamps, p, q[0]);
      TailElems(p);
      TailElems(q);
      SortedUnique(jobs, stamps, p[1..], q[1..]);
    } else if q != [] {
      HeadFirst(jobs, stamps, p, q[0]);
    }
  }

  // In any crash-free run from empty, the queue is the one listing of its jobs by descending
  // priority with the earlier enqueued first among equals.
  lemma QueueIsTheStableSort(c: Config, run: seq<(Event, Tick)>, q: seq<JobId>)
    requires Feasible(c, EMPTY, run) && CrashFree(run)
    requires var s := Run(c, EMPTY, run);
             Distinct(q) && Elems(q) == Elems(s.queue) && Sorted(s.jobs, s.hist.stamps, q)
    ensures q == Run(c, EMPTY, run).queue
  {
    RunOrdered(c, EMPTY, run);
    var s := Run(c, EMPTY, run);
    SortedUnique(s.jobs, s.hist.stamps, q, s.queue);
  }
}
