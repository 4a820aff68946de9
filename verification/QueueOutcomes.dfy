/**
 What becomes of a job: the record every operation leaves, and over whole runs that a job is
 completed exactly if its handler resolved last, and cancelled exactly if it was cancelled last.
 */
module QueueOutcomes {
  import opened Common
  import opened QueueModel
  import opened QueuePlacement
  import opened QueueOrder
  import opened QueueBudget
  import opened QueueTiming

  // ---- a drain touches queued jobs only --------------------------------------------------

  predicate Decided(status: Status)
  {
    status == Completed || status == Cancelled
  }

  // A decided record stays as it is, and no other becomes decided.
  predicate OutcomeKept(a: map<JobId, Job>, b: map<JobId, Job>, id: JobId)
  {
    id in a ==> id in b && if Decided(a[id].status) then b[id] == a[id] else !Decided(b[id].status)
  }

  // What a failed run makes of a job: another try, or the end.
  function AfterFailure(j: Job, now: int): Job
  {
    var q := j.(attempts := j.attempts + 1, error := Some(HandlerError));
    if q.attempts < q.maxAttempts then q.(status := Queued, startedAt := None)
    else q.(status := Failed, failedAt := Some(now))
  }

  lemma RetryKnown(c: Config, s: State, id: JobId, j: Job, now: int, r: State)
    requires r == Retry(c, s, id, j, now)
    ensures Known(r) == Known(s)[id := j.(status := Queued, startedAt := None)]
  {
    KnownPut(s, id, j.(status := Queued, startedAt := None));
  }

  lemma FailedKnown(c: Config, s: State, id: JobId, j: Job, now: int, r: State)
    requires r == GiveUp(c, s, id, j, now)
    ensures Known(r) == Known(s)[id := j.(status := Failed, failedAt := Some(now))]
  {
    GiveUpKnown(c, s, id, j.(status := Failed, failedAt := Some(now)));
  }

  lemma FailRunKnown(c: Config, s: State, id: JobId, now: int, r: State)
    requires id in s.jobs && r == FailRun(c, s, id, now)
    ensures Known(r) == Known(s)[id := AfterFailure(s.jobs[id], now)]
  {
    var j := s.jobs[id].(attempts := s.jobs[id].attempts + 1, error := Some(HandlerError));
    if j.attempts < j.maxAttempts {
      RetryKnown(c, s, id, j, now, r);
    } else {
      FailedKnown(c, s, id, j, now, r);
    }
  }

  lemma GiveUpKnown(c: Config, s: State, id: JobId, f: Job)
    ensures Known(Evict(c, Release(s.(jobs := s.jobs[id := f]), id))) == Known(s)[id := f]
  {
    KnownPut(s, id, f);
    EvictKnown(c, Release(s.(jobs := s.jobs[id := f]), id));
  }

  lemma CompleteRunKnown(c: Config, s: State, id: JobId, now: int)
    requires id in s.jobs
    ensures Known(CompleteRun(c, s, id, now))
         == Known(s)[id := s.jobs[id].(status := Completed, completedAt := Some(now))]
  {
    GiveUpKnown(c, s, id, s.jobs[id].(status := Completed, completedAt := Some(now)));
  }

  // What a job that is started becomes, there and then.
  function Started(c: Config, s: State, j: Job, t: Tick): Job
  {
    if j.kind !in s.handlers then j.(status := Failed, error := Some(NoHandler), failedAt := Some(t.now))
    else if j.timeoutMs <= 0 && j.id in t.throws then
      AfterFailure(j.(status := Running, startedAt := Some(t.now)), t.now)
    else j.(status := Running, startedAt := Some(t.now))
  }

  lemma LaunchKnown(c: Config, s: State, id: JobId, now: int)
    requires id in s.jobs
    ensures Known(Launch(c, s, id, now)) == Known(s)[id := s.jobs[id].(status := Running, startedAt := Some(now))]
  {
    KnownPut(s, id, s.jobs[id].(status := Running, startedAt := Some(now)));
  }

  lemma ThrowKnown(c: Config, s: State, id: JobId, now: int, r: State)
    requires id in s.jobs && r == FailRun(c, Launch(c, s, id, now), id, now)
    ensures Known(r) == Known(s)[id := AfterFailure(s.jobs[id].(status := Running, startedAt := Some(now)), now)]
  {
    LaunchKnown(c, s, id, now);
    FailRunKnown(c, Launch(c, s, id, now), id, now, r);
  }

  lemma ExecuteKnown(c: Config, s: State, id: JobId, t: Tick, r: State)
    requires id in s.jobs && s.jobs[id].id == id && r == Execute(c, s, id, t)
    ensures Known(r) == Known(s)[id := Started(c, s, s.jobs[id], t)]
  {
    var j := s.jobs[id];
    if j.kind !in s.handlers {
      KnownPut(s, id, Started(c, s, j, t));
    } else if j.timeoutMs <= 0 && id in t.throws {
      ThrowKnown(c, s, id, t.now, r);
    } else {
      LaunchKnown(c, s, id, t.now);
    }
  }

  // One round of the loop starts the head if it is still queued, and touches no other job.
  lemma DispatchKnown(c: Config, s: State, t: Tick)
    requires Inv(c, s) && CanDispatch(c, s)
    ensures var id := s.queue[0];
            && id in s.jobs && s.jobs[id].status == Queued && s.jobs[id].id == id
            && Known(Dispatch(c, s, t)) == Known(s)[id := Started(c, s, s.jobs[id], t)]
  {
    var id, s1 := s.queue[0], s.(queue := s.queue[1..]);
    HeadOpens(c, s);
    assert Known(s1) == Known(s);
    ExecuteKnown(c, s1, id, t, Dispatch(c, s, t));
  }

  lemma {:induction false} DrainOutcome(c: Config, s: State, t: Tick, id: JobId)
    requires Inv(c, s)
    ensures OutcomeKept(Known(s), Known(Drain(c, s, t)), id)
    ensures id !in s.queue && id in Known(s) ==>
              id in Known(Drain(c, s, t)) && Known(Drain(c, s, t))[id] == Known(s)[id]
    decreases |s.queue|
  {
    if CanDispatch(c, s) {
      DispatchPlaces(c, s, t);
      DispatchKnown(c, s, t);
      assert id in Dispatch(c, s, t).queue ==> id in s.queue;
      DrainOutcome(c, Dispatch(c, s, t), t, id);
    }
  }

  // ---- the record every event leaves -----------------------------------------------------

  lemma NotQueued(c: Config, s: State, id: JobId)
    requires Inv(c, s) && id in s.jobs && s.jobs[id].status != Queued
    ensures id !in s.queue
  {
    assert id in s.queue <==> id in Elems(s.queue);
  }

  // A handler that resolves completes its job, and changes nothing else about it, whether or not
  // the job is evicted at once.
  lemma CompletedRecord(c: Config, s: State, id: JobId, t: Tick)
    requires Inv(c, s) && Enabled(s, HandlerSettles(id, true), t)
    ensures var r := Step(c, s, HandlerSettles(id, true), t);
            && id in Known(r)
            && Known(r)[id] == s.jobs[id].(status := Completed, completedAt := Some(t.now))
  {
    var s0 := s.(clock := t.now);
    var u := CompleteRun(c, s0, id, t.now);
    assert Known(s0) == Known(s);
    NotQueued(c, s, id);
    CompleteRunPlaces(c, s0, id, t.now);
    CompleteRunKnown(c, s0, id, t.now);
    DrainOutcome(c, u, t, id);
  }

  // One that rejects puts its job back in line with one attempt more, or fails it for good when
  // that was the last.
  lemma FailedRecord(c: Config, s: State, id: JobId, t: Tick)
    requires Inv(c, s) && Enabled(s, HandlerSettles(id, false), t)
    ensures var r, j := Step(c, s, HandlerSettles(id, false), t), s.jobs[id];
            && id in Known(r)
            && Known(r)[id] == if j.attempts + 1 < j.maxAttempts
                               then j.(attempts := j.attempts + 1, error := Some(HandlerError),
                                       status := Queued, startedAt := None)
                               else j.(attempts := j.attempts + 1, error := Some(HandlerError),
                                       status := Failed, failedAt := Some(t.now))
  {
    var s0 := s.(clock := t.now);
    var u := FailRun(c, s0, id, t.now);
    assert Known(s0) == Known(s);
    NotQueued(c, s, id);
    FailRunPlaces(c, s0, id, t.now);
    FailRunKnown(c, s0, id, t.now, u);
    FailRunQueue(c, s0, id, t.now, u);
    DrainOutcome(c, u, t, id);
  }

  lemma FailRunQueue(c: Config, s: State, id: JobId, now: int, r: State)
    requires id in s.jobs && r == FailRun(c, s, id, now)
    ensures r.queue == s.queue
  {}

  predicate Cancellable(s: State, id: JobId)
  {
    id in s.jobs && s.jobs[id].status != Running
  }

  // A job that is known and not at work is cancelled, leaves the queue, and is otherwise as it
  // was; any other is left alone, and the caller is told so.
  lemma CancelledRecord(c: Config, s: State, id: JobId, t: Tick)
    requires Inv(c, s) && Enabled(s, CancelJob(id), t)
    ensures Cancel(c, s, id).1 <==> Cancellable(s, id)
    ensures var r := Step(c, s, CancelJob(id), t);
            if Cancellable(s, id) then
              && r.jobs == s.jobs[id := s.jobs[id].(status := Cancelled)] && r.hist == s.hist
              && id !in r.queue && (forall x | x != id :: x in r.queue <==> x in s.queue)
              && r.timers == s.timers && r.running == s.running && r.order == s.order
            else r == s.(clock := t.now)
  {
    if Cancellable(s, id) {
      DequeuedRemoves(s.queue, id);
    }
  }

  // ---- the terms of a job ----------------------------------------------------------------

  // What was asked for, with the defaults for what was not; 2 is the normal priority.
  predicate OnTerms(c: Config, j: Job, id: JobId, r: Request, now: int)
  {
    && j.id == id && j.kind == r.kind && j.delay == r.delay && j.createdAt == now
    && j.priority == (if r.priority == 0 then 2 else r.priority)
    && j.maxAttempts == (if r.maxAttempts == 0 then c.retryAttempts else r.maxAttempts)
    && (r.timeoutMs.None? ==> j.timeoutMs == c.timeoutMs) && (r.timeoutMs.Some? ==> j.timeoutMs == r.timeoutMs.value)
    && (if r.delay > 0 then j.runAt == Some(now + r.delay) else j.runAt.None?)
  }

  // A job is admitted exactly if there is room in the queue, and told so.
  lemma AdmittedIffRoom(c: Config, s: State, r: Request, id: JobId, t: Tick)
    requires Inv(c, s) && Enabled(s, AddJob(r, id), t) && id !in Known(s)
    ensures var u := Step(c, s, AddJob(r, id), t);
            && (id in Known(u) <==> |s.queue| < c.maxDepth)
            && (if |s.queue| < c.maxDepth then Add(c, s.(clock := t.now), r, id, t).1 == Ok(id)
                else u == s.(clock := t.now, rejected := s.rejected + 1)
                     && Add(c, s.(clock := t.now), r, id, t).1 == Err(QueueFull(c.maxDepth)))
  {
    var s0 := s.(clock := t.now);
    assert Known(s0) == Known(s);
    if |s.queue| < c.maxDepth {
      AddKnown(c, s0, r, id, t);
    }
  }

  lemma AddKnown(c: Config, s: State, r: Request, id: JobId, t: Tick)
    requires Inv(c, s) && id !in s.hist.minted && |s.queue| < c.maxDepth
    ensures id in Known(Add(c, s, r, id, t).0)
    ensures !Decided(Known(Add(c, s, r, id, t).0)[id].status)
    ensures forall x | x != id :: OutcomeKept(Known(s), Known(Add(c, s, r, id, t).0), x)
  {
    var j := NewJob(c, r, id, t.now);
    var s1 := Store(c, s, j);
    KnownPut(s, id, j);
    assert Known(s1) == Known(s)[id := j];
    if r.delay <= 0 {
      StoreOpens(c, s, j);
      InsertPlaces(c, s1, id);
      assert Known(Insert(s1, id)) == Known(s1);
      DrainOutcome(c, Insert(s1, id), t, id);
      forall x | x != id ensures OutcomeKept(Known(s), Known(Drain(c, Insert(s1, id), t)), x) {
        DrainOutcome(c, Insert(s1, id), t, x);
      }
    } else {
      assert Known(Arm(s1, id, r.delay, t.now)) == Known(s1);
    }
  }

  // Every known job is on the terms of a request of the past.
  ghost predicate HasTerms(c: Config, known: map<JobId, Job>, past: seq<(Event, Tick)>)
  {
    forall id | id in known :: WasAsked(c, known[id], id, past)
  }

  ghost predicate WasAsked(c: Config, j: Job, id: JobId, past: seq<(Event, Tick)>)
  {
    exists i :: 0 <= i < |past| && past[i].0.AddJob? && past[i].0.id == id
                && OnTerms(c, j, id, past[i].0.request, past[i].1.now)
  }

  lemma AskedStill(c: Config, j: Job, q: Job, id: JobId, past: seq<(Event, Tick)>, more: seq<(Event, Tick)>)
    requires WasAsked(c, j, id, past) && SameTerms(q, j)
    ensures WasAsked(c, q, id, past + more)
  {
    var i :| 0 <= i < |past| && past[i].0.AddJob? && past[i].0.id == id
             && OnTerms(c, j, id, past[i].0.request, past[i].1.now);
    assert (past + more)[i] == past[i];
  }

  lemma StepTerms(c: Config, s: State, e: Event, t: Tick, past: seq<(Event, Tick)>)
    requires Inv(c, s) && Minted(s) && HasTerms(c, Known(s), past) && Enabled(s, e, t) && !e.CrashAndBoot?
    ensures HasTerms(c, Known(Step(c, s, e, t)), past + [(e, t)])
  {
    var after := Known(Step(c, s, e, t));
    StepSame(c, s, e, t);
    forall id | id in after ensures WasAsked(c, after[id], id, past + [(e, t)]) {
      if e.AddJob? && id == e.id {
        assert (past + [(e, t)])[|past|] == (e, t);
      } else {
        AskedStill(c, Known(s)[id], after[id], id, past, [(e, t)]);
      }
    }
  }

  lemma {:induction false} RunTerms(c: Config, s: State, run: seq<(Event, Tick)>, past: seq<(Event, Tick)>)
    requires Inv(c, s) && Saturated(c, s) && Minted(s) && HasTerms(c, Known(s), past)
    requires Feasible(c, s, run) && CrashFree(run)
    ensures HasTerms(c, Known(Run(c, s, run)), past + run)
    decreases |run|
  {
    if run == [] {
      assert past + run == past;
    } else {
      var e, t := run[0].0, run[0].1;
      StepPlaces(c, s, e, t);
      StepMinted(c, s, e, t);
      StepTerms(c, s, e, t, past);
      RunTerms(c, Step(c, s, e, t), run[1..], past + [(e, t)]);
      assert past + [(e, t)] + run[1..] == past + run;
    }
  }

  // In every crash-free run, a job is for ever on the terms it was asked for, evicted or not.
  lemma TermsAreTheRequests(c: Config, run: seq<(Event, Tick)>, id: JobId)
    requires Feasible(c, EMPTY, run) && CrashFree(run)
    ensures id in Known(Run(c, EMPTY, run)) ==> WasAsked(c, Known(Run(c, EMPTY, run))[id], id, run)
  {
    NothingYet(c);
    RunTerms(c, EMPTY, run, []);
    assert [] + run == run;
    TermsOfOne(c, Known(Run(c, EMPTY, run)), run, id);
  }

  lemma NothingYet(c: Config)
    ensures Inv(c, EMPTY) && Saturated(c, EMPTY) && Minted(EMPTY) && HasTerms(c, Known(EMPTY), [])
  {}

  lemma TermsOfOne(c: Config, known: map<JobId, Job>, past: seq<(Event, Tick)>, id: JobId)
    requires HasTerms(c, known, past)
    ensures id in known ==> WasAsked(c, known[id], id, past)
  {}

  // ---- completed and cancelled jobs ------------------------------------------------------

  // The last thing said of a job: its handler resolved, or it was cancelled, or neither since.
  datatype Verdict = Open | Succeeded(at: int) | Withdrawn

  // A handler that settles speaks of its job, and a cancellation of a job that is not at work.
  function Heard(s: State, e: Event, t: Tick, id: JobId, v: Verdict): Verdict
  {
    if e == HandlerSettles(id, true) then Succeeded(t.now)
    else if e == HandlerSettles(id, false) then Open
    else if e == CancelJob(id) && Cancellable(s, id) then Withdrawn
    else v
  }

  ghost function VerdictOf(c: Config, s: State, run: seq<(Event, Tick)>, id: JobId, v: Verdict): Verdict
    requires Feasible(c, s, run)
    decreases |run|
  {
    if run == [] then v
    else VerdictOf(c, Step(c, s, run[0].0, run[0].1), run[1..], id, Heard(s, run[0].0, run[0].1, id, v))
  }

  predicate Agrees(known: map<JobId, Job>, id: JobId, v: Verdict)
  {
    if id in known then
      && (known[id].status == Completed <==> v.Succeeded?)
      && (known[id].status == Cancelled <==> v.Withdrawn?)
      && (v.Succeeded? ==> known[id].completedAt == Some(v.at))
    else v.Open?
  }

  lemma KeptAgrees(a: map<JobId, Job>, b: map<JobId, Job>, id: JobId, v: Verdict)
    requires Agrees(a, id, v) && OutcomeKept(a, b, id) && (id in b ==> id in a)
    ensures Agrees(b, id, v)
  {}

  // An event that says nothing of the job leaves its outcome.
  lemma StepOutcome(c: Config, s: State, e: Event, t: Tick, id: JobId)
    requires Inv(c, s) && Minted(s) && Enabled(s, e, t) && !e.CrashAndBoot?
    requires !(e.HandlerSettles? && e.id == id) && !(e == CancelJob(id)) && !(e.AddJob? && e.id == id)
    ensures OutcomeKept(Known(s), Known(Step(c, s, e, t)), id)
  {
    var s0 := s.(clock := t.now);
    assert Known(s0) == Known(s);
    match e
    case AddJob(r, x) =>
      if |s.queue| < c.maxDepth {
        AddKnown(c, s0, r, x, t);
      }
    case TimerFires(i) =>
      var s1 := s0.(timers := RemoveAt(s.timers, i));
      FireOpens(c, s0, i);
      assert Known(s1) == Known(s);
      if StillQueued(s.jobs, s.timers[i].job) {
        InsertPlaces(c, s1, s.timers[i].job);
        assert Known(Insert(s1, s.timers[i].job)) == Known(s);
        DrainOutcome(c, Insert(s1, s.timers[i].job), t, id);
      }
    case HandlerSettles(x, ok) => SettleOthers(c, s0, x, ok, t, id);
    case CancelJob(x) =>
      if Cancellable(s, x) {
        KnownPut(s0, x, s.jobs[x].(status := Cancelled));
      }
    case StartQueue =>
      if !s.processing {
        assert Known(s0.(processing := true)) == Known(s);
        DrainOutcome(c, s0.(processing := true), t, id);
      }
    case StopQueue =>
    case RegisterHandler(kind) =>
    case FlushFires => assert Known(Flush(s0)) == Known(s);
  }

  lemma SettleOthers(c: Config, s: State, x: JobId, ok: bool, t: Tick, id: JobId)
    requires Inv(c, s) && x in s.jobs && s.jobs[x].status == Running && id != x
    ensures OutcomeKept(Known(s), Known(Settle(c, s, x, ok, t)), id)
  {
    if ok {
      CompleteRunPlaces(c, s, x, t.now);
      CompleteRunKnown(c, s, x, t.now);
      DrainOutcome(c, CompleteRun(c, s, x, t.now), t, id);
    } else {
      FailRunPlaces(c, s, x, t.now);
      FailRunKnown(c, s, x, t.now, FailRun(c, s, x, t.now));
      DrainOutcome(c, FailRun(c, s, x, t.now), t, id);
    }
  }

  lemma StepAgrees(c: Config, s: State, e: Event, t: Tick, id: JobId, v: Verdict)
    requires Inv(c, s) && Minted(s) && Agrees(Known(s), id, v) && Enabled(s, e, t) && !e.CrashAndBoot?
    ensures Agrees(Known(Step(c, s, e, t)), id, Heard(s, e, t, id, v))
  {
    StepSame(c, s, e, t);
    if e == HandlerSettles(id, true) {
      CompletedRecord(c, s, id, t);
    } else if e == HandlerSettles(id, false) {
      FailedRecord(c, s, id, t);
    } else if e == CancelJob(id) {
      CancelledRecord(c, s, id, t);
      CancelAgrees(c, s, id, t, v);
    } else if e.AddJob? && e.id == id {
      AddAgrees(c, s, e.request, id, t);
    } else {
      StepOutcome(c, s, e, t, id);
      KeptAgrees(Known(s), Known(Step(c, s, e, t)), id, v);
    }
  }

  lemma CancelAgrees(c: Config, s: State, id: JobId, t: Tick, v: Verdict)
    requires Inv(c, s) && Agrees(Known(s), id, v) && Enabled(s, CancelJob(id), t)
    ensures Agrees(Known(Step(c, s, CancelJob(id), t)), id, Heard(s, CancelJob(id), t, id, v))
  {
    CancelledRecord(c, s, id, t);
    if Cancellable(s, id) {
      assert id in Known(Step(c, s, CancelJob(id), t));
    } else {
      assert Known(s.(clock := t.now)) == Known(s);
    }
  }

  lemma AddAgrees(c: Config, s: State, r: Request, id: JobId, t: Tick)
    requires Inv(c, s) && Minted(s) && Enabled(s, AddJob(r, id), t)
    ensures Agrees(Known(Step(c, s, AddJob(r, id), t)), id, Open)
  {
    AdmittedIffRoom(c, s, r, id, t);
    if |s.queue| < c.maxDepth {
      AddKnown(c, s.(clock := t.now), r, id, t);
    }
  }

  lemma {:induction false} RunAgrees(c: Config, s: State, run: seq<(Event, Tick)>, id: JobId, v: Verdict)
    requires Inv(c, s) && Saturated(c, s) && Minted(s) && Agrees(Known(s), id, v)
    requires Feasible(c, s, run) && CrashFree(run)
    ensures Agrees(Known(Run(c, s, run)), id, VerdictOf(c, s, run, id, v))
    decreases |run|
  {
    if run != [] {
      var e, t := run[0].0, run[0].1;
      StepPlaces(c, s, e, t);
      StepMinted(c, s, e, t);
      StepAgrees(c, s, e, t, id, v);
      RunAgrees(c, Step(c, s, e, t), run[1..], id, Heard(s, e, t, id, v));
    }
  }

  // In every crash-free run, evicted or not: a job is completed, at that time, if and only if the
  // last thing said of it is that its handler resolved; and cancelled if and only if it is that it
  // was cancelled.
  lemma OutcomesAreTheVerdicts(c: Config, run: seq<(Event, Tick)>, id: JobId)
    requires Feasible(c, EMPTY, run) && CrashFree(run)
    ensures Agrees(Known(Run(c, EMPTY, run)), id, VerdictOf(c, EMPTY, run, id, Open))
  {
    RunAgrees(c, EMPTY, run, id, Open);
  }

  // ---- the history -----------------------------------------------------------------------

  predicate Over(status: Status)
  {
    status == Completed || status == Failed || status == Cancelled
  }

  function Finished(order: seq<JobId>, jobs: map<JobId, Job>): nat
  {
    if order == [] then 0
    else (if order[0] in jobs && Over(jobs[order[0]].status) then 1 else 0) + Finished(order[1..], jobs)
  }

  lemma {:induction false} SurvivorsCount(order: seq<JobId>, jobs: map<JobId, Job>, excess: int)
    ensures |Survivors(order, jobs, excess)| == |order| - Min(Max(0, excess), Finished(order, jobs))
  {
    if excess > 0 && order != [] {
      var goes := order[0] in jobs && Over(jobs[order[0]].status);
      SurvivorsCount(order[1..], jobs, if goes then excess - 1 else excess);
    }
  }

  // If a finished job goes, so does every finished one added before it.
  lemma {:induction false} OldestGo(order: seq<JobId>, jobs: map<JobId, Job>, excess: int, i: nat, j: nat)
    requires Distinct(order) && i < j < |order| && order[j] !in Survivors(order, jobs, excess)
    requires order[i] in jobs && Over(jobs[order[i]].status)
    ensures order[i] !in Survivors(order, jobs, excess)
  {
    if excess > 0 {
      var goes := order[0] in jobs && Over(jobs[order[0]].status);
      TailElems(order);
      if i > 0 {
        assert order[i] != order[0] && order[j] in order[1..];
        assert order[j] !in Survivors(order[1..], jobs, if goes then excess - 1 else excess);
        OldestGo(order[1..], jobs, if goes then excess - 1 else excess, i - 1, j - 1);
      } else {
        assert order[0] !in order[1..];
      }
    }
  }

  // The history keeps within its limit as far as it can: as many finished jobs go as are beyond it,
  // the oldest first, and no other job.
  lemma HistoryWithinLimit(c: Config, s: State)
    requires MapOk(s.jobs, s.order)
    ensures var r := Evict(c, s);
            && |r.order| == |s.order| - Min(Max(0, |s.order| - c.historyLimit), Finished(s.order, s.jobs))
            && (forall id :: id in r.jobs <==> id in r.order && id in s.jobs)
            && (forall id | id in r.jobs :: r.jobs[id] == s.jobs[id])
            && (forall id | id in s.jobs && id !in r.jobs :: Over(s.jobs[id].status))
            && (forall i, j :: 0 <= i < j < |s.order| && s.order[j] !in r.order
                               && s.order[i] in s.jobs && Over(s.jobs[s.order[i]].status) ==>
                                 s.order[i] !in r.order)
  {
    var excess := |s.order| - c.historyLimit;
    SurvivorsCount(s.order, s.jobs, excess);
    if excess > 0 {
      forall i, j | 0 <= i < j < |s.order| && s.order[j] !in Survivors(s.order, s.jobs, excess)
                    && s.order[i] in s.jobs && Over(s.jobs[s.order[i]].status)
        ensures s.order[i] !in Survivors(s.order, s.jobs, excess)
      {
        OldestGo(s.order, s.jobs, excess, i, j);
      }
    }
  }

  // ---- starting and stopping -------------------------------------------------------------

  // A queue that is stopped starts nothing until it is started, and is started and stopped by
  // nothing else.
  lemma StoppedStartsNothing(c: Config, s: State, e: Event, t: Tick)
    requires Enabled(s, e, t) && !e.CrashAndBoot?
    ensures var r := Step(c, s, e, t);
            && (r.processing <==> e.StartQueue? || (s.processing && !e.StopQueue?))
            && (!s.processing && !e.StartQueue? ==> r.hist.starts == s.hist.starts)
            && r.handlers == if e.RegisterHandler? then s.handlers + {e.kind} else s.handlers
  {
    var s0 := s.(clock := t.now);
    match e
    case AddJob(r, id) =>
      var s1 := Insert(Store(c, s0, NewJob(c, r, id, t.now)), id);
      DrainSwitch(c, s1, t);
    case TimerFires(i) =>
      if StillQueued(s.jobs, s.timers[i].job) {
        DrainSwitch(c, Insert(s0.(timers := RemoveAt(s.timers, i)), s.timers[i].job), t);
      }
    case HandlerSettles(id, ok) => SettleSwitch(c, s0, id, ok, t);
    case CancelJob(id) =>
    case StartQueue => DrainSwitch(c, s0.(processing := true), t);
    case StopQueue =>
    case RegisterHandler(kind) =>
    case FlushFires =>
  }

  ghost predicate SameSwitch(s: State, r: State)
  {
    r.processing == s.processing && r.handlers == s.handlers && (!s.processing ==> r.hist.starts == s.hist.starts)
  }

  lemma FailRunSwitch(c: Config, s: State, id: JobId, now: int)
    requires id in s.jobs
    ensures SameSwitch(s, FailRun(c, s, id, now)) && FailRun(c, s, id, now).hist.starts == s.hist.starts
  {}

  lemma ExecuteSwitch(c: Config, s: State, id: JobId, t: Tick, r: State)
    requires id in s.jobs && s.processing && r == Execute(c, s, id, t)
    ensures SameSwitch(s, r)
  {
    FailRunSwitch(c, Launch(c, s, id, t.now), id, t.now);
  }

  lemma {:induction false} DrainSwitch(c: Config, s: State, t: Tick)
    ensures SameSwitch(s, Drain(c, s, t))
    decreases |s.queue|
  {
    if CanDispatch(c, s) {
      var id, s1 := s.queue[0], s.(queue := s.queue[1..]);
      if StillQueued(s.jobs, id) {
        ExecuteSwitch(c, s1, id, t, Dispatch(c, s, t));
      }
      DrainSwitch(c, Dispatch(c, s, t), t);
    }
  }

  lemma SettleSwitch(c: Config, s: State, id: JobId, ok: bool, t: Tick)
    requires id in s.jobs
    ensures SameSwitch(s, Settle(c, s, id, ok, t))
  {
    if ok {
      DrainSwitch(c, CompleteRun(c, s, id, t.now), t);
    } else {
      FailRunSwitch(c, s, id, t.now);
      DrainSwitch(c, FailRun(c, s, id, t.now), t);
    }
  }
}
