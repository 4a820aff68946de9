/**
 Retries that do not wait: a job can be started again before its backoff is over if and only if it
 has more attempts than backoffs the runtime can time.
 */
module QueueRetries {
  import opened Common
  import opened QueueModel
  import opened QueueRecovery
  import opened QueueRuns
  import opened QueueBudget
  import opened QueueTiming

  // ---- a backoff comes before the last attempt -------------------------------------------

  // The last backoff of x came with an attempt left.
  ghost predicate AttemptLeft(s: State, x: JobId)
  {
    x in s.hist.respites && x in Known(s) ==> s.hist.respites[x].attempts < Known(s)[x].maxAttempts
  }

  // A respite is kept, or one that leaves an attempt is put in its place.
  ghost predicate RespitesKept(s: State, r: State, x: JobId)
  {
    x in r.hist.respites ==>
      || (x in s.hist.respites && r.hist.respites[x] == s.hist.respites[x])
      || (x in Known(r) ==> r.hist.respites[x].attempts < Known(r)[x].maxAttempts)
  }

  lemma FailRunRespites(c: Config, s: State, id: JobId, now: int, x: JobId)
    requires id in s.jobs
    ensures RespitesKept(s, FailRun(c, s, id, now), x)
  {
    var j := s.jobs[id].(attempts := s.jobs[id].attempts + 1, error := Some(HandlerError));
    if j.attempts < j.maxAttempts {
      KnownPut(s, id, j.(status := Queued, startedAt := None));
    }
  }

  lemma ExecuteRespites(c: Config, s: State, id: JobId, t: Tick, x: JobId, r: State)
    requires id in s.jobs && r == Execute(c, s, id, t)
    ensures RespitesKept(s, r, x)
  {
    if s.jobs[id].kind in s.handlers && s.jobs[id].timeoutMs <= 0 && id in t.throws {
      FailRunRespites(c, Launch(c, s, id, t.now), id, t.now, x);
    }
  }

  // With the terms unchanged, what was left is left.
  lemma KeepsAttemptLeft(s: State, r: State, x: JobId)
    requires AttemptLeft(s, x) && RespitesKept(s, r, x) && SameDelays(Known(s), Known(r))
    ensures AttemptLeft(r, x)
  {}

  lemma DispatchAttemptLeft(c: Config, s: State, t: Tick, x: JobId)
    requires s.queue != [] && AttemptLeft(s, x)
    ensures AttemptLeft(Dispatch(c, s, t), x)
  {
    var id, s1 := s.queue[0], s.(queue := s.queue[1..]);
    assert Known(s1) == Known(s);
    if StillQueued(s.jobs, id) {
      ExecuteRespites(c, s1, id, t, x, Dispatch(c, s, t));
      ExecuteSame(c, s1, id, t, Dispatch(c, s, t));
      KeepsAttemptLeft(s1, Dispatch(c, s, t), x);
    }
  }

  lemma {:induction false} DrainAttemptLeft(c: Config, s: State, t: Tick, x: JobId)
    requires AttemptLeft(s, x)
    ensures AttemptLeft(Drain(c, s, t), x)
    decreases |s.queue|
  {
    if CanDispatch(c, s) {
      DispatchAttemptLeft(c, s, t, x);
      DrainAttemptLeft(c, Dispatch(c, s, t), t, x);
    }
  }

  lemma EnqueueAttemptLeft(c: Config, s: State, id: JobId, t: Tick, x: JobId)
    requires AttemptLeft(s, x) && id in s.jobs
    ensures AttemptLeft(Drain(c, Insert(s, id), t), x)
  {
    assert Known(Insert(s, id)) == Known(s);
    DrainAttemptLeft(c, Insert(s, id), t, x);
  }

  lemma AddAttemptLeft(c: Config, s: State, r: Request, id: JobId, t: Tick, x: JobId)
    requires AttemptLeft(s, x) && Minted(s) && id !in s.hist.minted
    ensures AttemptLeft(Add(c, s, r, id, t).0, x)
  {
    if |s.queue| < c.maxDepth {
      var j := NewJob(c, r, id, t.now);
      KnownPut(s, id, j);
      assert Known(Store(c, s, j)) == Known(s)[id := j];
      if r.delay <= 0 {
        EnqueueAttemptLeft(c, Store(c, s, j), id, t, x);
      }
    }
  }

  lemma SettleAttemptLeft(c: Config, s: State, id: JobId, ok: bool, t: Tick, x: JobId)
    requires AttemptLeft(s, x) && id in s.jobs
    ensures AttemptLeft(Settle(c, s, id, ok, t), x)
  {
    if ok {
      CompleteRunSame(c, s, id, t.now);
      KeepsAttemptLeft(s, CompleteRun(c, s, id, t.now), x);
      DrainAttemptLeft(c, CompleteRun(c, s, id, t.now), t, x);
    } else {
      FailRunRespites(c, s, id, t.now, x);
      FailRunSame(c, s, id, t.now);
      KeepsAttemptLeft(s, FailRun(c, s, id, t.now), x);
      DrainAttemptLeft(c, FailRun(c, s, id, t.now), t, x);
    }
  }

  lemma StepAttemptLeft(c: Config, s: State, e: Event, t: Tick, x: JobId)
    requires AttemptLeft(s, x) && Minted(s) && Enabled(s, e, t)
    ensures AttemptLeft(Step(c, s, e, t), x)
  {
    var s0 := s.(clock := t.now);
    assert Known(s0) == Known(s);
    match e
    case AddJob(r, id) => AddAttemptLeft(c, s0, r, id, t, x);
    case TimerFires(i) =>
      if StillQueued(s.jobs, s.timers[i].job) {
        var s1 := s0.(timers := RemoveAt(s.timers, i));
        assert Known(s1) == Known(s);
        EnqueueAttemptLeft(c, s1, s.timers[i].job, t, x);
      }
    case HandlerSettles(id, ok) => SettleAttemptLeft(c, s0, id, ok, t, x);
    case CancelJob(id) =>
      if id in s.jobs && s.jobs[id].status != Running {
        KnownPut(s0, id, s.jobs[id].(status := Cancelled));
      }
    case StartQueue =>
      if !s.processing {
        assert Known(s0.(processing := true)) == Known(s);
        DrainAttemptLeft(c, s0.(processing := true), t, x);
      }
    case StopQueue =>
    case RegisterHandler(kind) =>
    case FlushFires => assert Known(Flush(s0)) == Known(s);
    case CrashAndBoot =>
      if s.disk.Some? {
        ResumeForgets(Booted(s.disk.value, t.now), Booted(s.disk.value, t.now).order, t.now);
      }
  }

  lemma {:induction false} RunAttemptLeft(c: Config, s: State, run: seq<(Event, Tick)>, x: JobId)
    requires Good(c, s) && Timely(s) && AttemptLeft(s, x) && Feasible(c, s, run)
    ensures AttemptLeft(Run(c, s, run), x)
    decreases |run|
  {
    if run != [] {
      StepGood(c, s, run[0].0, run[0].1);
      StepTimely(c, s, run[0].0, run[0].1);
      StepAttemptLeft(c, s, run[0].0, run[0].1, x);
      RunAttemptLeft(c, Step(c, s, run[0].0, run[0].1), run[1..], x);
    }
  }

  // ---- a run up to any attempt -----------------------------------------------------------

  // The only job, of m attempts, is at work after n failed ones.
  ghost predicate AtTry(c: Config, s: State, m: int, n: nat)
  {
    && s.jobs.Keys == {1} && s.jobs[1].status == Running && s.jobs[1].startedAt == Some(s.clock)
    && s.jobs[1].attempts == n && s.jobs[1].maxAttempts == m
    && s.jobs[1].kind in s.handlers && s.jobs[1].timeoutMs > 0
    && s.timers == [] && s.queue == [] && s.running == {1} && s.active == 1 && s.processing
  }

  // It waits for its only timer after n failed tries.
  ghost predicate Waiting(s: State, m: int, n: nat, due: int)
  {
    && s.jobs.Keys == {1} && s.jobs[1].status == Queued
    && s.jobs[1].attempts == n && s.jobs[1].maxAttempts == m
    && s.jobs[1].kind in s.handlers && s.jobs[1].timeoutMs > 0
    && s.timers == [Timer(1, due)] && s.queue == [] && s.running == {} && s.active == 0 && s.processing
    && s.clock <= due
  }

  lemma Fails(c: Config, s: State, m: int, n: nat)
    requires AtTry(c, s, m, n) && n + 1 < m
    ensures var r := Step(c, s, HandlerSettles(1, false), Tick(s.clock, {}));
            && Waiting(r, m, n + 1, s.clock + TimerDelay(BackoffMs(n + 1)))
            && 1 in r.hist.respites && r.hist.respites[1].until == s.clock + BackoffMs(n + 1)
  {
    assert s.(clock := s.clock) == s;
  }

  lemma Restarts(c: Config, s: State, m: int, n: nat, due: int)
    requires c.concurrency >= 1 && Waiting(s, m, n, due)
    ensures var r := Step(c, s, TimerFires(0), Tick(due, {}));
            AtTry(c, r, m, n) && r.clock == due && r.hist.respites == s.hist.respites
  {
    var t := Tick(due, {});
    var u := Insert(s.(clock := due, timers := []), 1);
    assert RemoveAt(s.timers, 0) == [];
    assert u.queue == [1];
    assert Drain(c, Dispatch(c, u, t), t) == Dispatch(c, u, t);
  }

  // What is so after two steps is so after a run of them.
  lemma TwoSteps(c: Config, s: State, d: Event, t: Tick, u: State, e: Event, v: Tick, r: State)
    requires Enabled(s, d, t) && u == Step(c, s, d, t) && Enabled(u, e, v) && r == Step(c, u, e, v)
    ensures var run := [(d, t)] + ([(e, v)] + []);
            Feasible(c, s, run) && Run(c, s, run) == r
  {
    RunFrom(c, u, e, v, []);
    RunFrom(c, s, d, t, [(e, v)] + []);
  }

  ghost predicate TriedAgain(c: Config, r: State, m: int, n: nat, clock: int)
  {
    && AtTry(c, r, m, n + 1) && r.clock == clock + TimerDelay(BackoffMs(n + 1))
    && 1 in r.hist.respites && r.hist.respites[1].until == clock + BackoffMs(n + 1)
  }

  // It fails, waits, and is at work again.
  lemma TriesAgain(c: Config, s: State, m: int, n: nat) returns (run: seq<(Event, Tick)>)
    requires c.concurrency >= 1 && AtTry(c, s, m, n) && n + 1 < m
    ensures Feasible(c, s, run) && TriedAgain(c, Run(c, s, run), m, n, s.clock)
  {
    var d, t, u, e, v, r := TriesOnce(c, s, m, n);
    TwoSteps(c, s, d, t, u, e, v, r);
    run := [(d, t)] + ([(e, v)] + []);
  }

  lemma TriesOnce(c: Config, s: State, m: int, n: nat)
    returns (d: Event, t: Tick, u: State, e: Event, v: Tick, r: State)
    requires c.concurrency >= 1 && AtTry(c, s, m, n) && n + 1 < m
    ensures Enabled(s, d, t) && u == Step(c, s, d, t) && Enabled(u, e, v) && r == Step(c, u, e, v)
    ensures TriedAgain(c, r, m, n, s.clock)
  {
    var due := s.clock + TimerDelay(BackoffMs(n + 1));
    d, t, e, v := HandlerSettles(1, false), Tick(s.clock, {}), TimerFires(0), Tick(due, {});
    u := Step(c, s, d, t);
    Fails(c, s, m, n);
    Restarts(c, u, m, n + 1, due);
    r := Step(c, u, e, v);
  }

  lemma FirstTry(c: Config, m: int) returns (run: seq<(Event, Tick)>)
    requires c.concurrency >= 1 && c.maxDepth >= 1 && m >= 1
    ensures Feasible(c, EMPTY, run) && AtTry(c, Run(c, EMPTY, run), m, 0)
  {
    var request := Request("report", 0, 0, m, Some(60000));
    var t := Tick(0, {});
    var u := Insert(Store(c, Ready(), NewJob(c, request, 1, 0)), 1);
    assert u.queue == [1];
    assert Drain(c, Dispatch(c, u, t), t) == Dispatch(c, u, t);
    assert Add(c, Ready(), request, 1, t).0 == Dispatch(c, u, t);
    EarlyStart(c, request, []);
    run :| Feasible(c, EMPTY, run) && Run(c, EMPTY, run) == Run(c, Add(c, Ready(), request, 1, t).0, []);
  }

  // With m attempts, some run comes to the try after n failed ones.
  lemma {:induction false} Tries(c: Config, m: int, n: nat) returns (run: seq<(Event, Tick)>)
    requires c.concurrency >= 1 && c.maxDepth >= 1 && n < m
    ensures Feasible(c, EMPTY, run) && AtTry(c, Run(c, EMPTY, run), m, n)
  {
    if n == 0 {
      run := FirstTry(c, m);
    } else {
      var before := Tries(c, m, n - 1);
      var more := TriesAgain(c, Run(c, EMPTY, before), m, n - 1);
      RunOn(c, EMPTY, before, more);
      run := before + more;
    }
  }

  // ---- the exact limit -------------------------------------------------------------------

  // Some run starts a job of m attempts again before its backoff is over.
  ghost predicate RestartsEarly(c: Config, m: int)
  {
    exists run, x :: Feasible(c, EMPTY, run) && EarlyAgain(Run(c, EMPTY, run), x, m)
  }

  ghost predicate EarlyAgain(s: State, x: JobId, m: int)
  {
    && x in s.jobs && s.jobs[x].maxAttempts == m && s.jobs[x].startedAt.Some? && x in s.hist.respites
    && s.jobs[x].startedAt.value < s.hist.respites[x].until
  }

  // With room to add and to run a job, one of m attempts can be started again early if and only if
  // m is more than 22: its 22nd failed attempt asks for a backoff that no timer can wait.
  lemma RestartsEarlyIff(c: Config, m: int)
    requires c.concurrency >= 1 && c.maxDepth >= 1
    ensures RestartsEarly(c, m) <==> m > 22
  {
    if m > 22 {
      var before := Tries(c, m, 21);
      var more := TriesAgain(c, Run(c, EMPTY, before), m, 21);
      RunOn(c, EMPTY, before, more);
      BackoffHonoured(22);
      assert EarlyAgain(Run(c, EMPTY, before + more), 1, m);
    } else if RestartsEarly(c, m) {
      var run, x :| Feasible(c, EMPTY, run) && EarlyAgain(Run(c, EMPTY, run), x, m);
      EmptyGood(c);
      RunAttemptLeft(c, EMPTY, run, x);
      assert x in Known(Run(c, EMPTY, run));
      RetryHonoured(c, run, x);
    }
  }
}
