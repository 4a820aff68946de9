/**
 What the scheduler keeps, schedule by schedule: a started schedule always has a timer or a handler,
 never two of them until it is started again at work, and it never runs early.
 */
module SchedulerRuns {
  import opened Common
  import opened SchedulerModel

  // ---- the whole scheduler ---------------------------------------------------------------

  ghost predicate Numbered(s: State)
  {
    && (forall t | t in s.timers :: t < s.nextTimer && s.timers[t].schedule < |s.schedules|)
    && (forall i :: 0 <= i < |s.schedules| ==> s.schedules[i].interval >= 1)
    && (forall i | i in s.handlers :: i < |s.schedules|)
  }

  // The timer a schedule remembers is its own, if it is pending at all.
  ghost predicate Remembers(timers: map<nat, Timer>, x: Schedule, nextTimer: nat, i: nat)
  {
    x.timer.Some? ==> x.timer.value < nextTimer && (x.timer.value in timers ==> timers[x.timer.value].schedule == i)
  }

  // True in every state, whatever is stopped or cancelled.
  ghost predicate Base(s: State)
  {
    && NamesOk(s) && Numbered(s)
    && (forall i :: 0 <= i < |s.schedules| ==> Remembers(s.timers, s.schedules[i], s.nextTimer, i))
  }

  // ---- one schedule ----------------------------------------------------------------------

  ghost predicate NoTimers(timers: map<nat, Timer>, i: nat)
  {
    forall t | t in timers :: timers[t].schedule != i
  }

  ghost predicate HasTimer(timers: map<nat, Timer>, i: nat)
  {
    exists t :: t in timers && timers[t].schedule == i
  }

  // No timer of the schedule is pending but the one it remembers.
  ghost predicate OnlyTimer(timers: map<nat, Timer>, i: nat, id: Option<nat>)
  {
    forall t | t in timers && timers[t].schedule == i :: id == Some(t)
  }

  // A pending timer is a proper chunk of what is left of the interval, and the wait it belongs to
  // will not end before the next run may begin.
  ghost predicate Waits(x: Schedule, timer: Timer)
  {
    && 1 <= timer.chunk == Min(timer.ms, MAX_TIMER_MS)
    && x.chunks + Chunks(timer.ms - timer.chunk) == Chunks(x.interval)
    && timer.due + timer.ms - timer.chunk >= x.since + (x.runCount + 1) * x.interval
  }

  // The schedule is one chain at most: at work, or waiting, or neither; its waits are cut properly
  // and no run has begun early.
  ghost predicate Chain(s: State, i: nat)
    requires i < |s.schedules|
  {
    var x := s.schedules[i];
    && s.handlers[i] <= 1
    && (i in s.handlers ==> NoTimers(s.timers, i) && x.chunks == Chunks(x.interval))
    && OnlyTimer(s.timers, i, x.timer)
    && (forall t | t in s.timers && s.timers[t].schedule == i :: Waits(x, s.timers[t]))
    && s.clock >= x.since + x.runCount * x.interval
  }

  // At most one timer is pending for the schedule or handler of it at work, not both.
  ghost predicate OneAtMost(s: State, i: nat)
  {
    && s.handlers[i] <= 1
    && (i in s.handlers ==> NoTimers(s.timers, i))
    && (forall t, u | t in s.timers && u in s.timers && s.timers[t].schedule == i && s.timers[u].schedule == i
          :: t == u)
  }

  // A registered schedule that remembers a timer is pending or at work, and while the scheduler
  // runs it does remember one.
  ghost predicate Alive(s: State, i: nat)
    requires i < |s.schedules|
  {
    Registered(s, i) ==>
      && (s.schedules[i].timer.Some? ==> HasTimer(s.timers, i) || i in s.handlers)
      && (s.running ==> s.schedules[i].timer.Some?)
  }

  // A schedule that is stopped or cancelled does nothing.
  ghost predicate Quiet(s: State, i: nat)
    requires i < |s.schedules|
  {
    (s.running && Registered(s, i)) || (NoTimers(s.timers, i) && i !in s.handlers)
  }

  // ---- leaving a schedule alone ----------------------------------------------------------

  ghost predicate SameTimers(a: map<nat, Timer>, b: map<nat, Timer>, j: nat)
  {
    && (forall k | k in b && b[k].schedule == j :: k in a && a[k] == b[k])
    && (forall k | k in a && a[k].schedule == j :: k in b && a[k] == b[k])
  }

  // Nothing about schedule j has changed.
  ghost predicate Untouched(s: State, t: State, j: nat)
    requires j < |s.schedules| && j < |t.schedules|
  {
    && t.schedules[j] == s.schedules[j] && (Registered(t, j) <==> Registered(s, j))
    && t.handlers[j] == s.handlers[j] && t.clock >= s.clock && SameTimers(s.timers, t.timers, j)
  }

  lemma UntouchedKeeps(s: State, t: State, j: nat)
    requires j < |s.schedules| && j < |t.schedules| && Untouched(s, t, j)
    ensures Chain(s, j) ==> Chain(t, j)
    ensures Alive(s, j) && t.running == s.running ==> Alive(t, j)
    ensures Quiet(s, j) && t.running == s.running ==> Quiet(t, j)
  {}

  // ---- arming and disarming --------------------------------------------------------------

  lemma FirstChunk(ms: int)
    requires ms >= 1
    ensures var chunk := Min(ms, MAX_TIMER_MS);
            1 <= chunk <= ms && TimerDelay(chunk) == chunk && [chunk] + Chunks(ms - chunk) == Chunks(ms)
  {}

  // What every operation on one schedule leaves alone in the whole.
  ghost predicate SameFrame(s: State, t: State)
  {
    && Base(t) && t.names == s.names && t.running == s.running && t.handlers == s.handlers && t.clock == s.clock
    && |t.schedules| == |s.schedules|
  }

  // Arming a schedule that is on gives it one more timer.
  lemma ArmFrame(s: State, i: nat, ms: int)
    requires i < |s.schedules| && On(s, i) && Base(s) && ms >= 1
    ensures var t := ArmWait(s, i, ms);
            && SameFrame(s, t) && HasTimer(t.timers, i)
            && t.schedules[i].timer.Some? && t.schedules[i].name == s.schedules[i].name
  {
    var t := ArmWait(s, i, ms);
    assert s.nextTimer in t.timers && t.timers[s.nextTimer].schedule == i;
  }

  lemma ArmOthers(s: State, i: nat, ms: int, j: nat)
    requires i < |s.schedules| && j < |s.schedules| && i != j && Base(s)
    ensures Untouched(s, ArmWait(s, i, ms), j)
  {}

  // Arming one that is idle makes it a chain that waits.
  lemma ArmChains(s: State, i: nat, ms: int)
    requires i < |s.schedules| && On(s, i) && Numbered(s) && ms >= 1 && NoTimers(s.timers, i) && i !in s.handlers
    requires var x := s.schedules[i];
             && x.chunks + Chunks(ms) == Chunks(x.interval)
             && s.clock + ms >= x.since + (x.runCount + 1) * x.interval && s.clock >= x.since + x.runCount * x.interval
    ensures Chain(ArmWait(s, i, ms), i)
  {
    FirstChunk(ms);
    var chunk, x := Min(ms, MAX_TIMER_MS), s.schedules[i];
    assert (x.chunks + [chunk]) + Chunks(ms - chunk) == x.chunks + ([chunk] + Chunks(ms - chunk));
  }

  function Unchunked(s: State, i: nat): State
    requires i < |s.schedules|
  {
    s.(schedules := s.schedules[i := s.schedules[i].(chunks := [])])
  }

  lemma BeginFrame(s: State, i: nat)
    requires i < |s.schedules| && On(s, i) && Base(s)
    ensures var t := BeginWait(s, i);
            && SameFrame(s, t) && HasTimer(t.timers, i)
            && t.schedules[i].timer.Some? && t.schedules[i].name == s.schedules[i].name
  {
    assert Base(Unchunked(s, i));
    ArmFrame(Unchunked(s, i), i, s.schedules[i].interval);
  }

  lemma BeginOthers(s: State, i: nat, j: nat)
    requires i < |s.schedules| && j < |s.schedules| && i != j && Base(s)
    ensures Untouched(s, BeginWait(s, i), j)
  {
    assert Base(Unchunked(s, i));
    ArmOthers(Unchunked(s, i), i, s.schedules[i].interval, j);
  }

  lemma BeginChains(s: State, i: nat)
    requires i < |s.schedules| && On(s, i) && Base(s) && NoTimers(s.timers, i) && i !in s.handlers
    requires s.clock >= s.schedules[i].since + s.schedules[i].runCount * s.schedules[i].interval
    ensures Chain(BeginWait(s, i), i)
  {
    var x := s.schedules[i];
    assert (x.runCount + 1) * x.interval == x.runCount * x.interval + x.interval;
    assert [] + Chunks(x.interval) == Chunks(x.interval);
    ArmChains(Unchunked(s, i), i, x.interval);
  }

  function Since(s: State, i: nat): State
    requires i < |s.schedules|
  {
    var x := s.schedules[i];
    s.(schedules := s.schedules[i := x.(since := s.clock - x.runCount * x.interval)])
  }

  lemma StartFrame(s: State, i: nat)
    requires i < |s.schedules| && On(s, i) && Base(s) && s.schedules[i].timer.None?
    ensures var t := StartSchedule(s, i);
            && SameFrame(s, t) && HasTimer(t.timers, i)
            && t.schedules[i].timer.Some? && t.schedules[i].name == s.schedules[i].name
  {
    assert Base(Since(s, i));
    BeginFrame(Since(s, i), i);
  }

  lemma StartOthers(s: State, i: nat, j: nat)
    requires i < |s.schedules| && j < |s.schedules| && i != j && Base(s)
    ensures Untouched(s, StartSchedule(s, i), j)
  {
    if s.schedules[i].timer.None? {
      assert Base(Since(s, i));
      BeginOthers(Since(s, i), i, j);
    }
  }

  lemma StartChains(s: State, i: nat)
    requires i < |s.schedules| && On(s, i) && Base(s) && s.schedules[i].timer.None? && NoTimers(s.timers, i)
             && i !in s.handlers
    ensures Chain(StartSchedule(s, i), i)
  {
    assert Base(Since(s, i));
    BeginChains(Since(s, i), i);
  }

  // What stopping a schedule does: its remembered timer goes, and the rest stays as it was.
  ghost predicate Stopped(s: State, t: State, i: nat)
    requires i < |s.schedules| && i < |t.schedules|
  {
    && t.schedules[i] == s.schedules[i].(timer := None) && (Registered(t, i) <==> Registered(s, i))
    && t.handlers[i] == s.handlers[i] && t.clock >= s.clock
    && (forall k | k in t.timers && t.timers[k].schedule == i
          :: k in s.timers && s.timers[k] == t.timers[k] && s.schedules[i].timer != Some(k))
  }

  lemma StoppedKeeps(s: State, t: State, i: nat)
    requires i < |s.schedules| && i < |t.schedules| && Chain(s, i) && Stopped(s, t, i)
    ensures Chain(t, i) && NoTimers(t.timers, i)
  {}

  lemma StopFrame(s: State, i: nat)
    requires i < |s.schedules| && Base(s)
    ensures SameFrame(s, StopSchedule(s, i)) && Stopped(s, StopSchedule(s, i), i)
  {}

  lemma StopOthers(s: State, i: nat, j: nat)
    requires i < |s.schedules| && j < |s.schedules| && i != j && Base(s)
    ensures Untouched(s, StopSchedule(s, i), j)
  {}

  // ---- starting and stopping all ---------------------------------------------------------

  lemma {:induction false} StopsAll(s: State, n: nat, i: nat)
    requires n <= |s.schedules| && i < |s.schedules| && Base(s)
    ensures var t := StopAll(s, n);
            SameFrame(s, t) && if i < n && Registered(s, i) then Stopped(s, t, i) else Untouched(s, t, i)
  {
    if n > 0 {
      StopsAll(s, n - 1, i);
      StopsOne(s, StopAll(s, n - 1), n - 1, i);
    }
  }

  lemma StopsOne(s: State, u: State, n: nat, i: nat)
    requires n < |s.schedules| && i < |s.schedules| && SameFrame(s, u)
    requires if i < n && Registered(s, i) then Stopped(s, u, i) else Untouched(s, u, i)
    ensures var t := if Registered(u, n) then StopSchedule(u, n) else u;
            SameFrame(s, t) && if i < n + 1 && Registered(s, i) then Stopped(s, t, i) else Untouched(s, t, i)
  {
    if Registered(u, n) {
      StopFrame(u, n);
      if i != n {
        StopOthers(u, n, i);
      }
    }
  }

  // What starting does to a registered schedule without a timer.
  ghost predicate Begun(s: State, t: State, i: nat)
    requires i < |s.schedules| && i < |t.schedules|
  {
    && (Registered(t, i) <==> Registered(s, i)) && t.handlers[i] == s.handlers[i] && t.clock >= s.clock
    && HasTimer(t.timers, i) && t.schedules[i].timer.Some?
    && (NoTimers(s.timers, i) && i !in s.handlers ==> Chain(t, i))
  }

  ghost predicate Starts(s: State, i: nat)
    requires i < |s.schedules|
  {
    Registered(s, i) && s.schedules[i].timer.None?
  }

  lemma {:induction false} StartsAll(s: State, n: nat, i: nat)
    requires n <= |s.schedules| && i < |s.schedules| && Base(s)
    ensures var t := StartAll(s, n);
            SameFrame(s, t) && if i < n && Starts(s, i) then Begun(s, t, i) else Untouched(s, t, i)
  {
    if n > 0 {
      StartsAll(s, n - 1, i);
      StartsOne(s, StartAll(s, n - 1), n - 1, i);
    }
  }

  lemma StartsOne(s: State, u: State, n: nat, i: nat)
    requires n < |s.schedules| && i < |s.schedules| && SameFrame(s, u)
    requires if i < n && Starts(s, i) then Begun(s, u, i) else Untouched(s, u, i)
    ensures var t := if Registered(u, n) then StartSchedule(u, n) else u;
            SameFrame(s, t) && if i < n + 1 && Starts(s, i) then Begun(s, t, i) else Untouched(s, t, i)
  {
    if Starts(u, n) {
      var t := StartSchedule(u, n);
      StartFrame(u, n);
      if i != n {
        StartOthers(u, n, i);
        if i < n && Starts(s, i) {
          BegunStays(s, u, t, i);
        }
      } else if NoTimers(s.timers, i) && i !in s.handlers {
        assert NoTimers(u.timers, i) && i !in u.handlers;
        StartChains(u, i);
      }
    }
  }

  lemma BegunStays(s: State, u: State, t: State, i: nat)
    requires i < |s.schedules| && i < |u.schedules| && i < |t.schedules| && Begun(s, u, i) && Untouched(u, t, i)
    ensures Begun(s, t, i)
  {
    UntouchedKeeps(u, t, i);
    var k :| k in u.timers && u.timers[k].schedule == i;
    assert k in t.timers;
  }

  // ---- one step --------------------------------------------------------------------------

  // A start that reaches a registered schedule still at work, whose timer a stop has cleared.
  predicate StartsAtWork(s: State, e: Event, i: nat)
    requires i < |s.schedules|
  {
    e.Start? && !s.running && Registered(s, i) && s.schedules[i].timer.None? && i in s.handlers
  }

  lemma UntouchedTwice(s: State, u: State, t: State, j: nat)
    requires j < |s.schedules| && j < |u.schedules| && j < |t.schedules| && Untouched(s, u, j) && Untouched(u, t, j)
    ensures Untouched(s, t, j)
  {}

  lemma TimerTaken(s: State, id: nat, j: nat)
    requires Base(s) && id in s.timers && j < |s.schedules|
    ensures Base(s.(timers := s.timers - {id}))
    ensures j != s.timers[id].schedule ==> Untouched(s, s.(timers := s.timers - {id}), j)
  {}

  lemma FireFrame(s: State, id: nat, j: nat)
    requires Base(s) && id in s.timers && j < |s.schedules|
    ensures var t := FireTimer(s, id);
            && Base(t) && t.names == s.names && t.running == s.running && |t.schedules| == |s.schedules|
            && (j != s.timers[id].schedule ==> Untouched(s, t, j))
  {
    var timer := s.timers[id];
    var u := s.(timers := s.timers - {id});
    TimerTaken(s, id, j);
    if On(u, timer.schedule) && timer.chunk < timer.ms {
      ArmFrame(u, timer.schedule, timer.ms - timer.chunk);
      if j != timer.schedule {
        ArmOthers(u, timer.schedule, timer.ms - timer.chunk, j);
        UntouchedTwice(s, u, FireTimer(s, id), j);
      }
    } else if On(u, timer.schedule) {
      RunFrame(u, timer.schedule, j);
      if j != timer.schedule {
        UntouchedTwice(s, u, FireTimer(s, id), j);
      }
    }
  }

  lemma RunFrame(s: State, i: nat, j: nat)
    requires Base(s) && i < |s.schedules| && j < |s.schedules|
    ensures Base(RunHandler(s, i)) && (j != i ==> Untouched(s, RunHandler(s, i), j))
  {}

  // A timer that fires takes the chain one chunk further, or to work.
  lemma FireChains(s: State, id: nat, i: nat)
    requires Base(s) && id in s.timers && s.timers[id].due <= s.clock && s.timers[id].schedule == i
             && i < |s.schedules| && Chain(s, i)
    ensures Chain(FireTimer(s, id), i)
  {
    var timer := s.timers[id];
    var u := s.(timers := s.timers - {id});
    assert NoTimers(u.timers, i) && Base(u);
    if On(u, i) {
      if timer.chunk < timer.ms {
        ArmChains(u, i, timer.ms - timer.chunk);
      } else {
        assert s.schedules[i].chunks + [] == s.schedules[i].chunks;
      }
    }
  }

  lemma FireAlive(s: State, id: nat, i: nat)
    requires Base(s) && id in s.timers && s.timers[id].schedule == i && i < |s.schedules| && Alive(s, i)
    ensures Alive(FireTimer(s, id), i)
  {
    var timer := s.timers[id];
    var u := s.(timers := s.timers - {id});
    assert Base(u);
    if On(u, i) && timer.chunk < timer.ms {
      ArmFrame(u, i, timer.ms - timer.chunk);
    }
  }

  lemma SettleFrame(s: State, k: nat, j: nat)
    requires Base(s) && k in s.handlers && k < |s.schedules| && j < |s.schedules|
    ensures var t := SettleHandler(s, k);
            && Base(t) && t.names == s.names && t.running == s.running && |t.schedules| == |s.schedules|
            && (j != k ==> Untouched(s, t, j))
            && (j == k && Alive(s, k) ==> Alive(t, k))
            && (j == k && Chain(s, k) ==> Chain(t, k))
  {
    var u := s.(handlers := s.handlers - multiset{k});
    assert Base(u);
    if On(u, k) {
      BeginFrame(u, k);
      if j != k {
        BeginOthers(u, k, j);
      } else if Chain(s, k) {
        BeginChains(u, k);
      }
    }
  }

  lemma RegisterFrame(s: State, name: string, interval: int, j: nat)
    requires Base(s) && name !in s.names && interval > 0 && j <= |s.schedules|
    ensures var t := RegisterSchedule(s, name, interval);
            && Base(t) && t.running == s.running && |t.schedules| == |s.schedules| + 1
            && (if j < |s.schedules| then Untouched(s, t, j) else Chain(t, j) && Alive(t, j) && Quiet(t, j))
  {
    var i := |s.schedules|;
    var u := s.(schedules := s.schedules + [Schedule(name, interval, None, 0, s.clock, [])],
      names := s.names[name := i]);
    assert Base(u) && NoTimers(u.timers, i) && i !in u.handlers && Registered(u, i);
    if s.running {
      StartFrame(u, i);
      StartChains(u, i);
      if j < i {
        StartOthers(u, i, j);
      }
    }
  }

  lemma CancelFrame(s: State, name: string, j: nat)
    requires Base(s) && name in s.names && j < |s.schedules|
    ensures var t := CancelSchedule(s, name);
            && Base(t) && t.running == s.running && |t.schedules| == |s.schedules| && t.handlers == s.handlers
            && (j != s.names[name] ==> Untouched(s, t, j))
            && (j == s.names[name] ==> !Registered(t, j) && (Chain(s, j) ==> Chain(t, j) && NoTimers(t.timers, j)))
  {
    var i := s.names[name];
    StopFrame(s, i);
    if j != i {
      StopOthers(s, i, j);
    } else if Chain(s, i) {
      StoppedKeeps(s, StopSchedule(s, i), i);
    }
  }

  // Every step keeps what holds of every state.
  lemma StepBase(s: State, t: Turn)
    requires Base(s) && Enabled(s, t)
    ensures Base(Step(s, t)) && |s.schedules| <= |Step(s, t).schedules|
  {
    var u := s.(clock := t.now);
    match t.event
    case Register(name, interval) =>
      if name !in u.names && interval > 0 {
        RegisterFrame(u, name, interval, |u.schedules|);
      }
    case Cancel(name) =>
      if name in u.names {
        CancelFrame(u, name, u.names[name]);
      }
    case Start =>
      if !u.running && u.schedules != [] {
        StartsAll(u.(running := true), |u.schedules|, 0);
      }
    case Stop =>
      if u.running && u.schedules != [] {
        StopsAll(u, |u.schedules|, 0);
      }
    case Fire(id) => FireFrame(u, id, u.timers[id].schedule);
    case Settle(k) => SettleFrame(u, k, k);
  }

  // A chain stays a chain, and what is alive stays alive.
  ghost predicate Keeps(s: State, r: State, i: nat)
    requires i < |s.schedules|
  {
    i < |r.schedules| && (Chain(s, i) ==> Chain(r, i)) && (Alive(s, i) ==> Alive(r, i))
  }

  lemma RegisterKeeps(s: State, name: string, interval: int, i: nat)
    requires Base(s) && i < |s.schedules|
    ensures Keeps(s, RegisterSchedule(s, name, interval), i)
  {
    if name !in s.names && interval > 0 {
      RegisterFrame(s, name, interval, i);
      UntouchedKeeps(s, RegisterSchedule(s, name, interval), i);
    }
  }

  lemma CancelKeeps(s: State, name: string, i: nat)
    requires Base(s) && i < |s.schedules|
    ensures Keeps(s, CancelSchedule(s, name), i)
  {
    if name in s.names {
      CancelFrame(s, name, i);
      if i != s.names[name] {
        UntouchedKeeps(s, CancelSchedule(s, name), i);
      }
    }
  }

  lemma FireKeeps(s: State, id: nat, i: nat)
    requires Base(s) && id in s.timers && s.timers[id].due <= s.clock && i < |s.schedules|
    ensures Keeps(s, FireTimer(s, id), i)
  {
    FireFrame(s, id, i);
    if s.timers[id].schedule != i {
      UntouchedKeeps(s, FireTimer(s, id), i);
    } else {
      if Chain(s, i) {
        FireChains(s, id, i);
      }
      if Alive(s, i) {
        FireAlive(s, id, i);
      }
    }
  }

  lemma SettleKeeps(s: State, k: nat, i: nat)
    requires Base(s) && k in s.handlers && k < |s.schedules| && i < |s.schedules|
    ensures Keeps(s, SettleHandler(s, k), i)
  {
    SettleFrame(s, k, i);
    if k != i {
      UntouchedKeeps(s, SettleHandler(s, k), i);
    }
  }

  lemma StopKeeps(s: State, i: nat)
    requires Base(s) && i < |s.schedules|
    ensures Keeps(s, StopAll(s, |s.schedules|).(running := false), i)
  {
    var v := StopAll(s, |s.schedules|);
    StopsAll(s, |s.schedules|, i);
    if !Registered(s, i) {
      UntouchedKeeps(s, v, i);
    } else if Chain(s, i) {
      StoppedKeeps(s, v, i);
    }
  }

  // Starting keeps a chain a chain, unless it reaches it at work.
  lemma StartKeeps(s: State, i: nat)
    requires Base(s) && i < |s.schedules| && !s.running && !(Starts(s, i) && i in s.handlers)
    ensures Keeps(s, StartAll(s.(running := true), |s.schedules|), i)
  {
    var v := s.(running := true);
    var r := StartAll(v, |s.schedules|);
    StartsAll(v, |s.schedules|, i);
    if !Starts(v, i) {
      UntouchedKeeps(v, r, i);
    } else if Chain(s, i) {
      assert NoTimers(v.timers, i);
    }
  }

  // Every step that does not start a schedule at work keeps it a chain, and alive.
  lemma StepKeeps(s: State, t: Turn, i: nat)
    requires Base(s) && Enabled(s, t) && i < |s.schedules| && !StartsAtWork(s, t.event, i)
    ensures Keeps(s, Step(s, t), i)
  {
    var u := s.(clock := t.now);
    UntouchedKeeps(s, u, i);
    match t.event
    case Register(name, interval) => RegisterKeeps(u, name, interval, i);
    case Cancel(name) => CancelKeeps(u, name, i);
    case Start =>
      if !u.running {
        StartKeeps(u, i);
      }
    case Stop =>
      if u.running {
        StopKeeps(u, i);
      }
    case Fire(id) => FireKeeps(u, id, i);
    case Settle(k) => SettleKeeps(u, k, i);
  }

  // A start at work leaves the schedule alive all the same: twice.
  lemma StartAtWorkIsTwo(s: State, t: Turn, i: nat)
    requires Base(s) && Enabled(s, t) && i < |s.schedules| && StartsAtWork(s, t.event, i)
    ensures var r := Step(s, t); i in r.handlers && HasTimer(r.timers, i) && Alive(r, i)
  {
    StartsAll(s.(clock := t.now, running := true), |s.schedules|, i);
  }

  // The exact rule: a chain stays one chain through a step if and only if the step does not start
  // it at work. Stopping it at work and starting it after the handler has settled is harmless.
  lemma OneChainIffNotStartedAtWork(s: State, t: Turn, i: nat)
    requires Base(s) && Enabled(s, t) && i < |s.schedules| && Chain(s, i)
    ensures OneAtMost(Step(s, t), i) <==> !StartsAtWork(s, t.event, i)
  {
    if StartsAtWork(s, t.event, i) {
      StartAtWorkIsTwo(s, t, i);
    } else {
      StepKeeps(s, t, i);
    }
  }

  // Stopping or cancelling a schedule while its handler is at work.
  predicate StopsAtWork(s: State, e: Event, i: nat)
    requires i < |s.schedules|
  {
    s.running && Registered(s, i) && i in s.handlers && (e.Stop? || e == Cancel(s.schedules[i].name))
  }

  // A schedule that is not started or not registered does nothing, and that stays so if and only
  // if the schedule is not stopped or cancelled at work.
  lemma QuietIffNotStoppedAtWork(s: State, t: Turn, i: nat)
    requires Base(s) && Enabled(s, t) && i < |s.schedules| && Chain(s, i) && Quiet(s, i)
    ensures i < |Step(s, t).schedules| && (Quiet(Step(s, t), i) <==> !StopsAtWork(s, t.event, i))
  {
    var u := s.(clock := t.now);
    UntouchedKeeps(s, u, i);
    match t.event
    case Register(name, interval) =>
      if name !in u.names && interval > 0 {
        RegisterFrame(u, name, interval, i);
      }
    case Cancel(name) =>
      if name in u.names {
        CancelQuiet(u, name, i);
      }
    case Start =>
      if !u.running {
        StartsAll(u.(running := true), |u.schedules|, i);
      }
    case Stop =>
      if u.running {
        StopQuiet(u, i);
      }
    case Fire(_) => WakesQuiet(s, t, i);
    case Settle(_) => WakesQuiet(s, t, i);
  }

  lemma WakesQuiet(s: State, t: Turn, i: nat)
    requires Base(s) && Enabled(s, t) && i < |s.schedules| && Chain(s, i) && Quiet(s, i)
    requires t.event.Fire? || t.event.Settle?
    ensures i < |Step(s, t).schedules| && Quiet(Step(s, t), i)
  {
    var u := s.(clock := t.now);
    UntouchedKeeps(s, u, i);
    match t.event
    case Fire(id) =>
      FireFrame(u, id, i);
      if i != u.timers[id].schedule {
        UntouchedKeeps(u, FireTimer(u, id), i);
      }
    case Settle(k) =>
      SettleFrame(u, k, i);
      if i != k {
        UntouchedKeeps(u, SettleHandler(u, k), i);
      }
  }

  lemma CancelQuiet(s: State, name: string, i: nat)
    requires Base(s) && i < |s.schedules| && Chain(s, i) && Quiet(s, i) && name in s.names
    ensures |CancelSchedule(s, name).schedules| == |s.schedules|
    ensures Quiet(CancelSchedule(s, name), i) <==> !StopsAtWork(s, Cancel(name), i)
  {
    CancelFrame(s, name, i);
  }

  lemma StopQuiet(s: State, i: nat)
    requires Base(s) && i < |s.schedules| && Chain(s, i) && Quiet(s, i) && s.running
    ensures Quiet(StopAll(s, |s.schedules|).(running := false), i) <==> !(Registered(s, i) && i in s.handlers)
  {
    StopsAll(s, |s.schedules|, i);
    if Registered(s, i) {
      StoppedKeeps(s, StopAll(s, |s.schedules|), i);
    }
  }

  // ---- whole runs ------------------------------------------------------------------------

  ghost predicate Feasible(s: State, turns: seq<Turn>)
    decreases |turns|
  {
    turns == [] || (Enabled(s, turns[0]) && Feasible(Step(s, turns[0]), turns[1..]))
  }

  ghost function Run(s: State, turns: seq<Turn>): State
    requires Feasible(s, turns)
    decreases |turns|
  {
    if turns == [] then s else Run(Step(s, turns[0]), turns[1..])
  }

  // The run never starts schedule i at work.
  ghost predicate Spares(s: State, turns: seq<Turn>, i: nat)
    requires Feasible(s, turns)
    decreases |turns|
  {
    turns == []
    || ((i < |s.schedules| ==> !StartsAtWork(s, turns[0].event, i)) && Spares(Step(s, turns[0]), turns[1..], i))
  }

  // It never stops or cancels schedule i at work.
  ghost predicate Careful(s: State, turns: seq<Turn>, i: nat)
    requires Feasible(s, turns)
    decreases |turns|
  {
    turns == []
    || ((i < |s.schedules| ==> !StopsAtWork(s, turns[0].event, i)) && Careful(Step(s, turns[0]), turns[1..], i))
  }

  ghost predicate Sound(s: State, i: nat)
  {
    Base(s) && (i < |s.schedules| ==> Chain(s, i) && Alive(s, i))
  }

  ghost predicate Silent(s: State, i: nat)
  {
    i < |s.schedules| ==> Quiet(s, i)
  }

  lemma StepSound(s: State, t: Turn, i: nat)
    requires Sound(s, i) && Enabled(s, t) && (i < |s.schedules| ==> !StartsAtWork(s, t.event, i))
    ensures Sound(Step(s, t), i)
  {
    StepBase(s, t);
    if i < |s.schedules| {
      StepKeeps(s, t, i);
    } else if i < |Step(s, t).schedules| {
      NewIsSound(s, t, i);
    }
  }

  // A step adds one schedule at most, and it is a chain from the start.
  lemma NewIsSound(s: State, t: Turn, i: nat)
    requires Base(s) && Enabled(s, t) && |s.schedules| <= i < |Step(s, t).schedules|
    ensures Chain(Step(s, t), i) && Alive(Step(s, t), i) && Quiet(Step(s, t), i)
  {
    var u := s.(clock := t.now);
    if t.event.Register? {
      if t.event.name !in u.names && t.event.interval > 0 {
        RegisterFrame(u, t.event.name, t.event.interval, |u.schedules|);
      }
    } else {
      SameLength(s, t);
    }
  }

  lemma SameLength(s: State, t: Turn)
    requires Enabled(s, t) && !t.event.Register?
    ensures |Step(s, t).schedules| == |s.schedules|
  {}

  lemma {:induction false} RunSound(s: State, turns: seq<Turn>, i: nat)
    requires Sound(s, i) && Feasible(s, turns) && Spares(s, turns, i)
    ensures Sound(Run(s, turns), i)
    decreases |turns|
  {
    if turns != [] {
      StepSound(s, turns[0], i);
      RunSound(Step(s, turns[0]), turns[1..], i);
    }
  }

  // In every run of a new scheduler that does not start schedule i at work, whatever else is
  // stopped or cancelled, i has at most one pending timer or running handler; and exactly one while
  // it is started and registered.
  lemma OneChainEach(clock: int, turns: seq<Turn>, i: nat)
    requires Feasible(Empty(clock), turns) && Spares(Empty(clock), turns, i) && i < |Run(Empty(clock), turns).schedules|
    ensures var s := Run(Empty(clock), turns);
            && OneAtMost(s, i)
            && (s.running && Registered(s, i) ==> HasTimer(s.timers, i) || i in s.handlers)
  {
    RunSound(Empty(clock), turns, i);
  }

  lemma {:induction false} RunSilent(s: State, turns: seq<Turn>, i: nat)
    requires Sound(s, i) && Silent(s, i) && Feasible(s, turns) && Careful(s, turns, i)
    ensures Sound(Run(s, turns), i) && Silent(Run(s, turns), i)
    decreases |turns|
  {
    if turns != [] {
      var t := turns[0];
      if i < |s.schedules| {
        QuietIffNotStoppedAtWork(s, t, i);
      }
      StepSound(s, t, i);
      if |s.schedules| <= i < |Step(s, t).schedules| {
        NewIsSound(s, t, i);
      }
      RunSilent(Step(s, t), turns[1..], i);
    }
  }

  // If moreover schedule i is never stopped or cancelled at work, it does nothing while it is not
  // started or not registered.
  lemma StoppedDoesNothing(clock: int, turns: seq<Turn>, i: nat)
    requires Feasible(Empty(clock), turns) && Careful(Empty(clock), turns, i)
             && i < |Run(Empty(clock), turns).schedules|
    ensures var s := Run(Empty(clock), turns);
            && OneAtMost(s, i)
            && (HasTimer(s.timers, i) || i in s.handlers <==> s.running && Registered(s, i))
  {
    RunSilent(Empty(clock), turns, i);
  }

  // ---- time ------------------------------------------------------------------------------

  // A pending timer of a chain is never beyond what the runtime can time; when a run begins, the
  // chunks of the wait before it add up to the interval and were no more than it takes; and the run
  // is not early.
  lemma RunsAreOnTime(s: State, t: Turn, i: nat)
    requires Base(s) && i < |s.schedules| && Chain(s, i)
    requires Enabled(s, t) && t.event.Fire? && s.timers[t.event.timer].schedule == i
    ensures var x, y := s.schedules[i], Step(s, t).schedules[i];
            && TimerDelay(s.timers[t.event.timer].chunk) == s.timers[t.event.timer].chunk
            && (y.runCount != x.runCount ==>
                  && y.runCount == x.runCount + 1 && y.since == x.since
                  && t.now >= y.since + y.runCount * y.interval
                  && SumOf(x.chunks) == x.interval && |x.chunks| == CeilDiv(x.interval, MAX_TIMER_MS))
  {
    var x, timer := s.schedules[i], s.timers[t.event.timer];
    if timer.chunk >= timer.ms {
      assert x.chunks + [] == x.chunks;
      ChunksAddUp(x.interval);
    }
  }

  // The event leaves schedule i on: it stops neither the scheduler nor the schedule.
  predicate Leaves(e: Event, name: string)
  {
    !e.Stop? && e != Cancel(name)
  }

  ghost predicate SameChain(s: State, t: State, i: nat)
  {
    && i < |s.schedules| <= |t.schedules| && t.running && Registered(t, i) && t.clock >= s.clock
    && t.schedules[i].since == s.schedules[i].since && t.schedules[i].interval == s.schedules[i].interval
    && t.schedules[i].name == s.schedules[i].name
  }

  lemma StepSameChain(s: State, t: Turn, i: nat)
    requires Base(s) && Enabled(s, t) && i < |s.schedules|
    requires s.running && Registered(s, i) && Leaves(t.event, s.schedules[i].name)
    ensures SameChain(s, Step(s, t), i)
  {
    var u := s.(clock := t.now);
    match t.event
    case Register(name, interval) => RegisterSameChain(u, name, interval, i);
    case Cancel(name) =>
      if name in s.names {
        CancelSameChain(u, name, i);
      }
    case Start => {}
    case Fire(id) =>
      if u.timers[id].chunk < u.timers[id].ms {
        ArmSameChain(u.(timers := u.timers - {id}), u.timers[id].schedule, u.timers[id].ms - u.timers[id].chunk, i);
      }
    case Settle(j) => BeginSameChain(u.(handlers := u.handlers - multiset{j}), j, i);
  }

  lemma ArmSameChain(s: State, j: nat, ms: int, i: nat)
    requires j < |s.schedules| && i < |s.schedules| && s.running && Registered(s, i)
    ensures SameChain(s, ArmWait(s, j, ms), i)
  {}

  lemma BeginSameChain(s: State, j: nat, i: nat)
    requires j < |s.schedules| && i < |s.schedules| && s.running && Registered(s, i)
    ensures SameChain(s, BeginWait(s, j), i)
  {}

  lemma RegisterSameChain(s: State, name: string, interval: int, i: nat)
    requires i < |s.schedules| && s.running && Registered(s, i)
    ensures SameChain(s, RegisterSchedule(s, name, interval), i)
  {}

  lemma CancelSameChain(s: State, name: string, i: nat)
    requires i < |s.schedules| && s.running && Registered(s, i)
    requires name in s.names && s.names[name] < |s.schedules| && name != s.schedules[i].name
    ensures SameChain(s, CancelSchedule(s, name), i)
  {}

  lemma {:induction false} RunSameChain(s: State, turns: seq<Turn>, i: nat)
    requires Sound(s, i) && Feasible(s, turns) && i < |s.schedules| && s.running && Registered(s, i)
    requires forall k :: 0 <= k < |turns| ==> Leaves(turns[k].event, s.schedules[i].name)
    ensures SameChain(s, Run(s, turns), i) && Sound(Run(s, turns), i)
    decreases |turns|
  {
    if turns != [] {
      assert Leaves(turns[0].event, s.schedules[i].name);
      StepSameChain(s, turns[0], i);
      StepSound(s, turns[0], i);
      RunSameChain(Step(s, turns[0]), turns[1..], i);
    }
  }

  // While a schedule stays on, it runs at most once per interval, whatever happens to the others:
  // the n-th run is no earlier than its start + n intervals.
  lemma AtMostOncePerInterval(s: State, turns: seq<Turn>, i: nat, start: int, before: nat)
    requires Sound(s, i) && Feasible(s, turns) && i < |s.schedules| && s.running && Registered(s, i)
    requires forall k :: 0 <= k < |turns| ==> Leaves(turns[k].event, s.schedules[i].name)
    requires s.schedules[i].since == start - before * s.schedules[i].interval
    ensures var r := Run(s, turns);
            i < |r.schedules| && r.clock >= start + (r.schedules[i].runCount - before) * s.schedules[i].interval
  {
    RunSameChain(s, turns, i);
    var r := Run(s, turns);
    Spaced(r.clock, r.schedules[i].since, r.schedules[i].runCount, s.schedules[i].interval, start, before);
  }

  lemma Spaced(clock: int, since: int, n: int, w: int, start: int, before: int)
    requires clock >= since + n * w && since == start - before * w
    ensures clock >= start + (n - before) * w
  {
    assert (n - before) * w == n * w - before * w;
  }

  // ---- what carelessness does ------------------------------------------------------------

  ghost predicate HasTwoTimers(timers: map<nat, Timer>, i: nat)
  {
    exists a, b :: a in timers && b in timers && a != b && timers[a].schedule == i && timers[b].schedule == i
  }

  lemma SettleArms(s: State, i: nat)
    requires i < |s.schedules| && On(s, i) && Numbered(s)
    ensures HasTimer(SettleHandler(s, i).timers, i)
    ensures HasTimer(s.timers, i) ==> HasTwoTimers(SettleHandler(s, i).timers, i)
  {
    var t := SettleHandler(s, i);
    assert s.nextTimer in t.timers && t.timers[s.nextTimer].schedule == i;
    if HasTimer(s.timers, i) {
      var a :| a in s.timers && s.timers[a].schedule == i;
      assert a in t.timers && a != s.nextTimer;
    }
  }

  // Stopped while its handler is at work, a schedule is not stopped: the handler arms the next
  // wait when it settles. It is then one chain still, and no longer at work.
  lemma StoppedAtWorkGoesOn(s: State, i: nat, now: int)
    requires Sound(s, i) && i < |s.schedules|
    requires s.running && Registered(s, i) && i in s.handlers && now >= s.clock
    ensures var stopped := Step(s, Turn(Stop, now));
            && Enabled(stopped, Turn(Settle(i), now))
            && var settled := Step(stopped, Turn(Settle(i), now));
               Sound(settled, i) && !settled.running && HasTimer(settled.timers, i) && i !in settled.handlers
  {
    var stopped := Step(s, Turn(Stop, now));
    StopsAll(s.(clock := now), |s.schedules|, i);
    StepSound(s, Turn(Stop, now), i);
    StepSound(stopped, Turn(Settle(i), now), i);
    SettleArms(stopped, i);
  }

  // Started when it is not at work, a schedule is one chain, whether or not it had gone on.
  lemma StartedNotAtWorkIsOneChain(s: State, i: nat, now: int)
    requires Sound(s, i) && i < |s.schedules| && !s.running && i !in s.handlers && now >= s.clock
    ensures var started := Step(s, Turn(Start, now));
            OneAtMost(started, i) && i < |started.schedules| && (Registered(s, i) ==> HasTimer(started.timers, i))
  {
    StepSound(s, Turn(Start, now), i);
    StartsAll(s.(clock := now, running := true), |s.schedules|, i);
  }

  // Started again before the handler has settled, it goes on as two chains.
  lemma RestartedAtWorkMakesTwoChains(s: State, i: nat, now: int)
    requires Base(s) && i < |s.schedules| && s.running && Registered(s, i) && i in s.handlers && now >= s.clock
    ensures var restarted := Step(Step(s, Turn(Stop, now)), Turn(Start, now));
            && Enabled(restarted, Turn(Settle(i), now))
            && HasTwoTimers(Step(restarted, Turn(Settle(i), now)).timers, i)
  {
    var stopped := Step(s, Turn(Stop, now));
    StopsAll(s.(clock := now), |s.schedules|, i);
    StepBase(s, Turn(Stop, now));
    StartAtWorkIsTwo(stopped, Turn(Start, now), i);
    StepBase(stopped, Turn(Start, now));
    SettleArms(Step(stopped, Turn(Start, now)), i);
  }

  // Cancelled while its handler is at work, and its name registered anew before the handler
  // settles, the old schedule goes on beside the new one, under the same name.
  lemma ReregisteredAtWorkGoesOn(s: State, i: nat, interval: int, now: int)
    requires Base(s) && i < |s.schedules| && s.running && Registered(s, i) && i in s.handlers && now >= s.clock
    requires interval >= 1
    ensures var name := s.schedules[i].name;
            var cancelled := Step(s, Turn(Cancel(name), now));
            var again := Step(cancelled, Turn(Register(name, interval), now));
            && Enabled(again, Turn(Settle(i), now))
            && var t := Step(again, Turn(Settle(i), now));
               HasTimer(t.timers, i) && HasTimer(t.timers, |s.schedules|) && again.names[name] == |s.schedules|
  {
    var name, u, n := s.schedules[i].name, s.(clock := now), |s.schedules|;
    var cancelled := CancelSchedule(u, name);
    CancelFrame(u, name, i);
    CancelLeaves(u, name);
    var again := RegisterSchedule(cancelled, name, interval);
    RegisterFrame(cancelled, name, interval, n);
    assert HasTimer(again.timers, n);
    SettleArms(again, i);
    var k :| k in again.timers && again.timers[k].schedule == n;
    assert k in SettleHandler(again, i).timers;
  }

  lemma CancelLeaves(s: State, name: string)
    requires name in s.names && s.names[name] < |s.schedules|
    ensures var t := CancelSchedule(s, name);
            && name !in t.names && t.running == s.running && t.handlers == s.handlers && t.clock == s.clock
            && forall j :: 0 <= j < |s.schedules| ==> t.schedules[j].name == s.schedules[j].name
  {}
}
