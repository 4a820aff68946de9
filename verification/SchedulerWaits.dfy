/**
 What a wait comes to: every timer that fires takes its schedule one chunk further or to work, and a
 schedule that is left on runs exactly an interval after its wait began.
 */
module SchedulerWaits {
  import opened SchedulerModel
  import opened SchedulerRuns

  // A timer for the next piece of ms milliseconds, none longer than 2^31 - 1.
  function PieceOf(i: nat, ms: int, now: int): Timer
  {
    var chunk := if ms < 2147483647 then ms else 2147483647;
    Timer(i, chunk, ms, now + chunk)
  }

  // A timer that fires is gone. If its schedule is on, the next piece of the wait is armed, or its
  // handler begins when there is none; otherwise that is all.
  lemma FiredTimer(s: State, id: nat, now: int)
    requires Base(s) && Enabled(s, Turn(Fire(id), now)) && s.timers[id].ms - s.timers[id].chunk >= 0
    ensures var r, timer := Step(s, Turn(Fire(id), now)), s.timers[id];
            var i, rest := timer.schedule, timer.ms - timer.chunk;
            && |r.schedules| == |s.schedules| && r.names == s.names
            && r.timers == (if On(s, i) && rest > 0 then (s.timers - {id})[s.nextTimer := PieceOf(i, rest, now)]
                            else s.timers - {id})
            && r.handlers == (if On(s, i) && rest == 0 then s.handlers + multiset{i} else s.handlers)
            && r.schedules[i].name == s.schedules[i].name && r.schedules[i].interval == s.schedules[i].interval
            && r.schedules[i].runCount
               == s.schedules[i].runCount + if On(s, i) && rest == 0 then 1 else 0
  {}

  // A handler that settles is no longer at work, and if its schedule is on, the next wait begins.
  lemma SettledHandler(s: State, i: nat, now: int)
    requires Base(s) && Enabled(s, Turn(Settle(i), now))
    ensures var r := Step(s, Turn(Settle(i), now));
            && |r.schedules| == |s.schedules| && r.names == s.names && r.handlers == s.handlers - multiset{i}
            && r.timers == (if On(s, i) then s.timers[s.nextTimer := PieceOf(i, s.schedules[i].interval, now)]
                            else s.timers)
            && r.schedules[i].name == s.schedules[i].name && r.schedules[i].interval == s.schedules[i].interval
            && r.schedules[i].runCount == s.schedules[i].runCount
  {}

  // ---- a wait to its end -----------------------------------------------------------------

  ghost predicate OnlyFires(turns: seq<Turn>)
  {
    forall k :: 0 <= k < |turns| ==> turns[k].event.Fire?
  }

  // A timer of schedule i for the next piece of ms milliseconds, armed at `from`.
  predicate Pending(s: State, id: nat, i: nat, ms: int, from: int)
  {
    id in s.timers && ms >= 1 && s.timers[id] == PieceOf(i, ms, from)
  }

  // The handler of schedule i begins once more, at that time.
  predicate RunsOnce(s: State, r: State, i: nat, at: int)
  {
    && i < |s.schedules| && i < |r.schedules| && r.clock == at && r.handlers[i] == s.handlers[i] + 1
    && r.schedules[i].runCount == s.schedules[i].runCount + 1
  }

  lemma RunTurn(s: State, t: Turn, rest: seq<Turn>)
    requires Enabled(s, t) && Feasible(Step(s, t), rest)
    ensures Feasible(s, [t] + rest) && Run(s, [t] + rest) == Run(Step(s, t), rest)
  {
    assert ([t] + rest)[1..] == rest;
  }

  // Left to its timers, a schedule that is on runs when its wait is over: just then, and once.
  lemma {:induction false} WaitEndsInARun(s: State, id: nat, i: nat, ms: int, from: int) returns (turns: seq<Turn>)
    requires Base(s) && i < |s.schedules| && On(s, i) && Pending(s, id, i, ms, from) && s.clock <= from
    ensures OnlyFires(turns) && Feasible(s, turns) && RunsOnce(s, Run(s, turns), i, from + ms)
    decreases ms
  {
    var timer := s.timers[id];
    var t := Turn(Fire(id), timer.due);
    var r := Step(s, t);
    FiredTimer(s, id, timer.due);
    StepBase(s, t);
    var rest := [];
    if timer.chunk < timer.ms {
      rest := WaitEndsInARun(r, s.nextTimer, i, timer.ms - timer.chunk, timer.due);
    }
    RunTurn(s, t, rest);
    turns := [t] + rest;
  }

  // So after a handler has settled, the next run begins an interval later.
  lemma NextRunAfterInterval(s: State, i: nat, now: int) returns (turns: seq<Turn>)
    requires Base(s) && Enabled(s, Turn(Settle(i), now)) && On(s, i)
    ensures var r := Step(s, Turn(Settle(i), now));
            OnlyFires(turns) && Feasible(r, turns) && RunsOnce(r, Run(r, turns), i, now + s.schedules[i].interval)
  {
    var r := Step(s, Turn(Settle(i), now));
    SettledHandler(s, i, now);
    StepBase(s, Turn(Settle(i), now));
    turns := WaitEndsInARun(r, s.nextTimer, i, s.schedules[i].interval, now);
  }

  // ---- where a wait begins ---------------------------------------------------------------

  // Some timer of schedule i waits for its interval from now on.
  ghost predicate AboutToWait(s: State, i: nat)
    requires i < |s.schedules|
  {
    exists id :: Pending(s, id, i, s.schedules[i].interval, s.clock)
  }

  lemma StartedWaits(s: State, i: nat)
    requires Base(s) && i < |s.schedules| && On(s, i) && s.schedules[i].timer.None?
    ensures AboutToWait(StartSchedule(s, i), i)
  {
    var r := StartSchedule(s, i);
    assert r.clock == s.clock && r.schedules[i].interval == s.schedules[i].interval;
    assert Pending(r, s.nextTimer, i, r.schedules[i].interval, r.clock);
  }

  lemma OthersStillWait(s: State, i: nat, j: nat)
    requires Base(s) && i < |s.schedules| && j < |s.schedules| && i != j && AboutToWait(s, i)
    ensures AboutToWait(StartSchedule(s, j), i)
  {
    var id :| Pending(s, id, i, s.schedules[i].interval, s.clock);
    var r := StartSchedule(s, j);
    assert r.clock == s.clock && r.schedules[i] == s.schedules[i];
    assert Pending(r, id, i, r.schedules[i].interval, r.clock);
  }

  lemma {:induction false} AllStartedWait(s: State, n: nat, i: nat)
    requires Base(s) && i < n <= |s.schedules| && Registered(s, i) && s.schedules[i].timer.None?
    ensures AboutToWait(StartAll(s, n), i)
  {
    if i < n - 1 {
      AllStartedWait(s, n - 1, i);
      WaitsOn(s, n, i, StartAll(s, n - 1));
    } else {
      StartsAll(s, i, i);
      LastOneWaits(s, StartAll(s, i), i);
    }
  }

  lemma WaitsOn(s: State, n: nat, i: nat, t: State)
    requires Base(s) && i < n - 1 < |s.schedules| && t == StartAll(s, n - 1) && AboutToWait(t, i)
    ensures AboutToWait(StartAll(s, n), i)
  {
    StartsAll(s, n - 1, i);
    OneMoreWaits(t, n - 1, i);
  }

  lemma LastOneWaits(s: State, t: State, i: nat)
    requires i < |s.schedules| && i < |t.schedules| && Base(t) && Untouched(s, t, i)
    requires Registered(s, i) && s.schedules[i].timer.None?
    ensures Registered(t, i) && AboutToWait(StartSchedule(t, i), i)
  {
    StartedWaits(t, i);
  }

  lemma OneMoreWaits(t: State, k: nat, i: nat)
    requires Base(t) && i < |t.schedules| && k < |t.schedules| && i != k && AboutToWait(t, i)
    ensures AboutToWait(if Registered(t, k) then StartSchedule(t, k) else t, i)
  {
    if Registered(t, k) {
      OthersStillWait(t, i, k);
    }
  }

  // A start makes every registered schedule without a timer wait for its interval, and so does a
  // registration while the scheduler runs.
  lemma StartWaits(s: State, i: nat, now: int)
    requires Base(s) && i < |s.schedules| && Enabled(s, Turn(Start, now)) && !s.running
    requires Registered(s, i) && s.schedules[i].timer.None?
    ensures AboutToWait(Step(s, Turn(Start, now)), i)
  {
    AllStartedWait(s.(clock := now, running := true), |s.schedules|, i);
  }

  lemma RegistrationWaits(s: State, name: string, interval: int, now: int)
    requires Base(s) && Enabled(s, Turn(Register(name, interval), now)) && s.running
    requires name !in s.names && interval > 0
    ensures var r := Step(s, Turn(Register(name, interval), now));
            && |r.schedules| == |s.schedules| + 1
            && r.names == s.names[name := |s.schedules|]
            && r.schedules[|s.schedules|].name == name && r.schedules[|s.schedules|].interval == interval
            && AboutToWait(r, |s.schedules|)
  {
    var r := Step(s, Turn(Register(name, interval), now));
    assert Pending(r, s.nextTimer, |s.schedules|, interval, now);
  }
}
