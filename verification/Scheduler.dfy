/** The scheduler itself: each operation does to its fields what the state machine says. */
module Schedulers {
  import opened Common
  import opened SchedulerModel

  datatype ScheduleError = NameTaken | InvalidInterval

  class Scheduler {
    var isRunning: bool
    var names: map<string, nat>
    var schedules: seq<Schedule>
    // What the runtime holds: the pending timers and the handlers at work.
    var timers: map<nat, Timer>
    var handlers: multiset<nat>
    var nextTimer: nat
    var clock: int

    ghost function View(): State
      reads this
    {
      State(isRunning, names, schedules, timers, handlers, nextTimer, clock)
    }

    constructor (now: int)
      ensures View() == Empty(now)
    {
      isRunning, names, schedules := false, map[], [];
      timers, handlers, nextTimer, clock := map[], multiset{}, 0, now;
    }

    method Register(name: string, interval: int, now: int) returns (r: Result<nat, ScheduleError>)
      requires now >= clock
      modifies this
      ensures View() == Step(old(View()), Turn(Event.Register(name, interval), now))
      ensures r == if name in old(names) then Err(NameTaken)
                   else if interval <= 0 then Err(InvalidInterval) else Ok(|old(schedules)|)
    {
      clock := now;
      if name in names {
        return Err(NameTaken);
      }
      if interval <= 0 {
        return Err(InvalidInterval);
      }
      var i := |schedules|;
      schedules := schedules + [Schedule(name, interval, None, 0, clock, [])];
      names := names[name := i];
      if isRunning {
        StartOne(i);
      }
      return Ok(i);
    }

    method CancelSchedule(name: string, now: int) returns (cancelled: bool)
      requires now >= clock && NamesOk(View())
      modifies this
      ensures View() == Step(old(View()), Turn(Cancel(name), now)) && (cancelled <==> name in old(names))
    {
      clock := now;
      if name !in names {
        return false;
      }
      StopOne(names[name]);
      names := names - {name};
      return true;
    }

    method Start(now: int)
      requires now >= clock
      modifies this
      ensures View() == Step(old(View()), Turn(Event.Start, now))
    {
      clock := now;
      if isRunning {
        return;
      }
      isRunning := true;
      ghost var s := View();
      var i := 0;
      while i < |schedules|
        invariant 0 <= i <= |s.schedules| == |schedules| && View() == StartAll(s, i)
      {
        StartIfRegistered(i);
        i := i + 1;
      }
    }

    method Stop(now: int)
      requires now >= clock
      modifies this
      ensures View() == Step(old(View()), Turn(Event.Stop, now))
    {
      clock := now;
      if !isRunning {
        return;
      }
      ghost var s := View();
      var i := 0;
      while i < |schedules|
        invariant 0 <= i <= |s.schedules| == |schedules| && View() == StopAll(s, i)
      {
        StopIfRegistered(i);
        i := i + 1;
      }
      isRunning := false;
    }

    // The callback of a timer: the next chunk, or the run.
    method TimerFires(id: nat, now: int)
      requires Enabled(View(), Turn(Fire(id), now))
      modifies this
      ensures View() == Step(old(View()), Turn(Fire(id), now))
    {
      clock := now;
      var timer := timers[id];
      timers := timers - {id};
      if schedules[timer.schedule].name !in names {
        return;
      }
      if timer.chunk < timer.ms {
        ArmWait(timer.schedule, timer.ms - timer.chunk);
      } else {
        Run(timer.schedule);
      }
    }

    // The part of a run after its handler has settled, whether it failed or not.
    method HandlerSettles(i: nat, now: int)
      requires Enabled(View(), Turn(Settle(i), now))
      modifies this
      ensures View() == Step(old(View()), Turn(Settle(i), now))
    {
      clock := now;
      handlers := handlers - multiset{i};
      if schedules[i].name !in names {
        return;
      }
      BeginWait(i);
    }

    method Run(i: nat)
      requires i < |schedules|
      modifies this
      ensures View() == RunHandler(old(View()), i)
    {
      schedules := schedules[i := schedules[i].(runCount := schedules[i].runCount + 1)];
      handlers := handlers + multiset{i};
    }

    method ArmWait(i: nat, ms: int)
      requires i < |schedules|
      modifies this
      ensures View() == SchedulerModel.ArmWait(old(View()), i, ms)
    {
      if schedules[i].name !in names {
        return;
      }
      var chunk := Min(ms, MAX_TIMER_MS);
      timers := timers[nextTimer := Timer(i, chunk, ms, clock + TimerDelay(chunk))];
      schedules := schedules[i := schedules[i].(timer := Some(nextTimer), chunks := schedules[i].chunks + [chunk])];
      nextTimer := nextTimer + 1;
    }

    method BeginWait(i: nat)
      requires i < |schedules|
      modifies this
      ensures View() == SchedulerModel.BeginWait(old(View()), i)
    {
      schedules := schedules[i := schedules[i].(chunks := [])];
      ArmWait(i, schedules[i].interval);
    }

    method StartOne(i: nat)
      requires i < |schedules|
      modifies this
      ensures View() == StartSchedule(old(View()), i)
    {
      if schedules[i].timer.Some? {
        return;
      }
      schedules := schedules[i := schedules[i].(since := clock - schedules[i].runCount * schedules[i].interval)];
      BeginWait(i);
    }

    method StopOne(i: nat)
      requires i < |schedules|
      modifies this
      ensures View() == StopSchedule(old(View()), i)
    {
      if schedules[i].timer.Some? {
        timers := timers - {schedules[i].timer.value};
        schedules := schedules[i := schedules[i].(timer := None)];
      }
    }

    method StartIfRegistered(i: nat)
      requires i < |schedules|
      modifies this
      ensures View() == if Registered(old(View()), i) then StartSchedule(old(View()), i) else old(View())
    {
      if schedules[i].name in names && names[schedules[i].name] == i {
        StartOne(i);
      }
    }

    method StopIfRegistered(i: nat)
      requires i < |schedules|
      modifies this
      ensures View() == if Registered(old(View()), i) then StopSchedule(old(View()), i) else old(View())
    {
      if schedules[i].name in names && names[schedules[i].name] == i {
        StopOne(i);
      }
    }
  }
}
