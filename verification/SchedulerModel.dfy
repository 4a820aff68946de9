/**
 Recurring schedules as chains of timers: a wait is cut into chunks the runtime can time, and the
 next wait begins when the handler of the last run settles.
 */
module SchedulerModel {
  import opened Common

  // `timer` is the id of the timer last armed, fired or not; null before any and after a stop.
  // The last two are history: the time the runs count from, and the chunks of the present wait.
  datatype Schedule = Schedule(
    name: string, interval: int, timer: Option<nat>, runCount: nat, since: int, chunks: seq<int>)

  // A pending timer: whose it is, its chunk of the ms still to wait when it was armed, and when
  // it is due.
  datatype Timer = Timer(schedule: nat, chunk: int, ms: int, due: int)

  // Schedules keep their place when they are cancelled; the table of names says which are on.
  datatype State = State(
    running: bool,
    names: map<string, nat>,
    schedules: seq<Schedule>,
    timers: map<nat, Timer>,
    handlers: multiset<nat>,
    nextTimer: nat,
    clock: int)

  datatype Event =
    | Register(name: string, interval: int)
    | Cancel(name: string)
    | Start
    | Stop
    | Fire(timer: nat)
    | Settle(schedule: nat)

  datatype Turn = Turn(event: Event, now: int)

  function Empty(clock: int): State
  {
    State(false, map[], [], map[], multiset{}, 0, clock)
  }

  predicate On(s: State, i: nat)
    requires i < |s.schedules|
  {
    s.schedules[i].name in s.names
  }

  predicate Registered(s: State, i: nat)
    requires i < |s.schedules|
  {
    s.schedules[i].name in s.names && s.names[s.schedules[i].name] == i
  }

  // ---- the operations --------------------------------------------------------------------

  // Arm the next chunk of a wait of ms milliseconds.
  function ArmWait(s: State, i: nat, ms: int): State
    requires i < |s.schedules|
  {
    if !On(s, i) then s
    else
      var chunk := Min(ms, MAX_TIMER_MS);
      s.(timers := s.timers[s.nextTimer := Timer(i, chunk, ms, s.clock + TimerDelay(chunk))],
         schedules := s.schedules[i := s.schedules[i].(timer := Some(s.nextTimer),
                                                       chunks := s.schedules[i].chunks + [chunk])],
         nextTimer := s.nextTimer + 1)
  }

  function BeginWait(s: State, i: nat): State
    requires i < |s.schedules|
  {
    ArmWait(s.(schedules := s.schedules[i := s.schedules[i].(chunks := [])]), i, s.schedules[i].interval)
  }

  function StartSchedule(s: State, i: nat): State
    requires i < |s.schedules|
  {
    var x := s.schedules[i];
    if x.timer.Some? then s
    else BeginWait(s.(schedules := s.schedules[i := x.(since := s.clock - x.runCount * x.interval)]), i)
  }

  function StopSchedule(s: State, i: nat): State
    requires i < |s.schedules|
  {
    if s.schedules[i].timer.None? then s
    else s.(timers := s.timers - {s.schedules[i].timer.value},
            schedules := s.schedules[i := s.schedules[i].(timer := None)])
  }

  // The first n schedules, those that are registered, in the order of their registration.
  function StartAll(s: State, n: nat): (t: State)
    requires n <= |s.schedules|
    ensures |t.schedules| == |s.schedules| && t.clock == s.clock && t.handlers == s.handlers && t.names == s.names
  {
    if n == 0 then s
    else
      var t := StartAll(s, n - 1);
      if Registered(t, n - 1) then StartSchedule(t, n - 1) else t
  }

  function StopAll(s: State, n: nat): (t: State)
    requires n <= |s.schedules|
    ensures |t.schedules| == |s.schedules| && t.clock == s.clock && t.handlers == s.handlers && t.names == s.names
  {
    if n == 0 then s
    else
      var t := StopAll(s, n - 1);
      if Registered(t, n - 1) then StopSchedule(t, n - 1) else t
  }

  function RunHandler(s: State, i: nat): State
    requires i < |s.schedules|
  {
    s.(schedules := s.schedules[i := s.schedules[i].(runCount := s.schedules[i].runCount + 1)],
      handlers := s.handlers + multiset{i})
  }

  function FireTimer(s: State, t: nat): State
    requires t in s.timers && s.timers[t].schedule < |s.schedules|
  {
    var timer := s.timers[t];
    var u := s.(timers := s.timers - {t});
    if !On(u, timer.schedule) then u
    else if timer.chunk < timer.ms then ArmWait(u, timer.schedule, timer.ms - timer.chunk)
    else RunHandler(u, timer.schedule)
  }

  function SettleHandler(s: State, i: nat): State
    requires i < |s.schedules|
  {
    var u := s.(handlers := s.handlers - multiset{i});
    if On(u, i) then BeginWait(u, i) else u
  }

  function RegisterSchedule(s: State, name: string, interval: int): State
  {
    if name in s.names || interval <= 0 then s
    else
      var u := s.(schedules := s.schedules + [Schedule(name, interval, None, 0, s.clock, [])],
        names := s.names[name := |s.schedules|]);
      if s.running then StartSchedule(u, |s.schedules|) else u
  }

  function CancelSchedule(s: State, name: string): State
    requires name in s.names ==> s.names[name] < |s.schedules|
  {
    if name !in s.names then s
    else
      var u := StopSchedule(s, s.names[name]);
      u.(names := u.names - {name})
  }

  ghost predicate NamesOk(s: State)
  {
    forall k | k in s.names :: s.names[k] < |s.schedules| && s.schedules[s.names[k]].name == k
  }

  predicate Enabled(s: State, t: Turn)
  {
    && t.now >= s.clock
    && match t.event
       case Fire(id) => id in s.timers && s.timers[id].due <= t.now && s.timers[id].schedule < |s.schedules|
       case Settle(i) => i in s.handlers && i < |s.schedules|
       case Cancel(name) => name in s.names ==> s.names[name] < |s.schedules|
       case Register(_, _) => true
       case Start => true
       case Stop => true
  }

  function Step(s: State, t: Turn): State
    requires Enabled(s, t)
  {
    var u := s.(clock := t.now);
    match t.event
    case Register(name, interval) => RegisterSchedule(u, name, interval)
    case Cancel(name) => CancelSchedule(u, name)
    case Start => if u.running then u else StartAll(u.(running := true), |u.schedules|)
    case Stop => if !u.running then u else StopAll(u, |u.schedules|).(running := false)
    case Fire(id) => FireTimer(u, id)
    case Settle(i) => SettleHandler(u, i)
  }

  // ---- chunks ----------------------------------------------------------------------------

  // A wait cut into chunks, each as long as a timer can be.
  function Chunks(ms: int): seq<int>
    decreases ms
  {
    if ms <= 0 then [] else [Min(ms, MAX_TIMER_MS)] + Chunks(ms - Min(ms, MAX_TIMER_MS))
  }

  function SumOf(s: seq<int>): int
  {
    if s == [] then 0 else s[0] + SumOf(s[1..])
  }

  // The chunks of a wait add up to it, none is beyond what a timer can do, and there are no more
  // of them than it takes.
  lemma {:induction false} ChunksAddUp(ms: int)
    requires ms >= 1
    ensures SumOf(Chunks(ms)) == ms && |Chunks(ms)| == CeilDiv(ms, MAX_TIMER_MS)
    ensures forall c | c in Chunks(ms) :: 1 <= c <= MAX_TIMER_MS && TimerDelay(c) == c
    decreases ms
  {
    if ms <= MAX_TIMER_MS {
      assert Chunks(ms) == [ms];
      assert SumOf([ms]) == ms;
    } else {
      ChunksAddUp(ms - MAX_TIMER_MS);
      assert Chunks(ms)[1..] == Chunks(ms - MAX_TIMER_MS);
      CeilOneMore(ms);
    }
  }

  lemma CeilOneMore(ms: int)
    ensures CeilDiv(ms, MAX_TIMER_MS) == CeilDiv(ms - MAX_TIMER_MS, MAX_TIMER_MS) + 1
  {}

  // In one piece, a monthly wait would be over in a millisecond.
  lemma UncutMonthIsOverAtOnce()
    ensures TimerDelay(30 * 24 * 60 * 60 * 1000) == 1 && |Chunks(30 * 24 * 60 * 60 * 1000)| == 2
  {
    ChunksAddUp(30 * 24 * 60 * 60 * 1000);
  }
}
