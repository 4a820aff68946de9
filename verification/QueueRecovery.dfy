/**
 Snapshots, crashes and recovery: what a reboot from the last written snapshot brings back, and
 that nothing is lost while no write is pending. The placement invariant then holds over every
 run, crashes included.
 */
module QueueRecovery {
  import opened Common
  import opened QueueModel
  import opened QueuePlacement

  function RequeueAll(jobs: map<JobId, Job>): map<JobId, Job>
  {
    map id | id in jobs :: Requeue(jobs[id])
  }

  // ---- reading the records back ----------------------------------------------------------

  ghost predicate LoadedOk(s: State)
  {
    MapOk(s.jobs, s.order) && (forall id :: id in s.jobs ==> s.jobs[id].status != Running)
  }

  lemma {:induction false} LoadJobsOk(s: State, js: seq<Job>)
    requires LoadedOk(s)
    ensures var r := LoadJobs(s, js); LoadedOk(r) && r == s.(jobs := r.jobs, order := r.order)
    decreases |js|
  {
    if js != [] {
      var j := Requeue(js[0]);
      AppendElems(s.order, j.id);
      assert LoadedOk(LoadOne(s, j));
      LoadJobsOk(LoadOne(s, j), js[1..]);
    }
  }

  ghost predicate Mirrors(s: State, jobs: map<JobId, Job>, ids: seq<JobId>)
  {
    && s.order == ids
    && (forall id :: id in s.jobs <==> id in ids)
    && (forall id :: id in s.jobs ==> id in jobs && s.jobs[id] == Requeue(jobs[id]))
  }

  // Records written in order come back as the same map, in the same order.
  lemma {:induction false} LoadRecords(s: State, jobs: map<JobId, Job>, done: seq<JobId>, ids: seq<JobId>)
    requires Distinct(done + ids) && Mirrors(s, jobs, done)
    requires forall id :: id in ids ==> id in jobs && jobs[id].id == id
    ensures var r := LoadJobs(s, Records(jobs, ids));
            Mirrors(r, jobs, done + ids) && r == s.(jobs := r.jobs, order := r.order)
    decreases |ids|
  {
    if ids == [] {
      assert done + ids == done;
    } else {
      var id := ids[0];
      var d := done + [id];
      assert d + ids[1..] == done + ids;
      assert id !in done by {
        assert (done + ids)[|done|] == id;
        assert forall k :: 0 <= k < |done| ==> (done + ids)[k] == done[k];
      }
      AppendElems(done, id);
      assert forall x :: x in d <==> x in Elems(d);
      var s1 := LoadOne(s, Requeue(jobs[id]));
      assert Mirrors(s1, jobs, d);
      LoadRecords(s1, jobs, d, ids[1..]);
      assert Records(jobs, ids)[1..] == Records(jobs, ids[1..]);
    }
  }

  function Loaded(snap: Snapshot, now: int): State
  {
    LoadJobs(EMPTY.(clock := now), snap.jobs)
  }

  lemma LoadedSnapshot(s: State, now: int)
    requires MapOk(s.jobs, s.order)
    ensures Loaded(TakeSnapshot(s), now) == EMPTY.(clock := now, order := s.order, jobs := RequeueAll(s.jobs))
  {
    assert [] + s.order == s.order;
    LoadRecords(EMPTY.(clock := now), s.jobs, [], s.order);
    MirrorsAll(Loaded(TakeSnapshot(s), now), s.jobs, s.order);
  }

  lemma MirrorsAll(r: State, jobs: map<JobId, Job>, order: seq<JobId>)
    requires Mirrors(r, jobs, order) && MapOk(jobs, order)
    ensures r.jobs == RequeueAll(jobs)
  {
    var m := RequeueAll(jobs);
    assert forall id :: id in r.jobs <==> id in m;
    assert forall id :: id in m ==> r.jobs[id] == m[id];
  }

  // ---- resuming the queued jobs ----------------------------------------------------------

  // The queued jobs among ids that nothing holds yet.
  function Unheld(s: State, ids: seq<JobId>): set<JobId>
  {
    set id | id in ids && StillQueued(s.jobs, id) && id !in s.queue
  }

  lemma UnheldTail(s: State, ids: seq<JobId>, now: int)
    requires ids != [] && Distinct(ids)
    ensures Unheld(ResumeOne(s, ids[0], now), ids[1..]) == Unheld(s, ids) - {ids[0]}
  {
    TailElems(ids);
    AppendElems(s.queue, ids[0]);
    var s1 := ResumeOne(s, ids[0], now);
    assert forall id :: id in ids <==> id in ids[1..] || id == ids[0];
    assert ids[0] !in ids[1..];
    assert forall id :: id in s1.queue ==> id in Elems(s.queue) || id == ids[0];
  }

  lemma {:induction false} ResumePlaces(c: Config, s: State, ids: seq<JobId>, now: int)
    requires Distinct(ids) && InvBut(c, s, Unheld(s, ids))
    ensures Inv(c, Resume(s, ids, now))
    decreases |ids|
  {
    if ids == [] {
      assert Unheld(s, ids) == {};
    } else {
      var id := ids[0];
      var hole := Unheld(s, ids);
      UnheldTail(s, ids, now);
      if id in hole {
        if RemainingMs(s.jobs[id], now) > 0 {
          ArmPlaces(c, s, id, RemainingMs(s.jobs[id], now), now, hole);
        } else {
          AppendPlaces(c, s, id, hole);
        }
      } else {
        assert hole - {id} == hole;
      }
      TailElems(ids);
      ResumePlaces(c, ResumeOne(s, id, now), ids[1..], now);
    }
  }

  // What Resume adds: overdue jobs to the queue, in order, and one timer for each other one.
  lemma {:induction false} ResumeAdds(s: State, ids: seq<JobId>, now: int)
    requires Distinct(ids)
    ensures var r := Resume(s, ids, now);
            && r == s.(queue := r.queue, timers := r.timers)
            && s.queue <= r.queue && s.timers <= r.timers
    ensures forall id | id in ids && StillQueued(s.jobs, id) && id !in s.queue ::
              var r := Resume(s, ids, now); var ms := RemainingMs(s.jobs[id], now);
              if ms > 0 then id !in r.queue && Timer(id, now + TimerDelay(ms)) in r.timers else id in r.queue
    ensures forall id | id !in ids && id !in s.queue :: id !in Resume(s, ids, now).queue
    decreases |ids|
  {
    if ids != [] {
      var id := ids[0];
      assert id !in ids[1..];
      var s1 := ResumeOne(s, id, now);
      ResumeAdds(s1, ids[1..], now);
      var r := Resume(s, ids, now);
      if id in s.jobs && s.jobs[id].status == Queued && id !in s.queue {
        if RemainingMs(s.jobs[id], now) > 0 {
          assert r.timers[|s.timers|] == s1.timers[|s.timers|];
        } else {
          assert r.queue[|s.queue|] == s1.queue[|s.queue|];
        }
      }
    }
  }

  // Resuming from a queue that already holds every overdue job only re-arms the timers.
  lemma {:induction false} ResumeAgain(s: State, q: seq<JobId>, disk: Option<Snapshot>, ids: seq<JobId>, now: int)
    requires Distinct(ids)
    requires forall id | id in ids && StillQueued(s.jobs, id) ::
               id in q <==> id in s.queue || RemainingMs(s.jobs[id], now) <= 0
    ensures Resume(s.(queue := q, disk := disk), ids, now)
            == s.(queue := q, disk := disk, timers := Resume(s, ids, now).timers)
    decreases |ids|
  {
    if ids != [] {
      var id := ids[0];
      assert id !in ids[1..];
      var s1 := ResumeOne(s, id, now);
      ResumeAgain(s1, q, disk, ids[1..], now);
    }
  }

  lemma ResumedPlace(b: State, id: JobId, now: int)
    requires Distinct(b.order) && id in b.order && StillQueued(b.jobs, id) && id !in b.queue
    ensures var r := Resume(b, b.order, now); var ms := RemainingMs(b.jobs[id], now);
            if ms > 0 then id !in r.queue && Timer(id, now + TimerDelay(ms)) in r.timers else id in r.queue
  {
    ResumeAdds(b, b.order, now);
  }

  lemma ResumeTwice(b: State, disk: Option<Snapshot>, now: int)
    requires Distinct(b.order)
    ensures var r := Resume(b, b.order, now);
            Resume(b.(queue := r.queue, disk := disk), b.order, now) == r.(disk := disk)
  {
    var r := Resume(b, b.order, now);
    ResumeAdds(b, b.order, now);
    forall id | id in b.order && StillQueued(b.jobs, id)
      ensures id in r.queue <==> id in b.queue || RemainingMs(b.jobs[id], now) <= 0
    {
      if id in b.queue {
        var k :| 0 <= k < |b.queue| && b.queue[k] == id;
        assert r.queue[k] == id;
      }
    }
    ResumeAgain(b, r.queue, disk, b.order, now);
  }

  // ---- what recovery promises ------------------------------------------------------------

  ghost predicate Readable(snap: Snapshot)
  {
    Distinct(KeepQueued(Loaded(snap, 0).jobs, snap.queueOrder))
  }

  function Booted(snap: Snapshot, now: int): State
  {
    var s := Loaded(snap, now);
    s.(queue := KeepQueued(s.jobs, snap.queueOrder), disk := Some(snap),
       hist := NO_HISTORY.(minted := s.jobs.Keys, base := s.jobs))
  }

  lemma {:induction false} LoadIgnoresClock(s: State, js: seq<Job>, now: int)
    ensures LoadJobs(s.(clock := now), js) == LoadJobs(s, js).(clock := now)
    decreases |js|
  {
    if js != [] {
      var j := Requeue(js[0]);
      LoadIgnoresClock(LoadOne(s, j), js[1..], now);
    }
  }

  lemma LoadedOkNow(snap: Snapshot, now: int)
    ensures LoadedOk(Loaded(snap, now)) && Loaded(snap, now) == Loaded(snap, 0).(clock := now)
    ensures var r := Loaded(snap, now); r == EMPTY.(clock := now, jobs := r.jobs, order := r.order)
  {
    LoadJobsOk(EMPTY.(clock := now), snap.jobs);
    LoadIgnoresClock(EMPTY, snap.jobs, now);
    LoadIgnoresClock(EMPTY, snap.jobs, 0);
    assert EMPTY.(clock := 0) == EMPTY;
  }

  lemma BootedPlaces(c: Config, snap: Snapshot, now: int)
    requires Readable(snap)
    ensures var s := Booted(snap, now); InvBut(c, s, Unheld(s, s.order)) && s.timers == []
  {
    var s := Booted(snap, now);
    LoadedOkNow(snap, now);
  }

  // Whatever the file says, as long as it queues no job twice, the booted state is well placed
  // and holds exactly the jobs of the file.
  lemma RecoverPlaces(c: Config, snap: Snapshot, now: int)
    requires Readable(snap)
    ensures var r := Recover(snap, now);
            && Inv(c, r) && Saturated(c, r)
            && r.jobs == Loaded(snap, 0).jobs && r.order == Loaded(snap, 0).order
            && r.hist.minted == r.jobs.Keys && r.disk == Some(snap) && !r.flushPending
    ensures RequeueAll(Recover(snap, now).jobs) == Recover(snap, now).jobs
  {
    var s := Booted(snap, now);
    LoadedOkNow(snap, now);
    BootedPlaces(c, snap, now);
    ResumePlaces(c, s, s.order, now);
    ResumeAdds(s, s.order, now);
    assert forall id :: id in s.jobs ==> s.jobs[id] == Requeue(s.jobs[id]);
  }

  lemma {:induction false} KeepAllQueued(jobs: map<JobId, Job>, ids: seq<JobId>)
    requires forall id :: id in ids ==> StillQueued(jobs, id)
    ensures KeepQueued(jobs, ids) == ids
  {
    if ids != [] {
      KeepAllQueued(jobs, ids[1..]);
    }
  }

  lemma BootedSnapshot(c: Config, s: State, now: int)
    requires Inv(c, s)
    ensures Booted(TakeSnapshot(s), now)
         == EMPTY.(clock := now, order := s.order, jobs := RequeueAll(s.jobs), queue := s.queue,
                   disk := Some(TakeSnapshot(s)),
                   hist := NO_HISTORY.(minted := s.jobs.Keys, base := RequeueAll(s.jobs)))
    ensures Readable(TakeSnapshot(s))
  {
    LoadedSnapshot(s, now);
    LoadedSnapshot(s, 0);
    var jobs := RequeueAll(s.jobs);
    forall id | id in s.queue ensures StillQueued(jobs, id) {
      assert id in Elems(s.queue);
    }
    KeepAllQueued(jobs, s.queue);
    assert jobs.Keys == s.jobs.Keys;
  }

  // Recovery keeps exactly the saved jobs in their order: terminal and queued records come back
  // unchanged and running ones queued, and the saved order is a prefix of the new queue.
  lemma RecoverKeeps(c: Config, s: State, now: int)
    requires Inv(c, s)
    ensures var r := Recover(TakeSnapshot(s), now);
            && Inv(c, r)
            && r.order == s.order
            && r.jobs == RequeueAll(s.jobs)
            && s.queue <= r.queue
            && !r.processing && r.active == 0
  {
    BootedSnapshot(c, s, now);
    RecoverPlaces(c, TakeSnapshot(s), now);
    ResumeAdds(Booted(TakeSnapshot(s), now), s.order, now);
  }

  // Every other job that comes back queued is armed for what is left of its delay, or queued
  // when nothing is left; a job that was backing off after a failed attempt is queued at once.
  lemma RecoverReschedules(c: Config, s: State, now: int, id: JobId)
    requires Inv(c, s) && id in s.jobs && id !in s.queue
    requires s.jobs[id].status == Queued || s.jobs[id].status == Running
    ensures var r := Recover(TakeSnapshot(s), now); var ms := RemainingMs(s.jobs[id], now);
            if ms > 0 then id !in r.queue && Timer(id, now + TimerDelay(ms)) in r.timers
            else id in r.queue && !(id in Owners(r.timers))
  {
    BootedSnapshot(c, s, now);
    ResumedPlace(Booted(TakeSnapshot(s), now), id, now);
    RecoveredInv(c, s, now);
    QueuedNotArmed(c, Recover(TakeSnapshot(s), now), id);
  }

  lemma RecoveredInv(c: Config, s: State, now: int)
    requires Inv(c, s)
    ensures Inv(c, Recover(TakeSnapshot(s), now))
  {
    RecoverKeeps(c, s, now);
  }

  lemma QueuedNotArmed(c: Config, s: State, id: JobId)
    requires Inv(c, s)
    ensures id in s.queue ==> id !in Owners(s.timers)
  {
    assert id in s.queue <==> id in Elems(s.queue);
  }

  // Saving what was recovered and recovering again at the same instant changes nothing.
  lemma RecoverIdempotent(c: Config, s: State, now: int)
    requires Inv(c, s)
    ensures var r := Recover(TakeSnapshot(s), now);
            && Inv(c, r)
            && Recover(TakeSnapshot(r), now) == r.(disk := Some(TakeSnapshot(r)))
  {
    var r := Recover(TakeSnapshot(s), now);
    var b := Booted(TakeSnapshot(s), now);
    RecoverKeeps(c, s, now);
    BootedSnapshot(c, s, now);
    ResumeAdds(b, b.order, now);
    RequeueAllTwice(s.jobs);
    BootedSnapshot(c, r, now);
    ResumeTwice(b, Some(TakeSnapshot(r)), now);
    assert Booted(TakeSnapshot(r), now) == b.(queue := r.queue, disk := Some(TakeSnapshot(r)));
  }

  lemma RequeueAllTwice(jobs: map<JobId, Job>)
    ensures RequeueAll(RequeueAll(jobs)) == RequeueAll(jobs)
  {
    var once := RequeueAll(jobs);
    assert forall id :: id in once ==> Requeue(once[id]) == once[id];
  }
}
