/** Arrivals and the run phase keep the invariant. */
module RunsForward {
  import opened Jobs
  import opened SchedulerSpec
  import opened SimulatorSpec
  import opened SchedulerTables
  import opened Arrivals
  import opened Order
  import opened Invariant
  import opened Entries
  import opened Ledgers
  import Counting
  import opened Runs

  // ----- a job arrives -----

  /** The table after job `id` has joined; `v` is the job it displaced, if it is in the table. */
  ghost function Seating(js: EntryTable, v: int, id: int, core: int): EntryTable
    requires id in js
  {
    var rest := if v in js then js[v := js[v].(core := -1)] else js;
    rest[id := js[id].(arrived := true, core := core)]
  }

  /** What the scheduler's table becomes when `job` joins, with `v` displaced (-1 for nobody). */
  ghost predicate JoinedTables(s: Sched, t: Sched, job: Job, now: int, core: int, v: int)
    requires Keyed(s.queue)
  {
    && Joined(s, t, job, now, core)
    && (v == -1 ||
        (&& Full(s.active) && core != -1
         && Displaces(s.(numJobs := s.numJobs + 1), t, Settled(s, now), job, now, v)
         && Settled(s, now)[v].core == core))
    && (v == -1 ==> !Full(s.active) || core == -1)
  }

  lemma JoinedSync(cfg: Config, now: int, js: EntryTable, s: Sched, t: Sched, id: int, core: int, v: int)
    requires Legal(cfg) && Keyed(s.queue) && Synced(cfg, now, js, Queued(s.queue)) && Positive(js) && Due(now, js, id)
    requires JoinedTables(s, t, FreshJob(id, now, js[id].run, js[id].priority), now, core, v)
    ensures Keyed(t.queue) && Synced(cfg, now, Seating(js, v, id, core), Queued(t.queue))
  {
    var qs := Settled(s, now);
    if Preemptive(s.scheme) {
      SettleSound(cfg, now, js, Queued(s.queue));
    }
    assert Sound(cfg, now, -1, js, Queued(s.queue));
    var job := FreshJob(id, now, js[id].run, js[id].priority);
    if !Full(s.active) {
      ArriveSound(cfg, now, js, Queued(s.queue), id, Dispatched(job, core, now, now));
    } else if core == -1 {
      ArriveSound(cfg, now, js, qs, id, job);
    } else {
      DisplaceSound(cfg, now, js, qs, v);
      var js', qs' := js[v := js[v].(core := -1)], qs[v := qs[v].(core := -1, pause := now)];
      ArriveSound(cfg, now, js', qs', id, Dispatched(job, core, now, 0));
    }
  }

  lemma JoinedSeat(cfg: Config, now: int, js: EntryTable, s: Sched, t: Sched, job: Job, core: int, v: int)
    requires Keyed(s.queue) && Seated(s.active, Queued(s.queue), -1) && job.id !in Queued(s.queue) && job.core == -1
    requires JoinedTables(s, t, job, now, core, v)
    ensures Keyed(t.queue) && Seated(t.active, Queued(t.queue), -1)
  {
    hide Queued, Seated;
    var qs := Settled(s, now);
    if Preemptive(s.scheme) {
      SettleSeat(s.active, Queued(s.queue), now);
    }
    if !Full(s.active) {
      SeatNew(s.active, Queued(s.queue), job.id, Dispatched(job, core, now, now));
    } else if core == -1 {
      SeatWaiting(s.active, qs, job.id, job, -1);
    } else {
      var out := qs[v].(core := -1, pause := now);
      ExpireSeat(s.active, qs, v, out);
      DisplaceSeat(s.active, qs[v := out], job.id, core, Dispatched(job, core, now, 0));
    }
  }

  lemma JoinedTotals(cfg: Config, now: int, js: EntryTable, s: Sched, t: Sched, id: int, core: int, v: int)
    requires Legal(cfg) && Keyed(s.queue) && Synced(cfg, now, js, Queued(s.queue)) && Positive(js) && Due(now, js, id)
    requires JoinedTables(s, t, FreshJob(id, now, js[id].run, js[id].priority), now, core, v)
    ensures Keyed(t.queue)
    ensures Left(cfg, Seating(js, v, id, core)) == Left(cfg, js)
    ensures Balance(cfg, t, Seating(js, v, id, core), Queued(t.queue)) == Balance(cfg, s, js, Queued(s.queue))
    ensures Elapsed(cfg, t, Queued(t.queue), now) == Elapsed(cfg, s, Queued(s.queue), now)
  {
    hide Queued, Left, Shares, Ages, Sum;
    var qs := Settled(s, now);
    if Preemptive(s.scheme) {
      SettleSound(cfg, now, js, Queued(s.queue));
      SettleTotals(cfg, now, js, Queued(s.queue));
    }
    assert Sound(cfg, now, -1, js, Queued(s.queue));
    var job := FreshJob(id, now, js[id].run, js[id].priority);
    if !Full(s.active) {
      ArriveTotals(cfg, now, js, Queued(s.queue), id, Dispatched(job, core, now, now));
    } else if core == -1 {
      ArriveTotals(cfg, now, js, qs, id, job);
    } else {
      DisplaceSound(cfg, now, js, qs, v);
      DisplaceTotals(cfg, now, js, qs, v);
      var js', qs' := js[v := js[v].(core := -1)], qs[v := qs[v].(core := -1, pause := now)];
      ArriveTotals(cfg, now, js', qs', id, Dispatched(job, core, now, 0));
    }
  }

  lemma JoinedAnswered(s: Sched, t: Sched, job: Job, now: int, core: int, v: int)
    requires Keyed(s.queue) && Answered(s, Queued(s.queue)) && !job.responded
    requires JoinedTables(s, t, job, now, core, v)
    ensures Keyed(t.queue) && Answered(t, Queued(t.queue))
  {
    hide Queued;
  }

  lemma JoinedClocked(cfg: Config, clocks: seq<int>, s: Sched, t: Sched, job: Job, now: int, core: int, v: int)
    requires Legal(cfg) && s.scheme == cfg.scheme == RR && |clocks| == |s.active| && job.core == -1
    requires Keyed(s.queue) && Clocked(cfg, clocks, Queued(s.queue), now, |clocks|)
    requires forall a :: a in Queued(s.queue) && Queued(s.queue)[a].core != -1 ==>
      0 <= Queued(s.queue)[a].core < |s.active| && s.active[Queued(s.queue)[a].core]
    requires JoinedTables(s, t, job, now, core, v)
    ensures Keyed(t.queue)
    ensures var clocks' := if core != -1 then SetClock(clocks, core, cfg.quantum) else clocks;
            Clocked(cfg, clocks', Queued(t.queue), now, |clocks|)
  {
    hide Queued;
    var clocks', qs' := if core != -1 then SetClock(clocks, core, cfg.quantum) else clocks, Queued(t.queue);
    forall id | id in qs'
      ensures Paced(cfg, clocks', qs'[id], now, |clocks|)
    {
      if id != job.id {
        assert qs'[id] == Queued(s.queue)[id];
        assert Paced(cfg, clocks, qs'[id], now, |clocks|);
      }
    }
  }

  /** The array after the arrival, in all three cases, has the table the scheduler's answer calls for. */
  lemma SeatingListed(cfg: Config, now: int, jobs: seq<SimJob>, s: Sched, i: nat, core: int, v: int)
    requires Unique(jobs) && Keyed(s.queue) && i < |jobs| && jobs[i].core == -1
    requires Synced(cfg, now, Listed(jobs), Queued(s.queue)) && Seated(s.active, Queued(s.queue), -1)
    requires if v != -1 then v in Queued(s.queue) && Queued(s.queue)[v].core == core >= 0 && v != jobs[i].id
             else core == -1 || (0 <= core < |s.active| && !s.active[core])
    ensures var j := jobs[i].(arrived := true, core := core);
            var r := if core != -1 then Vacate(jobs, core)[i := j] else jobs[i := j];
            Unique(r) && jobs[i].id in Listed(jobs) && Listed(r) == Seating(Listed(jobs), v, jobs[i].id, core)
  {
    hide Queued, Listed, Seated;
    var js, qs := Listed(jobs), Queued(s.queue);
    var j := jobs[i].(arrived := true, core := core);
    EntryAt(jobs, i);
    assert Sound(cfg, now, -1, js, qs);
    if core == -1 {
      UpdateListed(jobs, i, j);
    } else if v != -1 {
      assert Sound(cfg, now, v, js, qs);
      OnlySitter(cfg, now, js, s, v);
      VacateListed(jobs, core, v);
      UpdateListed(Vacate(jobs, core), i, j);
    } else {
      NobodySits(cfg, now, js, s, core);
      VacateNothing(jobs, core);
      UpdateListed(jobs, i, j);
    }
  }

  lemma NobodySits(cfg: Config, now: int, js: EntryTable, s: Sched, core: int)
    requires Keyed(s.queue) && Synced(cfg, now, js, Queued(s.queue)) && Seated(s.active, Queued(s.queue), -1)
    requires 0 <= core < |s.active| && !s.active[core]
    ensures forall a :: a in js ==> js[a].core != core
  {
    hide Queued;
    forall a | a in js
      ensures js[a].core != core
    {
      assert Sound(cfg, now, a, js, Queued(s.queue));
    }
  }

  lemma JoinTables(cfg: Config, st: Sim, i: nat) returns (v: int)
    requires Legal(cfg) && Good(cfg, st, cfg.cores) && i < |st.jobs|
    requires Due(st.time, Listed(st.jobs), st.jobs[i].id)
    ensures var (id, now) := (st.jobs[i].id, st.time);
            var (t, core) := NewJob(st.sched, id, now, st.jobs[i].run, st.jobs[i].priority);
            && st.jobs[i].core == -1 && id !in Queued(st.sched.queue)
            && JoinedTables(st.sched, t, FreshJob(id, now, st.jobs[i].run, st.jobs[i].priority), now, core, v)
            && Ordered(t) && Patient(t) && (Preemptive(cfg.scheme) ==> Front(t))
  {
    hide NewJob, Listed, Front, Ordered, Patient, Queued;
    var s, now, id, run, priority := st.sched, st.time, st.jobs[i].id, st.jobs[i].run, st.jobs[i].priority;
    var js := Listed(st.jobs);
    EntryAt(st.jobs, i);
    assert Sound(cfg, now, id, js, Queued(s.queue));
    QueueCores(cfg, st);
    if Preemptive(cfg.scheme) {
      Counting.CanPreempt(s);
      NewJobFront(s, id, now, run, priority);
    }
    if cfg.scheme == PSJF && |s.queue| > 0 {
      HeadStarted(cfg, st);
    }
    NewJobTable(s, id, now, run, priority);
    NewJobOrdered(s, id, now, run, priority);
    PausesPast(cfg, st, cfg.cores);
    NewJobPatient(s, id, now, run, priority);
    var (t, core) := NewJob(s, id, now, run, priority);
    var job := FreshJob(id, now, run, priority);
    if Full(s.active) && core != -1 {
      v :| Displaces(s.(numJobs := s.numJobs + 1), t, Settled(s, now), job, now, v) && Settled(s, now)[v].core == core;
      assert v in Queued(s.queue);
      assert Sound(cfg, now, v, js, Queued(s.queue));
    } else {
      v := -1;
    }
  }

  lemma QueueCores(cfg: Config, st: Sim)
    requires Good(cfg, st, cfg.cores)
    ensures forall k :: 0 <= k < |st.sched.queue| ==> st.sched.queue[k].core >= -1
  {
    hide Queued, Listed;
    forall k | 0 <= k < |st.sched.queue|
      ensures st.sched.queue[k].core >= -1
    {
      AtIndex(st.sched.queue, k);
      assert Sound(cfg, st.time, st.sched.queue[k].id, Listed(st.jobs), Queued(st.sched.queue));
    }
  }

  lemma HeadStarted(cfg: Config, st: Sim)
    requires Good(cfg, st, cfg.cores) && Preemptive(cfg.scheme) && cfg.cores >= 1 && |st.sched.queue| > 0
    ensures st.sched.queue[0].start <= st.time
  {
    hide Queued, Listed;
    AtIndex(st.sched.queue, 0);
    assert Sound(cfg, st.time, st.sched.queue[0].id, Listed(st.jobs), Queued(st.sched.queue));
  }

  lemma ArriveGood(cfg: Config, st: Sim, i: nat)
    requires Legal(cfg) && Good(cfg, st, cfg.cores) && Positive(Listed(st.jobs)) && i < |st.jobs|
    requires Due(st.time, Listed(st.jobs), st.jobs[i].id)
    ensures var r := ArriveAt(cfg, st, i);
            && Good(cfg, r, cfg.cores) && Conserved(cfg, st, r)
            && exists v, core :: Listed(r.jobs) == Seating(Listed(st.jobs), v, st.jobs[i].id, core)
  {
    hide NewJob, Vacate, Listed, Front, Ordered, Patient, Queued, Synced, Seated, Answered, Left, Balance, Elapsed;
    var s, now, id, run, priority := st.sched, st.time, st.jobs[i].id, st.jobs[i].run, st.jobs[i].priority;
    var js := Listed(st.jobs);
    EntryAt(st.jobs, i);
    var v := JoinTables(cfg, st, i);
    var (t, core) := NewJob(s, id, now, run, priority);
    var job := FreshJob(id, now, run, priority);
    JoinedSync(cfg, now, js, s, t, id, core, v);
    JoinedSeat(cfg, now, js, s, t, job, core, v);
    JoinedTotals(cfg, now, js, s, t, id, core, v);
    JoinedAnswered(s, t, job, now, core, v);
    JoinedCores(cfg, st, job, t, core, v);
    SeatingListed(cfg, now, st.jobs, s, i, core, v);
    var j := st.jobs[i].(arrived := true, core := core);
    assert ArriveAt(cfg, st, i).jobs == if core != -1 then Vacate(st.jobs, core)[i := j] else st.jobs[i := j];
    if cfg.scheme == RR {
      JoinedClocked(cfg, st.clocks, s, t, job, now, core, v);
    }
  }

  /** The scheduler answers -1 or a core that exists: the simulator's check never fails. */
  lemma JoinedCores(cfg: Config, st: Sim, job: Job, t: Sched, core: int, v: int)
    requires Good(cfg, st, cfg.cores) && JoinedTables(st.sched, t, job, st.time, core, v)
    ensures core == -1 || 0 <= core < cfg.cores
    ensures if v != -1 then v in Queued(st.sched.queue) && Queued(st.sched.queue)[v].core == core >= 0 && v != job.id
            else core == -1 || (0 <= core < |st.sched.active| && !st.sched.active[core])
    ensures forall a :: a in Queued(st.sched.queue) && Queued(st.sched.queue)[a].core != -1 ==>
              0 <= Queued(st.sched.queue)[a].core < |st.sched.active| && st.sched.active[Queued(st.sched.queue)[a].core]
  {
    hide Queued, Listed;
  }

  // ----- the time unit runs -----

  lemma RunClocksNone(jobs: seq<SimJob>, clocks: seq<int>)
    ensures RunClocks(jobs[..0], clocks) == clocks
  {
  }

  lemma {:induction false} RunClocksLast(jobs: seq<SimJob>, clocks: seq<int>)
    requires jobs != []
    ensures var c, before := jobs[|jobs| - 1].core, RunClocks(jobs[..|jobs| - 1], clocks);
            RunClocks(jobs, clocks) == if 0 <= c < |clocks| then before[c := before[c] - 1] else before
  {
  }

  lemma {:induction false} RunClocksNext(jobs: seq<SimJob>, clocks: seq<int>, i: nat)
    requires i < |jobs|
    ensures var c, before := jobs[i].core, RunClocks(jobs[..i], clocks);
            RunClocks(jobs[..i + 1], clocks) == if 0 <= c < |clocks| then before[c := before[c] - 1] else before
  {
    hide RunClocks;
    var s := jobs[..i + 1];
    assert s[|s| - 1] == jobs[i] && s[..|s| - 1] == jobs[..i];
    RunClocksLast(s, clocks);
  }

  /** A core with exactly one entry on it loses one from its clock, a core without loses none. */
  lemma {:induction false} RunClocksAt(jobs: seq<SimJob>, clocks: seq<int>, k: int, core: nat)
    requires core < |clocks|
    requires forall i :: 0 <= i < |jobs| ==> (jobs[i].core == core <==> i == k)
    ensures RunClocks(jobs, clocks)[core] == clocks[core] - if 0 <= k < |jobs| then 1 else 0
  {
    if jobs != [] {
      RunClocksAt(jobs[..|jobs| - 1], clocks, k, core);
    }
  }

  lemma TickClocked(cfg: Config, st: Sim)
    requires Good(cfg, st, cfg.cores)
    ensures Clocked(cfg, RunClocks(st.jobs, st.clocks), Queued(st.sched.queue), st.time + 1, 0)
  {
    hide Queued, Listed;
    var clocks', qs, js, later := RunClocks(st.jobs, st.clocks), Queued(st.sched.queue), Listed(st.jobs), st.time + 1;
    if cfg.scheme == RR {
      forall id | id in qs
        ensures Paced(cfg, clocks', qs[id], later, 0)
      {
        assert Paced(cfg, st.clocks, qs[id], st.time, cfg.cores);
        assert Sound(cfg, st.time, id, js, qs);
        if 0 <= qs[id].core < |st.clocks| {
          OnlySitter(cfg, st.time, js, st.sched, id);
          var k := EntryIndex(st.jobs, id);
          forall i | 0 <= i < |st.jobs|
            ensures st.jobs[i].core == qs[id].core <==> i == k
          {
            EntryAt(st.jobs, i);
            if i != k {
              Differ(st.jobs, i, k);
            }
          }
          RunClocksAt(st.jobs, st.clocks, k, qs[id].core);
        }
      }
    }
  }

  lemma Differ(jobs: seq<SimJob>, i: nat, k: nat)
    requires Unique(jobs) && i < |jobs| && k < |jobs| && i != k
    ensures EntryKey()(jobs[i]) != EntryKey()(jobs[k])
  {
  }

  /** Running a time unit turns stored balances into nothing new and makes every queued job one older. */
  lemma TickTotals(cfg: Config, now: int, js: EntryTable, s: Sched)
    requires Keyed(s.queue) && Synced(cfg, now, js, Queued(s.queue))
    ensures Balance(cfg, s, Ran(js), Queued(s.queue)) == Balance(cfg, s, js, Queued(s.queue))
    ensures Elapsed(cfg, s, Queued(s.queue), now + 1) == Elapsed(cfg, s, Queued(s.queue), now) + |s.queue|
  {
    hide Queued, Listed, Sum;
    var qs := Queued(s.queue);
    forall id
      ensures id in js ==> js[id].id == id && (js[id].arrived || js[id].core == -1) && (js[id].arrived <==> id in qs)
      ensures id in qs ==> 0 <= id < |cfg.load|
    {
      assert Sound(cfg, now, id, js, qs);
    }
    assert Shares(cfg, Ran(js), qs) == Shares(cfg, js, qs);
    AgeTick(cfg, qs, now, |cfg.load|);
    assert Ages(cfg, qs, now)[..|cfg.load|] == Ages(cfg, qs, now);
    assert Ages(cfg, qs, now + 1)[..|cfg.load|] == Ages(cfg, qs, now + 1);
    assert Below(qs, |cfg.load|) == qs.Keys;
    Counting.QueuedSize(s.queue);
  }

  lemma TickGood(cfg: Config, st: Sim)
    requires Good(cfg, st, cfg.cores) && Positive(Listed(st.jobs))
    requires forall id :: !Due(st.time, Listed(st.jobs), id)
    ensures Good(cfg, Tick(st), 0)
    ensures Listed(Tick(st).jobs) == Ran(Listed(st.jobs))
    ensures Balance(cfg, st.sched, Listed(Tick(st).jobs), Queued(st.sched.queue))
            == Balance(cfg, st.sched, Listed(st.jobs), Queued(st.sched.queue))
    ensures Elapsed(cfg, st.sched, Queued(st.sched.queue), st.time + 1)
            == Elapsed(cfg, st.sched, Queued(st.sched.queue), st.time) + st.alive
  {
    hide Queued, Listed, Clocked, Ordered, Front, Answered, Seated, Balance, Elapsed, RunJobs, RunClocks;
    RanListed(st.jobs);
    TickSound(cfg, st.time, Listed(st.jobs), Queued(st.sched.queue));
    TickClocked(cfg, st);
    TickTotals(cfg, st.time, Listed(st.jobs), st.sched);
  }
}
