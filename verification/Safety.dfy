/** Why the simulator never takes an error exit: what it passes to the scheduler and what it gets
    back always fits. */
module Safety {
  import opened Jobs
  import opened QueueSpec
  import opened SchedulerSpec
  import opened SimulatorSpec
  import opened SchedulerTables
  import Arrivals
  import opened Invariant
  import opened Entries
  import Counting
  import Order
  import opened Runs
  import RunsForward
  import Progress

  /** A finished entry sits on a core, the scheduler has its job, and the job the scheduler names
      next is found among the remaining entries. */
  lemma FinishSafe(cfg: Config, st: Sim, i: nat)
    requires Legal(cfg) && Good(cfg, st, 0) && i < |st.jobs| && st.jobs[i].run == 0
    ensures |st.clocks| == |st.sched.active| == cfg.cores
    ensures var j := st.jobs[i];
            && 0 <= j.core < cfg.cores
            && First(HasId(j.id), st.sched.queue) < |st.sched.queue|
            && var next := JobFinished(st.sched, j.core, j.id, st.time).1;
               next != -1 ==> First(ArrivedAs(next), SwapDelete(st.jobs, i)) < |st.jobs| - 1
  {
    hide JobFinished, SwapDelete, Queued, Listed, Synced, Seated, Order.Ordered, Order.Patient, Front, Answered,
         Clocked;
    var s, now, id, core := st.sched, st.time, st.jobs[i].id, st.jobs[i].core;
    var js, qs := Listed(st.jobs), Queued(s.queue);
    EntryAt(st.jobs, i);
    FinishSound(cfg, now, js, qs, id);
    FreeSeat(s.active, qs, id);
    FoundQueued(s, id);
    SwapDeleteListed(st.jobs, i);
    SwapDeleteSize(st.jobs, i);
    var m := FinishedTable(s, core, id, now);
    var (t, next) := JobFinished(s, core, id, now);
    HandoverTables(cfg, now, SwapDelete(st.jobs, i), m, t, core, 0, next);
  }

  lemma SwapDeleteSize(jobs: seq<SimJob>, i: nat)
    requires i < |jobs|
    ensures |SwapDelete(jobs, i)| == |jobs| - 1
  {
  }

  lemma FoundQueued(s: Sched, id: int)
    requires Keyed(s.queue) && id in Queued(s.queue)
    ensures First(HasId(id), s.queue) < |s.queue|
  {
  }

  /** After a quantum has expired, the job named next is found too. */
  lemma ExpireSafe(cfg: Config, st: Sim, core: nat)
    requires Legal(cfg) && cfg.scheme == RR && Good(cfg, st, core) && Positive(Listed(st.jobs))
    requires core < cfg.cores && First(SitsOn(core), st.jobs) < |st.jobs|
    ensures var k := First(SitsOn(core), st.jobs);
            var next := QuantumExpired(st.sched, core, st.time).1;
            next != -1 ==> First(ArrivedAs(next), st.jobs[k := st.jobs[k].(core := -1)]) < |st.jobs|
  {
    hide QuantumExpired, Queued, Listed, Synced, Seated, Front, Order.Patient, Answered, Clocked;
    var s, now := st.sched, st.time;
    var k := First(SitsOn(core), st.jobs);
    var js, qs, id := Listed(st.jobs), Queued(s.queue), st.jobs[k].id;
    EntryAt(st.jobs, k);
    OnlySitter(cfg, now, js, s, id);
    ExpireSound(cfg, now, js, qs, id);
    ExpireSeat(s.active, qs, id, Expired(qs[id], now));
    var jobs := st.jobs[k := st.jobs[k].(core := -1)];
    UpdateListed(st.jobs, k, st.jobs[k].(core := -1));
    var m := ExpiredTable(s, core, id, now);
    var (t, next) := QuantumExpired(s, core, now);
    HandoverTables(cfg, now, jobs, m, t, core, -1, next);
  }

  /** A new job gets a core that exists or none, and a preemptive scheme has enough jobs to look at. */
  lemma ArriveSafe(cfg: Config, st: Sim, i: nat)
    requires Legal(cfg) && Good(cfg, st, cfg.cores) && Positive(Listed(st.jobs)) && i < |st.jobs|
    requires Due(st.time, Listed(st.jobs), st.jobs[i].id)
    ensures var j := st.jobs[i];
            var core := NewJob(st.sched, j.id, st.time, j.run, j.priority).1;
            core == -1 || 0 <= core < cfg.cores
    ensures (forall c :: 0 <= c < |st.sched.active| ==> st.sched.active[c]) ==> cfg.cores <= |st.sched.queue|
  {
    hide NewJob, Queued, Listed, Synced, Seated, Order.Patient, Answered, Clocked;
    var j := st.jobs[i];
    var v := RunsForward.JoinTables(cfg, st, i);
    var (t, core) := NewJob(st.sched, j.id, st.time, j.run, j.priority);
    RunsForward.JoinedCores(cfg, st, FreshJob(j.id, st.time, j.run, j.priority), t, core, v);
    if Arrivals.Full(st.sched.active) {
      Counting.FullManyJobs(st.sched);
    }
  }

  /** No two entries sit on the same core: the time string of a core is written once per time unit. */
  lemma TickSafe(cfg: Config, st: Sim, low: int, i: nat, j: nat)
    requires Good(cfg, st, low) && i < |st.jobs| && j < |st.jobs| && st.jobs[i].core != -1
    ensures 0 <= st.jobs[i].core < cfg.cores
    ensures i != j ==> st.jobs[j].core != st.jobs[i].core
  {
    hide Queued, Listed;
    EntryAt(st.jobs, i);
    EntryAt(st.jobs, j);
    OnlySitter(cfg, st.time, Listed(st.jobs), st.sched, st.jobs[i].id);
    if i != j {
      RunsForward.Differ(st.jobs, i, j);
    }
  }

  lemma GoodSizes(cfg: Config, st: Sim, low: int)
    requires Good(cfg, st, low)
    ensures |st.clocks| == |st.sched.active| == cfg.cores
  {
  }

  lemma CoresDistinct(cfg: Config, st: Sim, low: int)
    requires Good(cfg, st, low)
    ensures forall i :: 0 <= i < |st.jobs| && st.jobs[i].core != -1 ==> 0 <= st.jobs[i].core < cfg.cores
    ensures forall i, j :: 0 <= i < |st.jobs| && 0 <= j < |st.jobs| && i != j && st.jobs[i].core != -1 ==>
      st.jobs[j].core != st.jobs[i].core
  {
    hide Good;
    forall i, j | 0 <= i < |st.jobs| && 0 <= j < |st.jobs| && st.jobs[i].core != -1
      ensures 0 <= st.jobs[i].core < cfg.cores && (i != j ==> st.jobs[j].core != st.jobs[i].core)
    {
      TickSafe(cfg, st, low, i, j);
    }
  }

  /** The sanity check at the end of a time unit never fails: with a job alive some entry is on a core. */
  lemma SomeEntryRuns(cfg: Config, st: Sim, low: int) returns (k: nat)
    requires Legal(cfg) && Good(cfg, st, low) && st.alive > 0
    ensures k < |st.jobs| && st.jobs[k].core != -1
  {
    hide Queued, Listed;
    var id := Progress.SomeoneRuns(cfg, st, low);
    k := EntryIndex(st.jobs, id);
  }
}
