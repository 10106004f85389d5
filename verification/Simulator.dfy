/** The simulator's main loop, phase by phase, over the job array and the scheduler object. */
module Simulator {
  import opened Jobs
  import opened QueueSpec
  import SchedulerSpec
  import opened SimulatorSpec
  import SchedulerTables
  import opened Invariant
  import opened Entries
  import Ledgers
  import opened Runs
  import RunsForward
  import opened Phases
  import opened Progress
  import opened Accounting
  import Answering
  import opened Safety
  import opened Priqueue
  import Lib = Scheduler

  /** `main`'s local variables once the input has been loaded. */
  class Simulator {
    const cfg: Config
    var time: int
    const jobs: array<SimJob>
    var activeJobs: nat
    var jobsAlive: int
    const clocks: array<int>
    const scheduler: Lib.Scheduler

    ghost predicate Valid()
      reads this, scheduler, scheduler.queue, scheduler.queue.nodes
    {
      activeJobs <= jobs.Length && scheduler.Valid()
    }

    ghost function View(): Sim
      reads this, jobs, clocks, scheduler, scheduler.coreList, scheduler.queue, scheduler.queue.items
      requires activeJobs <= jobs.Length
    {
      Sim(time, jobs[..activeJobs], clocks[..], jobsAlive, scheduler.View())
    }

    /** Loads the jobs and starts the scheduler. */
    constructor (cfg: Config)
      ensures Valid() && this.cfg == cfg && View() == Start(cfg)
      ensures fresh(jobs) && fresh(clocks) && fresh(scheduler) && fresh(scheduler.coreList) && fresh(scheduler.queue)
      ensures scheduler.queue.nodes == [] && scheduler.queue.items == []
    {
      this.cfg := cfg;
      time, jobsAlive := 0, 0;
      activeJobs := |cfg.load|;
      var js := new SimJob[|cfg.load|](i requires 0 <= i < |cfg.load| =>
        SimJob(i, cfg.load[i].arrival, cfg.load[i].run, cfg.load[i].priority, -1, false));
      jobs := js;
      var cs := new int[cfg.cores](_ => -1);
      clocks := cs;
      scheduler := new Lib.Scheduler(cfg.cores, cfg.scheme);
      new;
      assert jobs[..activeJobs] == Loaded(cfg);
      assert clocks[..] == seq(cfg.cores, _ => -1);
    }

    /** `set_active_job`. */
    method SetActiveJob(jobId: int, coreId: int) returns (found: bool)
      requires activeJobs <= jobs.Length
      modifies jobs
      ensures jobs[..activeJobs] == SetActive(old(jobs[..activeJobs]), jobId, coreId)
      ensures found <==> First(ArrivedAs(jobId), old(jobs[..activeJobs])) < activeJobs
    {
      ghost var js := jobs[..activeJobs];
      found := false;
      var i := 0;
      while i < activeJobs && !found
        invariant 0 <= i <= activeJobs
        invariant !found ==> jobs[..activeJobs] == js && forall j :: 0 <= j < i ==> !ArrivedAs(jobId)(js[j])
        invariant found ==> First(ArrivedAs(jobId), js) < activeJobs
        invariant found ==> jobs[..activeJobs] == SetActive(js, jobId, coreId)
      {
        if jobs[i].id == jobId && jobs[i].arrived {
          assert ArrivedAs(jobId)(js[i]);
          FirstUnique(ArrivedAs(jobId), js, i);
          jobs[i] := jobs[i].(core := coreId);
          found := true;
        }
        i := i + 1;
      }
      if !found {
        FirstUnique(ArrivedAs(jobId), js, |js|);
      }
    }

    /** The finish phase's work on entry `i`, whose time is used up.  `rc` is the exit code the
        program would leave with. */
    method FinishOne(i: nat) returns (rc: int)
      requires Legal(cfg) && Valid() && Good(cfg, View(), 0) && i < activeJobs && jobs[i].run == 0
      modifies this, jobs, clocks, scheduler, scheduler.coreList, scheduler.queue, scheduler.queue.nodes,
               scheduler.queue.items
      ensures Valid() && Lib.SameObjects(scheduler)
      ensures View() == FinishAt(cfg, old(View()), i) && rc == 0
    {
      hide Good, First, SchedulerSpec.JobFinished, SetActive, SwapDelete;
      hide Lib.Scheduler.View, Lib.Scheduler.Valid, Lib.SameObjects;
      ghost var v := View();
      FinishSafe(cfg, v, i);
      var jobId, coreId := jobs[i].id, jobs[i].core;
      var newJobId := scheduler.JobFinished(coreId, jobId, time);
      if cfg.scheme == RR {
        clocks[jobs[i].core] := cfg.quantum;
      }
      DeleteEntry(i);
      rc := 0;
      if newJobId != -1 {
        var found := SetActiveJob(newJobId, coreId);
        if !found {
          rc := 3;
        }
      }
    }

    /** Moves the last entry over entry `i` and counts the job out. */
    method DeleteEntry(i: nat)
      requires i < activeJobs <= jobs.Length
      modifies this`activeJobs, this`jobsAlive, jobs
      ensures activeJobs == old(activeJobs) - 1 && jobsAlive == old(jobsAlive) - 1
      ensures jobs[..activeJobs] == SwapDelete(old(jobs[..activeJobs]), i)
    {
      if i != activeJobs - 1 {
        jobs[i] := jobs[activeJobs - 1];
      }
      activeJobs := activeJobs - 1;
      jobsAlive := jobsAlive - 1;
    }

    /** Phase 1: every entry whose time is used up is reported and deleted. */
    method FinishJobs() returns (rc: int)
      requires Legal(cfg) && Valid() && Good(cfg, View(), 0)
      modifies this, jobs, clocks, scheduler, scheduler.coreList, scheduler.queue, scheduler.queue.nodes,
               scheduler.queue.items
      ensures Valid() && Lib.SameObjects(scheduler)
      ensures View() == FinishPhase(cfg, old(View()), 0) && rc == 0
    {
      hide Good, FinishAt, Lib.Scheduler.View, Different, Linked, Conserved, OnlyCores, Listed;
      ghost var v := View();
      rc := 0;
      var i := 0;
      while i < activeJobs && rc == 0
        invariant Valid() && Lib.SameObjects(scheduler) && i <= activeJobs && rc == 0
        invariant Good(cfg, View(), 0) && FinishPhase(cfg, View(), i) == FinishPhase(cfg, v, 0)
        decreases activeJobs - i
      {
        if jobs[i].run == 0 {
          FinishGood(cfg, View(), i);
          rc := FinishOne(i);
        } else {
          i := i + 1;
        }
      }
    }

    /** The quantum phase's work on a core whose clock has run out and on which entry `j` sits. */
    method ExpireOne(core: nat, j: nat) returns (rc: int)
      requires Legal(cfg) && cfg.scheme == RR && Valid() && Good(cfg, View(), core) && Positive(Listed(View().jobs))
      requires core < cfg.cores && j < activeJobs && j == First(SitsOn(core), View().jobs)
      modifies this, jobs, clocks, scheduler, scheduler.coreList, scheduler.queue, scheduler.queue.nodes,
               scheduler.queue.items
      ensures Valid() && Lib.SameObjects(scheduler)
      ensures View() == ExpireAt(cfg, old(View()), core) && rc == 0
    {
      hide Good, First, SchedulerSpec.QuantumExpired, SetActive, Positive, Listed;
      hide Lib.Scheduler.View, Lib.Scheduler.Valid, Lib.SameObjects;
      ghost var v := View();
      GoodSizes(cfg, v, core);
      ExpireSafe(cfg, v, core);
      var newJobId := scheduler.QuantumExpired(core, time);
      jobs[j] := jobs[j].(core := -1);
      clocks[core] := cfg.quantum;
      rc := 0;
      assert jobs[..activeJobs] == v.jobs[j := v.jobs[j].(core := -1)];
      if newJobId != -1 {
        var found := SetActiveJob(newJobId, core);
        if !found {
          rc := 3;
        }
      }
    }

    /** The first entry that sits on `core`, or `activeJobs`. */
    method FindSitting(core: int) returns (j: nat)
      requires activeJobs <= jobs.Length
      ensures j == First(SitsOn(core), jobs[..activeJobs])
    {
      j := 0;
      while j < activeJobs && jobs[j].core != core
        invariant j <= activeJobs && forall k :: 0 <= k < j ==> jobs[k].core != core
      {
        j := j + 1;
      }
      FirstUnique(SitsOn(core), jobs[..activeJobs], j);
    }

    /** Phase 2, round robin only: jobs whose quantum has expired. */
    method ExpireQuanta() returns (rc: int)
      requires Legal(cfg) && cfg.scheme == RR && Valid() && Good(cfg, View(), 0) && Past(View())
      requires Working(View().jobs, |View().jobs|)
      modifies this, jobs, clocks, scheduler, scheduler.coreList, scheduler.queue, scheduler.queue.nodes,
               scheduler.queue.items
      ensures Valid() && Lib.SameObjects(scheduler)
      ensures View() == QuantumPhase(cfg, old(View()), 0) && rc == 0
    {
      hide Good, ExpireAt, Lib.Scheduler.View, Different, Linked, Conserved, OnlyCores, Listed, Positive, First;
      ghost var v := View();
      GoodSizes(cfg, v, 0);
      rc := 0;
      var i := 0;
      while i < cfg.cores && rc == 0
        invariant Valid() && Lib.SameObjects(scheduler) && i <= cfg.cores == clocks.Length && rc == 0
        invariant Good(cfg, View(), i) && Working(View().jobs, |View().jobs|)
        invariant QuantumPhase(cfg, View(), i) == QuantumPhase(cfg, v, 0)
      {
        ghost var w := View();
        if clocks[i] == 0 {
          var j := FindSitting(i);
          if j < activeJobs {
            WorkingPositive(cfg, w, i);
            ExpireGood(cfg, w, i);
            ExpireAtEntries(cfg, w, i);
            rc := ExpireOne(i, j);
          } else {
            ExpireNobody(cfg, w, i);
            PassOver(cfg, w, i);
          }
        } else {
          PassOver(cfg, w, i);
        }
        i := i + 1;
      }
    }

    /** Takes `core` away from whichever entries have it. */
    method VacateCore(core: int)
      requires activeJobs <= jobs.Length
      modifies jobs
      ensures jobs[..activeJobs] == Vacate(old(jobs[..activeJobs]), core)
    {
      ghost var js := jobs[..];
      for j := 0 to activeJobs
        invariant forall k :: j <= k < jobs.Length ==> jobs[k] == js[k]
        invariant forall k :: 0 <= k < j ==> jobs[k] == if js[k].core == core then js[k].(core := -1) else js[k]
      {
        if jobs[j].core == core {
          jobs[j] := jobs[j].(core := -1);
        }
      }
    }

    /** The arrival phase's work on entry `i`, which arrives now. */
    method ArriveOne(i: nat) returns (rc: int)
      requires Legal(cfg) && Valid() && Good(cfg, View(), cfg.cores) && Positive(Listed(View().jobs)) && i < activeJobs
      requires Due(time, Listed(View().jobs), View().jobs[i].id)
      modifies this, jobs, clocks, scheduler, scheduler.coreList, scheduler.queue, scheduler.queue.nodes,
               scheduler.queue.items
      ensures Valid() && Lib.SameObjects(scheduler)
      ensures View() == ArriveAt(cfg, old(View()), i) && rc == 0
    {
      hide Good, First, SchedulerSpec.NewJob, Vacate, Positive, Due, Listed;
      hide Lib.Scheduler.View, Lib.Scheduler.Valid, Lib.SameObjects;
      ghost var v := View();
      GoodSizes(cfg, v, cfg.cores);
      ArriveSafe(cfg, v, i);
      ActiveView();
      var newJobCoreId := scheduler.NewJob(jobs[i].id, time, jobs[i].run, jobs[i].priority);
      jobs[i] := jobs[i].(arrived := true);
      jobsAlive := jobsAlive + 1;
      rc := 0;
      assert jobs[..activeJobs] == v.jobs[i := v.jobs[i].(arrived := true)];
      if 0 <= newJobCoreId < cfg.cores {
        VacateAfter(v.jobs, i, jobs[i], newJobCoreId, jobs[i].(core := newJobCoreId));
        Occupy(i, newJobCoreId);
      } else if newJobCoreId != -1 {
        rc := 3;
      }
    }

    /** Gives `core` to entry `i` alone and winds its quantum clock. */
    method Occupy(i: nat, core: nat)
      requires i < activeJobs <= jobs.Length && core < clocks.Length
      modifies jobs, clocks
      ensures jobs[..activeJobs] == Vacate(old(jobs[..activeJobs]), core)[i := old(jobs[i]).(core := core)]
      ensures clocks[..] == if cfg.scheme == RR then SetClock(old(clocks[..]), core, cfg.quantum) else old(clocks[..])
    {
      VacateCore(core);
      jobs[i] := jobs[i].(core := core);
      if cfg.scheme == RR {
        clocks[core] := cfg.quantum;
      }
    }

    /** Replacing an entry before vacating changes nothing about the others. */
    lemma VacateAfter(js: seq<SimJob>, i: nat, j: SimJob, core: int, x: SimJob)
      requires i < |js|
      ensures Vacate(js[i := j], core)[i := x] == Vacate(js, core)[i := x]
    {
    }

    lemma ActiveView()
      ensures scheduler.View().active == scheduler.coreList[..]
    {
    }

    /** Phase 3: jobs that arrive in this time unit. */
    method AdmitArrivals() returns (rc: int)
      requires Legal(cfg) && Valid() && Good(cfg, View(), cfg.cores)
      requires Working(View().jobs, |View().jobs|) && ArrivedUpTo(View(), 0)
      modifies this, jobs, clocks, scheduler, scheduler.coreList, scheduler.queue, scheduler.queue.nodes,
               scheduler.queue.items
      ensures Valid() && Lib.SameObjects(scheduler)
      ensures View() == ArrivalPhase(cfg, old(View()), 0) && rc == 0
    {
      hide Good, ArriveAt, Lib.Scheduler.View, Different, Linked, Conserved, Listed, Positive, Due;
      ghost var v := View();
      rc := 0;
      var i := 0;
      while i < activeJobs && rc == 0
        invariant Valid() && Lib.SameObjects(scheduler) && i <= activeJobs && rc == 0
        invariant Good(cfg, View(), cfg.cores) && Working(View().jobs, |View().jobs|) && ArrivedUpTo(View(), i)
        invariant ArrivalPhase(cfg, View(), i) == ArrivalPhase(cfg, v, 0)
        decreases activeJobs - i
      {
        ghost var w := View();
        if jobs[i].arrival == time {
          WorkingPositive(cfg, w, cfg.cores);
          IsDue(cfg, w, cfg.cores, i);
          RunsForward.ArriveGood(cfg, w, i);
          ArriveAtEntries(cfg, w, i);
          rc := ArriveOne(i);
        }
        i := i + 1;
      }
    }

    /** Phases 4 to 6: runs the time unit on every busy core and checks that some core works if a
        job is alive. */
    method RunUnit() returns (rc: int)
      requires Legal(cfg) && Valid() && Good(cfg, View(), cfg.cores)
      modifies this`time, jobs, clocks
      ensures View() == Tick(old(View())) && rc == 0
    {
      hide Good, Lib.Scheduler.View, Different, Linked, Values, Listed;
      ghost var v := View();
      GoodSizes(cfg, v, cfg.cores);
      var coresWorking := RunEntries();
      if v.alive > 0 {
        var k := SomeEntryRuns(cfg, v, cfg.cores);
        assert v.jobs[k].core != -1;
      }
      rc := 0;
      if jobsAlive > 0 && coresWorking == 0 {
        rc := 3;
      }
      time := time + 1;
    }

    /** Every entry on a core loses one unit of run time and its core's clock one tick; `written`
        stands for the cores' time strings, each of which must still be empty when it is written. */
    method RunEntries() returns (coresWorking: nat)
      requires Legal(cfg) && Valid() && Good(cfg, View(), cfg.cores) && clocks.Length == cfg.cores
      modifies jobs, clocks
      ensures jobs[..activeJobs] == RunJobs(old(jobs[..activeJobs]))
        && clocks[..] == RunClocks(old(jobs[..activeJobs]), old(clocks[..]))
      ensures coresWorking == 0 ==> forall k :: 0 <= k < activeJobs ==> old(jobs[k]).core == -1
    {
      hide Good, Lib.Scheduler.View, Lib.Scheduler.Valid, Listed, RunClocks;
      ghost var js, cs := jobs[..activeJobs], clocks[..];
      CoresDistinct(cfg, View(), cfg.cores);
      assert View().jobs == js;
      hide View;
      var written := new bool[cfg.cores](_ => false);
      coresWorking := 0;
      var i := 0;
      RunsForward.RunClocksNone(js, cs);
      while i < activeJobs
        invariant i <= activeJobs && clocks[..] == RunClocks(js[..i], cs)
        invariant forall k :: 0 <= k < activeJobs ==> jobs[k] == if k < i then RunJob(js[k]) else js[k]
        invariant forall c :: 0 <= c < cfg.cores && written[c] ==> exists k :: 0 <= k < i && js[k].core == c
        invariant coresWorking == 0 ==> forall k :: 0 <= k < i ==> js[k].core == -1
      {
        RunsForward.RunClocksNext(js, cs, i);
        if jobs[i].core != -1 {
          coresWorking := coresWorking + 1;
          jobs[i] := jobs[i].(run := jobs[i].run - 1);
          clocks[jobs[i].core] := clocks[jobs[i].core] - 1;
          assert !written[jobs[i].core];
          written[jobs[i].core] := true;
        }
        i := i + 1;
      }
      assert js[..i] == js;
    }

    /** The main loop: from the start to the end of the simulation, without an error exit. */
    method Run() returns (rc: int)
      requires Legal(cfg) && Valid() && View() == Start(cfg)
      modifies this, jobs, clocks, scheduler, scheduler.coreList, scheduler.queue, scheduler.queue.nodes,
               scheduler.queue.items
      ensures Valid() && rc == 0
      ensures 0 <= time <= Ledgers.Sum(RunTimes(cfg)) + Last(cfg.load)
      ensures Done(cfg, time) && forall k :: 0 <= k < time ==> !Done(cfg, k)
      ensures View() == Outcome(cfg, time)
    {
      hide Good, Past, Working, Conserved, Positive, Done, StateAt, Outcome, FinishPhase, QuantumPhase, ArrivalPhase,
           Tick, Measure, Balance, Elapsed, Listed, SchedulerTables.Queued, Lib.Scheduler.View, Different, Linked,
           Values, RunTimes, Last;
      rc := 0;
      ghost var left := StartMeasure(cfg);
      ghost var ended := false;
      while activeJobs > 0 && rc == 0
        invariant Valid() && Lib.SameObjects(scheduler) && rc == 0 && time >= 0
        invariant View() == StateAt(cfg, time)
        invariant left == MeasureAt(cfg, time) >= 0 && time + left <= Ledgers.Sum(RunTimes(cfg)) + Last(cfg.load)
        invariant forall k :: 0 <= k < time ==> !Done(cfg, k)
        decreases left
      {
        StateGood(cfg, time);
        var done;
        rc, done := Iterate();
        if rc != 0 {
          break;
        }
        if done {
          ended := true;
          break;
        }
        left := NextMeasure(cfg, time - 1, left);
      }
      if !ended {
        EndedByGuard(cfg, time);
      }
    }

    /** One pass through the loop body.  `done` says that the check after phase 1 left the loop. */
    method Iterate() returns (rc: int, done: bool)
      requires Legal(cfg) && Valid() && time >= 0 && View() == StateAt(cfg, time) && Good(cfg, View(), 0)
        && Past(View())
      modifies this, jobs, clocks, scheduler, scheduler.coreList, scheduler.queue, scheduler.queue.nodes,
               scheduler.queue.items
      ensures Valid() && Lib.SameObjects(scheduler) && rc == 0
      ensures done == Done(cfg, old(time))
      ensures if done then time == old(time) && View() == Outcome(cfg, time)
              else time == old(time) + 1 && View() == StateAt(cfg, time)
    {
      hide Good, Past, Working, Conserved, FinishPhase, QuantumPhase, ArrivalPhase, Tick, Listed,
           SchedulerTables.Queued, Balance, Elapsed, Lib.Scheduler.View, Different, Linked, Values;
      ghost var v := View();
      done := false;
      NothingChecked(v);
      FinishPhaseGood(cfg, v, 0);
      rc := FinishJobs();
      ConservedTime(cfg, v, View());
      if activeJobs == 0 {
        done := true;
      } else {
        rc := Prepare();
        assert View() == Ready(cfg, v);
        rc := RunUnit();
        StateGood(cfg, old(time) + 1);
      }
    }

    lemma NothingChecked(v: Sim)
      ensures Working(v.jobs, 0)
    {
    }

    /** Phases 2 and 3. */
    method Prepare() returns (rc: int)
      requires Legal(cfg) && Valid() && Good(cfg, View(), 0) && Past(View()) && Working(View().jobs, |View().jobs|)
      modifies this, jobs, clocks, scheduler, scheduler.coreList, scheduler.queue, scheduler.queue.nodes,
               scheduler.queue.items
      ensures Valid() && Lib.SameObjects(scheduler) && rc == 0
      ensures View() == ArrivalPhase(cfg, if cfg.scheme == RR then QuantumPhase(cfg, old(View()), 0)
        else old(View()), 0)
      ensures Good(cfg, View(), cfg.cores)
    {
      hide Good, Past, Working, Conserved, QuantumPhase, ArrivalPhase, Listed, SchedulerTables.Queued,
           Lib.Scheduler.View, Different, Linked, Values;
      if cfg.scheme == RR {
        QuantumPhaseGood(cfg, View(), 0);
        rc := ExpireQuanta();
      } else {
        Raise(cfg, View(), 0);
      }
      PastIsAll(cfg, View(), cfg.cores);
      ArrivalPhaseGood(cfg, View(), 0);
      rc := AdmitArrivals();
    }
  }

  ghost function MeasureAt(cfg: Config, n: int): int
    requires Legal(cfg) && n >= 0
  {
    StateGood(cfg, n);
    Measure(cfg, StateAt(cfg, n))
  }

  lemma StartMeasure(cfg: Config) returns (m: int)
    requires Legal(cfg)
    ensures m == MeasureAt(cfg, 0) >= 0 && m <= Ledgers.Sum(RunTimes(cfg)) + Last(cfg.load)
    ensures StateAt(cfg, 0) == Start(cfg)
  {
    m := MeasureAt(cfg, 0);
    StateGood(cfg, 0);
    MeasureBounds(cfg, StateAt(cfg, 0), 0);
    StartGood(cfg);
    StartTime(cfg);
  }

  lemma NextMeasure(cfg: Config, n: nat, m: int) returns (m': int)
    requires Legal(cfg) && m == MeasureAt(cfg, n) && !Done(cfg, n)
    ensures m' == MeasureAt(cfg, n + 1) && 0 <= m' < m
  {
    StepProgress(cfg, n);
    m' := MeasureAt(cfg, n + 1);
  }

  /** The loop's guard fails only when there is nothing left for the finish phase either. */
  lemma EndedByGuard(cfg: Config, n: nat)
    ensures StateAt(cfg, n).jobs == [] ==> Done(cfg, n) && Outcome(cfg, n) == StateAt(cfg, n)
  {
  }

  /** The whole program after parsing: it ends without an error, at the first possible time, and
      the totals from which the averages are printed satisfy the accounting laws. */
  method Simulate(cfg: Config) returns (rc: int, end: int, numJobs: int, waiting: int, turnaround: int, response: int)
    requires Legal(cfg)
    ensures rc == 0
    ensures 0 <= end <= Ledgers.Sum(RunTimes(cfg)) + Last(cfg.load)
    ensures Done(cfg, end) && forall k :: 0 <= k < end ==> !Done(cfg, k)
    ensures var s := Outcome(cfg, end).sched;
            numJobs == s.numJobs && waiting == s.waiting && turnaround == s.turnaround && response == s.response
    ensures numJobs == |cfg.load| && turnaround == waiting + Ledgers.Sum(RunTimes(cfg)) == JobTime(cfg, end)
    ensures response <= waiting && (RunsToCompletion(cfg.scheme) ==> response == waiting)
    ensures response == Answering.SilentTime(cfg, end)
  {
    hide Legal, Done, Outcome, Start, Last, RunTimes, JobTime, Answering.SilentTime, Linked, Values, Different;
    var sim := new Simulator(cfg);
    rc := sim.Run();
    end := sim.time;
    numJobs, waiting := sim.scheduler.numJobs, sim.scheduler.waitingTime;
    turnaround, response := sim.scheduler.turnaroundTime, sim.scheduler.responseTime;
    assert sim.View() == Outcome(cfg, end);
    CompleteRun(cfg, end);
    Answering.ExactResponse(cfg, end);
  }
}
