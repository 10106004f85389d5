/** The phases of one iteration of the simulator's main loop as functions on its state. */
module SimulatorSpec {
  import opened Jobs
  import QueueSpec
  import opened SchedulerSpec

  /** One loaded line of the input file. */
  datatype Entry = Entry(arrival: nat, run: nat, priority: int)

  datatype Config = Config(cores: nat, scheme: Scheme, quantum: int, load: seq<Entry>)

  /** What the command line checks and the simulator relies on. */
  ghost predicate Legal(cfg: Config) {
    && cfg.cores >= 1
    && (cfg.scheme == RR ==> cfg.quantum >= 1)
    && forall i :: 0 <= i < |cfg.load| ==> cfg.load[i].run >= 1
  }

  datatype SimJob = SimJob(id: int, arrival: int, run: int, priority: int, core: int, arrived: bool)

  /** `jobs` is the used part of the job array, of length `active_jobs`. */
  datatype Sim = Sim(time: int, jobs: seq<SimJob>, clocks: seq<int>, alive: int, sched: Sched)

  function Loaded(cfg: Config): seq<SimJob> {
    seq(|cfg.load|, i requires 0 <= i < |cfg.load| =>
      SimJob(i, cfg.load[i].arrival, cfg.load[i].run, cfg.load[i].priority, -1, false))
  }

  function Start(cfg: Config): Sim {
    Sim(0, Loaded(cfg), seq(cfg.cores, _ => -1), 0, StartUp(cfg.cores, cfg.scheme))
  }

  function ArrivedAs(id: int): SimJob -> bool { (j: SimJob) => j.id == id && j.arrived }

  function SitsOn(core: int): SimJob -> bool { (j: SimJob) => j.core == core }

  function SetActive(jobs: seq<SimJob>, id: int, core: int): (r: seq<SimJob>)
    ensures |r| == |jobs|
  {
    var k := QueueSpec.First(ArrivedAs(id), jobs);
    if k < |jobs| then jobs[k := jobs[k].(core := core)] else jobs
  }

  /** Overwrites entry `i` with the last one and drops the last. */
  function SwapDelete(jobs: seq<SimJob>, i: nat): seq<SimJob>
    requires i < |jobs|
  {
    jobs[i := jobs[|jobs| - 1]][..|jobs| - 1]
  }

  function SetClock(clocks: seq<int>, core: int, v: int): (r: seq<int>)
    ensures |r| == |clocks|
  {
    if 0 <= core < |clocks| then clocks[core := v] else clocks
  }

  /** Hands a core to the job the scheduler named, if it named one. */
  function Handover(jobs: seq<SimJob>, next: int, core: int): (r: seq<SimJob>)
    ensures |r| == |jobs|
  {
    if next != -1 then SetActive(jobs, next, core) else jobs
  }

  function FinishAt(cfg: Config, st: Sim, i: nat): (r: Sim)
    requires i < |st.jobs|
    ensures |r.jobs| == |st.jobs| - 1
  {
    var j := st.jobs[i];
    var (sched, next) := JobFinished(st.sched, j.core, j.id, st.time);
    var clocks := if cfg.scheme == RR then SetClock(st.clocks, j.core, cfg.quantum) else st.clocks;
    Sim(st.time, Handover(SwapDelete(st.jobs, i), next, j.core), clocks, st.alive - 1, sched)
  }

  function FinishPhase(cfg: Config, st: Sim, i: nat): Sim
    requires i <= |st.jobs|
    decreases |st.jobs| - i
  {
    if i == |st.jobs| then st
    else if st.jobs[i].run == 0 then FinishPhase(cfg, FinishAt(cfg, st, i), i)
    else FinishPhase(cfg, st, i + 1)
  }

  function ExpireAt(cfg: Config, st: Sim, core: nat): (r: Sim)
    ensures |r.clocks| == |st.clocks|
  {
    var k := QueueSpec.First(SitsOn(core), st.jobs);
    if k < |st.jobs| then
      var (sched, next) := QuantumExpired(st.sched, core, st.time);
      var jobs := st.jobs[k := st.jobs[k].(core := -1)];
      Sim(st.time, Handover(jobs, next, core), SetClock(st.clocks, core, cfg.quantum), st.alive, sched)
    else
      st
  }

  function QuantumPhase(cfg: Config, st: Sim, core: nat): Sim
    requires core <= |st.clocks|
    decreases |st.clocks| - core
  {
    if core == |st.clocks| then st
    else if st.clocks[core] == 0 then QuantumPhase(cfg, ExpireAt(cfg, st, core), core + 1)
    else QuantumPhase(cfg, st, core + 1)
  }

  /** Takes `core` away from whichever entries have it. */
  function Vacate(jobs: seq<SimJob>, core: int): (r: seq<SimJob>)
    ensures |r| == |jobs|
    ensures forall i :: 0 <= i < |jobs| ==> r[i] == if jobs[i].core == core then jobs[i].(core := -1) else jobs[i]
  {
    seq(|jobs|, i requires 0 <= i < |jobs| => if jobs[i].core == core then jobs[i].(core := -1) else jobs[i])
  }

  function ArriveAt(cfg: Config, st: Sim, i: nat): (r: Sim)
    requires i < |st.jobs|
    ensures |r.jobs| == |st.jobs|
  {
    var j := st.jobs[i];
    var (sched, core) := NewJob(st.sched, j.id, st.time, j.run, j.priority);
    var jobs := st.jobs[i := j.(arrived := true)];
    if 0 <= core < cfg.cores then
      var seated := Vacate(jobs, core)[i := j.(arrived := true, core := core)];
      var clocks := if cfg.scheme == RR then SetClock(st.clocks, core, cfg.quantum) else st.clocks;
      Sim(st.time, seated, clocks, st.alive + 1, sched)
    else
      Sim(st.time, jobs, st.clocks, st.alive + 1, sched)
  }

  function ArrivalPhase(cfg: Config, st: Sim, i: nat): Sim
    requires i <= |st.jobs|
    decreases |st.jobs| - i
  {
    if i == |st.jobs| then st
    else if st.jobs[i].arrival == st.time then ArrivalPhase(cfg, ArriveAt(cfg, st, i), i + 1)
    else ArrivalPhase(cfg, st, i + 1)
  }

  function RunJob(j: SimJob): SimJob {
    if j.core != -1 then j.(run := j.run - 1) else j
  }

  function RunJobs(jobs: seq<SimJob>): (r: seq<SimJob>)
    ensures |r| == |jobs|
    ensures forall i :: 0 <= i < |jobs| ==> r[i] == RunJob(jobs[i])
  {
    seq(|jobs|, i requires 0 <= i < |jobs| => RunJob(jobs[i]))
  }

  /** Every entry that sits on a core decrements that core's quantum clock. */
  function RunClocks(jobs: seq<SimJob>, clocks: seq<int>): (r: seq<int>)
    ensures |r| == |clocks|
  {
    if jobs == [] then clocks else
      var last := jobs[|jobs| - 1];
      var rest := RunClocks(jobs[..|jobs| - 1], clocks);
      if 0 <= last.core < |clocks| then rest[last.core := rest[last.core] - 1] else rest
  }

  /** Runs the time unit and increases the time. */
  function Tick(st: Sim): Sim {
    st.(time := st.time + 1, jobs := RunJobs(st.jobs), clocks := RunClocks(st.jobs, st.clocks))
  }

  /** The state in which the time unit is run: after the finish, quantum and arrival phases. */
  function Ready(cfg: Config, st: Sim): Sim {
    var finished := FinishPhase(cfg, st, 0);
    var rotated := if cfg.scheme == RR then QuantumPhase(cfg, finished, 0) else finished;
    ArrivalPhase(cfg, rotated, 0)
  }

  /** The state at the top of the main loop after `n` iterations. */
  function StateAt(cfg: Config, n: nat): Sim {
    if n == 0 then Start(cfg) else Tick(Ready(cfg, StateAt(cfg, n - 1)))
  }

  /** The loop is left in iteration `n`, by its guard or by the check after the finish phase. */
  predicate Done(cfg: Config, n: nat) {
    FinishPhase(cfg, StateAt(cfg, n), 0).jobs == []
  }
}
