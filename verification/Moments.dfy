/** The main loop one scheduler event at a time, and what holds between any two events of any run. */
module Moments {
  import opened Jobs
  import QueueSpec
  import opened SimulatorSpec
  import opened SchedulerTables
  import opened Invariant
  import opened Entries
  import opened Runs
  import RunsForward
  import opened Phases
  import Accounting
  import Progress
  import Safety
  import OneCore

  /** Which loop of the iteration is being worked through, and the entry or core it has reached. */
  datatype Moment = Finishing(st: Sim, i: nat) | Rotating(st: Sim, i: nat) | Admitting(st: Sim, i: nat)

  function After(cfg: Config, m: Moment): Moment {
    match m
    case Finishing(st, i) =>
      if i >= |st.jobs| then (if cfg.scheme == RR then Rotating(st, 0) else Admitting(st, 0))
      else if st.jobs[i].run == 0 then Finishing(FinishAt(cfg, st, i), i) else Finishing(st, i + 1)
    case Rotating(st, i) =>
      if i >= |st.clocks| then Admitting(st, 0)
      else Rotating(if st.clocks[i] == 0 then ExpireAt(cfg, st, i) else st, i + 1)
    case Admitting(st, i) =>
      if i >= |st.jobs| then Finishing(Tick(st), 0)
      else Admitting(if st.jobs[i].arrival == st.time then ArriveAt(cfg, st, i) else st, i + 1)
  }

  function Later(cfg: Config, m: Moment, k: nat): Moment {
    if k == 0 then m else After(cfg, Later(cfg, m, k - 1))
  }

  /** The run of `cfg` after `k` steps. */
  function MomentAt(cfg: Config, k: nat): Moment {
    Later(cfg, Finishing(Start(cfg), 0), k)
  }

  ghost predicate Steady(cfg: Config, m: Moment) {
    match m
    case Finishing(st, i) => Good(cfg, st, 0) && Past(st) && i <= |st.jobs| && Working(st.jobs, i)
    case Rotating(st, i) =>
      cfg.scheme == RR && Good(cfg, st, i) && Past(st) && Working(st.jobs, |st.jobs|) && i <= |st.clocks|
    case Admitting(st, i) =>
      Good(cfg, st, cfg.cores) && Working(st.jobs, |st.jobs|) && i <= |st.jobs| && ArrivedUpTo(st, i)
  }

  lemma FinishOnce(cfg: Config, st: Sim, i: nat)
    requires Legal(cfg) && Steady(cfg, Finishing(st, i)) && i < |st.jobs| && st.jobs[i].run == 0
    ensures Steady(cfg, Finishing(FinishAt(cfg, st, i), i))
  {
    hide Good, Conserved, FinishAt, Queued, Listed;
    FinishGood(cfg, st, i);
    FinishAtEntries(cfg, st, i);
  }

  lemma FinishOver(cfg: Config, st: Sim)
    requires Legal(cfg) && Steady(cfg, Finishing(st, |st.jobs|))
    ensures Steady(cfg, if cfg.scheme == RR then Rotating(st, 0) else Admitting(st, 0))
  {
    hide Good;
    if cfg.scheme != RR {
      Raise(cfg, st, 0);
      PastIsAll(cfg, st, cfg.cores);
    }
  }

  lemma FinishingSteady(cfg: Config, st: Sim, i: nat)
    requires Legal(cfg) && Steady(cfg, Finishing(st, i))
    ensures Steady(cfg, After(cfg, Finishing(st, i)))
  {
    hide Good, FinishAt, Past;
    if i == |st.jobs| {
      FinishOver(cfg, st);
    } else if st.jobs[i].run == 0 {
      FinishOnce(cfg, st, i);
    }
  }

  lemma ExpireOnce(cfg: Config, st: Sim, i: nat)
    requires Legal(cfg) && Steady(cfg, Rotating(st, i)) && i < |st.clocks| && st.clocks[i] == 0
    ensures Steady(cfg, Rotating(ExpireAt(cfg, st, i), i + 1))
  {
    hide Good, Conserved, ExpireAt, Queued, Listed, Positive;
    Safety.GoodSizes(cfg, st, i);
    if QueueSpec.First(SitsOn(i), st.jobs) < |st.jobs| {
      WorkingPositive(cfg, st, i);
      ExpireGood(cfg, st, i);
      ExpireAtEntries(cfg, st, i);
    } else {
      PassOver(cfg, st, i);
      ExpireNobody(cfg, st, i);
    }
  }

  lemma RotateOver(cfg: Config, st: Sim)
    requires Legal(cfg) && Steady(cfg, Rotating(st, |st.clocks|))
    ensures Steady(cfg, Admitting(st, 0))
  {
    hide Good;
    Safety.GoodSizes(cfg, st, |st.clocks|);
    PastIsAll(cfg, st, cfg.cores);
  }

  lemma RotatingSteady(cfg: Config, st: Sim, i: nat)
    requires Legal(cfg) && Steady(cfg, Rotating(st, i))
    ensures Steady(cfg, After(cfg, Rotating(st, i)))
  {
    hide ExpireAt, Good, Past;
    if i == |st.clocks| {
      RotateOver(cfg, st);
    } else if st.clocks[i] == 0 {
      ExpireOnce(cfg, st, i);
    } else {
      PassOver(cfg, st, i);
    }
  }

  lemma AdmittingSteady(cfg: Config, st: Sim, i: nat)
    requires Legal(cfg) && Steady(cfg, Admitting(st, i))
    ensures Steady(cfg, After(cfg, Admitting(st, i)))
  {
    hide Good, Conserved, ArriveAt, Tick, Queued, Listed, Positive, Balance, Elapsed;
    if i == |st.jobs| {
      ReadyQuiet(cfg, st);
      RunsForward.TickGood(cfg, st);
      Accounting.TickPast(cfg, st);
    } else if st.jobs[i].arrival == st.time {
      WorkingPositive(cfg, st, cfg.cores);
      IsDue(cfg, st, cfg.cores, i);
      RunsForward.ArriveGood(cfg, st, i);
      ArriveAtEntries(cfg, st, i);
    }
  }

  lemma {:induction false} AlwaysSteady(cfg: Config, k: nat)
    requires Legal(cfg)
    ensures Steady(cfg, MomentAt(cfg, k))
  {
    hide Steady, After;
    if k == 0 {
      StartSteady(cfg);
    } else {
      AlwaysSteady(cfg, k - 1);
      match MomentAt(cfg, k - 1)
      case Finishing(st, i) => FinishingSteady(cfg, st, i);
      case Rotating(st, i) => RotatingSteady(cfg, st, i);
      case Admitting(st, i) => AdmittingSteady(cfg, st, i);
    }
  }

  lemma StartSteady(cfg: Config)
    ensures Steady(cfg, Finishing(Start(cfg), 0))
  {
    hide Good;
    Accounting.StartGood(cfg);
  }

  /** The invariant, between any two events. */
  lemma AlwaysGood(cfg: Config, k: nat) returns (low: int)
    requires Legal(cfg)
    ensures Good(cfg, MomentAt(cfg, k).st, low)
  {
    hide Good, MomentAt;
    AlwaysSteady(cfg, k);
    match MomentAt(cfg, k)
    case Finishing(st, i) => low := 0;
    case Rotating(st, i) => low := i;
    case Admitting(st, i) => low := cfg.cores;
  }

  // ----- the steps make up the iterations -----

  lemma {:induction false} LaterAdds(cfg: Config, m: Moment, a: nat, b: nat)
    ensures Later(cfg, Later(cfg, m, a), b) == Later(cfg, m, a + b)
  {
    hide After;
    if b > 0 {
      LaterAdds(cfg, m, a, b - 1);
    }
  }

  lemma StepFirst(cfg: Config, m: Moment, k: nat)
    ensures Later(cfg, After(cfg, m), k) == Later(cfg, m, k + 1)
  {
  }

  lemma {:induction false} FinishSteps(cfg: Config, st: Sim, i: nat) returns (k: nat)
    requires i <= |st.jobs|
    ensures var f := FinishPhase(cfg, st, i); Later(cfg, Finishing(st, i), k) == Finishing(f, |f.jobs|)
    decreases |st.jobs| - i
  {
    hide FinishAt, Later;
    if i == |st.jobs| {
      k := 0;
      NoSteps(cfg, Finishing(st, i));
    } else {
      var next := if st.jobs[i].run == 0 then Finishing(FinishAt(cfg, st, i), i) else Finishing(st, i + 1);
      var n := FinishSteps(cfg, next.st, next.i);
      k := n + 1;
      StepFirst(cfg, Finishing(st, i), n);
    }
  }

  lemma NoSteps(cfg: Config, m: Moment)
    ensures Later(cfg, m, 0) == m
  {
  }

  lemma {:induction false} QuantumSteps(cfg: Config, st: Sim, i: nat) returns (k: nat)
    requires i <= |st.clocks|
    ensures Later(cfg, Rotating(st, i), k) == Rotating(QuantumPhase(cfg, st, i), |st.clocks|)
    decreases |st.clocks| - i
  {
    hide ExpireAt, Later;
    if i == |st.clocks| {
      k := 0;
      NoSteps(cfg, Rotating(st, i));
    } else {
      var next := if st.clocks[i] == 0 then ExpireAt(cfg, st, i) else st;
      var n := QuantumSteps(cfg, next, i + 1);
      k := n + 1;
      StepFirst(cfg, Rotating(st, i), n);
    }
  }

  lemma {:induction false} ArrivalSteps(cfg: Config, st: Sim, i: nat) returns (k: nat)
    requires i <= |st.jobs|
    ensures Later(cfg, Admitting(st, i), k) == Admitting(ArrivalPhase(cfg, st, i), |st.jobs|)
    decreases |st.jobs| - i
  {
    hide ArriveAt, Later;
    if i == |st.jobs| {
      k := 0;
      NoSteps(cfg, Admitting(st, i));
    } else {
      var next := if st.jobs[i].arrival == st.time then ArriveAt(cfg, st, i) else st;
      var n := ArrivalSteps(cfg, next, i + 1);
      k := n + 1;
      StepFirst(cfg, Admitting(st, i), n);
    }
  }

  lemma {:induction false} QuantumKeepsClocks(cfg: Config, st: Sim, i: nat)
    requires i <= |st.clocks|
    ensures |QuantumPhase(cfg, st, i).clocks| == |st.clocks|
    decreases |st.clocks| - i
  {
    hide ExpireAt;
    if i < |st.clocks| {
      QuantumKeepsClocks(cfg, if st.clocks[i] == 0 then ExpireAt(cfg, st, i) else st, i + 1);
    }
  }

  /** From the top of an iteration the steps lead to the state in which its time unit is run. */
  lemma ReadySteps(cfg: Config, st: Sim) returns (k: nat)
    ensures Later(cfg, Finishing(st, 0), k) == Admitting(Ready(cfg, st), |Ready(cfg, st).jobs|)
  {
    hide FinishPhase, QuantumPhase, ArrivalPhase, Later;
    var m := Finishing(st, 0);
    var f := FinishPhase(cfg, st, 0);
    k := FinishSteps(cfg, st, 0);
    NextStep(cfg, m, k);
    k := k + 1;
    var q := f;
    if cfg.scheme == RR {
      q := QuantumPhase(cfg, f, 0);
      var n := QuantumSteps(cfg, f, 0);
      QuantumKeepsClocks(cfg, f, 0);
      LaterAdds(cfg, m, k, n);
      NextStep(cfg, m, k + n);
      k := k + n + 1;
    }
    var n := ArrivalSteps(cfg, q, 0);
    Progress.ArrivalKeepsSize(cfg, q, 0);
    LaterAdds(cfg, m, k, n);
    k := k + n;
  }

  lemma NextStep(cfg: Config, m: Moment, k: nat)
    ensures Later(cfg, m, k + 1) == After(cfg, Later(cfg, m, k))
  {
  }

  /** Every iteration's first state and the state its time unit is run in are among the moments. */
  lemma {:induction false} StateIsMoment(cfg: Config, n: nat) returns (k: nat, l: nat)
    ensures MomentAt(cfg, k) == Finishing(StateAt(cfg, n), 0)
    ensures MomentAt(cfg, l).st == Ready(cfg, StateAt(cfg, n))
  {
    hide Ready, Tick, Start, Later;
    if n == 0 {
      k := 0;
      NoSteps(cfg, Finishing(Start(cfg), 0));
    } else {
      var k', l' := StateIsMoment(cfg, n - 1);
      var r := ReadySteps(cfg, StateAt(cfg, n - 1));
      LaterAdds(cfg, Finishing(Start(cfg), 0), k', r);
      NextStep(cfg, Finishing(Start(cfg), 0), k' + r);
      k := k' + r + 1;
    }
    var r := ReadySteps(cfg, StateAt(cfg, n));
    LaterAdds(cfg, Finishing(Start(cfg), 0), k, r);
    l := k + r;
  }

  // ----- what holds at every moment -----

  lemma SameRecord(q: seq<Job>, i: nat, j: nat)
    requires Keyed(q) && i < |q| && j < |q| && q[i].id == q[j].id
    ensures i == j
  {
  }

  /** The scheduler has one record of each arrived job and none of the others; it places the job on
      the same core, and its lazily updated remaining time is the simulator's. */
  lemma RecordsAgree(cfg: Config, k: nat, e: nat) returns (q: nat)
    requires Legal(cfg) && e < |MomentAt(cfg, k).st.jobs|
    ensures var st := MomentAt(cfg, k).st; var j, queue := st.jobs[e], st.sched.queue;
            if j.arrived
            then && q < |queue| && queue[q].id == j.id && queue[q].core == j.core && queue[q].arrival == j.arrival
                 && j.run == Remaining(queue[q], st.time)
                 && forall i :: 0 <= i < |queue| && queue[i].id == j.id ==> i == q
            else j.core == -1 && forall i :: 0 <= i < |queue| ==> queue[i].id != j.id
  {
    hide MomentAt, Queued, Listed;
    var low := AlwaysGood(cfg, k);
    var st := MomentAt(cfg, k).st;
    var id, queue := st.jobs[e].id, st.sched.queue;
    EntryAt(st.jobs, e);
    assert Sound(cfg, st.time, id, Listed(st.jobs), Queued(queue));
    q := 0;
    if st.jobs[e].arrived {
      q := IndexOf(queue, id);
    }
    forall i | 0 <= i < |queue| && queue[i].id == id
      ensures id in Queued(queue) && queue[i] == Queued(queue)[id] && (st.jobs[e].arrived ==> i == q)
    {
      AtIndex(queue, i);
      if st.jobs[e].arrived {
        SameRecord(queue, i, q);
      }
    }
  }

  /** Conversely every record is an entry's, and as many jobs are alive as there are records. */
  lemma RecordIsEntry(cfg: Config, k: nat, q: nat) returns (e: nat)
    requires Legal(cfg) && q < |MomentAt(cfg, k).st.sched.queue|
    ensures var st := MomentAt(cfg, k).st;
            && e < |st.jobs| && st.jobs[e].id == st.sched.queue[q].id && st.jobs[e].arrived
            && st.alive == |st.sched.queue|
  {
    hide MomentAt, Queued, Listed;
    var low := AlwaysGood(cfg, k);
    var st := MomentAt(cfg, k).st;
    AtIndex(st.sched.queue, q);
    assert Sound(cfg, st.time, st.sched.queue[q].id, Listed(st.jobs), Queued(st.sched.queue));
    e := EntryIndex(st.jobs, st.sched.queue[q].id);
  }

  /** No two entries share a core, the active cores are exactly those with an entry on them, and a
      core is inactive only while no arrived job waits. */
  lemma CoresAgree(cfg: Config, k: nat)
    requires Legal(cfg)
    ensures var st := MomentAt(cfg, k).st;
            && |st.sched.active| == cfg.cores
            && (forall e :: 0 <= e < |st.jobs| && st.jobs[e].core != -1 ==> 0 <= st.jobs[e].core < cfg.cores)
            && (forall d, e :: 0 <= d < |st.jobs| && 0 <= e < |st.jobs| && st.jobs[d].core == st.jobs[e].core != -1 ==>
                  d == e)
            && (forall c :: 0 <= c < cfg.cores ==>
                  (st.sched.active[c] <==> exists e :: 0 <= e < |st.jobs| && st.jobs[e].core == c))
            && (forall c, e :: 0 <= c < cfg.cores && !st.sched.active[c] && 0 <= e < |st.jobs| && st.jobs[e].arrived ==>
                  st.jobs[e].core != -1)
  {
    hide MomentAt, Good;
    var low := AlwaysGood(cfg, k);
    var st := MomentAt(cfg, k).st;
    Safety.GoodSizes(cfg, st, low);
    Safety.CoresDistinct(cfg, st, low);
    forall c | 0 <= c < cfg.cores
      ensures st.sched.active[c] <==> exists e :: 0 <= e < |st.jobs| && st.jobs[e].core == c
    {
      ActiveIsTaken(cfg, st, low, c);
    }
    forall c, e | 0 <= c < cfg.cores && !st.sched.active[c] && 0 <= e < |st.jobs| && st.jobs[e].arrived
      ensures st.jobs[e].core != -1
    {
      InactiveServesAll(cfg, st, low, c, e);
    }
  }

  lemma ActiveIsTaken(cfg: Config, st: Sim, low: int, c: nat)
    requires Good(cfg, st, low) && c < cfg.cores == |st.sched.active|
    ensures st.sched.active[c] <==> exists e :: 0 <= e < |st.jobs| && st.jobs[e].core == c
  {
    hide Queued, Listed;
    var js, qs := Listed(st.jobs), Queued(st.sched.queue);
    if st.sched.active[c] {
      var a :| a in qs && qs[a].core == c;
      assert Sound(cfg, st.time, a, js, qs);
      var e := EntryIndex(st.jobs, a);
    }
    forall e | 0 <= e < |st.jobs| && st.jobs[e].core == c
      ensures st.sched.active[c]
    {
      EntryAt(st.jobs, e);
      assert Sound(cfg, st.time, st.jobs[e].id, js, qs);
    }
  }

  lemma InactiveServesAll(cfg: Config, st: Sim, low: int, c: nat, e: nat)
    requires Good(cfg, st, low) && c < cfg.cores == |st.sched.active| && !st.sched.active[c]
    requires e < |st.jobs| && st.jobs[e].arrived
    ensures st.jobs[e].core != -1
  {
    hide Queued, Listed;
    EntryAt(st.jobs, e);
    assert Sound(cfg, st.time, st.jobs[e].id, Listed(st.jobs), Queued(st.sched.queue));
  }

  /** The queue is in the scheme's order: for every scheme but round robin with any number of cores,
      except that PSJF promises it on one core only. */
  lemma QueueInOrder(cfg: Config, k: nat)
    requires Legal(cfg) && cfg.scheme != RR && (cfg.scheme == PSJF ==> cfg.cores == 1)
    ensures QueueSpec.Sorted(Comparer(cfg.scheme), MomentAt(cfg, k).st.sched.queue)
  {
    hide MomentAt, Queued, Listed;
    var low := AlwaysGood(cfg, k);
  }

  /** In terms of the loaded jobs: who is served next when a core is freed, which goes to the first
      idle job, is the earliest, the shortest or the most urgent one. */
  lemma LineInOrder(cfg: Config, k: nat, i: nat, j: nat)
    requires Legal(cfg) && i < j < |MomentAt(cfg, k).st.sched.queue|
    ensures var q := MomentAt(cfg, k).st.sched.queue;
            && 0 <= q[i].id < |cfg.load| && 0 <= q[j].id < |cfg.load|
            && var a, b := cfg.load[q[i].id], cfg.load[q[j].id];
               && (cfg.scheme == FCFS ==> a.arrival <= b.arrival)
               && (cfg.scheme == SJF ==> a.run < b.run || (a.run == b.run && a.arrival <= b.arrival))
               && (cfg.scheme == PRI || cfg.scheme == PPRI ==>
                     a.priority < b.priority || (a.priority == b.priority && a.arrival <= b.arrival))
  {
    hide MomentAt, Queued, Listed;
    var low := AlwaysGood(cfg, k);
    var st := MomentAt(cfg, k).st;
    var q := st.sched.queue;
    AtIndex(q, i);
    AtIndex(q, j);
    GoodSound(cfg, st, low, q[i].id);
    GoodSound(cfg, st, low, q[j].id);
    if cfg.scheme != RR && cfg.scheme != PSJF {
      assert Comparer(cfg.scheme)(q[i], q[j]) <= 0;
      assert Compare(cfg.scheme, q[i], q[j]) <= 0;
    }
  }

  /** Under PPRI and PSJF, with any number of cores, the running jobs are the first min(cores, alive)
      of the queue. */
  lemma FrontRuns(cfg: Config, k: nat, i: nat)
    requires Legal(cfg) && Preemptive(cfg.scheme) && i < |MomentAt(cfg, k).st.sched.queue|
    ensures MomentAt(cfg, k).st.sched.queue[i].core != -1 <==> i < cfg.cores
  {
    hide MomentAt, Queued, Listed;
    var low := AlwaysGood(cfg, k);
  }

  /** Under PPRI these are the least by priority, then arrival: nobody waits who comes before
      somebody running. */
  lemma PriorityRuns(cfg: Config, k: nat, d: nat, e: nat)
    requires Legal(cfg) && cfg.scheme == PPRI && d < |MomentAt(cfg, k).st.jobs| && e < |MomentAt(cfg, k).st.jobs|
    ensures var a, b := MomentAt(cfg, k).st.jobs[d], MomentAt(cfg, k).st.jobs[e];
            a.core != -1 && b.arrived && b.core == -1 ==>
              a.priority < b.priority || (a.priority == b.priority && a.arrival <= b.arrival)
  {
    hide MomentAt, Queued, Listed;
    var low := AlwaysGood(cfg, k);
    var st := MomentAt(cfg, k).st;
    var a, b, js, qs, q := st.jobs[d], st.jobs[e], Listed(st.jobs), Queued(st.sched.queue), st.sched.queue;
    if a.core != -1 && b.arrived && b.core == -1 {
      EntryAt(st.jobs, d);
      EntryAt(st.jobs, e);
      assert Sound(cfg, st.time, a.id, js, qs) && Sound(cfg, st.time, b.id, js, qs);
      var i := IndexOf(q, a.id);
      var j := IndexOf(q, b.id);
      assert i < cfg.cores <= j;
      assert Comparer(PPRI)(q[i], q[j]) <= 0;
      assert Compare(PPRI, q[i], q[j]) <= 0;
    }
  }

  /** On one core PSJF runs the job least by true remaining time, then arrival, although the queue
      compares stored remaining times. */
  lemma ShortestAlwaysRuns(cfg: Config, k: nat, d: nat, e: nat)
    requires Legal(cfg) && cfg.scheme == PSJF && cfg.cores == 1
    requires d < |MomentAt(cfg, k).st.jobs| && e < |MomentAt(cfg, k).st.jobs|
    ensures var a, b := MomentAt(cfg, k).st.jobs[d], MomentAt(cfg, k).st.jobs[e];
            a.core != -1 && b.arrived ==> a.run < b.run || (a.run == b.run && a.arrival <= b.arrival)
  {
    hide MomentAt, Queued, Listed;
    var low := AlwaysGood(cfg, k);
    var st := MomentAt(cfg, k).st;
    EntryAt(st.jobs, d);
    EntryAt(st.jobs, e);
    if st.jobs[d].core != -1 && st.jobs[e].arrived {
      OneCore.ShortestRuns(cfg, st, low, st.jobs[d].id, st.jobs[e].id);
    }
  }

  /** Total response time never exceeds total waiting time, and is equal to it as long as the run
      lasts under the schemes without preemption. */
  lemma ResponseWithinWaiting(cfg: Config, k: nat)
    requires Legal(cfg)
    ensures var s := MomentAt(cfg, k).st.sched;
            && s.response <= s.waiting
            && (cfg.scheme == FCFS || cfg.scheme == SJF || cfg.scheme == PRI ==> s.response == s.waiting)
  {
    hide MomentAt, Queued, Listed;
    var low := AlwaysGood(cfg, k);
  }

  /** Under round robin every running job has used exactly what its core's quantum clock has lost. */
  lemma QuantumInStep(cfg: Config, k: nat, i: nat)
    requires Legal(cfg) && cfg.scheme == RR && i < |MomentAt(cfg, k).st.sched.queue|
    ensures var st := MomentAt(cfg, k).st; var a := st.sched.queue[i];
            a.core != -1 ==>
              && 0 <= a.core < |st.clocks|
              && st.time - a.start == cfg.quantum - st.clocks[a.core] <= cfg.quantum
  {
    hide MomentAt, Queued, Listed;
    var low := AlwaysGood(cfg, k);
    var st := MomentAt(cfg, k).st;
    AtIndex(st.sched.queue, i);
    var id := st.sched.queue[i].id;
    assert Paced(cfg, st.clocks, Queued(st.sched.queue)[id], st.time, low);
  }

  /** Under round robin the idle jobs are in the order in which they went idle. */
  lemma IdleInOrder(cfg: Config, k: nat, i: nat, j: nat)
    requires Legal(cfg) && cfg.scheme == RR && i < j < |MomentAt(cfg, k).st.sched.queue|
    ensures var q := MomentAt(cfg, k).st.sched.queue;
            q[i].core == q[j].core == -1 ==> q[i].pause <= q[j].pause
  {
    hide MomentAt, Queued, Listed;
    var low := AlwaysGood(cfg, k);
  }
}
