/** No core is idle while an arrived job waits, and the simulation ends. */
module Progress {
  import opened Jobs
  import opened SimulatorSpec
  import opened SchedulerTables
  import opened Invariant
  import opened Entries
  import opened Ledgers
  import opened Runs
  import RunsForward
  import Phases
  import opened Accounting

  /** The latest arrival, 0 when nothing is loaded. */
  function Last(load: seq<Entry>): (m: nat)
    ensures forall i :: 0 <= i < |load| ==> load[i].arrival <= m
  {
    if load == [] then 0 else
      var m := Last(load[..|load| - 1]);
      var a := load[|load| - 1].arrival;
      if a > m then a else m
  }

  /** All work left plus the time until the last arrival. */
  ghost function Measure(cfg: Config, st: Sim): int
    requires Shaped(cfg, st)
  {
    Sum(Left(cfg, Listed(st.jobs))) + if st.time < Last(cfg.load) then Last(cfg.load) - st.time else 0
  }

  /** Someone alive means that some core works. */
  lemma SomeoneRuns(cfg: Config, st: Sim, low: int) returns (id: int)
    requires Legal(cfg) && Good(cfg, st, low) && st.alive > 0
    ensures id in Listed(st.jobs) && Listed(st.jobs)[id].core != -1 && Listed(st.jobs)[id].arrived
  {
    hide Queued, Listed;
    var js, qs := Listed(st.jobs), Queued(st.sched.queue);
    id := st.sched.queue[0].id;
    AtIndex(st.sched.queue, 0);
    assert Sound(cfg, st.time, id, js, qs);
    if js[id].core == -1 {
      assert st.sched.active[0];
      id :| id in qs && qs[id].core == 0;
      assert Sound(cfg, st.time, id, js, qs);
    }
  }

  lemma {:induction false} SumLess(a: seq<int>, b: seq<int>, i: int)
    requires |a| == |b| && forall k :: 0 <= k < |a| ==> a[k] <= b[k]
    ensures Sum(a) <= Sum(b)
    ensures 0 <= i < |a| && a[i] < b[i] ==> Sum(a) < Sum(b)
  {
    if a != [] {
      SumLess(a[..|a| - 1], b[..|b| - 1], i);
    }
  }

  lemma {:induction false} SumAtLeastZero(a: seq<int>)
    requires forall k :: 0 <= k < |a| ==> a[k] >= 0
    ensures Sum(a) >= 0
  {
    if a != [] {
      SumAtLeastZero(a[..|a| - 1]);
    }
  }

  /** Every time unit that is run brings the end nearer. */
  lemma TickProgress(cfg: Config, r: Sim)
    requires Legal(cfg) && Good(cfg, r, cfg.cores) && Positive(Listed(r.jobs)) && Phases.ArrivedUpTo(r, |r.jobs|)
    requires forall id :: !Due(r.time, Listed(r.jobs), id)
    requires r.jobs != []
    ensures Shaped(cfg, Tick(r)) && Measure(cfg, Tick(r)) < Measure(cfg, r)
  {
    hide Queued, Listed, Tick, Clocked, Front, Answered, Seated, Balance, Elapsed, Positive;
    RunsForward.TickGood(cfg, r);
    TickFields(r);
    var a, b := Left(cfg, Ran(Listed(r.jobs))), Left(cfg, Listed(r.jobs));
    if r.alive > 0 {
      var id := SomeoneRuns(cfg, r, cfg.cores);
      assert Sound(cfg, r.time, id, Listed(r.jobs), Queued(r.sched.queue));
      SumLess(a, b, id);
    } else {
      SumLess(a, b, -1);
      var id := r.jobs[0].id;
      EntryAt(r.jobs, 0);
      assert Sound(cfg, r.time, id, Listed(r.jobs), Queued(r.sched.queue));
      assert !Due(r.time, Listed(r.jobs), id);
      if id in Queued(r.sched.queue) {
        var i := IndexOf(r.sched.queue, id);
      }
      assert r.time < r.jobs[0].arrival <= Last(cfg.load);
    }
  }

  lemma MeasureBounds(cfg: Config, st: Sim, low: int)
    requires Legal(cfg) && Good(cfg, st, low)
    ensures Measure(cfg, st) >= 0
  {
    hide Queued, Listed;
    var v := Left(cfg, Listed(st.jobs));
    forall k | 0 <= k < |v|
      ensures v[k] >= 0
    {
      assert Sound(cfg, st.time, k, Listed(st.jobs), Queued(st.sched.queue));
    }
    SumAtLeastZero(v);
  }

  /** Nothing left to do when the loop is left: the ready state has entries as long as it is not. */
  lemma ReadyEntries(cfg: Config, st: Sim)
    ensures |Ready(cfg, st).jobs| == |FinishPhase(cfg, st, 0).jobs|
  {
    var a := FinishPhase(cfg, st, 0);
    QuantumKeepsSize(cfg, a, 0);
    ArrivalKeepsSize(cfg, if cfg.scheme == RR then QuantumPhase(cfg, a, 0) else a, 0);
  }

  lemma {:induction false} QuantumKeepsSize(cfg: Config, st: Sim, core: nat)
    requires core <= |st.clocks|
    ensures |QuantumPhase(cfg, st, core).jobs| == |st.jobs|
    decreases |st.clocks| - core
  {
    hide ExpireAt;
    if core < |st.clocks| {
      if st.clocks[core] == 0 {
        Phases.ExpireAtEntries(cfg, st, core);
        QuantumKeepsSize(cfg, ExpireAt(cfg, st, core), core + 1);
      } else {
        QuantumKeepsSize(cfg, st, core + 1);
      }
    }
  }

  lemma {:induction false} ArrivalKeepsSize(cfg: Config, st: Sim, i: nat)
    requires i <= |st.jobs|
    ensures |ArrivalPhase(cfg, st, i).jobs| == |st.jobs|
    decreases |st.jobs| - i
  {
    hide ArriveAt;
    if i < |st.jobs| {
      if st.jobs[i].arrival == st.time {
        ArrivalKeepsSize(cfg, ArriveAt(cfg, st, i), i + 1);
      } else {
        ArrivalKeepsSize(cfg, st, i + 1);
      }
    }
  }

  /** The measure falls with every iteration that is not the last. */
  lemma StepProgress(cfg: Config, n: nat)
    requires Legal(cfg) && !Done(cfg, n)
    ensures Shaped(cfg, StateAt(cfg, n)) && Shaped(cfg, StateAt(cfg, n + 1))
    ensures 0 <= Measure(cfg, StateAt(cfg, n + 1)) < Measure(cfg, StateAt(cfg, n))
  {
    hide Queued, Listed, Ready, Tick, FinishPhase, Left, Sum, Balance, Elapsed, Phases.Past, Good, Positive,
         Conserved, Last;
    var st := StateAt(cfg, n);
    var r := Ready(cfg, st);
    ReadyEntries(cfg, st);
    StateGood(cfg, n);
    StateGood(cfg, n + 1);
    MeasureBounds(cfg, StateAt(cfg, n + 1), 0);
    Phases.ReadyGood(cfg, st);
    TickProgress(cfg, r);
    ConservedMeasure(cfg, st, r);
  }

  lemma ConservedMeasure(cfg: Config, a: Sim, b: Sim)
    requires Conserved(cfg, a, b)
    ensures Shaped(cfg, a) && Shaped(cfg, b) && Measure(cfg, b) == Measure(cfg, a)
  {
    hide Queued, Listed, Left, Sum, Balance, Elapsed;
  }

  /** The simulation ends, at the latest at time last arrival + sum of all run times. */
  lemma {:induction false} Terminates(cfg: Config, n: nat) returns (end: nat)
    requires Legal(cfg)
    ensures Shaped(cfg, StateAt(cfg, n))
    ensures n <= end <= n + Measure(cfg, StateAt(cfg, n)) && Done(cfg, end)
    ensures forall k :: n <= k < end ==> !Done(cfg, k)
    decreases (StateGood(cfg, n); Measure(cfg, StateAt(cfg, n)))
  {
    hide StateAt, Measure, Done, Listed, Queued, Balance, Elapsed;
    StateGood(cfg, n);
    MeasureBounds(cfg, StateAt(cfg, n), 0);
    if Done(cfg, n) {
      end := n;
    } else {
      StepProgress(cfg, n);
      end := Terminates(cfg, n + 1);
    }
  }

  /** The bound for the whole run. */
  lemma EndsInTime(cfg: Config) returns (end: nat)
    requires Legal(cfg)
    ensures end <= Sum(RunTimes(cfg)) + Last(cfg.load) && Done(cfg, end)
    ensures forall k :: 0 <= k < end ==> !Done(cfg, k)
  {
    end := Terminates(cfg, 0);
    StartGood(cfg);
    hide Start, Good, Left, Listed, Queued, Balance, Elapsed;
    StartTime(cfg);
    assert StateAt(cfg, 0) == Start(cfg);
  }
}
