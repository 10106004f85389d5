/** Whole phases, whole iterations and whole runs keep the invariant. */
module Phases {
  import opened Jobs
  import QueueSpec
  import SchedulerSpec
  import opened SimulatorSpec
  import opened SchedulerTables
  import Order
  import opened Invariant
  import opened Entries
  import Ledgers
  import opened Runs
  import RunsForward

  /** At the top of an iteration every arrived job arrived earlier. */
  ghost predicate Past(st: Sim) {
    forall k :: 0 <= k < |st.jobs| && st.jobs[k].arrived ==> st.jobs[k].arrival < st.time
  }

  ghost predicate Working(jobs: seq<SimJob>, n: nat)
    requires n <= |jobs|
  {
    forall k :: 0 <= k < n ==> jobs[k].run != 0
  }

  lemma WorkingPositive(cfg: Config, st: Sim, low: int)
    requires Legal(cfg) && Good(cfg, st, low) && Working(st.jobs, |st.jobs|)
    ensures Shaped(cfg, st) && Positive(Listed(st.jobs))
  {
    hide Queued, Listed;
    var js := Listed(st.jobs);
    forall id | id in js
      ensures js[id].run >= 1
    {
      var k := EntryIndex(st.jobs, id);
      assert Sound(cfg, st.time, id, js, Queued(st.sched.queue));
    }
  }

  /** Deleting by swapping moves entries and hands over cores; nothing else about an entry changes. */
  lemma FinishAtEntries(cfg: Config, st: Sim, i: nat)
    requires i < |st.jobs|
    ensures var r := FinishAt(cfg, st, i);
            && r.time == st.time
            && forall k :: 0 <= k < |r.jobs| ==>
                 r.jobs[k] == (if k == i then st.jobs[|st.jobs| - 1] else st.jobs[k]).(core := r.jobs[k].core)
  {
    hide SchedulerSpec.JobFinished;
  }

  lemma FinishPhaseGood(cfg: Config, st: Sim, i: nat)
    requires Legal(cfg) && Good(cfg, st, 0) && Past(st) && i <= |st.jobs| && Working(st.jobs, i)
    ensures var r := FinishPhase(cfg, st, i);
            Good(cfg, r, 0) && Past(r) && Working(r.jobs, |r.jobs|) && Conserved(cfg, st, r)
    decreases |st.jobs| - i
  {
    hide Good, Conserved, FinishAt;
    if i < |st.jobs| {
      if st.jobs[i].run == 0 {
        var next := FinishAt(cfg, st, i);
        FinishGood(cfg, st, i);
        FinishAtEntries(cfg, st, i);
        FinishPhaseGood(cfg, next, i);
        ConservedChain(cfg, st, next, FinishPhase(cfg, next, i));
      } else {
        FinishPhaseGood(cfg, st, i + 1);
      }
    } else {
      ConservedSelf(cfg, st, 0);
    }
  }

  lemma ConservedSelf(cfg: Config, a: Sim, low: int)
    requires Good(cfg, a, low)
    ensures Conserved(cfg, a, a)
  {
  }

  lemma ConservedTime(cfg: Config, a: Sim, b: Sim)
    requires Conserved(cfg, a, b)
    ensures b.time == a.time
  {
  }

  lemma ConservedChain(cfg: Config, a: Sim, b: Sim, c: Sim)
    requires Conserved(cfg, a, b) && Conserved(cfg, b, c)
    ensures Conserved(cfg, a, c)
  {
    hide Listed, Queued, Ledgers.Left, Balance, Elapsed;
  }

  /** With every quantum clock looked at, or without round robin, the bound on clocks is as good as any. */
  lemma Raise(cfg: Config, st: Sim, low: int)
    requires Good(cfg, st, low) && cfg.scheme != RR
    ensures Good(cfg, st, cfg.cores)
  {
  }

  lemma ExpireAtEntries(cfg: Config, st: Sim, core: nat)
    ensures var r := ExpireAt(cfg, st, core);
            && r.time == st.time && |r.jobs| == |st.jobs|
            && forall k :: 0 <= k < |r.jobs| ==> r.jobs[k] == st.jobs[k].(core := r.jobs[k].core)
  {
    hide SchedulerSpec.QuantumExpired;
  }

  lemma QuantumPhaseGood(cfg: Config, st: Sim, core: nat)
    requires Legal(cfg) && cfg.scheme == RR && Good(cfg, st, core) && Past(st) && Working(st.jobs, |st.jobs|)
    requires core <= |st.clocks|
    ensures var r := QuantumPhase(cfg, st, core);
            Good(cfg, r, cfg.cores) && Past(r) && Working(r.jobs, |r.jobs|) && Conserved(cfg, st, r)
    decreases |st.clocks| - core
  {
    hide Conserved, ExpireAt, Queued, Listed, Positive, OnlyCores, Clocked, Answered, Order.Patient, Order.Ordered;
    if core == |st.clocks| {
      ConservedSelf(cfg, st, core);
    } else if st.clocks[core] == 0 && QueueSpec.First(SitsOn(core), st.jobs) < |st.jobs| {
      var next := ExpireAt(cfg, st, core);
      WorkingPositive(cfg, st, core);
      ExpireGood(cfg, st, core);
      ExpireAtEntries(cfg, st, core);
      QuantumPhaseGood(cfg, next, core + 1);
      ConservedChain(cfg, st, next, QuantumPhase(cfg, next, core + 1));
    } else {
      PassOver(cfg, st, core);
      ExpireNobody(cfg, st, core);
      QuantumPhaseGood(cfg, st, core + 1);
    }
  }

  lemma ExpireNobody(cfg: Config, st: Sim, core: nat)
    ensures QueueSpec.First(SitsOn(core), st.jobs) == |st.jobs| ==> ExpireAt(cfg, st, core) == st
  {
  }

  /** Before entry `i`, arrivals are done for this time; from `i` on, none has been. */
  ghost predicate ArrivedUpTo(st: Sim, i: nat) {
    forall k :: 0 <= k < |st.jobs| ==>
      if k < i then st.jobs[k].arrived <==> st.jobs[k].arrival <= st.time
      else st.jobs[k].arrived <==> st.jobs[k].arrival < st.time
  }

  lemma ArriveAtEntries(cfg: Config, st: Sim, i: nat)
    requires i < |st.jobs|
    ensures var r := ArriveAt(cfg, st, i);
            && r.time == st.time
            && forall k :: 0 <= k < |r.jobs| ==>
                 r.jobs[k] == st.jobs[k].(core := r.jobs[k].core, arrived := k == i || st.jobs[k].arrived)
  {
  }

  lemma IsDue(cfg: Config, st: Sim, low: int, i: nat)
    requires Good(cfg, st, low) && i < |st.jobs| && ArrivedUpTo(st, i) && st.jobs[i].arrival == st.time
    ensures Shaped(cfg, st) && Due(st.time, Listed(st.jobs), st.jobs[i].id)
  {
    EntryAt(st.jobs, i);
  }

  lemma ArrivalPhaseGood(cfg: Config, st: Sim, i: nat)
    requires Legal(cfg) && Good(cfg, st, cfg.cores) && Working(st.jobs, |st.jobs|)
    requires i <= |st.jobs| && ArrivedUpTo(st, i)
    ensures var r := ArrivalPhase(cfg, st, i);
            Good(cfg, r, cfg.cores) && Working(r.jobs, |r.jobs|) && ArrivedUpTo(r, |r.jobs|) && Conserved(cfg, st, r)
    decreases |st.jobs| - i
  {
    hide Good, Conserved, ArriveAt, Queued, Listed, Positive;
    if i == |st.jobs| {
      ConservedSelf(cfg, st, cfg.cores);
    } else if st.jobs[i].arrival == st.time {
      var next := ArriveAt(cfg, st, i);
      WorkingPositive(cfg, st, cfg.cores);
      IsDue(cfg, st, cfg.cores, i);
      RunsForward.ArriveGood(cfg, st, i);
      ArriveAtEntries(cfg, st, i);
      ArrivalPhaseGood(cfg, next, i + 1);
      ConservedChain(cfg, st, next, ArrivalPhase(cfg, next, i + 1));
    } else {
      ArrivalPhaseGood(cfg, st, i + 1);
    }
  }

  /** Unarrived entries lie in the future, so at the top of an iteration `arrived` is known. */
  lemma PastIsAll(cfg: Config, st: Sim, low: int)
    requires Good(cfg, st, low) && Past(st)
    ensures ArrivedUpTo(st, 0)
  {
    hide Queued, Listed;
    forall k | 0 <= k < |st.jobs|
      ensures st.jobs[k].arrived <==> st.jobs[k].arrival < st.time
    {
      EntryAt(st.jobs, k);
      assert Sound(cfg, st.time, st.jobs[k].id, Listed(st.jobs), Queued(st.sched.queue));
    }
  }

  /** The state in which a time unit is run: nobody without work, nobody due left outside. */
  lemma ReadyGood(cfg: Config, st: Sim)
    requires Legal(cfg) && Good(cfg, st, 0) && Past(st)
    ensures var r := Ready(cfg, st);
            && Good(cfg, r, cfg.cores) && Conserved(cfg, st, r)
            && Working(r.jobs, |r.jobs|) && ArrivedUpTo(r, |r.jobs|)
            && Positive(Listed(r.jobs)) && forall id :: !Due(r.time, Listed(r.jobs), id)
  {
    hide Good, Conserved, Queued, Listed, FinishPhase, QuantumPhase, ArrivalPhase, Positive;
    FinishPhaseGood(cfg, st, 0);
    var a := FinishPhase(cfg, st, 0);
    var b := if cfg.scheme == RR then QuantumPhase(cfg, a, 0) else a;
    if cfg.scheme == RR {
      QuantumPhaseGood(cfg, a, 0);
      ConservedChain(cfg, st, a, b);
    } else {
      Raise(cfg, a, 0);
    }
    PastIsAll(cfg, b, cfg.cores);
    ArrivalPhaseGood(cfg, b, 0);
    ConservedChain(cfg, st, b, ArrivalPhase(cfg, b, 0));
    ReadyQuiet(cfg, ArrivalPhase(cfg, b, 0));
  }

  lemma ReadyQuiet(cfg: Config, r: Sim)
    requires Legal(cfg) && Good(cfg, r, cfg.cores) && Working(r.jobs, |r.jobs|) && ArrivedUpTo(r, |r.jobs|)
    ensures Positive(Listed(r.jobs)) && forall id :: !Due(r.time, Listed(r.jobs), id)
  {
    WorkingPositive(cfg, r, cfg.cores);
    hide Queued, Listed, Positive;
    forall id
      ensures !Due(r.time, Listed(r.jobs), id)
    {
      if id in Listed(r.jobs) {
        var k := EntryIndex(r.jobs, id);
      }
    }
  }
}
