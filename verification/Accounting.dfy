/** Time accounting over whole runs: turnaround, waiting and response. */
module Accounting {
  import SchedulerSpec
  import opened SimulatorSpec
  import opened SchedulerTables
  import Order
  import opened Invariant
  import opened Entries
  import opened Ledgers
  import opened Runs
  import RunsForward
  import opened Phases

  function RunTimes(cfg: Config): (v: seq<int>)
    ensures |v| == |cfg.load| && forall i :: 0 <= i < |v| ==> v[i] == cfg.load[i].run
  {
    seq(|cfg.load|, i requires 0 <= i < |cfg.load| => cfg.load[i].run)
  }

  /** Jobs in the system while time unit `n` runs. */
  function AliveDuring(cfg: Config, n: nat): int {
    Ready(cfg, StateAt(cfg, n)).alive
  }

  /** Job-time units spent in the system before time `n`. */
  function JobTime(cfg: Config, n: nat): int {
    if n == 0 then 0 else JobTime(cfg, n - 1) + AliveDuring(cfg, n - 1)
  }

  /** The scheduler's state when the loop is left in iteration `n`. */
  function Outcome(cfg: Config, n: nat): Sim {
    FinishPhase(cfg, StateAt(cfg, n), 0)
  }

  lemma {:induction false} SumZero(v: seq<int>)
    requires forall i :: 0 <= i < |v| ==> v[i] == 0
    ensures Sum(v) == 0
  {
    if v != [] {
      SumZero(v[..|v| - 1]);
    }
  }

  lemma StartGood(cfg: Config)
    ensures var st := Start(cfg);
            && Good(cfg, st, 0) && Past(st)
            && Left(cfg, Listed(st.jobs)) == RunTimes(cfg)
            && Balance(cfg, st.sched, Listed(st.jobs), Queued(st.sched.queue)) == Sum(RunTimes(cfg))
            && Elapsed(cfg, st.sched, Queued(st.sched.queue), 0) == 0
  {
    var st := Start(cfg);
    LoadedListed(cfg);
    StartQueue(cfg);
    hide Listed, Queued, Seated, Order.Ordered, Synced;
    var js, qs := Listed(st.jobs), Queued(st.sched.queue);
    StartSynced(cfg, js);
    EmptySeat(cfg.cores);
    assert Shares(cfg, js, qs) == Left(cfg, js);
    SumZero(Ages(cfg, qs, 0));
  }

  lemma StartQueue(cfg: Config)
    ensures var s := SchedulerSpec.StartUp(cfg.cores, cfg.scheme);
            Keyed(s.queue) && Queued(s.queue) == map[] && Order.Ordered(s) && Front(s)
  {
  }

  lemma StartSynced(cfg: Config, js: EntryTable)
    requires Unique(Loaded(cfg)) && js == Listed(Loaded(cfg))
    requires forall id :: 0 <= id < |cfg.load| ==> id in js && js[id] == Loaded(cfg)[id]
    ensures Synced(cfg, 0, js, map[])
  {
  }

  lemma EmptySeat(n: nat)
    ensures Seated(seq(n, _ => false), map[], -1)
  {
  }

  lemma LoadedListed(cfg: Config)
    ensures Unique(Loaded(cfg))
    ensures Left(cfg, Listed(Loaded(cfg))) == RunTimes(cfg)
    ensures forall id :: 0 <= id < |cfg.load| ==>
      id in Listed(Loaded(cfg)) && Listed(Loaded(cfg))[id] == Loaded(cfg)[id]
  {
    var jobs := Loaded(cfg);
    assert Unique(jobs);
    hide Listed;
    forall id | 0 <= id < |cfg.load|
      ensures id in Listed(jobs) && Listed(jobs)[id] == jobs[id]
    {
      EntryAt(jobs, id);
    }
  }

  /** At the top of every iteration the invariant holds and both ledgers are in balance. */
  lemma {:induction false} StateGood(cfg: Config, n: nat)
    requires Legal(cfg)
    ensures var st := StateAt(cfg, n);
            && Good(cfg, st, 0) && Past(st) && st.time == n
            && Balance(cfg, st.sched, Listed(st.jobs), Queued(st.sched.queue)) == Sum(RunTimes(cfg))
            && Elapsed(cfg, st.sched, Queued(st.sched.queue), n) == JobTime(cfg, n)
  {
    hide Ready, Good, Past, Start, Tick, Queued, Listed, Balance, Elapsed, RunTimes;
    if n == 0 {
      StartGood(cfg);
      StartTime(cfg);
    } else {
      var st := StateAt(cfg, n - 1);
      StateGood(cfg, n - 1);
      ReadyGood(cfg, st);
      TickPast(cfg, Ready(cfg, st));
      RunsForward.TickGood(cfg, Ready(cfg, st));
      TickFields(Ready(cfg, st));
    }
  }

  lemma StartTime(cfg: Config)
    ensures Start(cfg).time == 0
  {
  }

  lemma TickFields(st: Sim)
    ensures Tick(st).time == st.time + 1 && Tick(st).sched == st.sched && Tick(st).alive == st.alive
  {
  }

  lemma TickPast(cfg: Config, r: Sim)
    requires ArrivedUpTo(r, |r.jobs|)
    ensures Past(Tick(r))
  {
  }

  /** With no entry left, no job is queued and the ledgers hold no open amounts. */
  lemma EmptyLedgers(cfg: Config, st: Sim)
    requires Good(cfg, st, 0) && st.jobs == []
    ensures st.sched.queue == []
    ensures Balance(cfg, st.sched, Listed(st.jobs), Queued(st.sched.queue)) == st.sched.turnaround - st.sched.waiting
    ensures Elapsed(cfg, st.sched, Queued(st.sched.queue), st.time) == st.sched.turnaround
  {
    hide Queued, Listed;
    var js, qs := Listed(st.jobs), Queued(st.sched.queue);
    forall id
      ensures id !in js && id !in qs
    {
      if id in js {
        var k := EntryIndex(st.jobs, id);
      }
      assert Sound(cfg, st.time, id, js, qs);
    }
    assert st.sched.queue == [] by {
      if st.sched.queue != [] {
        AtIndex(st.sched.queue, 0);
      }
    }
    SumZero(Shares(cfg, js, qs));
    SumZero(Ages(cfg, qs, st.time));
  }

  /** Exact time accounting of a complete run, for every scheme and any number of cores: total
      turnaround is total waiting plus all run times, and is also the number of job-time units
      spent in the system; every loaded job has been counted; response does not exceed waiting
      and equals it under the schemes that never preempt. */
  lemma CompleteRun(cfg: Config, n: nat)
    requires Legal(cfg) && Done(cfg, n)
    ensures var s := Outcome(cfg, n).sched;
            && s.queue == [] && s.numJobs == |cfg.load|
            && s.turnaround == s.waiting + Sum(RunTimes(cfg))
            && s.turnaround == JobTime(cfg, n)
            && s.response <= s.waiting
            && (RunsToCompletion(cfg.scheme) ==> s.response == s.waiting)
  {
    var st, f := StateAt(cfg, n), Outcome(cfg, n);
    hide StateAt, JobTime, FinishPhase, Queued, Listed, RunTimes, Balance, Elapsed;
    StateGood(cfg, n);
    FinishPhaseGood(cfg, st, 0);
    EmptyLedgers(cfg, f);
  }
}
