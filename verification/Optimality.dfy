/** Any two schemes compared on one core and the same jobs. */
module Optimality {
  import opened Jobs
  import opened SimulatorSpec
  import SchedulerTables
  import Invariant
  import opened Entries
  import opened Ledgers
  import Runs
  import Phases
  import opened Accounting
  import Progress
  import opened Majorization
  import opened OneCore

  /** Two runs of the same jobs on one core, under any two schemes and quanta. */
  ghost predicate Rivals(a: Config, b: Config) {
    Legal(a) && Legal(b) && a.cores == b.cores == 1 && a.load == b.load
  }

  /** Work present at the top of iteration `n`. */
  ghost function Backlog(cfg: Config, n: nat): int
    requires Legal(cfg)
  {
    Excess(cfg.load, Work(cfg, n), n, 0)
  }

  lemma StartWork(cfg: Config)
    requires Legal(cfg)
    ensures Work(cfg, 0) == RunTimes(cfg)
  {
    hide Listed;
    StartGood(cfg);
  }

  lemma BacklogPending(cfg: Config, n: nat, p: int)
    requires Legal(cfg)
    requires if p == -1 then forall id :: !Pending(cfg.load, Work(cfg, n), n, id)
      else Pending(cfg.load, Work(cfg, n), n, p)
    ensures if p == -1 then Backlog(cfg, n) == 0 else Backlog(cfg, n) > 0
  {
    hide Work, Excess;
    ExcessNonNegative(cfg.load, Work(cfg, n), n, 0);
  }

  /** Whatever the scheme, one core works off one unit of the backlog per time unit, and the
      total work left falls by as much. */
  lemma BacklogStep(cfg: Config, n: nat)
    requires Legal(cfg) && cfg.cores == 1
    ensures var done := if Backlog(cfg, n) > 0 then 1 else 0;
            && Backlog(cfg, n + 1) == Backlog(cfg, n) - done + Sum(Fresh(cfg.load, n, 0))
            && Sum(Work(cfg, n + 1)) == Sum(Work(cfg, n)) - done
  {
    hide Work;
    var p := OneCoreStep(cfg, n);
    BacklogPending(cfg, n, p);
    FutureUntouched(cfg, n);
    if p != -1 {
      ExcessWork(cfg.load, Work(cfg, n), n, 0, p);
      SumChange(Work(cfg, n), Work(cfg, n + 1), p);
    }
    ExcessArrivals(cfg.load, Work(cfg, n + 1), n, 0);
  }

  /** On one core any two schemes leave the same total work at every tick: they are idle at the
      same times. */
  lemma {:induction false} SameWork(a: Config, b: Config, n: nat)
    requires Rivals(a, b)
    ensures Backlog(a, n) == Backlog(b, n) && Sum(Work(a, n)) == Sum(Work(b, n))
  {
    hide Work, Backlog;
    if n == 0 {
      StartWork(a);
      StartWork(b);
      assert RunTimes(a) == RunTimes(b);
      assert Backlog(a, 0) == Backlog(b, 0) by { SameStart(a, b); }
    } else {
      SameWork(a, b, n - 1);
      BacklogStep(a, n - 1);
      BacklogStep(b, n - 1);
    }
  }

  lemma SameStart(a: Config, b: Config)
    requires Rivals(a, b) && Work(a, 0) == Work(b, 0)
    ensures Backlog(a, 0) == Backlog(b, 0)
  {
  }

  /** After the finish phase, no entry is left exactly when no work is left. */
  lemma EmptyIsNoWork(cfg: Config, f: Sim)
    requires Legal(cfg) && Runs.Good(cfg, f, 0) && Phases.Working(f.jobs, |f.jobs|)
    ensures f.jobs == [] <==> Sum(Left(cfg, Listed(f.jobs))) == 0
  {
    hide SchedulerTables.Queued, Listed, Runs.Clocked, Invariant.Seated, Runs.Answered;
    var v := Left(cfg, Listed(f.jobs));
    forall id | 0 <= id < |v|
      ensures v[id] >= 0 && (f.jobs == [] ==> v[id] == 0)
    {
      assert Invariant.Sound(cfg, f.time, id, Listed(f.jobs), SchedulerTables.Queued(f.sched.queue));
      if id in Listed(f.jobs) {
        var k := EntryIndex(f.jobs, id);
      }
    }
    if f.jobs == [] {
      SumZero(v);
    } else {
      EntryAt(f.jobs, 0);
      var id := f.jobs[0].id;
      assert Invariant.Sound(cfg, f.time, id, Listed(f.jobs), SchedulerTables.Queued(f.sched.queue));
      var zero := seq(|v|, _ => 0);
      SumZero(zero);
      Progress.SumLess(zero, v, id);
    }
  }

  /** The run is over exactly when no work is left. */
  lemma DoneIsNoWork(cfg: Config, n: nat)
    requires Legal(cfg)
    ensures Done(cfg, n) <==> Sum(Work(cfg, n)) == 0
  {
    hide SchedulerTables.Queued, Listed, FinishPhase, Runs.Balance, Runs.Elapsed, Runs.Good, Phases.Past, StateAt,
         Left, Sum;
    var st := StateAt(cfg, n);
    StateGood(cfg, n);
    Phases.FinishPhaseGood(cfg, st, 0);
    EmptyIsNoWork(cfg, FinishPhase(cfg, st, 0));
  }

  /** So they finish at the same time. */
  lemma SameEnd(a: Config, b: Config, n: nat)
    requires Rivals(a, b)
    ensures Done(a, n) <==> Done(b, n)
  {
    hide Work, Done, Backlog;
    SameWork(a, b, n);
    DoneIsNoWork(a, n);
    DoneIsNoWork(b, n);
  }

  /** PSJF's remaining work is at every tick at least as concentrated on few jobs as anyone's. */
  lemma {:induction false} ShortestDominates(a: Config, b: Config, n: nat)
    requires Rivals(a, b) && a.scheme == PSJF
    ensures Dominates(a.load, Work(a, n), Work(b, n), n)
  {
    hide Work, Excess;
    if n == 0 {
      StartWork(a);
      StartWork(b);
      assert RunTimes(a) == RunTimes(b);
    } else {
      var load, v, w := a.load, Work(a, n - 1), Work(b, n - 1);
      ShortestDominates(a, b, n - 1);
      var p := OneCoreStep(a, n - 1);
      var q := OneCoreStep(b, n - 1);
      BacklogPending(a, n - 1, p);
      BacklogPending(b, n - 1, q);
      if p != -1 {
        ShortestKeepsDominating(load, v, w, n - 1, p, q);
      }
      FutureUntouched(a, n - 1);
      FutureUntouched(b, n - 1);
      ArrivalsKeepDominating(load, Work(a, n), Work(b, n), n - 1);
    }
  }

  /** PSJF is optimal on one core: at every tick no scheme has fewer jobs in the system. */
  lemma ShortestFewestAlive(a: Config, b: Config, n: nat)
    requires Rivals(a, b) && a.scheme == PSJF
    ensures AliveDuring(a, n) <= AliveDuring(b, n)
  {
    hide Work, AliveDuring, Above, Dominates;
    ShortestDominates(a, b, n);
    DominatesFewer(a.load, Work(a, n), Work(b, n), n);
    AliveIsAbove(a, n);
    AliveIsAbove(b, n);
  }

  lemma {:induction false} ShortestLeastJobTime(a: Config, b: Config, n: nat)
    requires Rivals(a, b) && a.scheme == PSJF
    ensures JobTime(a, n) <= JobTime(b, n)
  {
    hide AliveDuring;
    if n > 0 {
      ShortestLeastJobTime(a, b, n - 1);
      ShortestFewestAlive(a, b, n - 1);
    }
  }

  /** So at the common end its total turnaround and its total waiting time are the least. */
  lemma ShortestLeastTurnaround(a: Config, b: Config, n: nat)
    requires Rivals(a, b) && a.scheme == PSJF && Done(a, n)
    ensures Done(b, n)
    ensures Outcome(a, n).sched.turnaround <= Outcome(b, n).sched.turnaround
    ensures Outcome(a, n).sched.waiting <= Outcome(b, n).sched.waiting
    ensures Outcome(a, n).sched.numJobs == Outcome(b, n).sched.numJobs
  {
    hide Done, Outcome, JobTime;
    SameEnd(a, b, n);
    CompleteRun(a, n);
    CompleteRun(b, n);
    ShortestLeastJobTime(a, b, n);
    assert RunTimes(a) == RunTimes(b);
  }
}
