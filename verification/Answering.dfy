/** Response time: what the scheduler has charged, and how long jobs have waited for their first core. */
module Answering {
  import opened Jobs
  import opened QueueSpec
  import opened SchedulerSpec
  import opened SimulatorSpec
  import opened SchedulerTables
  import opened Invariant
  import opened Entries
  import opened Ledgers
  import Order
  import opened Runs
  import RunsForward
  import opened Phases
  import Accounting

  /** How long a queued job has been without an answer. */
  function SilenceOf(qs: JobTable, now: int, id: int): int {
    if id in qs && !qs[id].responded then now - qs[id].arrival else 0
  }

  ghost function Silences(cfg: Config, qs: JobTable, now: int): (v: seq<int>)
    ensures |v| == |cfg.load| && forall id :: 0 <= id < |v| ==> v[id] == SilenceOf(qs, now, id)
  {
    seq(|cfg.load|, id => SilenceOf(qs, now, id))
  }

  /** Response charged so far, plus the silence of the jobs still without an answer. */
  ghost function Heard(cfg: Config, s: Sched, now: int): int
    requires Keyed(s.queue)
  {
    s.response + Sum(Silences(cfg, Queued(s.queue), now))
  }

  ghost predicate SameHeard(cfg: Config, a: Sim, b: Sim) {
    Keyed(a.sched.queue) && Keyed(b.sched.queue) && Heard(cfg, b.sched, b.time) == Heard(cfg, a.sched, a.time)
  }

  lemma HeardChain(cfg: Config, a: Sim, b: Sim, c: Sim)
    requires SameHeard(cfg, a, b) && SameHeard(cfg, b, c)
    ensures SameHeard(cfg, a, c)
  {
  }

  lemma HeardSelf(cfg: Config, a: Sim, low: int)
    requires Good(cfg, a, low)
    ensures SameHeard(cfg, a, a)
  {
  }

  lemma SilenceSame(cfg: Config, a: JobTable, b: JobTable, now: int)
    requires forall id :: SilenceOf(a, now, id) == SilenceOf(b, now, id)
    ensures Silences(cfg, a, now) == Silences(cfg, b, now)
  {
    hide SilenceOf;
    forall id | 0 <= id < |cfg.load|
      ensures Silences(cfg, a, now)[id] == Silences(cfg, b, now)[id]
    {
    }
  }

  /** Waking a job charges exactly the silence it ends. */
  lemma WokenHeard(cfg: Config, now: int, s: Sched, t: Sched, core: int, mark: int, next: int)
    requires Keyed(s.queue) && Woken(s, t, core, now, mark, next)
    requires next in Queued(s.queue) ==> 0 <= next < |cfg.load|
    ensures Heard(cfg, t, now) == Heard(cfg, s, now)
  {
    hide Queued, Sum;
    if next != -1 {
      var a, b := Silences(cfg, Queued(s.queue), now), Silences(cfg, Queued(t.queue), now);
      forall k | 0 <= k < |a| && k != next
        ensures a[k] == b[k]
      {
        assert SilenceOf(Queued(s.queue), now, k) == SilenceOf(Queued(t.queue), now, k);
      }
      SumChange(a, b, next);
    }
  }

  lemma FinishHeard(cfg: Config, st: Sim, i: nat)
    requires Legal(cfg) && Good(cfg, st, 0) && i < |st.jobs| && st.jobs[i].run == 0
    ensures var r := FinishAt(cfg, st, i);
            SameHeard(cfg, st, r)
  {
    hide JobFinished, SwapDelete, Handover, Queued, Listed, Order.Ordered, Order.Patient, Front, Clocked, Answered,
         Conserved, Seated, Silences, Sum;
    var s, now, gone, core := st.sched, st.time, st.jobs[i].id, st.jobs[i].core;
    EntryAt(st.jobs, i);
    FinishSound(cfg, now, Listed(st.jobs), Queued(s.queue), gone);
    GoodSound(cfg, st, 0, gone);
    var m := FinishedTable(s, core, gone, now);
    var (t, next) := JobFinished(s, core, gone, now);
    GoodSound(cfg, st, 0, next);
    SilenceSame(cfg, Queued(s.queue), Queued(m.queue), now);
    WokenHeard(cfg, now, m, t, core, 0, next);
  }

  lemma ExpireHeard(cfg: Config, st: Sim, core: nat)
    requires Legal(cfg) && cfg.scheme == RR && Good(cfg, st, core) && First(SitsOn(core), st.jobs) < |st.jobs|
    ensures var r := ExpireAt(cfg, st, core);
            SameHeard(cfg, st, r)
  {
    hide QuantumExpired, Handover, Queued, Listed, Order.Ordered, Order.Patient, Front, Clocked, Answered,
         Conserved, Seated, Silences, Sum;
    var s, now, k := st.sched, st.time, First(SitsOn(core), st.jobs);
    var gone := st.jobs[k].id;
    EntryAt(st.jobs, k);
    OnlySitter(cfg, now, Listed(st.jobs), s, gone);
    GoodSound(cfg, st, core, gone);
    var m := ExpiredTable(s, core, gone, now);
    var (t, next) := QuantumExpired(s, core, now);
    GoodSound(cfg, st, core, next);
    SilenceSame(cfg, Queued(s.queue), Queued(m.queue), now);
    WokenHeard(cfg, now, m, t, core, -1, next);
  }

  lemma ArriveHeard(cfg: Config, st: Sim, i: nat)
    requires Legal(cfg) && Good(cfg, st, cfg.cores) && i < |st.jobs|
    requires Due(st.time, Listed(st.jobs), st.jobs[i].id)
    ensures var r := ArriveAt(cfg, st, i);
            SameHeard(cfg, st, r)
  {
    hide NewJob, Vacate, Listed, Front, Order.Ordered, Order.Patient, Queued, Seated, Conserved, Clocked, Silences, Sum,
         Answered;
    var s, now, id, run, priority := st.sched, st.time, st.jobs[i].id, st.jobs[i].run, st.jobs[i].priority;
    var v := RunsForward.JoinTables(cfg, st, i);
    var (t, core) := NewJob(s, id, now, run, priority);
    assert ArriveAt(cfg, st, i).sched == t && ArriveAt(cfg, st, i).time == now;
    if v != -1 {
      RunsForward.JoinedCores(cfg, st, FreshJob(id, now, run, priority), t, core, v);
      GoodSound(cfg, st, cfg.cores, v);
    }
    forall a
      ensures SilenceOf(Queued(s.queue), now, a) == SilenceOf(Queued(t.queue), now, a)
    {
    }
    SilenceSame(cfg, Queued(s.queue), Queued(t.queue), now);
  }

  // ----- phases -----

  lemma {:induction false} FinishPhaseHeard(cfg: Config, st: Sim, i: nat)
    requires Legal(cfg) && Good(cfg, st, 0) && i <= |st.jobs|
    ensures var r := FinishPhase(cfg, st, i);
            SameHeard(cfg, st, r)
    decreases |st.jobs| - i
  {
    hide Good, FinishAt, Conserved, OnlyCores, Listed, Queued, SameHeard;
    HeardSelf(cfg, st, 0);
    if i < |st.jobs| {
      if st.jobs[i].run == 0 {
        FinishGood(cfg, st, i);
        FinishHeard(cfg, st, i);
        FinishPhaseHeard(cfg, FinishAt(cfg, st, i), i);
        HeardChain(cfg, st, FinishAt(cfg, st, i), FinishPhase(cfg, FinishAt(cfg, st, i), i));
      } else {
        FinishPhaseHeard(cfg, st, i + 1);
      }
    }
  }

  lemma GoodKeyed(cfg: Config, st: Sim, low: int)
    requires Good(cfg, st, low)
    ensures Keyed(st.sched.queue) && |st.clocks| == cfg.cores
  {
  }

  lemma {:induction false} QuantumPhaseHeard(cfg: Config, st: Sim, core: nat)
    requires Legal(cfg) && cfg.scheme == RR && Good(cfg, st, core) && Working(st.jobs, |st.jobs|) && core <= |st.clocks|
    ensures var r := QuantumPhase(cfg, st, core);
            SameHeard(cfg, st, r)
    decreases |st.clocks| - core
  {
    hide Good, ExpireAt, Queued, Listed, Conserved, OnlyCores, Positive, SameHeard, First;
    HeardSelf(cfg, st, core);
    if core < |st.clocks| {
      if st.clocks[core] == 0 && First(SitsOn(core), st.jobs) < |st.jobs| {
        WorkingPositive(cfg, st, core);
        ExpireGood(cfg, st, core);
        ExpireAtEntries(cfg, st, core);
        ExpireHeard(cfg, st, core);
        QuantumPhaseHeard(cfg, ExpireAt(cfg, st, core), core + 1);
        HeardChain(cfg, st, ExpireAt(cfg, st, core), QuantumPhase(cfg, ExpireAt(cfg, st, core), core + 1));
      } else {
        PassOver(cfg, st, core);
        ExpireNobody(cfg, st, core);
        QuantumPhaseHeard(cfg, st, core + 1);
      }
    }
  }

  lemma {:induction false} ArrivalPhaseHeard(cfg: Config, st: Sim, i: nat)
    requires Legal(cfg) && Good(cfg, st, cfg.cores) && Working(st.jobs, |st.jobs|)
    requires i <= |st.jobs| && ArrivedUpTo(st, i)
    ensures var r := ArrivalPhase(cfg, st, i);
            SameHeard(cfg, st, r)
    decreases |st.jobs| - i
  {
    hide Good, ArriveAt, Queued, Listed, Conserved, Positive, SameHeard;
    HeardSelf(cfg, st, cfg.cores);
    if i < |st.jobs| {
      if st.jobs[i].arrival == st.time {
        WorkingPositive(cfg, st, cfg.cores);
        IsDue(cfg, st, cfg.cores, i);
        RunsForward.ArriveGood(cfg, st, i);
        ArriveAtEntries(cfg, st, i);
        ArriveHeard(cfg, st, i);
        ArrivalPhaseHeard(cfg, ArriveAt(cfg, st, i), i + 1);
        HeardChain(cfg, st, ArriveAt(cfg, st, i), ArrivalPhase(cfg, ArriveAt(cfg, st, i), i + 1));
      } else {
        ArrivalPhaseHeard(cfg, st, i + 1);
      }
    }
  }

  lemma ReadyHeard(cfg: Config, st: Sim)
    requires Legal(cfg) && Good(cfg, st, 0) && Past(st)
    ensures var r := Ready(cfg, st);
            SameHeard(cfg, st, r)
  {
    hide Good, FinishPhase, QuantumPhase, ArrivalPhase, Conserved, Past, SameHeard;
    FinishPhaseGood(cfg, st, 0);
    var a := FinishPhase(cfg, st, 0);
    FinishPhaseHeard(cfg, st, 0);
    GoodKeyed(cfg, a, 0);
    var b := if cfg.scheme == RR then QuantumPhase(cfg, a, 0) else a;
    if cfg.scheme == RR {
      QuantumPhaseGood(cfg, a, 0);
      QuantumPhaseHeard(cfg, a, 0);
      HeardChain(cfg, st, a, b);
    } else {
      Raise(cfg, a, 0);
    }
    PastIsAll(cfg, b, cfg.cores);
    ArrivalPhaseHeard(cfg, b, 0);
    HeardChain(cfg, st, b, ArrivalPhase(cfg, b, 0));
  }

  // ----- whole runs -----

  /** Jobs in the system without an answer while time unit `n` runs. */
  ghost function UnansweredDuring(cfg: Config, n: nat): set<int>
    requires Legal(cfg)
  {
    var q := Ready(cfg, StateAt(cfg, n)).sched.queue;
    set i | 0 <= i < |q| && !q[i].responded :: q[i].id
  }

  /** Job-time units spent without an answer before time `n`. */
  ghost function SilentTime(cfg: Config, n: nat): int
    requires Legal(cfg)
  {
    if n == 0 then 0 else SilentTime(cfg, n - 1) + |UnansweredDuring(cfg, n - 1)|
  }

  ghost function SilentBelow(qs: JobTable, n: nat): set<int> {
    set id | 0 <= id < n && id in qs && !qs[id].responded
  }

  lemma SilentNext(qs: JobTable, n: nat)
    requires n > 0
    ensures |SilentBelow(qs, n)| == |SilentBelow(qs, n - 1)| + if n - 1 in qs && !qs[n - 1].responded then 1 else 0
  {
    if n - 1 in qs && !qs[n - 1].responded {
      assert SilentBelow(qs, n) == SilentBelow(qs, n - 1) + {n - 1};
    } else {
      assert SilentBelow(qs, n) == SilentBelow(qs, n - 1);
    }
  }

  lemma {:induction false} SilenceTick(cfg: Config, qs: JobTable, now: int, n: nat)
    requires n <= |cfg.load|
    ensures Sum(Silences(cfg, qs, now + 1)[..n]) == Sum(Silences(cfg, qs, now)[..n]) + |SilentBelow(qs, n)|
  {
    if n > 0 {
      var a, b := Silences(cfg, qs, now), Silences(cfg, qs, now + 1);
      SilenceTick(cfg, qs, now, n - 1);
      SilentNext(qs, n);
      assert a[..n][..n - 1] == a[..n - 1] && b[..n][..n - 1] == b[..n - 1];
    } else {
      assert SilentBelow(qs, 0) == {};
    }
  }

  lemma TickHeard(cfg: Config, n: nat)
    requires Legal(cfg)
    ensures var r := Ready(cfg, StateAt(cfg, n));
            && Keyed(r.sched.queue) && r.time == n
            && Heard(cfg, r.sched, n + 1) == Heard(cfg, r.sched, n) + |UnansweredDuring(cfg, n)|
  {
    hide Ready, StateAt, Good, Past, Conserved, Positive, Listed, Balance, Elapsed, Queued, Sum;
    Accounting.StateGood(cfg, n);
    ReadyGood(cfg, StateAt(cfg, n));
    ConservedTime(cfg, StateAt(cfg, n), Ready(cfg, StateAt(cfg, n)));
    var r := Ready(cfg, StateAt(cfg, n));
    GoodKeyed(cfg, r, cfg.cores);
    var qs, q := Queued(r.sched.queue), r.sched.queue;
    SilenceTick(cfg, qs, n, |cfg.load|);
    assert Silences(cfg, qs, n)[..|cfg.load|] == Silences(cfg, qs, n);
    assert Silences(cfg, qs, n + 1)[..|cfg.load|] == Silences(cfg, qs, n + 1);
    assert SilentBelow(qs, |cfg.load|) == UnansweredDuring(cfg, n) by {
      SilentRecords(cfg, r, cfg.cores);
    }
  }

  lemma SilentRecords(cfg: Config, st: Sim, low: int)
    requires Good(cfg, st, low)
    ensures Keyed(st.sched.queue)
    ensures SilentBelow(Queued(st.sched.queue), |cfg.load|)
            == set i | 0 <= i < |st.sched.queue| && !st.sched.queue[i].responded :: st.sched.queue[i].id
  {
    hide Queued, Listed;
    var q, qs := st.sched.queue, Queued(st.sched.queue);
    var a, b := SilentBelow(qs, |cfg.load|), set i | 0 <= i < |q| && !q[i].responded :: q[i].id;
    forall id | id in a
      ensures id in b
    {
      var i := IndexOf(q, id);
    }
    forall id | id in b
      ensures id in a
    {
      var i :| 0 <= i < |q| && !q[i].responded && q[i].id == id;
      AtIndex(q, i);
      GoodSound(cfg, st, low, id);
    }
  }

  /** At the top of every iteration, response charged and silence still lasting add up to the job-time
      spent without an answer. */
  lemma {:induction false} SilenceBalanced(cfg: Config, n: nat)
    requires Legal(cfg)
    ensures var st := StateAt(cfg, n);
            Keyed(st.sched.queue) && st.time == n && Heard(cfg, st.sched, n) == SilentTime(cfg, n)
  {
    hide Ready, Good, Past, Start, Tick, Listed, Balance, Elapsed, Heard, Keyed, UnansweredDuring;
    Accounting.StateGood(cfg, n);
    GoodKeyed(cfg, StateAt(cfg, n), 0);
    if n == 0 {
      StartHeard(cfg);
    } else {
      SilenceBalanced(cfg, n - 1);
      Accounting.StateGood(cfg, n - 1);
      ReadyHeard(cfg, StateAt(cfg, n - 1));
      TickHeard(cfg, n - 1);
      Accounting.TickFields(Ready(cfg, StateAt(cfg, n - 1)));
    }
  }

  lemma StartHeard(cfg: Config)
    ensures var st := Start(cfg); Keyed(st.sched.queue) && Heard(cfg, st.sched, 0) == 0
  {
    assert Queued(Start(cfg).sched.queue) == map[];
    Accounting.SumZero(Silences(cfg, map[], 0));
  }

  /** Over every complete run, for every scheme, total response time is exactly the job-time spent in the
      system without an answer. */
  lemma ExactResponse(cfg: Config, n: nat)
    requires Legal(cfg) && Done(cfg, n)
    ensures Accounting.Outcome(cfg, n).sched.response == SilentTime(cfg, n)
  {
    hide StateAt, SilentTime, FinishPhase, Queued, Listed, Balance, Elapsed, Past, Good, Heard, Conserved;
    var st, f := StateAt(cfg, n), Accounting.Outcome(cfg, n);
    SilenceBalanced(cfg, n);
    Accounting.StateGood(cfg, n);
    FinishPhaseHeard(cfg, st, 0);
    FinishPhaseGood(cfg, st, 0);
    ConservedTime(cfg, st, f);
    Accounting.EmptyLedgers(cfg, f);
    NothingQueued(cfg, f);
  }

  lemma NothingQueued(cfg: Config, f: Sim)
    requires f.sched.queue == []
    ensures Keyed(f.sched.queue) && Heard(cfg, f.sched, f.time) == f.sched.response
  {
    assert Queued(f.sched.queue) == map[];
    Accounting.SumZero(Silences(cfg, map[], f.time));
  }
}
