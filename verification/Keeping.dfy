/** How long a job keeps its core: without preemption to its finish, under round robin for its quantum. */
module Keeping {
  import opened Jobs
  import opened QueueSpec
  import opened SchedulerSpec
  import opened SimulatorSpec
  import opened SchedulerTables
  import opened Invariant
  import opened Entries
  import Order
  import opened Runs
  import RunsForward
  import RoundRobin
  import Phases
  import opened Moments

  ghost predicate RunsOn(st: Sim, id: int, core: int) {
    exists e :: 0 <= e < |st.jobs| && st.jobs[e].id == id && st.jobs[e].core == core
  }

  /** The same, and the scheduler gave it that core at time `since`. */
  ghost predicate RunsSince(st: Sim, id: int, core: int, since: int) {
    && RunsOn(st, id, core)
    && exists q :: 0 <= q < |st.sched.queue| && st.sched.queue[q].id == id && st.sched.queue[q].core == core
         && st.sched.queue[q].start == since
  }

  ghost predicate Gone(st: Sim, id: int) {
    forall e :: 0 <= e < |st.jobs| ==> st.jobs[e].id != id
  }

  /** At this moment the job is found to have used up its time. */
  predicate Finishes(m: Moment, id: int) {
    m.Finishing? && m.i < |m.st.jobs| && m.st.jobs[m.i].id == id && m.st.jobs[m.i].run == 0
  }

  /** At this moment a job arrives. */
  predicate Joins(m: Moment) {
    m.Admitting? && m.i < |m.st.jobs| && m.st.jobs[m.i].arrival == m.st.time
  }

  /** At this moment core `core` is looked at, a full quantum after it was given away. */
  predicate QuantumOver(cfg: Config, m: Moment, core: int, since: int) {
    cfg.scheme == RR && m.Rotating? && m.i == core && m.st.time == since + cfg.quantum
  }

  // ----- the same on tables -----

  ghost predicate Tabled(st: Sim) {
    Unique(st.jobs) && Keyed(st.sched.queue)
  }

  ghost predicate Seats(st: Sim, id: int, core: int, since: int)
    requires Tabled(st)
  {
    var js, qs := Listed(st.jobs), Queued(st.sched.queue);
    id in js && js[id].core == core && id in qs && qs[id].core == core && qs[id].start == since
  }

  lemma ListedRuns(st: Sim, id: int, core: int)
    requires Unique(st.jobs)
    ensures RunsOn(st, id, core) <==> id in Listed(st.jobs) && Listed(st.jobs)[id].core == core
    ensures Gone(st, id) <==> id !in Listed(st.jobs)
  {
    hide Listed;
    if id in Listed(st.jobs) {
      var e := EntryIndex(st.jobs, id);
    }
    forall e | 0 <= e < |st.jobs| && st.jobs[e].id == id
      ensures id in Listed(st.jobs) && Listed(st.jobs)[id] == st.jobs[e]
    {
      EntryAt(st.jobs, e);
    }
  }

  lemma ListedSince(st: Sim, id: int, core: int, since: int)
    requires Tabled(st)
    ensures RunsSince(st, id, core, since) <==> Seats(st, id, core, since)
  {
    ListedRuns(st, id, core);
    hide RunsOn, Queued, Listed;
    var q := st.sched.queue;
    if id in Queued(q) {
      var i := IndexOf(q, id);
    }
    forall i | 0 <= i < |q| && q[i].id == id
      ensures id in Queued(q) && Queued(q)[id] == q[i]
    {
      AtIndex(q, i);
    }
  }

  /** Whatever core job `id` has in `a` it has in `b`, by the same dispatch. */
  ghost predicate Keeps(a: Sim, b: Sim, id: int)
    requires Tabled(a) && Tabled(b)
  {
    id in Listed(a.jobs) && Listed(a.jobs)[id].core != -1 ==>
      && id in Listed(b.jobs) && Listed(b.jobs)[id].core == Listed(a.jobs)[id].core
      && id in Queued(a.sched.queue) && id in Queued(b.sched.queue)
      && Queued(b.sched.queue)[id] == Queued(a.sched.queue)[id]
  }

  /** Whatever core job `id` has in `b` it had in `a`, or has been given now. */
  ghost predicate Dispatches(a: Sim, b: Sim, id: int)
    requires Tabled(a) && Tabled(b)
  {
    id in Listed(b.jobs) && Listed(b.jobs)[id].core != -1 ==>
      || (id in Listed(a.jobs) && Listed(a.jobs)[id].core == Listed(b.jobs)[id].core)
      || (id in Queued(b.sched.queue) && Queued(b.sched.queue)[id].core == Listed(b.jobs)[id].core
          && Queued(b.sched.queue)[id].start == b.time)
  }

  ghost predicate Fewer(a: Sim, b: Sim, id: int)
    requires Tabled(a) && Tabled(b)
  {
    id in Listed(b.jobs) ==> id in Listed(a.jobs)
  }

  /** A record is marked as answered exactly when it was before or its job has a core now. */
  ghost predicate Hears(a: Sim, b: Sim, id: int)
    requires Tabled(a) && Tabled(b)
  {
    var p, q := Queued(a.sched.queue), Queued(b.sched.queue);
    && (id in Listed(b.jobs) && id in p ==> id in q)
    && (id in q ==> (q[id].responded <==> (id in p && p[id].responded) || q[id].core != -1))
  }

  lemma GoodTabled(cfg: Config, st: Sim, low: int)
    requires Good(cfg, st, low)
    ensures Tabled(st)
  {
  }

  // ----- event by event -----

  /** A finish takes its own job off its core, and no other. */
  lemma FinishKeeps(cfg: Config, st: Sim, i: nat, id: int)
    requires Legal(cfg) && Good(cfg, st, 0) && i < |st.jobs| && st.jobs[i].run == 0
    ensures var r := FinishAt(cfg, st, i);
            && Good(cfg, r, 0) && Tabled(st) && Tabled(r)
            && st.jobs[i].id !in Listed(r.jobs) && Fewer(st, r, id) && Dispatches(st, r, id) && Hears(st, r, id)
            && (id != st.jobs[i].id ==> Keeps(st, r, id))
  {
    hide JobFinished, SwapDelete, Handover, Queued, Listed, Synced, Seated, Order.Ordered, Order.Patient, Front,
         Clocked, Answered, Conserved;
    var s, now, gone, core := st.sched, st.time, st.jobs[i].id, st.jobs[i].core;
    var js, qs := Listed(st.jobs), Queued(s.queue);
    EntryAt(st.jobs, i);
    FinishSound(cfg, now, js, qs, gone);
    FreeSeat(s.active, qs, gone);
    SwapDeleteListed(st.jobs, i);
    var m := FinishedTable(s, core, gone, now);
    var (t, next) := JobFinished(s, core, gone, now);
    HandoverTables(cfg, now, SwapDelete(st.jobs, i), m, t, core, 0, next);
    FinishGood(cfg, st, i);
    GoodSound(cfg, st, 0, id);
    GoodSound(cfg, st, 0, next);
  }

  /** An expiry takes its own job off its core, and no other. */
  lemma ExpireKeeps(cfg: Config, st: Sim, core: nat, id: int)
    requires Legal(cfg) && cfg.scheme == RR && Good(cfg, st, core) && Positive(Listed(st.jobs))
    requires First(SitsOn(core), st.jobs) < |st.jobs|
    ensures var r := ExpireAt(cfg, st, core);
            && Good(cfg, r, core + 1) && Tabled(st) && Tabled(r)
            && Fewer(st, r, id) && Dispatches(st, r, id) && Hears(st, r, id)
            && ((id in Listed(st.jobs) && Listed(st.jobs)[id].core == core) || Keeps(st, r, id))
  {
    hide QuantumExpired, Handover, Queued, Listed, Synced, Seated, Order.Ordered, Order.Patient, Front, Clocked,
         Answered, Conserved, Positive;
    var s, now, k := st.sched, st.time, First(SitsOn(core), st.jobs);
    var js, qs, gone := Listed(st.jobs), Queued(s.queue), st.jobs[k].id;
    EntryAt(st.jobs, k);
    OnlySitter(cfg, now, js, s, gone);
    ExpireSoundNow(cfg, st, core, gone);
    ExpireSeat(s.active, qs, gone, Expired(qs[gone], now));
    var jobs := st.jobs[k := st.jobs[k].(core := -1)];
    UpdateListed(st.jobs, k, st.jobs[k].(core := -1));
    var m := ExpiredTable(s, core, gone, now);
    var (t, next) := QuantumExpired(s, core, now);
    HandoverTables(cfg, now, jobs, m, t, core, -1, next);
    ExpireGood(cfg, st, core);
    GoodSound(cfg, st, core, id);
    GoodSound(cfg, st, core, next);
  }

  lemma ExpireSoundNow(cfg: Config, st: Sim, low: int, id: int)
    requires Good(cfg, st, low) && Positive(Listed(st.jobs)) && id in Listed(st.jobs) && id in Queued(st.sched.queue)
    requires Queued(st.sched.queue)[id].core != -1
    ensures Synced(cfg, st.time, Listed(st.jobs)[id := Listed(st.jobs)[id].(core := -1)],
                   Queued(st.sched.queue)[id := Expired(Queued(st.sched.queue)[id], st.time)])
  {
    hide Queued, Listed;
    ExpireSound(cfg, st.time, Listed(st.jobs), Queued(st.sched.queue), id);
  }

  /** An arrival gives a core to the new job only; without preemption it takes nobody's core. */
  lemma ArriveKeeps(cfg: Config, st: Sim, i: nat, id: int)
    requires Legal(cfg) && Good(cfg, st, cfg.cores) && Positive(Listed(st.jobs)) && i < |st.jobs|
    requires Due(st.time, Listed(st.jobs), st.jobs[i].id)
    ensures var r := ArriveAt(cfg, st, i);
            && Good(cfg, r, cfg.cores) && Tabled(st) && Tabled(r)
            && (id in Listed(r.jobs) <==> id in Listed(st.jobs)) && Dispatches(st, r, id) && Hears(st, r, id)
            && (!Preemptive(cfg.scheme) ==> Keeps(st, r, id))
  {
    hide NewJob, Vacate, Listed, Front, Order.Ordered, Order.Patient, Queued, Synced, Seated, Answered, Conserved,
         Clocked;
    var s, now, joins, run, priority := st.sched, st.time, st.jobs[i].id, st.jobs[i].run, st.jobs[i].priority;
    EntryAt(st.jobs, i);
    var v := RunsForward.JoinTables(cfg, st, i);
    var (t, core) := NewJob(s, joins, now, run, priority);
    var job := FreshJob(joins, now, run, priority);
    RunsForward.JoinedCores(cfg, st, job, t, core, v);
    RunsForward.SeatingListed(cfg, now, st.jobs, s, i, core, v);
    RunsForward.ArriveGood(cfg, st, i);
    GoodSound(cfg, st, cfg.cores, id);
    GoodSound(cfg, st, cfg.cores, -1);
    var j := st.jobs[i].(arrived := true, core := core);
    assert ArriveAt(cfg, st, i).jobs == if core != -1 then Vacate(st.jobs, core)[i := j] else st.jobs[i := j];
  }

  lemma TickKeeps(cfg: Config, st: Sim, id: int)
    requires Good(cfg, st, cfg.cores) && Positive(Listed(st.jobs))
    requires forall a :: !Due(st.time, Listed(st.jobs), a)
    ensures var r := Tick(st);
            && Good(cfg, r, 0) && Tabled(st) && Tabled(r)
            && (id in Listed(r.jobs) <==> id in Listed(st.jobs))
            && Dispatches(st, r, id) && Hears(st, r, id) && Keeps(st, r, id)
  {
    hide Listed, Queued, Clocked, Answered, Order.Ordered, Order.Patient, Front, Balance, Elapsed, Seated, RunClocks,
         RunJobs;
    RunsForward.TickGood(cfg, st);
    GoodSound(cfg, st, cfg.cores, id);
  }

  // ----- step by step -----

  lemma SameKeeps(cfg: Config, st: Sim, low: int, id: int)
    requires Good(cfg, st, low)
    ensures Tabled(st) && Keeps(st, st, id) && Dispatches(st, st, id) && Hears(st, st, id) && Fewer(st, st, id)
  {
    hide Listed, Queued, Clocked, Answered, Order.Ordered, Order.Patient, Front, Seated;
    GoodSound(cfg, st, low, id);
  }

  lemma AdmitKeeps(cfg: Config, st: Sim, i: nat, id: int)
    requires Legal(cfg) && Steady(cfg, Admitting(st, i))
    ensures var r := After(cfg, Admitting(st, i)).st;
            && Tabled(st) && Tabled(r) && Fewer(st, r, id) && Dispatches(st, r, id) && Hears(st, r, id)
            && (!Preemptive(cfg.scheme) || !Joins(Admitting(st, i)) ==> Keeps(st, r, id))
  {
    hide Good, ArriveAt, Tick, Listed, Queued, Conserved, Balance, Elapsed, Positive, Due, Keeps, Dispatches, Hears,
         Tabled;
    if i == |st.jobs| {
      Phases.ReadyQuiet(cfg, st);
      TickKeeps(cfg, st, id);
    } else if st.jobs[i].arrival == st.time {
      Phases.WorkingPositive(cfg, st, cfg.cores);
      Phases.IsDue(cfg, st, cfg.cores, i);
      ArriveKeeps(cfg, st, i, id);
    } else {
      SameKeeps(cfg, st, cfg.cores, id);
    }
  }

  lemma FinishingKeeps(cfg: Config, st: Sim, i: nat, id: int)
    requires Legal(cfg) && Steady(cfg, Finishing(st, i))
    ensures var r := After(cfg, Finishing(st, i)).st;
            && Tabled(st) && Tabled(r) && Fewer(st, r, id) && Dispatches(st, r, id) && Hears(st, r, id)
            && (if Finishes(Finishing(st, i), id) then id !in Listed(r.jobs) else Keeps(st, r, id))
  {
    hide Good, FinishAt, Listed, Queued, Keeps, Dispatches, Hears, Tabled;
    if i < |st.jobs| && st.jobs[i].run == 0 {
      FinishKeeps(cfg, st, i, id);
    } else {
      SameKeeps(cfg, st, 0, id);
    }
  }

  /** Only a job that has had a full quantum is taken off its core. */
  lemma RotatingKeeps(cfg: Config, st: Sim, i: nat, id: int)
    requires Legal(cfg) && Steady(cfg, Rotating(st, i))
    ensures var r := After(cfg, Rotating(st, i)).st;
            && Tabled(st) && Tabled(r) && Fewer(st, r, id) && Dispatches(st, r, id) && Hears(st, r, id)
            && (Keeps(st, r, id)
                || (id in Queued(st.sched.queue) && Queued(st.sched.queue)[id].core == i
                    && QuantumOver(cfg, Rotating(st, i), i, Queued(st.sched.queue)[id].start)))
  {
    hide Good, ExpireAt, Listed, Queued, Dispatches, Hears, Keeps, Fewer, Tabled, First;
    SameKeeps(cfg, st, i, id);
    if i < |st.clocks| && st.clocks[i] == 0 && First(SitsOn(i), st.jobs) < |st.jobs| {
      Phases.WorkingPositive(cfg, st, i);
      ExpireKeeps(cfg, st, i, id);
      FullQuantum(cfg, st, i, id);
    } else if i < |st.clocks| && st.clocks[i] == 0 {
      Phases.ExpireNobody(cfg, st, i);
    }
  }

  /** The clock of a core stands at 0 exactly when its job has had a full quantum. */
  lemma FullQuantum(cfg: Config, st: Sim, core: nat, id: int)
    requires cfg.scheme == RR && Good(cfg, st, core) && core < |st.clocks|
    ensures Tabled(st)
    ensures id in Listed(st.jobs) && Listed(st.jobs)[id].core == core ==>
              && id in Queued(st.sched.queue) && Queued(st.sched.queue)[id].core == core
              && (st.clocks[core] == 0 <==> st.time == Queued(st.sched.queue)[id].start + cfg.quantum)
  {
    hide Queued, Listed;
    var qs := Queued(st.sched.queue);
    GoodSound(cfg, st, core, id);
    if id in qs {
      assert Paced(cfg, st.clocks, qs[id], st.time, core);
    }
  }

  /** One step of the loop, for any scheme: who loses its core has used up its time, has had its
      quantum, or is preempted; who gets one gets it now. */
  lemma StepKeeps(cfg: Config, k: nat, id: int)
    requires Legal(cfg)
    ensures var m, r := MomentAt(cfg, k), MomentAt(cfg, k + 1);
            && Tabled(m.st) && Tabled(r.st) && Fewer(m.st, r.st, id)
            && Dispatches(m.st, r.st, id) && Hears(m.st, r.st, id)
            && (Finishes(m, id) ==> id !in Listed(r.st.jobs))
            && (!Preemptive(cfg.scheme) || !Joins(m) ==>
                  || Finishes(m, id) || Keeps(m.st, r.st, id)
                  || (id in Queued(m.st.sched.queue)
                      && var q := Queued(m.st.sched.queue)[id]; QuantumOver(cfg, m, q.core, q.start)))
  {
    AlwaysSteady(cfg, k);
    NextStep(cfg, Finishing(Start(cfg), 0), k);
    hide MomentAt, Good, After, Steady, Listed, Queued, Later, Keeps, Dispatches, Hears, Tabled, Fewer;
    var m := MomentAt(cfg, k);
    match m
    case Finishing(st, i) => FinishingKeeps(cfg, st, i, id);
    case Rotating(st, i) => RotatingKeeps(cfg, st, i, id);
    case Admitting(st, i) => AdmitKeeps(cfg, st, i, id);
  }

  /** A core is only ever given away now: whoever is on a core on which it was not before has been
      dispatched at this very time. */
  lemma DispatchedNow(cfg: Config, k: nat, id: int, core: int)
    requires Legal(cfg) && core != -1
    requires RunsOn(MomentAt(cfg, k + 1).st, id, core) && !RunsOn(MomentAt(cfg, k).st, id, core)
    ensures RunsSince(MomentAt(cfg, k + 1).st, id, core, MomentAt(cfg, k + 1).st.time)
  {
    hide MomentAt, RunsOn, RunsSince, Listed, Queued, Finishes;
    StepKeeps(cfg, k, id);
    ListedRuns(MomentAt(cfg, k).st, id, core);
    ListedRuns(MomentAt(cfg, k + 1).st, id, core);
    ListedSince(MomentAt(cfg, k + 1).st, id, core, MomentAt(cfg, k + 1).st.time);
  }

  /** The step in terms of the entries. */
  lemma StepRuns(cfg: Config, k: nat, id: int, core: int, since: int)
    requires Legal(cfg) && !Preemptive(cfg.scheme) && core != -1
    ensures var m, r := MomentAt(cfg, k), MomentAt(cfg, k + 1);
            && (RunsSince(m.st, id, core, since) ==>
                  || RunsSince(r.st, id, core, since)
                  || (Finishes(m, id) && Gone(r.st, id))
                  || QuantumOver(cfg, m, core, since))
            && (Gone(m.st, id) ==> Gone(r.st, id))
  {
    hide MomentAt, RunsOn, RunsSince, Gone, Listed, Queued, Finishes, Legal, QuantumOver;
    StepKeeps(cfg, k, id);
    ListedRuns(MomentAt(cfg, k).st, id, core);
    ListedRuns(MomentAt(cfg, k + 1).st, id, core);
    ListedSince(MomentAt(cfg, k).st, id, core, since);
    ListedSince(MomentAt(cfg, k + 1).st, id, core, since);
  }

  /** Without preemption a job that was given a core keeps it until it has used up its time or, under
      round robin only, a full quantum after it was given the core. */
  lemma {:induction false} KeepsQuantum(cfg: Config, k: nat, n: nat, id: int, core: int, since: int) returns (l: nat)
    requires Legal(cfg) && !Preemptive(cfg.scheme) && core != -1 && RunsSince(MomentAt(cfg, k).st, id, core, since)
    ensures RunsSince(MomentAt(cfg, k + n).st, id, core, since)
            || (&& k <= l < k + n && RunsSince(MomentAt(cfg, l).st, id, core, since)
                && (Finishes(MomentAt(cfg, l), id) || QuantumOver(cfg, MomentAt(cfg, l), core, since)))
  {
    hide MomentAt, RunsSince, Gone, Finishes, Legal, QuantumOver, Preemptive;
    l := k;
    if n > 0 {
      l := KeepsQuantum(cfg, k, n - 1, id, core, since);
      StepRuns(cfg, k + n - 1, id, core, since);
      if RunsSince(MomentAt(cfg, k + n - 1).st, id, core, since) {
        l := k + n - 1;
      }
    }
  }

  /** Under FCFS, SJF and PRI a job that is on a core stays on it until it has used up its time, and
      then it is gone for good. */
  lemma {:induction false} KeepsCore(cfg: Config, k: nat, n: nat, id: int, core: int, since: int) returns (l: nat)
    requires Legal(cfg) && RunsToCompletion(cfg.scheme) && core != -1 && RunsSince(MomentAt(cfg, k).st, id, core, since)
    ensures RunsSince(MomentAt(cfg, k + n).st, id, core, since)
            || (&& k <= l < k + n && RunsSince(MomentAt(cfg, l).st, id, core, since) && Finishes(MomentAt(cfg, l), id)
                && Gone(MomentAt(cfg, k + n).st, id))
  {
    hide MomentAt, RunsSince, Gone, Finishes, Legal;
    l := k;
    if n > 0 {
      l := KeepsCore(cfg, k, n - 1, id, core, since);
      StepRuns(cfg, k + n - 1, id, core, since);
      if RunsSince(MomentAt(cfg, k + n - 1).st, id, core, since) {
        l := k + n - 1;
      }
    }
  }

  /** Whoever is on a core was given it at some time. */
  lemma RunsSinceSome(cfg: Config, k: nat, id: int, core: int) returns (since: int)
    requires Legal(cfg) && core != -1 && RunsOn(MomentAt(cfg, k).st, id, core)
    ensures RunsSince(MomentAt(cfg, k).st, id, core, since) && since <= MomentAt(cfg, k).st.time
  {
    hide MomentAt, RunsOn, RunsSince, Listed, Queued;
    var low := AlwaysGood(cfg, k);
    var st := MomentAt(cfg, k).st;
    GoodTabled(cfg, st, low);
    GoodSound(cfg, st, low, id);
    ListedRuns(st, id, core);
    since := Queued(st.sched.queue)[id].start;
    ListedSince(st, id, core, since);
  }

  // ----- the first core -----

  /** Job `id` has been on a core at moment `k` or before. */
  ghost predicate HasRun(cfg: Config, k: nat, id: int) {
    exists l: nat, core :: l <= k && core != -1 && RunsOn(MomentAt(cfg, l).st, id, core)
  }

  lemma HasRunNext(cfg: Config, k: nat, id: int)
    requires Unique(MomentAt(cfg, k + 1).st.jobs)
    ensures var js := Listed(MomentAt(cfg, k + 1).st.jobs);
            HasRun(cfg, k + 1, id) <==> HasRun(cfg, k, id) || (id in js && js[id].core != -1)
  {
    hide MomentAt, RunsOn, Listed;
    var st := MomentAt(cfg, k + 1).st;
    if id in Listed(st.jobs) {
      ListedRuns(st, id, Listed(st.jobs)[id].core);
    }
    if HasRun(cfg, k, id) {
      var l: nat, core :| l <= k && core != -1 && RunsOn(MomentAt(cfg, l).st, id, core);
      assert l <= k + 1;
    }
    if l: nat, core :| l <= k + 1 && core != -1 && RunsOn(MomentAt(cfg, l).st, id, core) {
      ListedRuns(st, id, core);
    }
  }

  lemma {:induction false} AnsweredIfRun(cfg: Config, k: nat, id: int)
    requires Legal(cfg)
    ensures Tabled(MomentAt(cfg, k).st)
    ensures var st := MomentAt(cfg, k).st;
            id in Listed(st.jobs) ==>
              (HasRun(cfg, k, id) <==> id in Queued(st.sched.queue) && Queued(st.sched.queue)[id].responded)
  {
    hide MomentAt, RunsOn, Listed, Queued, HasRun, Unique, Keyed;
    StepKeeps(cfg, k, id);
    if k == 0 {
      NobodyHasRun(cfg, id);
    } else {
      StepKeeps(cfg, k - 1, id);
      AnsweredIfRun(cfg, k - 1, id);
      HasRunNext(cfg, k - 1, id);
      var low := AlwaysGood(cfg, k);
      GoodSound(cfg, MomentAt(cfg, k).st, low, id);
    }
  }

  lemma NobodyHasRun(cfg: Config, id: int)
    requires Legal(cfg)
    ensures var st := MomentAt(cfg, 0).st;
            !HasRun(cfg, 0, id) && Keyed(st.sched.queue) && id !in Queued(st.sched.queue)
  {
    NoSteps(cfg, Finishing(Start(cfg), 0));
  }

  /** The scheduler's mark for a job that has been answered is right at every moment of every run: it is
      set exactly when the job has had a core. */
  lemma AnsweredIffRun(cfg: Config, k: nat, q: nat)
    requires Legal(cfg) && q < |MomentAt(cfg, k).st.sched.queue|
    ensures var x := MomentAt(cfg, k).st.sched.queue[q]; x.responded <==> HasRun(cfg, k, x.id)
  {
    hide MomentAt, Listed, Queued, HasRun;
    var st := MomentAt(cfg, k).st;
    var e := RecordIsEntry(cfg, k, q);
    AnsweredIfRun(cfg, k, st.sched.queue[q].id);
    AtIndex(st.sched.queue, q);
    EntryAt(st.jobs, e);
  }

  // ----- what happens when a quantum is over -----

  /** The job goes idle and the first job of the line gets the core, unless the line is empty: then the
      job gets its core back, for another quantum. */
  lemma QuantumEnds(cfg: Config, k: nat, id: int, core: int, since: int)
    requires Legal(cfg) && core != -1
    requires RunsSince(MomentAt(cfg, k).st, id, core, since) && QuantumOver(cfg, MomentAt(cfg, k), core, since)
    ensures var m, r := MomentAt(cfg, k).st, MomentAt(cfg, k + 1).st;
            var line := RoundRobin.IdleIds(m.sched.queue);
            && 0 <= core < |r.clocks| && r.clocks[core] == cfg.quantum
            && (if line == [] then RunsSince(r, id, core, r.time)
                else RunsOn(r, id, -1) && RunsSince(r, line[0], core, r.time))
  {
    AlwaysSteady(cfg, k);
    NextStep(cfg, Finishing(Start(cfg), 0), k);
    hide MomentAt, RunsSince, RunsOn, Listed, Queued, Later, Good, ExpireAt, RoundRobin.IdleIds, Phases.Past;
    var st := MomentAt(cfg, k).st;
    GoodTabled(cfg, st, core);
    ListedSince(st, id, core, since);
    FullQuantum(cfg, st, core, id);
    CoreExists(cfg, st, core, id);
    Phases.WorkingPositive(cfg, st, core);
    ExpiryHands(cfg, st, core, id);
  }

  lemma CoreExists(cfg: Config, st: Sim, low: int, id: int)
    requires Good(cfg, st, low) && id in Listed(st.jobs) && Listed(st.jobs)[id].core != -1
    ensures 0 <= Listed(st.jobs)[id].core < |st.clocks| == cfg.cores
    ensures First(SitsOn(Listed(st.jobs)[id].core), st.jobs) < |st.jobs|
    ensures st.jobs[First(SitsOn(Listed(st.jobs)[id].core), st.jobs)].id == id
  {
    hide Queued, Listed;
    GoodSound(cfg, st, low, id);
    OnlySitter(cfg, st.time, Listed(st.jobs), st.sched, id);
    var core := Listed(st.jobs)[id].core;
    var k := First(SitsOn(core), st.jobs);
    var e := EntryIndex(st.jobs, id);
    assert SitsOn(core)(st.jobs[e]);
    EntryAt(st.jobs, k);
  }

  lemma ExpiryHands(cfg: Config, st: Sim, core: nat, id: int)
    requires Legal(cfg) && cfg.scheme == RR && Good(cfg, st, core) && Positive(Listed(st.jobs)) && core < |st.clocks|
    requires First(SitsOn(core), st.jobs) < |st.jobs| && st.jobs[First(SitsOn(core), st.jobs)].id == id
    ensures var r, line := ExpireAt(cfg, st, core), RoundRobin.IdleIds(st.sched.queue);
            && r.time == st.time && core < |r.clocks| && r.clocks[core] == cfg.quantum
            && (if line == [] then RunsSince(r, id, core, r.time)
                else RunsOn(r, id, -1) && RunsSince(r, line[0], core, r.time))
  {
    hide QuantumExpired, Handover, Queued, Listed, Synced, Seated, Order.Ordered, Order.Patient, Front, Clocked,
         Answered, Conserved, Positive, RunsOn, RunsSince, RoundRobin.IdleIds;
    var s, now, k := st.sched, st.time, First(SitsOn(core), st.jobs);
    var js, qs := Listed(st.jobs), Queued(s.queue);
    var r, line := ExpireAt(cfg, st, core), RoundRobin.IdleIds(s.queue);
    EntryAt(st.jobs, k);
    OnlySitter(cfg, now, js, s, id);
    ExpireSoundNow(cfg, st, core, id);
    ExpireSeat(s.active, qs, id, Expired(qs[id], now));
    var jobs := st.jobs[k := st.jobs[k].(core := -1)];
    UpdateListed(st.jobs, k, st.jobs[k].(core := -1));
    var m := ExpiredTable(s, core, id, now);
    var (t, next) := QuantumExpired(s, core, now);
    HandoverTables(cfg, now, jobs, m, t, core, -1, next);
    RoundRobin.FoundOnCore(s, id, core);
    RoundRobin.ExpiredFifo(s, core, now);
    if line != [] {
      assert next == line[0];
      RoundRobin.WaitingIsIdle(s.queue, line[0]);
      var i :| 0 <= i < |s.queue| && s.queue[i].id == line[0] && s.queue[i].core == -1;
      AtIndex(s.queue, i);
      assert next != id;
    } else {
      assert next == id;
    }
    GoodSound(cfg, st, core, next);
    ListedRuns(r, id, -1);
    ListedSince(r, next, core, now);
  }
}
