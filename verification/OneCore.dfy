/** Runs on a single core: every scheme does the same work, and PSJF does it best. */
module OneCore {
  import opened Jobs
  import opened SimulatorSpec
  import opened SchedulerTables
  import Order
  import opened Invariant
  import opened Entries
  import opened Ledgers
  import Counting
  import opened Runs
  import RunsForward
  import Phases
  import Accounting
  import Progress
  import opened Majorization

  /** The work each loaded job still needs at the top of iteration `n`. */
  ghost function Work(cfg: Config, n: nat): (v: seq<int>)
    requires Legal(cfg)
    ensures |v| == |cfg.load|
  {
    Accounting.StateGood(cfg, n);
    Left(cfg, Listed(StateAt(cfg, n).jobs))
  }

  /** All there is to know about the state in which time unit `n` is run. */
  ghost predicate RunState(cfg: Config, n: nat, r: Sim, js: EntryTable, qs: JobTable)
    requires Legal(cfg)
  {
    && r == Ready(cfg, StateAt(cfg, n)) && r.time == n
    && Good(cfg, r, cfg.cores) && js == Listed(r.jobs) && qs == Queued(r.sched.queue)
    && Positive(js) && Synced(cfg, n, js, qs)
    && Work(cfg, n) == Left(cfg, js)
    && (forall id :: id in js ==> (js[id].arrived <==> js[id].arrival <= n))
    && Work(cfg, n + 1) == Left(cfg, Ran(js))
  }

  lemma RunStateHolds(cfg: Config, n: nat) returns (r: Sim, js: EntryTable, qs: JobTable)
    requires Legal(cfg)
    ensures RunState(cfg, n, r, js, qs)
  {
    var st := StateAt(cfg, n);
    r := Ready(cfg, st);
    hide Queued, Listed, Ready, Left, Sum, Balance, Elapsed, Phases.Past, Order.Ordered, Clocked, Answered, Front,
         Seated;
    Accounting.StateGood(cfg, n);
    Accounting.StateGood(cfg, n + 1);
    Phases.ReadyGood(cfg, st);
    js, qs := Listed(r.jobs), Queued(r.sched.queue);
    forall id | id in js
      ensures js[id].arrived <==> js[id].arrival <= n
    {
      var k := EntryIndex(r.jobs, id);
    }
    hide Tick;
    RunsForward.TickGood(cfg, r);
  }

  /** The queued jobs are the ones that have arrived and have work left. */
  lemma QueuedIsPending(cfg: Config, n: nat, r: Sim, js: EntryTable, qs: JobTable, id: int)
    requires Legal(cfg) && RunState(cfg, n, r, js, qs)
    ensures id in qs <==> Pending(cfg.load, Work(cfg, n), n, id)
    ensures id in qs ==> id in js && js[id].run == Work(cfg, n)[id] && js[id].arrived
  {
    hide Queued, Listed, Ready, Work, Good;
    assert Sound(cfg, n, id, js, qs);
  }

  /** The number of jobs in the system is the number of pending ones. */
  lemma AliveIsAbove(cfg: Config, n: nat)
    requires Legal(cfg)
    ensures Accounting.AliveDuring(cfg, n) == Above(cfg.load, Work(cfg, n), n, 0)
  {
    hide Queued, Listed, Ready, Work;
    var r, js, qs := RunStateHolds(cfg, n);
    var m := Marks(cfg.load, Work(cfg, n), n, 0);
    forall id
      ensures id in qs <==> 0 <= id < |m| && m[id] == 1
    {
      QueuedIsPending(cfg, n, r, js, qs, id);
    }
    CountMarks(m, qs, |m|);
    assert m[..|m|] == m;
    assert Below(qs, |m|) == qs.Keys;
    Counting.QueuedSize(r.sched.queue);
  }

  lemma {:induction false} CountMarks(m: seq<int>, qs: JobTable, n: nat)
    requires n <= |m|
    requires forall id :: 0 <= id < |m| ==> m[id] == if id in qs then 1 else 0
    ensures Sum(m[..n]) == |Below(qs, n)|
  {
    if n > 0 {
      CountMarks(m, qs, n - 1);
      BelowNext(qs, n);
      assert m[..n][..n - 1] == m[..n - 1];
    } else {
      assert Below(qs, 0) == {};
    }
  }

  /** One time unit on one core does one unit of work on some pending job, if there is one;
      under PSJF that job is least by remaining work, then by arrival. */
  lemma OneCoreStep(cfg: Config, n: nat) returns (p: int)
    requires Legal(cfg) && cfg.cores == 1
    ensures var v := Work(cfg, n);
            if p == -1 then Work(cfg, n + 1) == v && forall id :: !Pending(cfg.load, v, n, id)
            else Pending(cfg.load, v, n, p) && Work(cfg, n + 1) == v[p := v[p] - 1]
    ensures p != -1 && cfg.scheme == PSJF ==>
      forall id :: Pending(cfg.load, Work(cfg, n), n, id) ==> LeastWork(cfg, Work(cfg, n), p, id)
  {
    hide RunState, Work, Ready, Pending, Queued;
    var r, js, qs := RunStateHolds(cfg, n);
    p := Runner(cfg, n, r, js, qs);
    if p == -1 {
      NobodyQueued(cfg, n, r, js, qs);
    } else {
      OnlyRunner(cfg, n, r, js, qs, p);
      if cfg.scheme == PSJF {
        forall id | Pending(cfg.load, Work(cfg, n), n, id)
          ensures 0 <= id < |cfg.load| && LeastWork(cfg, Work(cfg, n), p, id)
        {
          ShortestPending(cfg, n, r, js, qs, p, id);
        }
      }
    }
  }

  /** Job `p` has less work left than job `id`, or as much and arrived no later. */
  predicate LeastWork(cfg: Config, v: seq<int>, p: int, id: int)
    requires |v| == |cfg.load| && 0 <= p < |v| && 0 <= id < |v|
  {
    v[p] < v[id] || (v[p] == v[id] && cfg.load[p].arrival <= cfg.load[id].arrival)
  }

  /** The job on the core, or -1 when no job is alive. */
  lemma Runner(cfg: Config, n: nat, r: Sim, js: EntryTable, qs: JobTable) returns (p: int)
    requires Legal(cfg) && RunState(cfg, n, r, js, qs)
    ensures if p == -1 then r.alive == 0
            else p in js && js[p].core != -1 && js[p].arrived && Pending(cfg.load, Work(cfg, n), n, p)
  {
    hide Queued, Listed, Ready, Work, Synced, Positive;
    if r.alive == 0 {
      p := -1;
    } else {
      p := Progress.SomeoneRuns(cfg, r, cfg.cores);
      QueuedIsPending(cfg, n, r, js, qs, p);
      RunnerQueued(cfg, n, js, qs, p);
    }
  }

  lemma RunnerQueued(cfg: Config, n: int, js: EntryTable, qs: JobTable, p: int)
    requires Synced(cfg, n, js, qs) && p in js && js[p].arrived
    ensures p in qs && p >= 0
  {
    assert Sound(cfg, n, p, js, qs);
  }

  lemma ShortestPending(cfg: Config, n: nat, r: Sim, js: EntryTable, qs: JobTable, p: int, id: int)
    requires Legal(cfg) && cfg.cores == 1 && cfg.scheme == PSJF && RunState(cfg, n, r, js, qs)
    requires p in js && js[p].core != -1 && js[p].arrived && Pending(cfg.load, Work(cfg, n), n, id)
    ensures 0 <= p < |cfg.load| && 0 <= id < |cfg.load| && LeastWork(cfg, Work(cfg, n), p, id)
  {
    hide Queued, Listed, Ready, Work, Good, Seated;
    assert Sound(cfg, n, p, js, qs) && Sound(cfg, n, id, js, qs);
    QueuedIsPending(cfg, n, r, js, qs, p);
    QueuedIsPending(cfg, n, r, js, qs, id);
    ShortestRuns(cfg, r, cfg.cores, p, id);
  }

  lemma NobodyQueued(cfg: Config, n: nat, r: Sim, js: EntryTable, qs: JobTable)
    requires Legal(cfg) && RunState(cfg, n, r, js, qs) && r.alive == 0
    ensures Work(cfg, n + 1) == Work(cfg, n) && forall id :: !Pending(cfg.load, Work(cfg, n), n, id)
  {
    hide Queued, Listed, Ready, Work;
    forall id
      ensures !Pending(cfg.load, Work(cfg, n), n, id)
      ensures id in js ==> js[id].core == -1
    {
      QueuedIsPending(cfg, n, r, js, qs, id);
      assert Sound(cfg, n, id, js, qs);
      if id in qs {
        var i := IndexOf(r.sched.queue, id);
      }
    }
    assert Left(cfg, Ran(js)) == Left(cfg, js);
  }

  /** On one core the job that runs is the only one that loses work. */
  lemma OnlyRunner(cfg: Config, n: nat, r: Sim, js: EntryTable, qs: JobTable, p: int)
    requires Legal(cfg) && cfg.cores == 1 && RunState(cfg, n, r, js, qs) && p in js && js[p].core != -1
    ensures 0 <= p < |cfg.load| && Work(cfg, n + 1) == Work(cfg, n)[p := Work(cfg, n)[p] - 1]
  {
    hide Queued, Listed, Ready, Work, Clocked, Answered, Front, Order.Ordered;
    assert Sound(cfg, n, p, js, qs);
    forall id | id in js && js[id].core != -1
      ensures id == p
    {
      assert Sound(cfg, n, id, js, qs);
    }
    var a, b := Left(cfg, Ran(js)), Left(cfg, js)[p := Left(cfg, js)[p] - 1];
    assert forall id :: 0 <= id < |a| ==> a[id] == b[id];
  }

  /** On one core PSJF always runs the job least by true remaining time, then arrival, although
      the queue compares stored remaining times. */
  lemma ShortestRuns(cfg: Config, st: Sim, low: int, p: int, id: int)
    requires Legal(cfg) && cfg.cores == 1 && cfg.scheme == PSJF && Good(cfg, st, low)
    requires p in Listed(st.jobs) && Listed(st.jobs)[p].core != -1
    requires id in Listed(st.jobs) && Listed(st.jobs)[id].arrived
    ensures var a, b := Listed(st.jobs)[p], Listed(st.jobs)[id];
            a.run < b.run || (a.run == b.run && a.arrival <= b.arrival)
  {
    hide Queued, Listed;
    var js, qs, q := Listed(st.jobs), Queued(st.sched.queue), st.sched.queue;
    assert Sound(cfg, st.time, p, js, qs) && Sound(cfg, st.time, id, js, qs);
    var i := IndexOf(q, p);
    var k := IndexOf(q, id);
    assert i == 0;
    if k > 0 {
      assert Comparer(PSJF)(q[0], q[k]) <= 0;
      assert Compare(PSJF, q[0], q[k]) <= 0;
    }
  }

  /** Jobs that have not arrived by `n` still need all their work at the top of iteration `n + 1`. */
  lemma FutureUntouched(cfg: Config, n: nat)
    requires Legal(cfg)
    ensures Untouched(cfg.load, Work(cfg, n + 1), n)
    ensures forall id :: 0 <= id < |cfg.load| ==> Work(cfg, n)[id] >= 0
  {
    hide Queued, Listed, Ready, Work;
    var r, js, qs := RunStateHolds(cfg, n);
    forall id | 0 <= id < |cfg.load|
      ensures cfg.load[id].arrival > n ==> Work(cfg, n + 1)[id] == cfg.load[id].run
      ensures Work(cfg, n)[id] >= 0
    {
      assert Sound(cfg, n, id, js, qs);
    }
  }
}
