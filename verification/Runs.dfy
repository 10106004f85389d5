/** The invariant of the whole simulation and what one event or phase conserves. */
module Runs {
  import opened Jobs
  import QueueSpec
  import opened SchedulerSpec
  import opened SimulatorSpec
  import opened SchedulerTables
  import Arrivals
  import opened Order
  import opened Invariant
  import opened Entries
  import opened Ledgers

  /** Sequence-level part: both job lists have distinct ids and the sizes fit. */
  ghost predicate Shaped(cfg: Config, st: Sim) {
    && |st.clocks| == cfg.cores == |st.sched.active|
    && st.sched.scheme == cfg.scheme
    && Unique(st.jobs) && Keyed(st.sched.queue)
    && st.alive == |st.sched.queue|
    && st.sched.numJobs + |st.jobs| == |cfg.load| + st.alive
  }

  ghost predicate Synced'(cfg: Config, st: Sim)
    requires Shaped(cfg, st)
  {
    && Synced(cfg, st.time, Listed(st.jobs), Queued(st.sched.queue))
    && Seated(st.sched.active, Queued(st.sched.queue), -1)
  }

  /** A running job has used exactly what its core's quantum clock has lost; the clocks of cores
      below `low` have not run out. */
  ghost predicate Paced(cfg: Config, clocks: seq<int>, q: Job, now: int, low: int) {
    0 <= q.core < |clocks| ==>
      && clocks[q.core] == cfg.quantum - (now - q.start)
      && clocks[q.core] >= if q.core < low then 1 else 0
  }

  ghost predicate Clocked(cfg: Config, clocks: seq<int>, qs: JobTable, now: int, low: int) {
    cfg.scheme == RR ==> forall id :: id in qs ==> Paced(cfg, clocks, qs[id], now, low)
  }

  predicate RunsToCompletion(scheme: Scheme) {
    scheme == FCFS || scheme == SJF || scheme == PRI
  }

  /** Response never exceeds waiting; without preemption they agree, as no idle job has run before. */
  ghost predicate Answered(s: Sched, qs: JobTable) {
    && s.response <= s.waiting
    && (RunsToCompletion(s.scheme) ==>
          && s.response == s.waiting
          && forall id :: id in qs && qs[id].core == -1 ==> !qs[id].responded)
  }

  ghost predicate Good(cfg: Config, st: Sim, low: int) {
    && Shaped(cfg, st) && Synced'(cfg, st)
    && Clocked(cfg, st.clocks, Queued(st.sched.queue), st.time, low)
    && Answered(st.sched, Queued(st.sched.queue))
    && Ordered(st.sched) && Patient(st.sched)
    && (Preemptive(cfg.scheme) ==> Front(st.sched))
  }

  /** Turnaround not yet matched by waiting: constant over a whole run. */
  ghost function Balance(cfg: Config, s: Sched, js: EntryTable, qs: JobTable): int {
    s.turnaround - s.waiting + Sum(Shares(cfg, js, qs))
  }

  /** Turnaround of the finished jobs plus the time the others have spent so far. */
  ghost function Elapsed(cfg: Config, s: Sched, qs: JobTable, now: int): int {
    s.turnaround + Sum(Ages(cfg, qs, now))
  }

  /** What no phase before the run phase changes. */
  ghost predicate Conserved(cfg: Config, a: Sim, b: Sim) {
    && Shaped(cfg, a) && Shaped(cfg, b)
    && b.time == a.time
    && Left(cfg, Listed(b.jobs)) == Left(cfg, Listed(a.jobs))
    && Balance(cfg, b.sched, Listed(b.jobs), Queued(b.sched.queue))
       == Balance(cfg, a.sched, Listed(a.jobs), Queued(a.sched.queue))
    && Elapsed(cfg, b.sched, Queued(b.sched.queue), b.time)
       == Elapsed(cfg, a.sched, Queued(a.sched.queue), a.time)
  }

  /** The phases before arrivals drop entries and move cores, nothing else. */
  ghost predicate OnlyCores(js: EntryTable, js': EntryTable) {
    forall id :: id in js' ==> id in js && js'[id] == js[id].(core := js'[id].core)
  }

  lemma DropOnlyCores(js: EntryTable, id: int)
    ensures OnlyCores(js, js - {id})
  {
  }

  lemma IdleOnlyCores(js: EntryTable, id: int)
    requires id in js
    ensures OnlyCores(js, js[id := js[id].(core := -1)])
  {
  }

  // ----- handing a freed core over -----

  /** The freed core `core` and the state of both sides while it is handed over. */
  ghost predicate Freed(cfg: Config, now: int, jobs: seq<SimJob>, m: Sched, core: int) {
    && Unique(jobs) && Keyed(m.queue)
    && Synced(cfg, now, Listed(jobs), Queued(m.queue)) && Seated(m.active, Queued(m.queue), core)
    && 0 <= core < |m.active| && m.active[core]
  }

  ghost function Reseated(js: EntryTable, next: int, core: int): EntryTable {
    if next in js then js[next := js[next].(core := core)] else js
  }

  lemma ReseatedOnlyCores(js: EntryTable, rest: EntryTable, next: int, core: int)
    requires OnlyCores(js, rest)
    ensures OnlyCores(js, Reseated(rest, next, core))
  {
  }

  lemma HandoverTables(cfg: Config, now: int, jobs: seq<SimJob>, m: Sched, t: Sched, core: int, mark: int, next: int)
    requires Freed(cfg, now, jobs, m, core) && Woken(m, t, core, now, mark, next)
    ensures next != -1 ==> QueueSpec.First(ArrivedAs(next), jobs) < |jobs|
    ensures var r := Handover(jobs, next, core);
            && Unique(r)
            && Listed(r) == Reseated(Listed(jobs), next, core)
            && Synced(cfg, now, Listed(r), Queued(t.queue)) && Seated(t.active, Queued(t.queue), -1)
  {
    var js, qs := Listed(jobs), Queued(m.queue);
    assert Sound(cfg, now, -1, js, qs);
    if next == -1 {
      IdleSeat(m.active, qs, core);
    } else {
      assert Sound(cfg, now, next, js, qs);
      SetActiveListed(jobs, next, core);
      DispatchSound(cfg, now, js, qs, next, core, mark);
      DispatchSeat(m.active, qs, next, core, Dispatched(qs[next], core, now, mark));
    }
  }

  lemma WokenTotals(cfg: Config, now: int, js: EntryTable, m: Sched, t: Sched, core: int, mark: int, next: int)
    requires Keyed(m.queue) && Synced(cfg, now, js, Queued(m.queue)) && core >= 0
    requires Woken(m, t, core, now, mark, next)
    ensures Left(cfg, Reseated(js, next, core)) == Left(cfg, js)
    ensures Balance(cfg, t, Reseated(js, next, core), Queued(t.queue)) == Balance(cfg, m, js, Queued(m.queue))
    ensures Elapsed(cfg, t, Queued(t.queue), now) == Elapsed(cfg, m, Queued(m.queue), now)
  {
    hide Left, Shares, Ages, Queued;
    var qs := Queued(m.queue);
    assert Sound(cfg, now, -1, js, qs);
    if next != -1 {
      assert Sound(cfg, now, next, js, qs);
      var js', qs' := Reseated(js, next, core), Queued(t.queue);
      assert js' == js[next := js[next].(core := core)];
      assert qs' == qs[next := Dispatched(qs[next], core, now, mark)];
      DispatchTotals(cfg, now, js, qs, next, core, mark);
      DispatchShares(cfg, now, js, qs, next, core, mark);
    }
  }

  lemma WakeAnswered(cfg: Config, now: int, js: EntryTable, m: Sched, t: Sched, core: int, mark: int, next: int)
    requires Keyed(m.queue) && Synced(cfg, now, js, Queued(m.queue)) && Answered(m, Queued(m.queue))
    requires core >= 0 && Woken(m, t, core, now, mark, next)
    ensures Answered(t, Queued(t.queue))
  {
    if next != -1 {
      assert Sound(cfg, now, next, js, Queued(m.queue));
    }
  }

  lemma WakeClocked(cfg: Config, now: int, clocks: seq<int>, m: Sched, t: Sched, core: int, mark: int, next: int,
    low: int)
    requires Legal(cfg) && Keyed(m.queue) && Clocked(cfg, clocks, Queued(m.queue), now, low)
    requires Seated(m.active, Queued(m.queue), core) && |clocks| == |m.active| && low <= core + 1
    requires 0 <= core < |m.active| && cfg.scheme == RR && Woken(m, t, core, now, mark, next)
    ensures Clocked(cfg, SetClock(clocks, core, cfg.quantum), Queued(t.queue), now, low)
    ensures low == core ==> Clocked(cfg, SetClock(clocks, core, cfg.quantum), Queued(t.queue), now, core + 1)
  {
    hide Queued;
    var clocks', qs' := SetClock(clocks, core, cfg.quantum), Queued(t.queue);
    assert forall a :: a in Queued(m.queue) && Queued(m.queue)[a].core != -1 ==> Queued(m.queue)[a].core != core;
    hide Seated;
    forall id | id in qs'
      ensures Paced(cfg, clocks', qs'[id], now, low)
      ensures low == core ==> Paced(cfg, clocks', qs'[id], now, core + 1)
    {
      if id != next {
        assert qs'[id] == Queued(m.queue)[id];
        assert Paced(cfg, clocks, qs'[id], now, low);
      }
    }
  }

  // ----- a job finishes -----

  lemma FinishGood(cfg: Config, st: Sim, i: nat)
    requires Legal(cfg) && Good(cfg, st, 0) && i < |st.jobs| && st.jobs[i].run == 0
    ensures Good(cfg, FinishAt(cfg, st, i), 0) && Conserved(cfg, st, FinishAt(cfg, st, i))
    ensures OnlyCores(Listed(st.jobs), Listed(FinishAt(cfg, st, i).jobs))
  {
    hide JobFinished, SwapDelete, SetActive, Handover, Queued, Listed, Left, Shares, Ages, Sum, Synced, Seated;
    hide Ordered, Patient, Front, OnlyCores, Reseated;
    var s, now, id, core := st.sched, st.time, st.jobs[i].id, st.jobs[i].core;
    var js, qs := Listed(st.jobs), Queued(s.queue);
    EntryAt(st.jobs, i);
    FinishSound(cfg, now, js, qs, id);
    FreeSeat(s.active, qs, id);
    DropTotals(cfg, now, js, qs, id);
    SwapDeleteListed(st.jobs, i);
    var m := FinishedTable(s, core, id, now);
    var (t, next) := JobFinished(s, core, id, now);
    HandoverTables(cfg, now, SwapDelete(st.jobs, i), m, t, core, 0, next);
    WokenTotals(cfg, now, js - {id}, m, t, core, 0, next);
    DropOnlyCores(js, id);
    ReseatedOnlyCores(js, js - {id}, next, core);
    WakeAnswered(cfg, now, js - {id}, m, t, core, 0, next);
    FinishedOrdered(s, core, id, now);
    FinishedPatient(s, core, id, now);
    if cfg.scheme == RR {
      WakeClocked(cfg, now, st.clocks, m, t, core, 0, next, 0);
    }
    if Preemptive(cfg.scheme) {
      FinishedFront(s, core, id, now);
    }
  }

  lemma FinishedFront(s: Sched, core: int, id: int, now: int)
    requires Keyed(s.queue) && id in Queued(s.queue) && Queued(s.queue)[id].core == core != -1
    requires Front(s)
    ensures Front(JobFinished(s, core, id, now).0)
  {
    hide Queued, Wake;
    var k := QueueSpec.First(HasId(id), s.queue);
    var i := IndexOf(s.queue, id);
    assert HasId(id)(s.queue[i]);
    AtIndex(s.queue, k);
    Arrivals.WakeFront(s.(turnaround := s.turnaround + (now - s.queue[k].arrival)), k, core, now, 0);
  }

  // ----- a quantum expires -----

  /** The scheduler's job on an active core is also the simulator's. */
  lemma OnlySitter(cfg: Config, now: int, js: EntryTable, s: Sched, id: int)
    requires Keyed(s.queue) && Synced(cfg, now, js, Queued(s.queue)) && Seated(s.active, Queued(s.queue), -1)
    requires id in js && js[id].core != -1
    ensures id in Queued(s.queue) && Queued(s.queue)[id].core == js[id].core && js[id].arrived
    ensures forall a :: a in js && js[a].core == js[id].core ==> a == id
    ensures forall a :: a in Queued(s.queue) && Queued(s.queue)[a].core == js[id].core ==> a == id
  {
    assert Sound(cfg, now, id, js, Queued(s.queue));
    forall a | a in js && js[a].core == js[id].core
      ensures a == id
    {
      assert Sound(cfg, now, a, js, Queued(s.queue));
    }
  }

  lemma PausesPast(cfg: Config, st: Sim, low: int)
    requires Good(cfg, st, low)
    ensures PausedBefore(st.sched.queue, st.time)
  {
    hide Queued, Listed, Good;
    forall i | 0 <= i < |st.sched.queue| && st.sched.queue[i].core == -1
      ensures st.sched.queue[i].pause <= st.time
    {
      GoodSound(cfg, st, low, st.sched.queue[i].id);
      AtIndex(st.sched.queue, i);
    }
  }

  lemma GoodSound(cfg: Config, st: Sim, low: int, id: int)
    requires Good(cfg, st, low)
    ensures Shaped(cfg, st) && Sound(cfg, st.time, id, Listed(st.jobs), Queued(st.sched.queue))
  {
  }

  lemma ExpireBalances(cfg: Config, now: int, js: EntryTable, s: Sched, m: Sched, id: int)
    requires Keyed(s.queue) && Keyed(m.queue) && m == s.(queue := m.queue)
    requires Synced(cfg, now, js, Queued(s.queue)) && id in js && id in Queued(s.queue)
      && Queued(s.queue)[id].core != -1
    requires Queued(m.queue) == Queued(s.queue)[id := Expired(Queued(s.queue)[id], now)]
    ensures var js' := js[id := js[id].(core := -1)];
            && Left(cfg, js') == Left(cfg, js)
            && Balance(cfg, m, js', Queued(m.queue)) == Balance(cfg, s, js, Queued(s.queue))
            && Elapsed(cfg, m, Queued(m.queue), now) == Elapsed(cfg, s, Queued(s.queue), now)
  {
    hide Queued, Left, Shares, Ages, Sum;
    ExpireTotals(cfg, now, js, Queued(s.queue), id);
  }

  lemma ExpireGood(cfg: Config, st: Sim, core: nat)
    requires Legal(cfg) && cfg.scheme == RR && Good(cfg, st, core) && Positive(Listed(st.jobs))
    requires QueueSpec.First(SitsOn(core), st.jobs) < |st.jobs|
    ensures Good(cfg, ExpireAt(cfg, st, core), core + 1) && Conserved(cfg, st, ExpireAt(cfg, st, core))
    ensures OnlyCores(Listed(st.jobs), Listed(ExpireAt(cfg, st, core).jobs))
  {
    hide QuantumExpired, SetActive, Handover, Queued, Listed, Left, Shares, Ages, Sum, Synced, Seated;
    hide Front, Patient, Balance, Elapsed, OnlyCores, Reseated;
    var s, now := st.sched, st.time;
    var k := QueueSpec.First(SitsOn(core), st.jobs);
    var js, qs, id := Listed(st.jobs), Queued(s.queue), st.jobs[k].id;
    EntryAt(st.jobs, k);
    OnlySitter(cfg, now, js, s, id);
    ExpireSound(cfg, now, js, qs, id);
    ExpireSeat(s.active, qs, id, Expired(qs[id], now));
    var jobs := st.jobs[k := st.jobs[k].(core := -1)];
    UpdateListed(st.jobs, k, st.jobs[k].(core := -1));
    var m := ExpiredTable(s, core, id, now);
    var (t, next) := QuantumExpired(s, core, now);
    HandoverTables(cfg, now, jobs, m, t, core, -1, next);
    IdleOnlyCores(js, id);
    ReseatedOnlyCores(js, Listed(jobs), next, core);
    ExpireBalances(cfg, now, js, s, m, id);
    WokenTotals(cfg, now, Listed(jobs), m, t, core, -1, next);
    WakeAnswered(cfg, now, Listed(jobs), m, t, core, -1, next);
    WakeClocked(cfg, now, st.clocks, m, t, core, -1, next, core);
    PausesPast(cfg, st, core);
    ExpiredPatient(s, core, now);
  }

  /** A core whose clock has not run out, or that nobody sits on, is passed over. */
  lemma PassOver(cfg: Config, st: Sim, core: nat)
    requires cfg.scheme == RR && Good(cfg, st, core) && core < |st.clocks|
    requires st.clocks[core] != 0 || QueueSpec.First(SitsOn(core), st.jobs) == |st.jobs|
    ensures Good(cfg, st, core + 1)
  {
    var js, qs := Listed(st.jobs), Queued(st.sched.queue);
    forall id | id in qs
      ensures Paced(cfg, st.clocks, qs[id], st.time, core + 1)
    {
      assert Paced(cfg, st.clocks, qs[id], st.time, core);
      if qs[id].core == core {
        assert Sound(cfg, st.time, id, js, qs);
        var i := EntryIndex(st.jobs, id);
        assert SitsOn(core)(st.jobs[i]);
      }
    }
  }
}
