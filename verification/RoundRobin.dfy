/** Round robin serves idle jobs first come, first served, and within a bounded time. */
module RoundRobin {
  import opened Jobs
  import opened QueueSpec
  import opened SchedulerSpec
  import opened SimulatorSpec
  import opened SchedulerTables
  import Arrivals
  import opened Order
  import opened Invariant
  import opened Entries
  import Ledgers
  import opened Runs
  import RunsForward
  import opened Phases
  import Accounting

  /** The ids of the idle jobs, in queue order. */
  function IdleIds(q: seq<Job>): seq<int> {
    if q == [] then [] else
      IdleIds(q[..|q| - 1]) + if q[|q| - 1].core == -1 then [q[|q| - 1].id] else []
  }

  lemma {:induction false} IdleConcat(a: seq<Job>, b: seq<Job>)
    ensures IdleIds(a + b) == IdleIds(a) + IdleIds(b)
  {
    if b == [] {
      assert a + b == a;
    } else {
      var n := |b| - 1;
      IdleConcat(a, b[..n]);
      assert (a + b)[..|a + b| - 1] == a + b[..n];
    }
  }

  lemma {:induction false} IdleNone(q: seq<Job>)
    requires forall i :: 0 <= i < |q| ==> q[i].core != -1
    ensures IdleIds(q) == []
  {
    if q != [] {
      IdleNone(q[..|q| - 1]);
    }
  }

  lemma IdleAround(a: seq<Job>, x: Job, b: seq<Job>)
    ensures IdleIds(a + [x] + b) == IdleIds(a) + (if x.core == -1 then [x.id] else []) + IdleIds(b)
  {
    IdleConcat(a + [x], b);
    IdleConcat(a, [x]);
    assert IdleIds([x]) == if x.core == -1 then [x.id] else [] by {
      assert [x][..0] == [];
    }
  }

  lemma IdleRemove(q: seq<Job>, k: nat)
    requires k < |q| && q[k].core != -1
    ensures IdleIds(RemoveAt(q, k)) == IdleIds(q)
  {
    assert q == q[..k] + [q[k]] + q[k + 1..];
    IdleAround(q[..k], q[k], q[k + 1..]);
    IdleConcat(q[..k], q[k + 1..]);
  }

  /** Waking takes the job at the front of the idle ones, whatever the scheme. */
  lemma WakeTakesFront(s: Sched, core: int, time: int, mark: int)
    requires core != -1
    ensures var (t, next) := Wake(s, core, time, mark);
            if IdleIds(s.queue) == [] then next == -1 && IdleIds(t.queue) == []
            else next == IdleIds(s.queue)[0] && IdleIds(t.queue) == IdleIds(s.queue)[1..]
  {
    var q := s.queue;
    var w := First(OnCore(-1), q);
    assert forall i :: 0 <= i < w ==> !OnCore(-1)(q[i]);
    if w < |q| {
      assert OnCore(-1)(q[w]);
      var x := Dispatched(q[w], core, time, mark);
      assert q == q[..w] + [q[w]] + q[w + 1..];
      assert q[w := x] == q[..w] + [x] + q[w + 1..];
      IdleNone(q[..w]);
      IdleAround(q[..w], q[w], q[w + 1..]);
      IdleAround(q[..w], x, q[w + 1..]);
    } else {
      IdleNone(q);
    }
  }

  /** A running job finishes: the idle job that has waited longest takes over. */
  lemma FinishedFifo(s: Sched, core: int, id: int, time: int)
    requires core != -1 && First(HasId(id), s.queue) < |s.queue| && s.queue[First(HasId(id), s.queue)].core != -1
    ensures var (t, next) := JobFinished(s, core, id, time);
            if IdleIds(s.queue) == [] then next == -1 && IdleIds(t.queue) == []
            else next == IdleIds(s.queue)[0] && IdleIds(t.queue) == IdleIds(s.queue)[1..]
  {
    var k := First(HasId(id), s.queue);
    IdleRemove(s.queue, k);
    WakeTakesFront(s.(queue := RemoveAt(s.queue, k), turnaround := s.turnaround + (time - s.queue[k].arrival)),
      core, time, 0);
  }

  /** A quantum expires: the job goes to the back, the front takes over. */
  lemma ExpiredFifo(s: Sched, core: int, time: int)
    requires s.scheme == RR && core != -1 && First(OnCore(core), s.queue) < |s.queue|
    ensures var (t, next) := QuantumExpired(s, core, time);
            var line := IdleIds(s.queue) + [s.queue[First(OnCore(core), s.queue)].id];
            next == line[0] && IdleIds(t.queue) == line[1..]
  {
    var k := First(OnCore(core), s.queue);
    var r, x := RemoveAt(s.queue, k), Expired(s.queue[k], time);
    assert OnCore(core)(s.queue[k]);
    IdleRemove(s.queue, k);
    RoundRobinAppends(r, x);
    IdleAround(r, x, []);
    assert r + [x] + [] == r + [x];
    WakeTakesFront(s.(queue := r + [x]), core, time, -1);
  }

  /** A new job takes a free core or goes to the back: nobody is overtaken. */
  lemma NewJobFifo(s: Sched, id: int, time: int, run: int, priority: int)
    requires s.scheme == RR
    ensures var (t, core) := NewJob(s, id, time, run, priority);
            IdleIds(t.queue) == if Arrivals.Full(s.active) then IdleIds(s.queue) + [id] else IdleIds(s.queue)
  {
    hide IdleIds, Offer, OfferIndex, Insert;
    var job, c := FreshJob(id, time, run, priority), First(Inactive(), s.active);
    if c < |s.active| {
      assert Inactive()(s.active[c]);
      IdleInsert(s.queue, OfferIndex(Comparer(RR), s.queue, job), Dispatched(job, c, time, time));
    } else {
      assert forall d :: 0 <= d < |s.active| ==> !Inactive()(s.active[d]);
      RoundRobinAppends(s.queue, job);
      IdleAppend(s.queue, job);
    }
  }

  lemma IdleInsert(q: seq<Job>, k: nat, x: Job)
    requires k <= |q| && x.core != -1
    ensures IdleIds(Insert(q, k, x)) == IdleIds(q)
  {
    hide IdleIds;
    var a, b := q[..k], q[k..];
    assert q == a + b;
    IdleAround(a, x, b);
    IdleConcat(a, b);
  }

  lemma IdleAppend(q: seq<Job>, x: Job)
    requires x.core == -1
    ensures IdleIds(q + [x]) == IdleIds(q) + [x.id]
  {
  }

  // ----- bounded waiting -----

  ghost predicate WaitsAt(st: Sim, id: int, k: int) {
    0 <= k < |IdleIds(st.sched.queue)| && IdleIds(st.sched.queue)[k] == id
  }

  /** Job `id` got a core in this iteration. */
  ghost predicate Served(st: Sim, id: int) {
    Keyed(st.sched.queue) && id in Queued(st.sched.queue)
    && Queued(st.sched.queue)[id].core != -1 && Queued(st.sched.queue)[id].start == st.time
  }

  /** Hand-overs that are certain on a core within `b` time units when its quantum clock shows `v`. */
  function Turns(q: int, v: int, b: int): nat
    requires q >= 1
    decreases b - v
  {
    if b < v then 0 else 1 + Turns(q, v + q, b)
  }

  function TurnsOf(q: int, clocks: seq<int>, b: int): (v: seq<int>)
    requires q >= 1
    ensures |v| == |clocks| && forall c :: 0 <= c < |v| ==> v[c] == Turns(q, clocks[c], b)
  {
    seq(|clocks|, c requires 0 <= c < |clocks| => Turns(q, clocks[c], b))
  }

  /** Hand-overs that are certain on all cores together. */
  function Capacity(q: int, clocks: seq<int>, b: int): int
    requires q >= 1
  {
    Ledgers.Sum(TurnsOf(q, clocks, b))
  }

  lemma {:induction false} TurnsFewer(q: int, v: int, w: int, b: int)
    requires q >= 1 && v <= w
    ensures Turns(q, w, b) <= Turns(q, v, b)
    decreases b - v
  {
    if b >= v {
      TurnsFewer(q, v + q, w + q, b);
    }
  }

  lemma {:induction false} TurnsShift(q: int, v: int, b: int)
    requires q >= 1
    ensures Turns(q, v - 1, b - 1) == Turns(q, v, b)
    decreases b - v
  {
    if b >= v {
      TurnsShift(q, v + q, b);
    }
  }

  lemma {:induction false} TurnsMany(q: int, v: int, b: int, m: nat)
    requires q >= 1 && v + m * q <= b + q
    ensures Turns(q, v, b) >= m
    decreases m
  {
    if m > 0 {
      assert m * q == (m - 1) * q + q && (m - 1) * q >= 0;
      TurnsMany(q, v + q, b, m - 1);
    }
  }

  /** A hand-over on one core, which winds its clock, uses up at most one turn. */
  lemma CapacityReset(q: int, clocks: seq<int>, c: nat, b: int)
    requires q >= 1 && c < |clocks| && 0 <= clocks[c] <= q
    ensures Capacity(q, clocks, b) <= Capacity(q, clocks[c := q], b) + 1
  {
    TurnsFewer(q, 0, clocks[c], b);
    Ledgers.SumChange(TurnsOf(q, clocks, b), TurnsOf(q, clocks[c := q], b), c);
  }

  /** The passing of a time unit uses up none. */
  lemma CapacityTick(q: int, clocks: seq<int>, later: seq<int>, b: int)
    requires q >= 1 && |later| == |clocks| && forall c :: 0 <= c < |clocks| ==> later[c] == clocks[c] - 1
    ensures Capacity(q, later, b - 1) == Capacity(q, clocks, b)
  {
    forall c | 0 <= c < |clocks|
      ensures TurnsOf(q, later, b - 1)[c] == TurnsOf(q, clocks, b)[c]
    {
      TurnsShift(q, clocks[c], b);
    }
    assert TurnsOf(q, later, b - 1) == TurnsOf(q, clocks, b);
  }

  lemma {:induction false} SumBounds(v: seq<int>, m: nat)
    ensures (forall c :: 0 <= c < |v| ==> v[c] >= m) ==> Ledgers.Sum(v) >= |v| * m
    ensures (forall c :: 0 <= c < |v| ==> v[c] == 0) ==> Ledgers.Sum(v) == 0
  {
    if v != [] {
      SumBounds(v[..|v| - 1], m);
      assert |v| * m == (|v| - 1) * m + m;
    }
  }

  /** With no clock above a quantum, `m` quanta bring `m` turns on every core. */
  lemma CapacityMany(q: int, clocks: seq<int>, m: nat)
    requires q >= 1 && forall c :: 0 <= c < |clocks| ==> clocks[c] <= q
    ensures Capacity(q, clocks, q * m) >= |clocks| * m
  {
    forall c | 0 <= c < |clocks|
      ensures TurnsOf(q, clocks, q * m)[c] >= m
    {
      TurnsMany(q, clocks[c], q * m, m);
    }
    SumBounds(TurnsOf(q, clocks, q * m), m);
  }

  /** With no clock below `low`, nothing is certain before that many time units. */
  lemma CapacityNone(q: int, clocks: seq<int>, b: int, low: int)
    requires q >= 1 && forall c :: 0 <= c < |clocks| ==> clocks[c] >= low
    ensures b < low ==> Capacity(q, clocks, b) == 0
  {
    SumBounds(TurnsOf(q, clocks, b), 0);
  }

  /** Job `id` has been served, or it will be after hand-overs that are certain within `b` time units. */
  ghost predicate Promise(cfg: Config, st: Sim, id: int, b: int)
    requires cfg.quantum >= 1
  {
    Served(st, id) || exists k :: WaitsAt(st, id, k) && k < Capacity(cfg.quantum, st.clocks, b)
  }

  lemma {:induction false} WaitingIsIdle(q: seq<Job>, id: int)
    requires id in IdleIds(q)
    ensures exists i :: 0 <= i < |q| && q[i].id == id && q[i].core == -1
  {
    var n := |q| - 1;
    if q[n].core == -1 && q[n].id == id {
    } else {
      WaitingIsIdle(q[..n], id);
      var i :| 0 <= i < n && q[..n][i].id == id && q[..n][i].core == -1;
      assert q[i].id == id && q[i].core == -1;
    }
  }

  /** While somebody waits, every core is taken and its clock runs between 0 and a quantum. */
  lemma CoreBusy(cfg: Config, st: Sim, low: int, id: int, k: int, c: int) returns (a: int)
    requires Legal(cfg) && cfg.scheme == RR && Good(cfg, st, low) && WaitsAt(st, id, k) && 0 <= c < cfg.cores
    ensures |st.clocks| == cfg.cores && id in Queued(st.sched.queue) && Queued(st.sched.queue)[id].core == -1
    ensures Arrivals.Full(st.sched.active) && a in Queued(st.sched.queue) && Queued(st.sched.queue)[a].core == c
    ensures (if c < low then 1 else 0) <= st.clocks[c] <= cfg.quantum
  {
    hide Queued, Listed, IdleIds;
    var q, qs := st.sched.queue, Queued(st.sched.queue);
    WaitingIsIdle(q, id);
    var i :| 0 <= i < |q| && q[i].id == id && q[i].core == -1;
    AtIndex(q, i);
    assert st.sched.active[c];
    a :| a in qs && qs[a].core == c;
    assert Paced(cfg, st.clocks, qs[a], st.time, low);
    assert Sound(cfg, st.time, a, Listed(st.jobs), qs);
  }

  /** One step of the line: the front is taken off, possibly after somebody joined the back. */
  lemma LineMoves(a: seq<int>, b: seq<int>, line: seq<int>, next: int, id: int, k: int)
    requires a <= line && line != [] && next == line[0] && b == line[1..]
    requires 0 <= k < |a| && a[k] == id
    ensures if k == 0 then next == id else k - 1 < |b| && b[k - 1] == id
  {
  }

  lemma FinishPromise(cfg: Config, st: Sim, i: nat, id: int, b: int)
    requires Legal(cfg) && cfg.scheme == RR && Good(cfg, st, 0) && i < |st.jobs| && st.jobs[i].run == 0
    requires Promise(cfg, st, id, b)
    ensures Promise(cfg, FinishAt(cfg, st, i), id, b)
  {
    hide Queued, Listed, IdleIds, JobFinished, Handover, SwapDelete, Ordered, Patient, Answered, Capacity;
    var s, now, gone, core := st.sched, st.time, st.jobs[i].id, st.jobs[i].core;
    var js, qs := Listed(st.jobs), Queued(s.queue);
    EntryAt(st.jobs, i);
    FinishSound(cfg, now, js, qs, gone);
    FreeSeat(s.active, qs, gone);
    var m := FinishedTable(s, core, gone, now);
    var (t, next) := JobFinished(s, core, gone, now);
    if Served(st, id) {
      assert Sound(cfg, now, gone, js, qs);
      assert id != gone;
    } else {
      var k :| WaitsAt(st, id, k) && k < Capacity(cfg.quantum, st.clocks, b);
      var a := CoreBusy(cfg, st, 0, id, k, core);
      FoundRunning(s, gone);
      FinishedFifo(s, core, gone, now);
      LineMoves(IdleIds(s.queue), IdleIds(t.queue), IdleIds(s.queue), next, id, k);
      Advance(cfg, st, FinishAt(cfg, st, i), core, id, k, b);
    }
  }

  lemma FoundRunning(s: Sched, id: int)
    requires Keyed(s.queue) && id in Queued(s.queue) && Queued(s.queue)[id].core != -1
    ensures First(HasId(id), s.queue) < |s.queue| && s.queue[First(HasId(id), s.queue)].core != -1
  {
    var k := First(HasId(id), s.queue);
    var i := IndexOf(s.queue, id);
    assert HasId(id)(s.queue[i]);
    AtIndex(s.queue, k);
  }

  /** Moving up one place pays for winding one clock. */
  lemma Advance(cfg: Config, st: Sim, r: Sim, core: nat, id: int, k: int, b: int)
    requires cfg.quantum >= 1 && core < |st.clocks| && 0 <= st.clocks[core] <= cfg.quantum
    requires r.clocks == SetClock(st.clocks, core, cfg.quantum) && k < Capacity(cfg.quantum, st.clocks, b)
    requires if k == 0 then Served(r, id) else WaitsAt(r, id, k - 1)
    ensures Promise(cfg, r, id, b)
  {
    CapacityReset(cfg.quantum, st.clocks, core, b);
  }

  lemma ExpirePromise(cfg: Config, st: Sim, core: nat, id: int, b: int)
    requires Legal(cfg) && cfg.scheme == RR && Good(cfg, st, core) && Positive(Listed(st.jobs))
    requires core < |st.clocks| && st.clocks[core] == 0 && First(SitsOn(core), st.jobs) < |st.jobs|
    requires Promise(cfg, st, id, b)
    ensures Promise(cfg, ExpireAt(cfg, st, core), id, b)
  {
    hide Queued, Listed, IdleIds, QuantumExpired, Handover, Ordered, Patient, Answered, Capacity;
    var s, now := st.sched, st.time;
    var k0 := First(SitsOn(core), st.jobs);
    var js, qs, gone := Listed(st.jobs), Queued(s.queue), st.jobs[k0].id;
    EntryAt(st.jobs, k0);
    OnlySitter(cfg, now, js, s, gone);
    var m := ExpiredTable(s, core, gone, now);
    var (t, next) := QuantumExpired(s, core, now);
    if Served(st, id) {
      assert Sound(cfg, now, id, js, qs);
      assert Paced(cfg, st.clocks, qs[id], now, core);
      assert id != gone;
    } else {
      var k :| WaitsAt(st, id, k) && k < Capacity(cfg.quantum, st.clocks, b);
      var a := CoreBusy(cfg, st, core, id, k, core);
      FoundOnCore(s, gone, core);
      ExpiredFifo(s, core, now);
      LineMoves(IdleIds(s.queue), IdleIds(t.queue), IdleIds(s.queue) + [gone], next, id, k);
      Advance(cfg, st, ExpireAt(cfg, st, core), core, id, k, b);
    }
  }

  lemma FoundOnCore(s: Sched, id: int, core: int)
    requires Keyed(s.queue) && id in Queued(s.queue) && Queued(s.queue)[id].core == core
    requires forall a :: a in Queued(s.queue) && Queued(s.queue)[a].core == core ==> a == id
    ensures First(OnCore(core), s.queue) < |s.queue| && s.queue[First(OnCore(core), s.queue)].id == id
  {
    hide Queued;
    var k := First(OnCore(core), s.queue);
    var i := IndexOf(s.queue, id);
    assert OnCore(core)(s.queue[i]);
    AtIndex(s.queue, k);
  }

  lemma ArrivePromise(cfg: Config, st: Sim, i: nat, id: int, b: int)
    requires Legal(cfg) && cfg.scheme == RR && Good(cfg, st, cfg.cores) && i < |st.jobs|
    requires Due(st.time, Listed(st.jobs), st.jobs[i].id)
    requires Promise(cfg, st, id, b)
    ensures Promise(cfg, ArriveAt(cfg, st, i), id, b)
  {
    hide Queued, Listed, IdleIds, NewJob, Ordered, Patient, Answered, Capacity;
    var s, now, new', run, priority := st.sched, st.time, st.jobs[i].id, st.jobs[i].run, st.jobs[i].priority;
    var v := RunsForward.JoinTables(cfg, st, i);
    var (t, core) := NewJob(s, new', now, run, priority);
    if !Served(st, id) {
      var k :| WaitsAt(st, id, k) && k < Capacity(cfg.quantum, st.clocks, b);
      var a := CoreBusy(cfg, st, cfg.cores, id, k, 0);
      NewJobFifo(s, new', now, run, priority);
      assert WaitsAt(ArriveAt(cfg, st, i), id, k);
    }
  }

  lemma {:induction false} FinishPhasePromise(cfg: Config, st: Sim, i: nat, id: int, b: int)
    requires Legal(cfg) && cfg.scheme == RR && Good(cfg, st, 0) && i <= |st.jobs|
    requires Promise(cfg, st, id, b)
    ensures Promise(cfg, FinishPhase(cfg, st, i), id, b)
    decreases |st.jobs| - i
  {
    hide Good, Promise, FinishAt, Conserved, OnlyCores, Listed, Queued;
    if i < |st.jobs| {
      if st.jobs[i].run == 0 {
        FinishGood(cfg, st, i);
        FinishPromise(cfg, st, i, id, b);
        FinishPhasePromise(cfg, FinishAt(cfg, st, i), i, id, b);
      } else {
        FinishPhasePromise(cfg, st, i + 1, id, b);
      }
    }
  }

  lemma {:induction false} QuantumPhasePromise(cfg: Config, st: Sim, core: nat, id: int, b: int)
    requires Legal(cfg) && cfg.scheme == RR && Good(cfg, st, core) && Working(st.jobs, |st.jobs|)
    requires core <= |st.clocks| && Promise(cfg, st, id, b)
    ensures Promise(cfg, QuantumPhase(cfg, st, core), id, b)
    decreases |st.clocks| - core
  {
    hide Promise, ExpireAt, Queued, Listed, Clocked, Conserved, OnlyCores, Positive, Answered, Patient, Ordered;
    if core < |st.clocks| {
      if st.clocks[core] == 0 && First(SitsOn(core), st.jobs) < |st.jobs| {
        WorkingPositive(cfg, st, core);
        ExpireGood(cfg, st, core);
        ExpireAtEntries(cfg, st, core);
        ExpirePromise(cfg, st, core, id, b);
        QuantumPhasePromise(cfg, ExpireAt(cfg, st, core), core + 1, id, b);
      } else {
        PassOver(cfg, st, core);
        ExpireNobody(cfg, st, core);
        QuantumPhasePromise(cfg, st, core + 1, id, b);
      }
    }
  }

  lemma {:induction false} ArrivalPhasePromise(cfg: Config, st: Sim, i: nat, id: int, b: int)
    requires Legal(cfg) && cfg.scheme == RR && Good(cfg, st, cfg.cores) && Working(st.jobs, |st.jobs|)
    requires i <= |st.jobs| && ArrivedUpTo(st, i) && Promise(cfg, st, id, b)
    ensures Promise(cfg, ArrivalPhase(cfg, st, i), id, b)
    decreases |st.jobs| - i
  {
    hide Good, Promise, ArriveAt, Queued, Listed, Conserved, Positive;
    if i < |st.jobs| {
      if st.jobs[i].arrival == st.time {
        WorkingPositive(cfg, st, cfg.cores);
        IsDue(cfg, st, cfg.cores, i);
        RunsForward.ArriveGood(cfg, st, i);
        ArriveAtEntries(cfg, st, i);
        ArrivePromise(cfg, st, i, id, b);
        ArrivalPhasePromise(cfg, ArriveAt(cfg, st, i), i + 1, id, b);
      } else {
        ArrivalPhasePromise(cfg, st, i + 1, id, b);
      }
    }
  }

  lemma ReadyPromise(cfg: Config, st: Sim, id: int, b: int)
    requires Legal(cfg) && cfg.scheme == RR && Good(cfg, st, 0) && Past(st) && Promise(cfg, st, id, b)
    ensures Promise(cfg, Ready(cfg, st), id, b)
  {
    hide Good, Promise, FinishPhase, QuantumPhase, ArrivalPhase, Conserved, Past;
    FinishPhaseGood(cfg, st, 0);
    var a := FinishPhase(cfg, st, 0);
    FinishPhasePromise(cfg, st, 0, id, b);
    QuantumStart(cfg, a);
    QuantumPhaseGood(cfg, a, 0);
    QuantumPhasePromise(cfg, a, 0, id, b);
    var c := QuantumPhase(cfg, a, 0);
    PastIsAll(cfg, c, cfg.cores);
    ArrivalPhasePromise(cfg, c, 0, id, b);
  }

  lemma QuantumStart(cfg: Config, a: Sim)
    requires Good(cfg, a, 0)
    ensures 0 <= |a.clocks|
  {
  }

  /** While somebody waits, every clock loses one when the time unit is run. */
  lemma TickCore(cfg: Config, r: Sim, id: int, k: int, c: nat)
    requires Legal(cfg) && cfg.scheme == RR && Good(cfg, r, cfg.cores) && WaitsAt(r, id, k) && c < cfg.cores
    ensures |r.clocks| == cfg.cores && Tick(r).clocks[c] == r.clocks[c] - 1 >= 0
  {
    hide Queued, Listed, IdleIds;
    var a := CoreBusy(cfg, r, cfg.cores, id, k, c);
    assert Sound(cfg, r.time, a, Listed(r.jobs), Queued(r.sched.queue));
    OnlySitter(cfg, r.time, Listed(r.jobs), r.sched, a);
    var i := EntryIndex(r.jobs, a);
    forall j | 0 <= j < |r.jobs|
      ensures r.jobs[j].core == c <==> j == i
    {
      EntryAt(r.jobs, j);
      if i != j {
        RunsForward.Differ(r.jobs, i, j);
      }
    }
    RunsForward.RunClocksAt(r.jobs, r.clocks, i, c);
  }

  /** A job that waits for a whole iteration has come one time unit nearer. */
  lemma TickPromise(cfg: Config, r: Sim, id: int, k: int, b: int)
    requires Legal(cfg) && cfg.scheme == RR && Good(cfg, r, cfg.cores) && WaitsAt(r, id, k)
    requires k < Capacity(cfg.quantum, r.clocks, b)
    ensures b >= 1 && WaitsAt(Tick(r), id, k) && k < Capacity(cfg.quantum, Tick(r).clocks, b - 1)
  {
    GoodClocks(cfg, r, cfg.cores);
    hide Good, IdleIds, Capacity, RunClocks;
    forall c | 0 <= c < cfg.cores
      ensures Tick(r).clocks[c] == r.clocks[c] - 1 >= 0
    {
      TickCore(cfg, r, id, k, c);
    }
    CapacityTick(cfg.quantum, r.clocks, Tick(r).clocks, b);
    CapacityNone(cfg.quantum, r.clocks, b, 1);
    Waiting(r, id, k);
  }

  lemma Waiting(st: Sim, id: int, k: int)
    requires WaitsAt(st, id, k)
    ensures k >= 0 && WaitsAt(Tick(st), id, k)
  {
  }

  lemma GoodClocks(cfg: Config, st: Sim, low: int)
    requires Good(cfg, st, low)
    ensures |st.clocks| == cfg.cores
  {
  }

  lemma {:induction false} ServedWithin(cfg: Config, n: nat, id: int, k: int, b: nat) returns (m: nat)
    requires Legal(cfg) && cfg.scheme == RR && WaitsAt(StateAt(cfg, n), id, k)
    requires k < Capacity(cfg.quantum, StateAt(cfg, n).clocks, b)
    ensures n <= m <= n + b && Served(Ready(cfg, StateAt(cfg, m)), id)
    decreases b
  {
    hide Good, Past, Ready, Capacity, Served, WaitsAt, Conserved, Tick, Queued, Listed, Balance, Elapsed, Positive;
    var st := StateAt(cfg, n);
    Accounting.StateGood(cfg, n);
    assert Promise(cfg, st, id, b);
    ReadyGood(cfg, st);
    ReadyPromise(cfg, st, id, b);
    var r := Ready(cfg, st);
    if Served(r, id) {
      m := n;
    } else {
      var k' :| WaitsAt(r, id, k') && k' < Capacity(cfg.quantum, r.clocks, b);
      TickPromise(cfg, r, id, k', b);
      m := ServedWithin(cfg, n + 1, id, k', b - 1);
    }
  }

  lemma WaitBounds(cfg: Config, st: Sim, id: int, k: nat)
    requires Legal(cfg) && cfg.scheme == RR && Good(cfg, st, 0) && WaitsAt(st, id, k)
    ensures k < Capacity(cfg.quantum, st.clocks, cfg.quantum * (k / cfg.cores + 1))
  {
    GoodClocks(cfg, st, 0);
    hide Good, IdleIds, Capacity, WaitsAt;
    forall c | 0 <= c < cfg.cores
      ensures st.clocks[c] <= cfg.quantum
    {
      var a := CoreBusy(cfg, st, 0, id, k, c);
    }
    CapacityMany(cfg.quantum, st.clocks, k / cfg.cores + 1);
    Rounds(k, cfg.cores);
  }

  lemma Rounds(k: nat, n: nat)
    requires n >= 1
    ensures k < n * (k / n + 1)
  {
    assert k == n * (k / n) + k % n;
  }

  /** Round robin bounds waiting: while somebody waits, every core is handed over once in every
      quantum, so a job with `k` idle jobs ahead of it at time `n` gets a core at time
      n + quantum * (k / cores + 1) at the latest, whoever arrives in the meantime. */
  lemma BoundedWaiting(cfg: Config, n: nat, id: int, k: nat) returns (m: nat)
    requires Legal(cfg) && cfg.scheme == RR && WaitsAt(StateAt(cfg, n), id, k)
    ensures n <= m <= n + cfg.quantum * (k / cfg.cores + 1)
    ensures Served(Ready(cfg, StateAt(cfg, m)), id)
  {
    hide StateAt, Good, Past, Ready, Capacity, Served, WaitsAt;
    Accounting.StateGood(cfg, n);
    WaitBounds(cfg, StateAt(cfg, n), id, k);
    m := ServedWithin(cfg, n, id, k, cfg.quantum * (k / cfg.cores + 1));
  }
}
