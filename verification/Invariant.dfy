/** The run-time invariant that ties the scheduler's state to the simulator's, stated on the
    two tables of jobs, and how each kind of change keeps it. */
module Invariant {
  import opened Jobs
  import SchedulerSpec
  import opened SimulatorSpec
  import opened SchedulerTables
  import Arrivals

  type EntryTable = map<int, SimJob>

  /** The time a queued job still needs: the stored value is out of date while the job runs. */
  function Remaining(q: Job, now: int): int {
    if q.core != -1 then q.remaining - (now - q.start) else q.remaining
  }

  /** The scheduler's record of an arrived job agrees with the simulator's entry for it. */
  ghost predicate Match(now: int, j: SimJob, q: Job) {
    && q.id == j.id && q.core == j.core && q.arrival == j.arrival && q.priority == j.priority
    && j.run == Remaining(q, now) >= 0
    && q.remaining >= 1
    && q.core >= -1
    && (q.core != -1 ==> q.arrival <= q.start <= now)
    && (q.core == -1 ==> q.arrival <= q.pause <= now)
    && (!q.responded ==> q.core == -1 && q.pause == q.arrival && q.remaining == q.run)
  }

  ghost predicate Sound(cfg: Config, now: int, id: int, js: EntryTable, qs: JobTable) {
    && (id in js ==>
          && 0 <= id < |cfg.load|
          && js[id].id == id && js[id].arrival == cfg.load[id].arrival && js[id].priority == cfg.load[id].priority
          && if js[id].arrived
             then id in qs && Match(now, js[id], qs[id]) && qs[id].run == cfg.load[id].run
             else id !in qs && js[id].core == -1 && js[id].run == cfg.load[id].run && now <= js[id].arrival)
    && (id !in js ==> id !in qs)
    && (id !in js && 0 <= id < |cfg.load| ==> cfg.load[id].arrival < now)
  }

  ghost predicate Synced(cfg: Config, now: int, js: EntryTable, qs: JobTable) {
    forall id :: Sound(cfg, now, id, js, qs)
  }

  /** Running jobs sit on distinct active cores; every active core except `free` is occupied;
      a job is idle only if all cores are active, except for one while the core `free` is being handed over. */
  ghost predicate Seated(active: seq<bool>, qs: JobTable, free: int) {
    && (forall a, b :: a in qs && b in qs && qs[a].core == qs[b].core != -1 ==> a == b)
    && (forall a :: a in qs && qs[a].core != -1 ==>
         0 <= qs[a].core < |active| && active[qs[a].core] && qs[a].core != free)
    && (forall c :: 0 <= c < |active| && active[c] && c != free ==> exists a :: a in qs && qs[a].core == c)
    && (forall a, b :: a in qs && b in qs && qs[a].core == qs[b].core == -1 && (a != b || free == -1) ==>
          Arrivals.Full(active))
  }

  /** No job has run out of work. */
  ghost predicate Positive(js: EntryTable) {
    forall id :: id in js ==> js[id].run >= 1
  }

  // ----- finishing and expiring -----

  lemma FinishSound(cfg: Config, now: int, js: EntryTable, qs: JobTable, id: int)
    requires Legal(cfg) && Synced(cfg, now, js, qs) && id in js && js[id].run == 0
    ensures id in qs && qs[id].core == js[id].core != -1 && js[id].arrived
    ensures now == qs[id].remaining + qs[id].start
    ensures Synced(cfg, now, js - {id}, qs - {id})
  {
    assert Sound(cfg, now, id, js, qs);
    var js', qs' := js - {id}, qs - {id};
    forall a
      ensures Sound(cfg, now, a, js', qs')
    {
      assert Sound(cfg, now, a, js, qs);
    }
  }

  lemma FreeSeat(active: seq<bool>, qs: JobTable, id: int)
    requires Seated(active, qs, -1) && id in qs && qs[id].core != -1
    ensures 0 <= qs[id].core < |active| && active[qs[id].core]
    ensures Seated(active, qs - {id}, qs[id].core)
  {
    var core := qs[id].core;
    var rest := qs - {id};
    forall c | 0 <= c < |active| && active[c] && c != core
      ensures exists a :: a in rest && rest[a].core == c
    {
      var a :| a in qs && qs[a].core == c;
      assert a in rest;
    }
  }

  lemma ExpireSound(cfg: Config, now: int, js: EntryTable, qs: JobTable, id: int)
    requires Synced(cfg, now, js, qs) && id in qs && id in js && js[id].run >= 1 && qs[id].core != -1
    ensures Synced(cfg, now, js[id := js[id].(core := -1)], qs[id := SchedulerSpec.Expired(qs[id], now)])
  {
    assert Sound(cfg, now, id, js, qs);
    var js', qs' := js[id := js[id].(core := -1)], qs[id := SchedulerSpec.Expired(qs[id], now)];
    forall a
      ensures Sound(cfg, now, a, js', qs')
    {
      assert Sound(cfg, now, a, js, qs);
    }
  }

  lemma ExpireSeat(active: seq<bool>, qs: JobTable, id: int, q: Job)
    requires Seated(active, qs, -1) && id in qs && qs[id].core != -1 && q.core == -1
    ensures 0 <= qs[id].core < |active| && active[qs[id].core]
    ensures Seated(active, qs[id := q], qs[id].core)
  {
    var core := qs[id].core;
    var rest := qs[id := q];
    forall c | 0 <= c < |active| && active[c] && c != core
      ensures exists a :: a in rest && rest[a].core == c
    {
      var a :| a in qs && qs[a].core == c;
      assert a in rest && rest[a] == qs[a];
    }
  }

  lemma DispatchSound(cfg: Config, now: int, js: EntryTable, qs: JobTable, id: int, core: int, mark: int)
    requires Synced(cfg, now, js, qs) && id in qs && qs[id].core == -1 && core >= 0
    ensures id in js
    ensures var q := SchedulerSpec.Dispatched(qs[id], core, now, mark);
            Synced(cfg, now, js[id := js[id].(core := core)], qs[id := q])
  {
    assert Sound(cfg, now, id, js, qs);
    var js', qs' := js[id := js[id].(core := core)], qs[id := SchedulerSpec.Dispatched(qs[id], core, now, mark)];
    forall a
      ensures Sound(cfg, now, a, js', qs')
    {
      assert Sound(cfg, now, a, js, qs);
    }
  }

  lemma DispatchSeat(active: seq<bool>, qs: JobTable, id: int, core: int, q: Job)
    requires Seated(active, qs, core) && id in qs && qs[id].core == -1
    requires 0 <= core < |active| && active[core] && q.core == core
    ensures Seated(active, qs[id := q], -1)
  {
    var rest := qs[id := q];
    forall c | 0 <= c < |active| && active[c]
      ensures exists a :: a in rest && rest[a].core == c
    {
      if c == core {
        assert rest[id].core == c;
      } else {
        var a :| a in qs && qs[a].core == c;
        assert a in rest && rest[a] == qs[a];
      }
    }
  }

  lemma IdleSeat(active: seq<bool>, qs: JobTable, core: int)
    requires Seated(active, qs, core) && 0 <= core < |active|
    requires forall a :: a in qs ==> qs[a].core != -1
    ensures Seated(active[core := false], qs, -1)
  {
  }

  // ----- arriving -----

  lemma SettleSound(cfg: Config, now: int, js: EntryTable, qs: JobTable)
    requires Synced(cfg, now, js, qs) && Positive(js)
    ensures Synced(cfg, now, js, SettleRunning(qs, now))
  {
    var js', qs' := js, SettleRunning(qs, now);
    forall a
      ensures Sound(cfg, now, a, js', qs')
    {
      assert Sound(cfg, now, a, js, qs);
    }
  }

  lemma SettleSeat(active: seq<bool>, qs: JobTable, now: int)
    requires Seated(active, qs, -1)
    ensures Seated(active, SettleRunning(qs, now), -1)
  {
    var rest := SettleRunning(qs, now);
    forall c | 0 <= c < |active| && active[c]
      ensures exists a :: a in rest && rest[a].core == c
    {
      var a :| a in qs && qs[a].core == c;
      assert a in rest && rest[a].core == c;
    }
  }

  /** A settled running job goes idle. */
  lemma DisplaceSound(cfg: Config, now: int, js: EntryTable, qs: JobTable, v: int)
    requires Synced(cfg, now, js, qs) && v in qs && qs[v].core != -1 && qs[v].start == now
    ensures v in js && js[v].arrived && js[v].core == qs[v].core >= 0
    ensures Synced(cfg, now, js[v := js[v].(core := -1)], qs[v := qs[v].(core := -1, pause := now)])
  {
    assert Sound(cfg, now, v, js, qs);
    var js', qs' := js[v := js[v].(core := -1)], qs[v := qs[v].(core := -1, pause := now)];
    forall a
      ensures Sound(cfg, now, a, js', qs')
    {
      assert Sound(cfg, now, a, js, qs);
    }
  }

  /** Entry `id` is due now and has not been seen by the scheduler. */
  ghost predicate Due(now: int, js: EntryTable, id: int) {
    id in js && !js[id].arrived && js[id].arrival == now
  }

  lemma ArriveSound(cfg: Config, now: int, js: EntryTable, qs: JobTable, id: int, q: Job)
    requires Legal(cfg) && Synced(cfg, now, js, qs) && Due(now, js, id)
    requires var job := SchedulerSpec.FreshJob(id, now, js[id].run, js[id].priority);
             q == job || (exists core, mark :: core >= 0 && q == SchedulerSpec.Dispatched(job, core, now, mark))
    ensures id !in qs
    ensures Synced(cfg, now, js[id := js[id].(arrived := true, core := q.core)], qs[id := q])
  {
    assert Sound(cfg, now, id, js, qs);
    var js', qs' := js[id := js[id].(arrived := true, core := q.core)], qs[id := q];
    forall a
      ensures Sound(cfg, now, a, js', qs')
    {
      assert Sound(cfg, now, a, js, qs);
    }
  }

  lemma SeatNew(active: seq<bool>, qs: JobTable, id: int, q: Job)
    requires Seated(active, qs, -1) && id !in qs && 0 <= q.core < |active| && !active[q.core]
    ensures Seated(active[q.core := true], qs[id := q], -1)
  {
    var act, rest := active[q.core := true], qs[id := q];
    forall c | 0 <= c < |act| && act[c]
      ensures exists a :: a in rest && rest[a].core == c
    {
      if c == q.core {
        assert rest[id].core == c;
      } else {
        var a :| a in qs && qs[a].core == c;
        assert a in rest && rest[a] == qs[a];
      }
    }
  }

  lemma SeatWaiting(active: seq<bool>, qs: JobTable, id: int, q: Job, free: int)
    requires Seated(active, qs, free) && id !in qs && q.core == -1 && Arrivals.Full(active)
    ensures Seated(active, qs[id := q], free)
  {
    var rest := qs[id := q];
    forall c | 0 <= c < |active| && active[c] && c != free
      ensures exists a :: a in rest && rest[a].core == c
    {
      var a :| a in qs && qs[a].core == c;
      assert a in rest && rest[a] == qs[a];
    }
  }

  lemma DisplaceSeat(active: seq<bool>, qs: JobTable, id: int, core: int, q: Job)
    requires Seated(active, qs, core) && id !in qs && 0 <= core < |active| && active[core] && q.core == core
    requires Arrivals.Full(active)
    ensures Seated(active, qs[id := q], -1)
  {
    var rest := qs[id := q];
    forall c | 0 <= c < |active| && active[c]
      ensures exists a :: a in rest && rest[a].core == c
    {
      if c == core {
        assert rest[id].core == c;
      } else {
        var a :| a in qs && qs[a].core == c;
        assert a in rest && rest[a] == qs[a];
      }
    }
  }

  // ----- running one time unit -----

  ghost function Ran(js: EntryTable): EntryTable {
    map id | id in js :: RunJob(js[id])
  }

  lemma TickSound(cfg: Config, now: int, js: EntryTable, qs: JobTable)
    requires Synced(cfg, now, js, qs) && Positive(js)
    requires forall id :: !Due(now, js, id)
    ensures Synced(cfg, now + 1, Ran(js), qs)
  {
    var js', later := Ran(js), now + 1;
    forall a
      ensures Sound(cfg, later, a, js', qs)
    {
      assert Sound(cfg, now, a, js, qs);
      assert !Due(now, js, a);
    }
  }
}
