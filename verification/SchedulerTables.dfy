/** The scheduler's entry points seen on the table of queued jobs, keyed by job id. */
module SchedulerTables {
  import opened Jobs
  import opened QueueSpec
  import opened SchedulerSpec
  import opened Tables

  type JobTable = map<int, Job>

  function JobKey(): Job -> int { (j: Job) => j.id }

  ghost predicate Keyed(q: seq<Job>) {
    Distinct(JobKey(), q) && forall i :: 0 <= i < |q| ==> q[i].id >= 0
  }

  ghost function Queued(q: seq<Job>): JobTable
    requires Keyed(q)
  {
    Table(JobKey(), q)
  }

  lemma AtIndex(q: seq<Job>, i: nat)
    requires Keyed(q) && i < |q|
    ensures q[i].id in Queued(q) && Queued(q)[q[i].id] == q[i]
  {
  }

  lemma IndexOf(q: seq<Job>, id: int) returns (i: nat)
    requires Keyed(q) && id in Queued(q)
    ensures i < |q| && q[i] == Queued(q)[id] && q[i].id == id && id >= 0
  {
    i := TableIndex(JobKey(), q, id);
  }

  lemma UpdateQueued(q: seq<Job>, k: nat, x: Job)
    requires Keyed(q) && k < |q| && x.id == q[k].id
    ensures Keyed(q[k := x]) && Queued(q[k := x]) == Queued(q)[x.id := x]
  {
    TableUpdate(JobKey(), q, k, x);
  }

  lemma InsertQueued(q: seq<Job>, k: nat, x: Job)
    requires Keyed(q) && k <= |q| && x.id >= 0 && x.id !in Queued(q)
    ensures Keyed(Insert(q, k, x)) && Queued(Insert(q, k, x)) == Queued(q)[x.id := x]
  {
    TableInsert(JobKey(), q, k, x);
  }

  lemma RemoveQueued(q: seq<Job>, k: nat)
    requires Keyed(q) && k < |q|
    ensures Keyed(RemoveAt(q, k)) && Queued(RemoveAt(q, k)) == Queued(q) - {q[k].id}
  {
    TableRemove(JobKey(), q, k);
    assert forall i :: 0 <= i < |q| - 1 ==> RemoveAt(q, k)[i] == q[if i < k then i else i + 1];
  }

  /** The running jobs are exactly the first `n`. */
  ghost predicate FrontOf(q: seq<Job>, n: nat) {
    forall k :: 0 <= k < |q| ==> (q[k].core != -1 <==> k < n)
  }

  ghost predicate Front(s: Sched) {
    FrontOf(s.queue, |s.active|)
  }

  /** What waking does: `next` was idle and now runs on `core`, or nobody is idle and the core goes inactive. */
  ghost predicate Woken(s: Sched, t: Sched, core: int, time: int, mark: int, next: int)
    requires Keyed(s.queue)
  {
    && Keyed(t.queue) && |t.queue| == |s.queue|
    && (var q := Queued(s.queue);
        if next == -1 then
          && (forall id :: id in q ==> q[id].core != -1)
          && t == if 0 <= core < |s.active| then s.(active := s.active[core := false]) else s
        else
          && next in q && q[next].core == -1
          && Queued(t.queue) == q[next := Dispatched(q[next], core, time, mark)]
          && t == s.(queue := t.queue, waiting := s.waiting + (time - q[next].pause),
                     response := s.response + if q[next].responded then 0 else time - q[next].arrival))
  }

  lemma WakeTable(s: Sched, core: int, time: int, mark: int)
    requires Keyed(s.queue)
    ensures var (t, next) := Wake(s, core, time, mark); Woken(s, t, core, time, mark, next)
  {
    var w := First(OnCore(-1), s.queue);
    if w < |s.queue| {
      AtIndex(s.queue, w);
      UpdateQueued(s.queue, w, Dispatched(s.queue[w], core, time, mark));
    } else {
      forall id | id in Queued(s.queue)
        ensures Queued(s.queue)[id].core != -1
      {
        var i := IndexOf(s.queue, id);
        assert !OnCore(-1)(s.queue[i]);
      }
    }
  }

  /** `m` is the state between removing the finished job and waking the next. */
  lemma FinishedTable(s: Sched, core: int, id: int, time: int) returns (m: Sched)
    requires Keyed(s.queue) && id in Queued(s.queue)
    ensures Keyed(m.queue) && Queued(m.queue) == Queued(s.queue) - {id} && |m.queue| == |s.queue| - 1
    ensures m == s.(queue := m.queue, turnaround := s.turnaround + (time - Queued(s.queue)[id].arrival))
    ensures var (t, next) := JobFinished(s, core, id, time); Woken(m, t, core, time, 0, next)
  {
    var k := First(HasId(id), s.queue);
    TableFirst(JobKey(), s.queue, HasId(id), id);
    m := s.(queue := RemoveAt(s.queue, k), turnaround := s.turnaround + (time - s.queue[k].arrival));
    assert JobFinished(s, core, id, time) == Wake(m, core, time, 0);
    RemoveQueued(s.queue, k);
    WakeTable(m, core, time, 0);
  }

  /** Putting back a job that had been taken out. */
  lemma PutBack(t: JobTable, rest: seq<Job>, at: nat, x: Job)
    requires Keyed(rest) && Queued(rest) == t - {x.id} && at <= |rest| && x.id >= 0
    ensures Keyed(Insert(rest, at, x)) && Queued(Insert(rest, at, x)) == t[x.id := x]
  {
    InsertQueued(rest, at, x);
    assert (t - {x.id})[x.id := x] == t[x.id := x];
  }

  /** The job on `core` goes back, settled and idle; then the first idle job is woken. */
  lemma ExpiredTable(s: Sched, core: int, id: int, time: int) returns (m: Sched)
    requires Keyed(s.queue) && id in Queued(s.queue) && Queued(s.queue)[id].core == core
    requires forall a :: a in Queued(s.queue) && Queued(s.queue)[a].core == core ==> a == id
    ensures Keyed(m.queue) && |m.queue| == |s.queue| && m == s.(queue := m.queue)
    ensures Queued(m.queue) == Queued(s.queue)[id := Expired(Queued(s.queue)[id], time)]
    ensures var (t, next) := QuantumExpired(s, core, time); Woken(m, t, core, time, -1, next)
  {
    var q := Queued(s.queue);
    var k := First(OnCore(core), s.queue);
    forall i | 0 <= i < |s.queue|
      ensures OnCore(core)(s.queue[i]) <==> s.queue[i].id == id
    {
      AtIndex(s.queue, i);
    }
    TableFirst(JobKey(), s.queue, OnCore(core), id);
    var rest, back := RemoveAt(s.queue, k), Expired(s.queue[k], time);
    m := s.(queue := Offer(Comparer(s.scheme), rest, back));
    assert QuantumExpired(s, core, time) == Wake(m, core, time, -1);
    RemoveQueued(s.queue, k);
    PutBack(Queued(s.queue), rest, OfferIndex(Comparer(s.scheme), rest, back), back);
    WakeTable(m, core, time, -1);
  }

  ghost function SettleRunning(q: JobTable, time: int): JobTable {
    map id | id in q :: if q[id].core != -1 then Settle(q[id], time) else q[id]
  }

  lemma RefreshAt(s: Sched, time: int, i: nat)
    requires Front(s) && |s.active| <= |s.queue| && i < |s.queue|
    ensures var r := Refresh(s.queue, |s.active|, time);
            && r[i].id == s.queue[i].id && r[i].core == s.queue[i].core
            && r[i] == if s.queue[i].core != -1 then Settle(s.queue[i], time) else s.queue[i]
  {
  }

  lemma RefreshTable(s: Sched, time: int)
    requires Keyed(s.queue) && Front(s) && |s.active| <= |s.queue|
    ensures var r := Refresh(s.queue, |s.active|, time);
            Keyed(r) && Front(s.(queue := r)) && Queued(r) == SettleRunning(Queued(s.queue), time)
  {
    var r := Refresh(s.queue, |s.active|, time);
    assert |r| == |s.queue|;
    forall i | 0 <= i < |r|
      ensures r[i].id == s.queue[i].id && r[i].core == s.queue[i].core
    {
      RefreshAt(s, time, i);
    }
    RefreshKeyed(s.queue, r);
    hide Refresh, Queued, Table, Settle, Keyed;
    var t := SettleRunning(Queued(s.queue), time);
    forall i | 0 <= i < |r|
      ensures r[i].id in t && t[r[i].id] == r[i]
    {
      RefreshAt(s, time, i);
      AtIndex(s.queue, i);
    }
    forall id | id in t
      ensures exists i :: 0 <= i < |r| && r[i].id == id
    {
      var i := IndexOf(s.queue, id);
      assert r[i].id == id;
    }
    hide SettleRunning;
    QueuedIs(r, t);
  }

  lemma RefreshKeyed(q: seq<Job>, r: seq<Job>)
    requires Keyed(q) && |r| == |q| && forall i :: 0 <= i < |r| ==> r[i].id == q[i].id
    ensures Keyed(r)
  {
    forall i, j | 0 <= i < j < |r|
      ensures JobKey()(r[i]) != JobKey()(r[j])
    {
      assert JobKey()(q[i]) != JobKey()(q[j]);
    }
  }

  lemma QueuedIs(q: seq<Job>, t: JobTable)
    requires Keyed(q)
    requires forall i :: 0 <= i < |q| ==> q[i].id in t && t[q[i].id] == q[i]
    requires forall id :: id in t ==> exists i :: 0 <= i < |q| && q[i].id == id
    ensures Queued(q) == t
  {
    forall id | id in t
      ensures exists i :: 0 <= i < |q| && JobKey()(q[i]) == id
    {
      var i :| 0 <= i < |q| && q[i].id == id;
      assert JobKey()(q[i]) == id;
    }
    TableIs(JobKey(), q, t);
  }
}
