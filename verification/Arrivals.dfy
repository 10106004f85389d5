/** A new job seen on the table of queued jobs. */
module Arrivals {
  import opened Jobs
  import opened QueueSpec
  import opened SchedulerSpec
  import opened SchedulerTables

  /** The new job runs on the lowest core that was free. */
  ghost predicate Seats(s: Sched, t: Sched, job: Job, time: int, core: int)
    requires Keyed(s.queue)
  {
    && 0 <= core < |s.active| && !s.active[core]
    && (forall c :: 0 <= c < core ==> s.active[c])
    && Keyed(t.queue) && |t.queue| == |s.queue| + 1
    && t == s.(queue := t.queue, active := s.active[core := true])
    && Queued(t.queue) == Queued(s.queue)[job.id := Dispatched(job, core, time, time)]
  }

  /** The new job waits. */
  ghost predicate Waits(s: Sched, t: Sched, q: JobTable, job: Job) {
    && Keyed(t.queue) && |t.queue| == |s.queue| + 1
    && t == s.(queue := t.queue)
    && Queued(t.queue) == q[job.id := job]
  }

  /** The new job runs on the core of job `v`, which goes idle. */
  ghost predicate Displaces(s: Sched, t: Sched, q: JobTable, job: Job, time: int, v: int) {
    && v in q && v != job.id && q[v].core != -1
    && Keyed(t.queue) && |t.queue| == |s.queue| + 1
    && t == s.(queue := t.queue)
    && Queued(t.queue) == q[v := q[v].(core := -1, pause := time)][job.id := Dispatched(job, q[v].core, time, 0)]
  }

  ghost predicate Full(active: seq<bool>) {
    forall c :: 0 <= c < |active| ==> active[c]
  }

  /** The queue's table once the running jobs have been settled, if the scheme does that. */
  ghost function Settled(s: Sched, time: int): JobTable
    requires Keyed(s.queue)
  {
    if Preemptive(s.scheme) then SettleRunning(Queued(s.queue), time) else Queued(s.queue)
  }

  /** All outcomes of a new job. */
  ghost predicate Joined(s: Sched, t: Sched, job: Job, time: int, core: int)
    requires Keyed(s.queue)
  {
    var m := s.(numJobs := s.numJobs + 1);
    if !Full(s.active) then Seats(m, t, job, time, core)
    else if core == -1 then Waits(m, t, Settled(s, time), job)
    else
      && Preemptive(s.scheme)
      && exists v :: Displaces(m, t, Settled(s, time), job, time, v) && Settled(s, time)[v].core == core
  }

  /** What a new job relies on under the preemptive schemes. */
  ghost predicate PreemptReady(s: Sched) {
    && Front(s)
    && if Full(s.active) then 0 < |s.active| <= |s.queue| else |s.queue| < |s.active|
  }

  lemma NewJobTable(s: Sched, id: int, time: int, run: int, priority: int)
    requires Keyed(s.queue) && id >= 0 && id !in Queued(s.queue)
    requires Preemptive(s.scheme) ==> PreemptReady(s)
    requires forall i :: 0 <= i < |s.queue| ==> s.queue[i].core >= -1
    ensures var (t, core) := NewJob(s, id, time, run, priority);
            Joined(s, t, FreshJob(id, time, run, priority), time, core)
  {
    hide Queued, SettleRunning, OfferIndex;
    var job, cmp, m := FreshJob(id, time, run, priority), Comparer(s.scheme), s.(numJobs := s.numJobs + 1);
    var c := First(Inactive(), s.active);
    if c < |s.active| {
      SeatTable(s, id, time, run, priority);
    } else {
      assert forall d :: 0 <= d < |s.active| ==> !Inactive()(s.active[d]);
      if Preemptive(s.scheme) {
        assert NewJob(s, id, time, run, priority) == Contend(m, job, time);
        var v := ContendTable(m, job, time);
        assert Settled(s, time) == SettleRunning(Queued(m.queue), time);
      } else {
        assert NewJob(s, id, time, run, priority) == (m.(queue := Offer(cmp, s.queue, job)), -1);
        InsertQueued(s.queue, OfferIndex(cmp, s.queue, job), job);
      }
    }
  }

  lemma SeatTable(s: Sched, id: int, time: int, run: int, priority: int)
    requires Keyed(s.queue) && id >= 0 && id !in Queued(s.queue)
    requires First(Inactive(), s.active) < |s.active|
    ensures var (t, core) := NewJob(s, id, time, run, priority);
            !Full(s.active) && Seats(s.(numJobs := s.numJobs + 1), t, FreshJob(id, time, run, priority), time, core)
  {
    hide Queued, OfferIndex;
    var job := FreshJob(id, time, run, priority);
    var c := First(Inactive(), s.active);
    assert Inactive()(s.active[c]);
    assert forall d :: 0 <= d < c ==> !Inactive()(s.active[d]);
    InsertQueued(s.queue, OfferIndex(Comparer(s.scheme), s.queue, job), Dispatched(job, c, time, time));
  }

  lemma ContendTable(s: Sched, job: Job, time: int) returns (v: int)
    requires Keyed(s.queue) && job.id >= 0 && job.id !in Queued(s.queue)
    requires Front(s) && 0 < |s.active| <= |s.queue|
    requires forall i :: 0 <= i < |s.queue| ==> s.queue[i].core >= -1
    ensures var (t, core) := Contend(s, job, time);
            var q := SettleRunning(Queued(s.queue), time);
            if core == -1 then Waits(s, t, q, job)
            else Displaces(s, t, q, job, time, v) && q[v].core == core
  {
    hide Queued, OfferIndex;
    v := -1;
    var n := |s.active|;
    var q := Refresh(s.queue, n, time);
    RefreshTable(s, time);
    var k := OfferIndex(Comparer(s.scheme), q, job);
    if k < n {
      v := q[n - 1].id;
      Displace(q, k, n - 1, Dispatched(job, q[n - 1].core, time, 0), time);
    } else {
      InsertQueued(q, k, job);
    }
  }

  /** One job goes idle, another is inserted. */
  lemma Displace(q: seq<Job>, k: nat, v: nat, x: Job, time: int)
    requires Keyed(q) && x.id >= 0 && x.id !in Queued(q) && v < |q| && k <= |q|
    ensures var r := Insert(q[v := q[v].(core := -1, pause := time)], k, x);
            && q[v].id in Queued(q) && Queued(q)[q[v].id] == q[v]
            && Keyed(r) && Queued(r) == Queued(q)[q[v].id := q[v].(core := -1, pause := time)][x.id := x]
  {
    AtIndex(q, v);
    var out := q[v].(core := -1, pause := time);
    UpdateQueued(q, v, out);
    InsertQueued(q[v := out], k, x);
  }

  /** A preemptive scheme keeps the running jobs in front. */
  lemma NewJobFront(s: Sched, id: int, time: int, run: int, priority: int)
    requires Preemptive(s.scheme) && PreemptReady(s)
    requires forall i :: 0 <= i < |s.queue| ==> s.queue[i].core >= -1
    ensures Front(NewJob(s, id, time, run, priority).0)
  {
    hide Insert, OfferIndex;
    var n, job := |s.active|, FreshJob(id, time, run, priority);
    var c := First(Inactive(), s.active);
    if c < n {
      assert Inactive()(s.active[c]);
      InsertFront(s.queue, OfferIndex(Comparer(s.scheme), s.queue, job), Dispatched(job, c, time, time), n);
    } else {
      assert forall i :: 0 <= i < n ==> !Inactive()(s.active[i]);
      var q := Refresh(s.queue, n, time);
      var k := OfferIndex(Comparer(s.scheme), q, job);
      if k < n {
        assert NewJob(s, id, time, run, priority) == Contend(s.(numJobs := s.numJobs + 1), job, time);
        DisplaceFront(q, k, q[n - 1].(core := -1, pause := time), Dispatched(job, q[n - 1].core, time, 0), n);
      } else {
        InsertFront(q, k, job, n);
      }
    }
  }

  lemma InsertFront(q: seq<Job>, k: nat, x: Job, n: nat)
    requires FrontOf(q, n) && k <= |q|
    requires if |q| < n then x.core != -1 else n <= k && x.core == -1
    ensures FrontOf(Insert(q, k, x), n)
  {
  }

  lemma DisplaceFront(q: seq<Job>, k: nat, out: Job, x: Job, n: nat)
    requires FrontOf(q, n) && k < n <= |q| && out.core == -1 && x.core != -1
    ensures FrontOf(Insert(q[n - 1 := out], k, x), n)
  {
  }

  lemma WakeFront(s: Sched, k: nat, core: int, time: int, mark: int)
    requires Front(s) && k < |s.queue|  && s.queue[k].core != -1 && core != -1
    ensures Front(Wake(s.(queue := RemoveAt(s.queue, k)), core, time, mark).0)
  {
    var r := RemoveAt(s.queue, k);
    assert forall i :: 0 <= i < |r| ==> r[i] == s.queue[if i < k then i else i + 1];
    FillFront(s.(queue := r), core, time, mark);
  }

  /** With one place free in front, waking fills it. */
  lemma FillFront(s: Sched, core: int, time: int, mark: int)
    requires |s.active| > 0 && core != -1
    requires forall i :: 0 <= i < |s.queue| ==> (s.queue[i].core != -1 <==> i < |s.active| - 1)
    ensures Front(Wake(s, core, time, mark).0)
  {
    var w := First(OnCore(-1), s.queue);
    if w < |s.queue| {
      assert OnCore(-1)(s.queue[w]);
      assert OnCore(-1)(s.queue[|s.active| - 1]);
    } else {
      assert forall i :: 0 <= i < |s.queue| ==> !OnCore(-1)(s.queue[i]);
    }
  }
}
