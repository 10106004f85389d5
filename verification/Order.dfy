/** The queue stays sorted by the scheme's comparison function. */
module Order {
  import opened Jobs
  import opened QueueSpec
  import opened SchedulerSpec
  import Arrivals

  /** Round robin has no order of its own.  Under PSJF the stored remaining times go stale while
      jobs run, and only one running job is sure to be the one at the head. */
  ghost predicate Ordered(s: Sched) {
    s.scheme != RR && (s.scheme == PSJF ==> |s.active| == 1) ==> Sorted(Comparer(s.scheme), s.queue)
  }

  lemma ComparerConsistent(scheme: Scheme)
    requires scheme != RR
    ensures Consistent(Comparer(scheme))
  {
  }

  /** Everything a scheme compares on. */
  predicate SameKey(scheme: Scheme, a: Job, b: Job) {
    && a.arrival == b.arrival && a.run == b.run && a.priority == b.priority
    && (scheme == PSJF ==> a.remaining == b.remaining)
  }

  lemma SameKeysSorted(scheme: Scheme, a: seq<Job>, b: seq<Job>)
    requires |a| == |b| && Sorted(Comparer(scheme), a)
    requires forall i :: 0 <= i < |a| ==> SameKey(scheme, a[i], b[i])
    ensures Sorted(Comparer(scheme), b)
  {
  }

  lemma WakeOrdered(s: Sched, core: int, time: int, mark: int)
    requires Ordered(s)
    ensures Ordered(Wake(s, core, time, mark).0)
  {
    var t := Wake(s, core, time, mark).0;
    if s.scheme != RR && (s.scheme == PSJF ==> |s.active| == 1) {
      SameKeysSorted(s.scheme, s.queue, t.queue);
    }
  }

  lemma FinishedOrdered(s: Sched, core: int, id: int, time: int)
    requires Ordered(s)
    ensures Ordered(JobFinished(s, core, id, time).0)
  {
    var k := First(HasId(id), s.queue);
    if k < |s.queue| {
      var m := s.(queue := RemoveAt(s.queue, k), turnaround := s.turnaround + (time - s.queue[k].arrival));
      if s.scheme != RR && (s.scheme == PSJF ==> |s.active| == 1) {
        RemoveKeepsSorted(Comparer(s.scheme), s.queue, k);
      }
      WakeOrdered(m, core, time, 0);
    }
  }

  lemma InsertSameKeys(scheme: Scheme, q: seq<Job>, r: seq<Job>, k: nat, job: Job, x: Job)
    requires |r| == |q| && k <= |q| && SameKey(scheme, job, x)
    requires forall i :: 0 <= i < |q| ==> SameKey(scheme, q[i], r[i])
    ensures |Insert(q, k, job)| == |Insert(r, k, x)|
    ensures forall i :: 0 <= i < |Insert(q, k, job)| ==> SameKey(scheme, Insert(q, k, job)[i], Insert(r, k, x)[i])
  {
    hide SameKey;
    forall i | 0 <= i < |Insert(q, k, job)|
      ensures SameKey(scheme, Insert(q, k, job)[i], Insert(r, k, x)[i])
    {
      InsertIndex(q, k, job, i);
      InsertIndex(r, k, x, i);
    }
  }

  /** Inserting `x`, which compares like `job`, where `job` belongs. */
  lemma InsertLikeSorted(scheme: Scheme, q: seq<Job>, job: Job, r: seq<Job>, x: Job)
    requires scheme != RR && Sorted(Comparer(scheme), q) && SameKey(scheme, job, x)
    requires |r| == |q| && forall i :: 0 <= i < |q| ==> SameKey(scheme, q[i], r[i])
    ensures Sorted(Comparer(scheme), Insert(r, OfferIndex(Comparer(scheme), q, job), x))
  {
    hide Sorted, Insert, OfferIndex, Consistent, SameKey;
    ComparerConsistent(scheme);
    var k := OfferIndex(Comparer(scheme), q, job);
    OfferKeepsSorted(Comparer(scheme), q, job);
    InsertSameKeys(scheme, q, r, k, job, x);
    SameKeysSorted(scheme, Insert(q, k, job), Insert(r, k, x));
  }

  /** Settling the head of a queue sorted by remaining time leaves it sorted: the head only gets less. */
  lemma RefreshSorted(s: Sched, time: int)
    requires Ordered(s) && Preemptive(s.scheme) && |s.active| <= |s.queue|
    requires s.scheme == PSJF ==> |s.active| == 1 && s.queue[0].start <= time
    ensures Sorted(Comparer(s.scheme), Refresh(s.queue, |s.active|, time))
  {
    var q := Refresh(s.queue, |s.active|, time);
    var cmp := Comparer(s.scheme);
    if s.scheme == PPRI {
      SameKeysSorted(PPRI, s.queue, q);
    } else {
      forall i, j | 0 <= i < j < |q|
        ensures cmp(q[i], q[j]) <= 0
      {
        assert cmp(s.queue[i], s.queue[j]) <= 0;
      }
    }
  }

  lemma NewJobOrdered(s: Sched, id: int, time: int, run: int, priority: int)
    requires Ordered(s) && (Preemptive(s.scheme) ==> Arrivals.PreemptReady(s))
    requires s.scheme == PSJF && |s.active| == 1 && |s.queue| > 0 ==> s.queue[0].start <= time
    ensures Ordered(NewJob(s, id, time, run, priority).0)
  {
    if s.scheme != RR && (s.scheme == PSJF ==> |s.active| == 1) {
      var job := FreshJob(id, time, run, priority);
      var c := First(Inactive(), s.active);
      if c < |s.active| {
        InsertLikeSorted(s.scheme, s.queue, job, s.queue, Dispatched(job, c, time, time));
      } else if Preemptive(s.scheme) {
        assert forall d :: 0 <= d < |s.active| ==> !Inactive()(s.active[d]);
        ContendSorted(s.(numJobs := s.numJobs + 1), job, time);
      } else {
        ComparerConsistent(s.scheme);
        OfferKeepsSorted(Comparer(s.scheme), s.queue, job);
      }
    }
  }

  lemma ContendSorted(s: Sched, job: Job, time: int)
    requires Ordered(s) && Preemptive(s.scheme) && |s.active| <= |s.queue|
    requires s.scheme == PSJF ==> |s.active| == 1 && s.queue[0].start <= time
    ensures Sorted(Comparer(s.scheme), Contend(s, job, time).0.queue)
  {
    RefreshSorted(s, time);
    var n := |s.active|;
    var q := Refresh(s.queue, n, time);
    var k := OfferIndex(Comparer(s.scheme), q, job);
    if k < n {
      InsertLikeSorted(s.scheme, q, job, q[n - 1 := q[n - 1].(core := -1, pause := time)],
                       Dispatched(job, q[n - 1].core, time, 0));
    } else {
      InsertLikeSorted(s.scheme, q, job, q, job);
    }
  }

  // ----- round robin -----

  /** Under round robin, idle jobs queue in the order in which they went idle. */
  ghost predicate Patient(s: Sched) {
    s.scheme == RR ==> ByPause(s.queue)
  }

  ghost predicate ByPause(q: seq<Job>) {
    forall i, j :: 0 <= i < j < |q| && q[i].core == q[j].core == -1 ==> q[i].pause <= q[j].pause
  }

  lemma RemoveByPause(q: seq<Job>, k: nat)
    requires ByPause(q) && k < |q|
    ensures ByPause(RemoveAt(q, k))
  {
  }

  ghost predicate PausedBefore(q: seq<Job>, time: int) {
    forall i :: 0 <= i < |q| && q[i].core == -1 ==> q[i].pause <= time
  }

  lemma RoundRobinAppends(q: seq<Job>, x: Job)
    ensures Offer(Comparer(RR), q, x) == q + [x]
  {
  }

  lemma WakePatient(s: Sched, core: int, time: int, mark: int)
    requires Patient(s) && core != -1
    ensures Patient(Wake(s, core, time, mark).0)
  {
  }

  lemma FinishedPatient(s: Sched, core: int, id: int, time: int)
    requires Patient(s) && core != -1
    ensures Patient(JobFinished(s, core, id, time).0)
  {
    var k := First(HasId(id), s.queue);
    if k < |s.queue| {
      if s.scheme == RR {
        RemoveByPause(s.queue, k);
      }
      var r := RemoveAt(s.queue, k);
      var m := s.(queue := r, turnaround := s.turnaround + (time - s.queue[k].arrival));
      WakePatient(m, core, time, 0);
    }
  }

  lemma ExpiredPatient(s: Sched, core: int, time: int)
    requires Patient(s) && core != -1 && s.scheme == RR && PausedBefore(s.queue, time)
    ensures Patient(QuantumExpired(s, core, time).0)
  {
    var k := First(OnCore(core), s.queue);
    if k < |s.queue| {
      var r, x := RemoveAt(s.queue, k), Expired(s.queue[k], time);
      assert forall i :: 0 <= i < |r| ==> r[i] == s.queue[if i < k then i else i + 1];
      RemoveByPause(s.queue, k);
      AppendByPause(r, x);
      RoundRobinAppends(r, x);
      hide Offer, Wake, RemoveAt, ByPause, First;
      WakePatient(s.(queue := r + [x]), core, time, -1);
    }
  }

  lemma AppendByPause(q: seq<Job>, x: Job)
    requires ByPause(q) && PausedBefore(q, x.pause)
    ensures ByPause(q + [x])
  {
  }

  lemma RunningByPause(q: seq<Job>, k: nat, x: Job)
    requires ByPause(q) && k <= |q| && x.core != -1
    ensures ByPause(Insert(q, k, x))
  {
  }

  lemma NewJobPatient(s: Sched, id: int, time: int, run: int, priority: int)
    requires Patient(s) && PausedBefore(s.queue, time)
    ensures Patient(NewJob(s, id, time, run, priority).0)
  {
    if s.scheme == RR {
      var c, job := First(Inactive(), s.active), FreshJob(id, time, run, priority);
      RoundRobinAppends(s.queue, job);
      AppendByPause(s.queue, job);
      hide Insert, OfferIndex, Offer, ByPause;
      if c < |s.active| {
        RunningByPause(s.queue, OfferIndex(Comparer(RR), s.queue, job), Dispatched(job, c, time, time));
      }
    }
  }
}
