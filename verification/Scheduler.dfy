/** The scheduler library: its globals as the fields of one object, its calls as methods. */
module Scheduler {
  import opened Jobs
  import opened QueueSpec
  import opened Priqueue
  import Spec = SchedulerSpec

  lemma InsertMembers(items: seq<JobRecord>, k: nat, x: JobRecord)
    requires Different(items) && k <= |items| && x !in items
    ensures Different(Insert(items, k, x))
    ensures forall y :: y in Insert(items, k, x) <==> y == x || y in items
  {
  }

  lemma InsertItems(items: seq<JobRecord>, k: nat, x: JobRecord)
    requires Different(items) && k <= |items| && x !in items
    ensures var r := Insert(items, k, x);
            && Different(r) && (forall y :: y in r <==> y == x || y in items)
            && Values(r) == Insert(Values(items), k, x.Value())
  {
    InsertMembers(items, k, x);
    hide Different, Values;
    assert Values(Insert(items, k, x)) == Insert(Values(items), k, x.Value());
  }

  lemma RemoveItems(items: seq<JobRecord>, k: nat)
    requires Different(items) && k < |items|
    ensures var r := RemoveAt(items, k);
            && Different(r) && (forall y :: y in r ==> y in items) && items[k] !in r
            && Values(r) == RemoveAt(Values(items), k)
  {
  }

  /** The scheduler still uses the objects it used before, and perhaps some that are new. */
  twostate predicate SameObjects(s: Scheduler)
    reads s, s.queue
  {
    && s.scheme == old(s.scheme) && s.coreList == old(s.coreList) && s.queue == old(s.queue)
    && (forall i :: 0 <= i < |s.queue.nodes| ==> s.queue.nodes[i] in old(s.queue.nodes) || fresh(s.queue.nodes[i]))
    && (forall i :: 0 <= i < |s.queue.items| ==> s.queue.items[i] in old(s.queue.items) || fresh(s.queue.items[i]))
  }

  /** The queue has no other items than it had before and perhaps `job`, and no old nodes but its own. */
  twostate predicate OnlyAdded(queue: Priqueue, new job: JobRecord)
    reads queue
  {
    && (forall i :: 0 <= i < |queue.nodes| ==> queue.nodes[i] in old(queue.nodes) || fresh(queue.nodes[i]))
    && (forall i :: 0 <= i < |queue.items| ==> queue.items[i] in old(queue.items) || queue.items[i] == job)
  }

  class Scheduler {
    var scheme: Scheme
    var coreList: array<bool>
    var queue: Priqueue
    var numJobs: int
    var waitingTime: int
    var turnaroundTime: int
    var responseTime: int

    ghost predicate Valid()
      reads this, queue, queue.nodes
    {
      queue.Valid() && queue.cmp == Comparer(scheme) && Different(queue.items)
    }

    ghost function View(): (v: Spec.Sched)
      reads this, coreList, queue, queue.items
      ensures v.scheme == scheme && |v.active| == coreList.Length && |v.queue| == |queue.items|
    {
      Spec.Sched(scheme, Values(queue.items), coreList[..], numJobs, waitingTime, turnaroundTime, responseTime)
    }

    /** `scheduler_start_up`. */
    constructor (cores: nat, scheme: Scheme)
      ensures Valid() && fresh(coreList) && fresh(queue) && queue.nodes == [] && queue.items == []
        && View() == Spec.StartUp(cores, scheme)
    {
      this.scheme := scheme;
      numJobs, waitingTime, turnaroundTime, responseTime := 0, 0, 0, 0;
      coreList := new bool[cores];
      queue := new Priqueue(Comparer(scheme));
      new;
      hide Linked, Different;
      Deactivate();
      assert coreList[..] == seq(cores, _ => false);
    }

    method Deactivate()
      modifies coreList
      ensures forall c :: 0 <= c < coreList.Length ==> !coreList[c]
    {
      for i := 0 to coreList.Length
        invariant forall c :: 0 <= c < i ==> !coreList[c]
      {
        coreList[i] := false;
      }
    }

    /** The lowest inactive core, or -1. */
    method FindInactive() returns (core: int)
      ensures var c := First(Spec.Inactive(), View().active); core == if c < |View().active| then c else -1
      ensures core == -1 ==> forall c :: 0 <= c < coreList.Length ==> coreList[c]
    {
      hide Values;
      core := -1;
      var i := 0;
      while i < coreList.Length && core == -1
        invariant 0 <= i <= coreList.Length
        invariant if core == -1 then forall c :: 0 <= c < i ==> coreList[c]
                  else First(Spec.Inactive(), coreList[..]) == core < coreList.Length
      {
        if !coreList[i] {
          core := i;
          FirstUnique(Spec.Inactive(), coreList[..], i);
        }
        i := i + 1;
      }
      if core == -1 {
        FirstUnique(Spec.Inactive(), coreList[..], coreList.Length);
      }
    }

    /** `scheduler_new_job`.  A preemptive scheme looks at as many queued jobs as there are cores. */
    method NewJob(jobNumber: int, time: int, runningTime: int, priority: int) returns (coreIndex: int)
      requires Valid()
      requires Preemptive(scheme) && (forall c :: 0 <= c < coreList.Length ==> coreList[c]) ==>
        coreList.Length <= |queue.items|
      modifies this, coreList, queue, queue.nodes, queue.items
      ensures Valid() && SameObjects(this)
      ensures (View(), coreIndex) == Spec.NewJob(old(View()), jobNumber, time, runningTime, priority)
    {
      hide Linked, Insert, Values, Different, OfferIndex, Offer, First, View, Spec.Contend;
      CountIn();
      var job := new JobRecord(jobNumber, -1, time, runningTime, priority, -1, runningTime, time);
      coreIndex := FindInactive();
      if coreIndex != -1 {
        SeatNew(job, coreIndex, time);
      } else if Preemptive(scheme) {
        coreIndex := Contend(job, time);
      } else {
        Enqueue(job);
      }
    }

    method CountIn()
      modifies this`numJobs
      ensures var v := old(View()); View() == v.(numJobs := v.numJobs + 1)
    {
      hide Values;
      numJobs := numJobs + 1;
    }

    /** The branch in which the new job waits. */
    method Enqueue(job: JobRecord)
      requires Valid() && job !in queue.items
      modifies queue, queue.nodes
      ensures Valid()
      ensures OnlyAdded(queue, job)
      ensures var v := old(View());
              View() == v.(queue := Offer(Comparer(scheme), v.queue, old(job.Value())))
    {
      hide Linked, Insert, Values, Different, OfferIndex;
      ghost var items, vals := queue.items, Values(queue.items);
      ghost var k := OfferIndex(queue.cmp, vals, job.Value());
      var _ := queue.Offer(job);
      InsertItems(items, k, job);
      assert Values(items) == vals;
    }

    /** The idle-core branch: the job is queued first and given the core afterwards. */
    method SeatNew(job: JobRecord, core: nat, time: int)
      requires Valid() && job !in queue.items && core < coreList.Length
      modifies queue, queue.nodes, job, coreList
      ensures Valid()
      ensures OnlyAdded(queue, job)
      ensures var v := old(View());
              var k := OfferIndex(Comparer(scheme), v.queue, old(job.Value()));
              View() == v.(active := v.active[core := true],
                           queue := Insert(v.queue, k, Spec.Dispatched(old(job.Value()), core, time, old(job.pause))))
    {
      hide Linked, Insert, Values, Different, OfferIndex;
      ghost var items, vals := queue.items, Values(queue.items);
      ghost var k := OfferIndex(queue.cmp, vals, job.Value());
      var _ := queue.Offer(job);
      job.core := core;
      job.responded := true;
      job.start := time;
      coreList[core] := true;
      InsertItems(items, k, job);
      assert Values(items) == vals;
    }

    /** Updates the stored remaining time of the first `n` jobs; answers the last of them. */
    method SettleRunning(n: nat, time: int) returns (temp: JobRecord?)
      requires Valid() && n <= |queue.items|
      modifies queue.items
      ensures Valid() && View() == old(View()).(queue := Spec.Refresh(old(View()).queue, n, time))
      ensures temp == if n == 0 then null else queue.items[n - 1]
    {
      hide Linked, Values;
      ghost var vals := Values(queue.items);
      temp := null;
      for i := 0 to n
        invariant Valid()
        invariant temp == if i == 0 then null else queue.items[i - 1]
        invariant forall j :: 0 <= j < |queue.items| ==>
          queue.items[j].Value() == if j < i then Spec.Settle(vals[j], time) else vals[j]
      {
        temp := queue.At(i);
        temp.remaining := temp.remaining - (time - temp.start);
        temp.start := time;
      }
    }

    /** The preemptive branch: if the new job lands among the first `n`, it takes over from the
        last job that was settled. */
    method Contend(job: JobRecord, time: int) returns (coreIndex: int)
      requires Valid() && job !in queue.items && coreList.Length <= |queue.items| && job.core == -1
      modifies queue, queue.nodes, queue.items, job
      ensures Valid()
      ensures OnlyAdded(queue, job)
      ensures (View(), coreIndex) == Spec.Contend(old(View()), old(job.Value()), time)
    {
      hide Linked, Values, Different, OfferIndex, Insert, View, Spec.Refresh;
      var temp := SettleRunning(coreList.Length, time);
      coreIndex := Compete(job, temp, time);
    }

    /** Queues the new job and looks whether it landed among the running ones, the last of which is `temp`. */
    method Compete(job: JobRecord, temp: JobRecord?, time: int) returns (coreIndex: int)
      requires Valid() && job !in queue.items && coreList.Length <= |queue.items|
      requires temp == if coreList.Length == 0 then null else queue.items[coreList.Length - 1]
      modifies queue, queue.nodes, queue.items, job
      ensures Valid()
      ensures OnlyAdded(queue, job)
      ensures var v, n := old(View()), coreList.Length;
              var k := OfferIndex(Comparer(scheme), v.queue, old(job.Value()));
              if k < n then
                && coreIndex == v.queue[n - 1].core
                && View() == v.(queue := Insert(v.queue[n - 1 := v.queue[n - 1].(core := -1, pause := time)], k,
                                                Spec.Dispatched(old(job.Value()), coreIndex, time, 0)))
              else
                coreIndex == -1 && View() == v.(queue := Insert(v.queue, k, old(job.Value())))
    {
      hide Linked, Insert, Values, Different, OfferIndex;
      ghost var items, vals := queue.items, Values(queue.items);
      ghost var k := OfferIndex(queue.cmp, vals, job.Value());
      var _ := queue.Offer(job);
      coreIndex := TakeOver(job, temp, coreList.Length, time, items, k);
    }

    /** The core of `temp`, which goes idle, is given to `job`. */
    method HandOver(job: JobRecord, temp: JobRecord, time: int) returns (coreIndex: int)
      requires job != temp
      modifies job, temp
      ensures coreIndex == old(temp.core)
      ensures job.Value() == Spec.Dispatched(old(job.Value()), coreIndex, time, 0)
      ensures temp.Value() == old(temp.Value()).(core := -1, pause := time)
    {
      coreIndex := temp.core;
      job.core := coreIndex;
      job.start := time;
      job.pause := 0;
      job.responded := true;
      temp.core := -1;
      temp.pause := time;
    }

    /** Looks for the new job among the first `n`. */
    method TakeOver(job: JobRecord, temp: JobRecord?, n: nat, time: int, ghost items: seq<JobRecord>, ghost k: nat)
      returns (coreIndex: int)
      requires queue.Valid() && Different(items) && job !in items && n <= |items| && k <= |items|
      requires queue.items == Insert(items, k, job)
      requires temp == if n == 0 then null else items[n - 1]
      modifies job, temp
      ensures queue.Valid() && Different(queue.items)
      ensures forall j :: j in queue.items ==> j in items || j == job
      ensures if k < n then
          && coreIndex == old(items[n - 1].core)
          && var out := old(items[n - 1].Value()).(core := -1, pause := time);
             Values(queue.items) == Insert(old(Values(items))[n - 1 := out], k,
                                           Spec.Dispatched(old(job.Value()), coreIndex, time, 0))
        else
          coreIndex == -1 && Values(queue.items) == Insert(old(Values(items)), k, old(job.Value()))
    {
      hide Linked;
      coreIndex := -1;
      InsertItems(items, k, job);
      assert forall i :: 0 <= i < n ==> (queue.items[i] == job <==> i == k);
      assert temp != job && forall i :: 0 <= i < |items| ==> (items[i] == temp <==> i == n - 1);
      hide Different, Values, Insert;
      for i := 0 to n
        invariant queue.Valid()
        invariant if k < i then
            && coreIndex == old(items[n - 1].core)
            && job.Value() == Spec.Dispatched(old(job.Value()), coreIndex, time, 0)
            && temp.Value() == old(items[n - 1].Value()).(core := -1, pause := time)
          else coreIndex == -1 && unchanged(job) && (temp != null ==> unchanged(temp))
      {
        var x := queue.At(i);
        if x == job {
          coreIndex := HandOver(job, temp, time);
        }
      }
      InsertItems(items, k, job);
      if k < n {
        assert Values(items) == old(Values(items))[n - 1 := temp.Value()];
      } else {
        assert Values(items) == old(Values(items));
      }
    }

    /** Gives core `core` to the first idle job of the queue; `finished` selects the mark left in its pause time. */
    method Wake(core: nat, time: int, mark: int) returns (wakeJobId: int)
      requires Valid() && core < coreList.Length
      modifies this, coreList, queue.items
      ensures Valid() && queue == old(queue) && coreList == old(coreList) && scheme == old(scheme)
      ensures (View(), wakeJobId) == Spec.Wake(old(View()), core, time, mark)
    {
      hide Linked, Values, Different, First;
      wakeJobId := -1;
      ghost var v := View();
      var wakeJob: JobRecord?, at := FindIdle();
      assert at == First(Spec.OnCore(-1), v.queue);
      hide View;
      if wakeJob != null {
        wakeJobId := wakeJob.id;
        Charge(wakeJob, at, time);
        Dispatch(wakeJob, at, core, time, mark);
      } else {
        Release(core);
      }
    }

    /** Charges the time job `at` has waited, and its response time when this is its first core. */
    method Charge(job: JobRecord, ghost at: nat, time: int)
      requires Valid() && at < |queue.items| && job == queue.items[at]
      modifies this`waitingTime, this`responseTime
      ensures Valid() && job.id == View().queue[at].id
      ensures var v := old(View());
              View() == v.(waiting := v.waiting + (time - v.queue[at].pause),
                           response := v.response + if v.queue[at].responded then 0 else time - v.queue[at].arrival)
    {
      hide Linked, Values, Different;
      waitingTime := waitingTime + (time - job.pause);
      if !job.responded {
        responseTime := responseTime + (time - job.arrival);
      }
    }

    /** The first idle job and its place, or null and the size of the queue. */
    method FindIdle() returns (job: JobRecord?, ghost at: nat)
      requires Valid()
      ensures at == First(Spec.OnCore(-1), Values(queue.items))
      ensures var k := First(Spec.OnCore(-1), Values(queue.items));
              job == if k < |queue.items| then queue.items[k] else null
    {
      job := null;
      at := |queue.items|;
      ghost var vals := Values(queue.items);
      var size := queue.Size();
      var i := 0;
      while i < size && job == null
        invariant 0 <= i <= size
        invariant if job == null then at == |queue.items| && forall j :: 0 <= j < i ==> vals[j].core != -1
                  else at < |queue.items| && job == queue.items[at] && at == First(Spec.OnCore(-1), vals)
      {
        var temp := queue.At(i);
        if temp.core == -1 {
          job := temp;
          at := i;
          FirstUnique(Spec.OnCore(-1), vals, i);
        }
        i := i + 1;
      }
      if job == null {
        FirstUnique(Spec.OnCore(-1), vals, |vals|);
      }
    }

    method Dispatch(job: JobRecord, ghost at: nat, core: int, time: int, mark: int)
      requires Valid() && at < |queue.items| && job == queue.items[at]
      modifies job
      ensures Valid()
      ensures var v := old(View());
              View() == v.(queue := v.queue[at := Spec.Dispatched(v.queue[at], core, time, mark)])
    {
      hide Linked, Values;
      ghost var vals := Values(queue.items);
      OthersDiffer(queue.items, at);
      hide Different;
      job.core := core;
      job.start := time;
      job.pause := mark;
      job.responded := true;
      assert Values(queue.items) == vals[at := Spec.Dispatched(vals[at], core, time, mark)];
    }

    method Release(core: nat)
      requires Valid() && core < coreList.Length
      modifies coreList
      ensures Valid()
      ensures var v := old(View()); View() == v.(active := v.active[core := false])
    {
      hide Linked, Values, Different;
      coreList[core] := false;
      assert coreList[..] == old(coreList[..])[core := false];
    }

    /** Finds the job with number `jobNumber`, if there is one, and takes it out of the queue. */
    method TakeJob(jobNumber: int) returns (job: JobRecord?)
      requires Valid()
      modifies queue, queue.nodes
      ensures Valid() && forall n :: n in queue.nodes ==> n in old(queue.nodes)
      ensures var k := First(Spec.HasId(jobNumber), Values(old(queue.items)));
              if k < |old(queue.items)|
              then job == old(queue.items)[k] && queue.items == RemoveAt(old(queue.items), k)
              else job == null && queue.items == old(queue.items)
    {
      hide Linked, Values, Different, First;
      ghost var items, vals := queue.items, Values(queue.items);
      job := null;
      var size := queue.Size();
      var i := 0;
      while i < size && job == null
        invariant 0 <= i <= |items|
        invariant Valid() && forall n :: n in queue.nodes ==> n in old(queue.nodes)
        invariant job == null ==> size == |items| && queue.items == items && queue.nodes == old(queue.nodes)
        invariant job == null ==> forall j :: 0 <= j < i ==> vals[j].id != jobNumber
        invariant job != null ==>
          var k := First(Spec.HasId(jobNumber), vals);
          k < |items| && job == items[k] && queue.items == RemoveAt(items, k)
      {
        var temp := queue.At(i);
        if temp.id == jobNumber {
          FirstUnique(Spec.HasId(jobNumber), vals, i);
          job := queue.RemoveAt(i);
          RemoveItems(items, i);
        }
        size := queue.Size();
        i := i + 1;
      }
      if job == null {
        FirstUnique(Spec.HasId(jobNumber), vals, |vals|);
      }
    }

    /** The same, for the job on core `core`. */
    method TakeFromCore(core: int) returns (job: JobRecord?)
      requires Valid()
      modifies queue, queue.nodes
      ensures Valid() && forall n :: n in queue.nodes ==> n in old(queue.nodes)
      ensures var k := First(Spec.OnCore(core), Values(old(queue.items)));
              if k < |old(queue.items)|
              then job == old(queue.items)[k] && queue.items == RemoveAt(old(queue.items), k)
              else job == null && queue.items == old(queue.items)
    {
      hide Linked, Values, Different, First;
      ghost var items, vals := queue.items, Values(queue.items);
      job := null;
      var size := queue.Size();
      var i := 0;
      while i < size && job == null
        invariant 0 <= i <= |items|
        invariant Valid() && forall n :: n in queue.nodes ==> n in old(queue.nodes)
        invariant job == null ==> size == |items| && queue.items == items && queue.nodes == old(queue.nodes)
        invariant job == null ==> forall j :: 0 <= j < i ==> vals[j].core != core
        invariant job != null ==>
          var k := First(Spec.OnCore(core), vals);
          k < |items| && job == items[k] && queue.items == RemoveAt(items, k)
      {
        var temp := queue.At(i);
        if temp.core == core {
          FirstUnique(Spec.OnCore(core), vals, i);
          job := queue.RemoveAt(i);
          RemoveItems(items, i);
        }
        size := queue.Size();
        i := i + 1;
      }
      if job == null {
        FirstUnique(Spec.OnCore(core), vals, |vals|);
      }
    }

    /** Takes the finished job out of the queue and charges its turnaround. */
    method Retire(jobNumber: int, time: int)
      requires Valid() && First(Spec.HasId(jobNumber), View().queue) < |View().queue|
      modifies this`turnaroundTime, queue, queue.nodes
      ensures Valid() && (forall n :: n in queue.nodes ==> n in old(queue.nodes))
      ensures forall j :: j in queue.items ==> j in old(queue.items)
      ensures var v := old(View());
              var k := First(Spec.HasId(jobNumber), v.queue);
              View() == v.(queue := RemoveAt(v.queue, k), turnaround := v.turnaround + (time - v.queue[k].arrival))
    {
      hide Linked, Values, Different, First, RemoveAt;
      ghost var items, vals := queue.items, Values(queue.items);
      var finished := TakeJob(jobNumber);
      ghost var k := First(Spec.HasId(jobNumber), vals);
      RemoveItems(items, k);
      assert finished.Value() == vals[k];
      turnaroundTime := turnaroundTime + (time - finished.arrival);
    }

    /** `scheduler_job_finished`: the job must be queued. */
    method JobFinished(core: nat, jobNumber: int, time: int) returns (wakeJobId: int)
      requires Valid() && core < coreList.Length
      requires First(Spec.HasId(jobNumber), View().queue) < |View().queue|
      modifies this, coreList, queue, queue.nodes, queue.items
      ensures Valid() && SameObjects(this)
      ensures (View(), wakeJobId) == Spec.JobFinished(old(View()), core, jobNumber, time)
    {
      hide Linked, Values, Different, First, RemoveAt, View, Spec.Wake;
      Retire(jobNumber, time);
      assert forall i :: 0 <= i < |queue.items| ==> queue.items[i] in old(queue.items);
      wakeJobId := Wake(core, time, 0);
    }

    /** Takes the job on core `core` out of the queue, if there is one, and puts it back as idle. */
    method Rotate(core: nat, time: int) returns (expired: bool)
      requires Valid()
      modifies queue, queue.nodes, queue.items
      ensures Valid() && (forall n :: n in queue.nodes ==> n in old(queue.nodes) || fresh(n))
      ensures forall j :: j in queue.items ==> j in old(queue.items)
      ensures var v := old(View());
              var k := First(Spec.OnCore(core), v.queue);
              && (expired <==> k < |v.queue|)
              && View() == if expired
                           then v.(queue := Offer(Comparer(scheme), RemoveAt(v.queue, k),
                                                  Spec.Expired(v.queue[k], time)))
                           else v
    {
      hide Linked, Values, Different, First, RemoveAt, Offer;
      ghost var items, vals := queue.items, Values(queue.items);
      var expireJob := TakeFromCore(core);
      expired := expireJob != null;
      if expired {
        ghost var k := First(Spec.OnCore(core), vals);
        RemoveItems(items, k);
        assert expireJob.Value() == vals[k] && expireJob in items;
        assert forall i :: 0 <= i < |queue.nodes| ==> queue.nodes[i] in old(queue.nodes);
        Requeue(expireJob, time);
      }
    }

    /** `scheduler_quantum_expired`. */
    method QuantumExpired(core: nat, time: int) returns (wakeJobId: int)
      requires Valid() && core < coreList.Length
      modifies this, coreList, queue, queue.nodes, queue.items
      ensures Valid() && SameObjects(this)
      ensures (View(), wakeJobId) == Spec.QuantumExpired(old(View()), core, time)
    {
      hide Linked, Values, Different, First, RemoveAt, Offer, View, Spec.Wake;
      var expired := Rotate(core, time);
      if expired {
        assert forall i :: 0 <= i < |queue.items| ==> queue.items[i] in old(queue.items);
        wakeJobId := Wake(core, time, -1);
      } else {
        Release(core);
        wakeJobId := -1;
      }
    }

    /** Settles a job that was just taken out and puts it back as idle. */
    method Requeue(job: JobRecord, time: int)
      requires Valid() && job !in queue.items
      modifies queue, queue.nodes, job
      ensures Valid()
      ensures OnlyAdded(queue, job)
      ensures var v := old(View());
              View() == v.(queue := Offer(Comparer(scheme), v.queue, Spec.Expired(old(job.Value()), time)))
    {
      hide Linked, Values, Different, Offer;
      ghost var vals := Values(queue.items);
      job.core := -1;
      job.pause := time;
      job.remaining := job.remaining - (time - job.start);
      assert Values(queue.items) == vals;
      Enqueue(job);
    }
  }
}
