/** The scheduler's four entry points as functions on its state. */
module SchedulerSpec {
  import opened Jobs
  import opened QueueSpec

  /** The scheduler's globals.  `active[c]` says that `core_list[c].active != -1`. */
  datatype Sched = Sched(scheme: Scheme, queue: seq<Job>, active: seq<bool>,
                         numJobs: int, waiting: int, turnaround: int, response: int)

  function HasId(id: int): Job -> bool { (j: Job) => j.id == id }

  function OnCore(core: int): Job -> bool { (j: Job) => j.core == core }

  function Inactive(): bool -> bool { a => !a }

  function StartUp(cores: nat, scheme: Scheme): Sched {
    Sched(scheme, [], seq(cores, _ => false), 0, 0, 0, 0)
  }

  /** Brings the stored remaining time of a running job up to date. */
  function Settle(j: Job, time: int): Job {
    j.(remaining := j.remaining - (time - j.start), start := time)
  }

  function Refresh(q: seq<Job>, n: nat, time: int): (r: seq<Job>)
    requires n <= |q|
    ensures |r| == |q|
    ensures forall i :: 0 <= i < |q| ==> r[i] == if i < n then Settle(q[i], time) else q[i]
  {
    seq(|q|, i requires 0 <= i < |q| => if i < n then Settle(q[i], time) else q[i])
  }

  function Dispatched(j: Job, core: int, time: int, mark: int): Job {
    j.(core := core, start := time, pause := mark, responded := true)
  }

  function FreshJob(id: int, time: int, run: int, priority: int): Job {
    Job(id, -1, time, run, priority, -1, run, time, false)
  }

  /** A new job takes the lowest inactive core; otherwise it contends for one or waits. */
  function NewJob(s: Sched, id: int, time: int, run: int, priority: int): (Sched, int) {
    var job := FreshJob(id, time, run, priority);
    var cmp := Comparer(s.scheme);
    var c := First(Inactive(), s.active);
    var t := s.(numJobs := s.numJobs + 1);
    if c < |s.active| then
      var seated := Dispatched(job, c, time, time);
      (t.(queue := Insert(s.queue, OfferIndex(cmp, s.queue, job), seated), active := s.active[c := true]), c)
    else if Preemptive(s.scheme) && |s.active| <= |s.queue| then
      Contend(t, job, time)
    else
      (t.(queue := Offer(cmp, s.queue, job)), -1)
  }

  /** All cores are busy and the scheme is preemptive: the running prefix is settled, and if the
      new job lands inside it, it takes the core of the prefix's last job. */
  function Contend(s: Sched, job: Job, time: int): (Sched, int)
    requires |s.active| <= |s.queue|
  {
    var n := |s.active|;
    var q := Refresh(s.queue, n, time);
    var k := OfferIndex(Comparer(s.scheme), q, job);
    if k < n then
      var victim := q[n - 1];
      var rest := q[n - 1 := victim.(core := -1, pause := time)];
      (s.(queue := Insert(rest, k, Dispatched(job, victim.core, time, 0))), victim.core)
    else
      (s.(queue := Insert(q, k, job)), -1)
  }

  /** Gives a freed core to the first idle job of the queue, or marks it inactive. */
  function Wake(s: Sched, core: int, time: int, mark: int): (Sched, int) {
    var w := First(OnCore(-1), s.queue);
    if w < |s.queue| then
      var j := s.queue[w];
      (s.(queue := s.queue[w := Dispatched(j, core, time, mark)],
          waiting := s.waiting + (time - j.pause),
          response := s.response + if j.responded then 0 else time - j.arrival), j.id)
    else if 0 <= core < |s.active| then
      (s.(active := s.active[core := false]), -1)
    else
      (s, -1)
  }

  function JobFinished(s: Sched, core: int, id: int, time: int): (Sched, int) {
    var k := First(HasId(id), s.queue);
    if k < |s.queue| then
      Wake(s.(queue := RemoveAt(s.queue, k), turnaround := s.turnaround + (time - s.queue[k].arrival)), core, time, 0)
    else
      (s, -1)
  }

  /** The expired job, settled and idle, as it goes back into the queue. */
  function Expired(j: Job, time: int): Job {
    j.(core := -1, pause := time, remaining := j.remaining - (time - j.start))
  }

  function QuantumExpired(s: Sched, core: int, time: int): (Sched, int) {
    var k := First(OnCore(core), s.queue);
    if k < |s.queue| then
      var q := Offer(Comparer(s.scheme), RemoveAt(s.queue, k), Expired(s.queue[k], time));
      Wake(s.(queue := q), core, time, -1)
    else if 0 <= core < |s.active| then
      (s.(active := s.active[core := false]), -1)
    else
      (s, -1)
  }
}
