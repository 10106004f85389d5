/** What an arriving job gets: its place in the queue and its core, for every scheme and any number of cores. */
module Arriving {
  import opened Jobs
  import opened QueueSpec
  import opened SchedulerSpec
  import opened SimulatorSpec
  import SchedulerTables
  import Arrivals
  import Counting
  import opened Invariant
  import Entries
  import opened Runs
  import RunsForward
  import Phases
  import Safety
  import opened Moments
  import Keeping

  // ----- its place in the queue -----

  /** The order a scheme serves in: first come, shortest, most urgent; earlier arrivals first. */
  predicate Before(scheme: Scheme, a: Job, b: Job) {
    match scheme
    case FCFS => a.arrival < b.arrival
    case SJF => a.run < b.run || (a.run == b.run && a.arrival < b.arrival)
    case PSJF => a.remaining < b.remaining || (a.remaining == b.remaining && a.arrival < b.arrival)
    case PRI => a.priority < b.priority || (a.priority == b.priority && a.arrival < b.arrival)
    case PPRI => a.priority < b.priority || (a.priority == b.priority && a.arrival < b.arrival)
    case RR => false
  }

  lemma ComparesBefore(scheme: Scheme, a: Job, b: Job)
    ensures scheme != RR ==> (Compare(scheme, a, b) < 0 <==> Before(scheme, a, b))
    ensures scheme != RR ==> (Compare(scheme, a, b) > 0 <==> Before(scheme, b, a))
    ensures scheme == RR ==> Compare(scheme, a, b) > 0
  {
  }

  /** Record `i` of the queue as an arriving job is compared with it: a preemptive scheme with no free
      core looks at the true remaining time of the running jobs, everything else at the stored one. */
  function Seen(s: Sched, time: int, i: nat): Job
    requires i < |s.queue|
  {
    if Preemptive(s.scheme) && (forall c :: 0 <= c < |s.active| ==> s.active[c]) && i < |s.active|
    then Settle(s.queue[i], time) else s.queue[i]
  }

  /** `p` is the place of `job`: the head of the queue if it goes before the head, and otherwise in front
      of the first later record that does not go before it.  Under round robin that is the end. */
  ghost predicate PlaceOf(s: Sched, job: Job, time: int, p: nat) {
    && p <= |s.queue|
    && (p == 0 <==> s.queue == [] || Before(s.scheme, job, Seen(s, time, 0)))
    && (s.scheme == RR ==> p == |s.queue|)
    && (s.scheme != RR ==> forall i :: 1 <= i < p ==> Before(s.scheme, Seen(s, time, i), job))
    && (1 <= p < |s.queue| ==> !Before(s.scheme, Seen(s, time, p), job))
  }

  lemma {:induction false} PlaceFound(s: Sched, job: Job, time: int, q: seq<Job>)
    requires |q| == |s.queue| && forall i :: 0 <= i < |q| ==> q[i] == Seen(s, time, i)
    ensures PlaceOf(s, job, time, OfferIndex(Comparer(s.scheme), q, job))
  {
    var cmp := Comparer(s.scheme);
    var k := OfferIndex(cmp, q, job);
    forall i | 0 <= i < |q|
      ensures cmp(job, q[i]) == Compare(s.scheme, job, q[i])
      ensures s.scheme != RR ==> (cmp(job, q[i]) < 0 <==> Before(s.scheme, job, q[i]))
      ensures s.scheme != RR ==> (cmp(job, q[i]) > 0 <==> Before(s.scheme, q[i], job))
      ensures s.scheme == RR ==> cmp(job, q[i]) > 0 && !Before(s.scheme, job, q[i])
    {
      ComparesBefore(s.scheme, job, q[i]);
    }
    hide Before, Compare, Comparer, Seen;
    if q != [] && cmp(job, q[0]) >= 0 {
      assert k == Walk(cmp, q, job, 1);
    }
  }

  /** The queue `t` is `q` with a record of job `id` at place `p`, but for changes inside records. */
  ghost predicate InsertedAt(q: seq<Job>, t: seq<Job>, p: nat, id: int) {
    && p <= |q| && |t| == |q| + 1 && t[p].id == id
    && (forall i :: 0 <= i < p ==> t[i].id == q[i].id)
    && (forall i :: p <= i < |q| ==> t[i + 1].id == q[i].id)
  }

  lemma InsertedIds(q: seq<Job>, r: seq<Job>, p: nat, x: Job)
    requires |r| == |q| && p <= |q| && forall i :: 0 <= i < |q| ==> r[i].id == q[i].id
    ensures InsertedAt(q, Insert(r, p, x), p, x.id)
  {
  }

  lemma SeatedPlace(s: Sched, job: Job, time: int)
    requires First(Inactive(), s.active) < |s.active| && job == FreshJob(job.id, time, job.run, job.priority)
    ensures var p := OfferIndex(Comparer(s.scheme), s.queue, job);
            InsertedAt(s.queue, NewJob(s, job.id, time, job.run, job.priority).0.queue, p, job.id)
    ensures forall i :: 0 <= i < |s.queue| ==> s.queue[i] == Seen(s, time, i)
  {
    var c := First(Inactive(), s.active);
    assert Inactive()(s.active[c]);
    hide OfferIndex, Insert;
    InsertedIds(s.queue, s.queue, OfferIndex(Comparer(s.scheme), s.queue, job), Dispatched(job, c, time, time));
  }

  lemma QueuedPlace(s: Sched, job: Job, time: int)
    requires First(Inactive(), s.active) == |s.active| && job == FreshJob(job.id, time, job.run, job.priority)
    requires !Preemptive(s.scheme)
    ensures var p := OfferIndex(Comparer(s.scheme), s.queue, job);
            InsertedAt(s.queue, NewJob(s, job.id, time, job.run, job.priority).0.queue, p, job.id)
    ensures forall i :: 0 <= i < |s.queue| ==> s.queue[i] == Seen(s, time, i)
  {
    hide OfferIndex, Insert;
    InsertedIds(s.queue, s.queue, OfferIndex(Comparer(s.scheme), s.queue, job), job);
  }

  lemma ContendedPlace(s: Sched, job: Job, time: int) returns (q: seq<Job>)
    requires First(Inactive(), s.active) == |s.active| <= |s.queue| && Preemptive(s.scheme)
    requires job == FreshJob(job.id, time, job.run, job.priority)
    ensures |q| == |s.queue| && forall i :: 0 <= i < |q| ==> q[i] == Seen(s, time, i)
    ensures InsertedAt(s.queue, NewJob(s, job.id, time, job.run, job.priority).0.queue,
                       OfferIndex(Comparer(s.scheme), q, job), job.id)
  {
    var n := |s.active|;
    assert forall d :: 0 <= d < n ==> !Inactive()(s.active[d]);
    q := Refresh(s.queue, n, time);
    var p := OfferIndex(Comparer(s.scheme), q, job);
    hide OfferIndex, Insert, Compare, Comparer;
    var t := NewJob(s, job.id, time, job.run, job.priority).0;
    assert t.queue == Contend(s.(numJobs := s.numJobs + 1), job, time).0.queue;
    if p < n {
      var victim := q[n - 1];
      var rest := q[n - 1 := victim.(core := -1, pause := time)];
      assert t.queue == Insert(rest, p, Dispatched(job, victim.core, time, 0));
      InsertedIds(s.queue, rest, p, Dispatched(job, victim.core, time, 0));
    } else {
      InsertedIds(s.queue, q, p, job);
    }
  }

  /** Every new job is inserted at its place, and all others keep their order. */
  lemma NewJobPlace(s: Sched, id: int, time: int, run: int, priority: int) returns (p: nat)
    requires Preemptive(s.scheme) ==> Arrivals.PreemptReady(s)
    ensures PlaceOf(s, FreshJob(id, time, run, priority), time, p)
    ensures InsertedAt(s.queue, NewJob(s, id, time, run, priority).0.queue, p, id)
  {
    var job := FreshJob(id, time, run, priority);
    var c := First(Inactive(), s.active);
    var q := s.queue;
    if c == |s.active| {
      assert forall d :: 0 <= d < |s.active| ==> !Inactive()(s.active[d]);
    }
    hide NewJob, OfferIndex, PlaceOf, First, InsertedAt, Seen;
    if c < |s.active| {
      SeatedPlace(s, job, time);
    } else if Preemptive(s.scheme) {
      q := ContendedPlace(s, job, time);
    } else {
      QueuedPlace(s, job, time);
    }
    p := OfferIndex(Comparer(s.scheme), q, job);
    PlaceFound(s, job, time, q);
  }

  // ----- its core -----

  /** At moment `k` of the run a job arrives. */
  predicate Arrives(cfg: Config, k: nat) {
    Keeping.Joins(MomentAt(cfg, k))
  }

  /** What an arrival relies on. */
  lemma ArrivalReady(cfg: Config, k: nat)
    requires Legal(cfg) && Arrives(cfg, k)
    ensures var m := MomentAt(cfg, k);
            && Good(cfg, m.st, cfg.cores) && Positive(Entries.Listed(m.st.jobs))
            && Due(m.st.time, Entries.Listed(m.st.jobs), m.st.jobs[m.i].id)
            && m.st.jobs[m.i].core == -1
            && MomentAt(cfg, k + 1).st == ArriveAt(cfg, m.st, m.i)
  {
    AlwaysSteady(cfg, k);
    NextStep(cfg, Finishing(Start(cfg), 0), k);
    hide MomentAt, Later, ArriveAt, Good, Entries.Listed, Positive;
    var m := MomentAt(cfg, k);
    Phases.WorkingPositive(cfg, m.st, cfg.cores);
    Phases.IsDue(cfg, m.st, cfg.cores, m.i);
    var q := RecordsAgree(cfg, k, m.i);
  }

  /** With a core free, an arriving job gets the lowest free one, and everybody else stays. */
  lemma FreeCoreTaken(cfg: Config, k: nat, c: nat)
    requires Legal(cfg) && Arrives(cfg, k) && c < cfg.cores == |MomentAt(cfg, k).st.sched.active|
    requires !MomentAt(cfg, k).st.sched.active[c] && forall d :: 0 <= d < c ==> MomentAt(cfg, k).st.sched.active[d]
    ensures var m, r := MomentAt(cfg, k), MomentAt(cfg, k + 1).st;
            && |r.jobs| == |m.st.jobs| && r.jobs[m.i].core == c
            && forall e :: 0 <= e < |r.jobs| && e != m.i ==> r.jobs[e] == m.st.jobs[e]
  {
    hide MomentAt, Good;
    ArrivalReady(cfg, k);
    CoresAgree(cfg, k);
    var m := MomentAt(cfg, k);
    var (st, j) := (m.st, m.st.jobs[m.i]);
    assert Inactive()(st.sched.active[c]);
    FirstUnique(Inactive(), st.sched.active, c);
    assert NewJob(st.sched, j.id, st.time, j.run, j.priority).1 == c;
    hide NewJob;
  }

  /** With all cores taken, an arriving job waits under the schemes that never preempt. */
  lemma FullHouseWaits(cfg: Config, k: nat)
    requires Legal(cfg) && Arrives(cfg, k) && !Preemptive(cfg.scheme)
    requires forall c :: 0 <= c < |MomentAt(cfg, k).st.sched.active| ==> MomentAt(cfg, k).st.sched.active[c]
    ensures var m, r := MomentAt(cfg, k), MomentAt(cfg, k + 1).st;
            && |r.jobs| == |m.st.jobs| && r.jobs[m.i].core == -1
            && forall e :: 0 <= e < |r.jobs| && e != m.i ==> r.jobs[e] == m.st.jobs[e]
  {
    hide MomentAt, Good;
    ArrivalReady(cfg, k);
    SchemeOf(cfg, MomentAt(cfg, k).st, cfg.cores);
    var m := MomentAt(cfg, k);
    var (st, j) := (m.st, m.st.jobs[m.i]);
    assert forall c :: 0 <= c < |st.sched.active| ==> !Inactive()(st.sched.active[c]);
    assert NewJob(st.sched, j.id, st.time, j.run, j.priority).1 == -1;
    hide NewJob;
  }

  lemma SchemeOf(cfg: Config, st: Sim, low: int)
    requires Good(cfg, st, low)
    ensures st.sched.scheme == cfg.scheme && |st.sched.active| == cfg.cores == |st.clocks|
    ensures Preemptive(cfg.scheme) ==> SchedulerTables.Front(st.sched)
  {
  }

  // ----- preemption -----

  /** What the preemptive schemes go by: the work a job still needs, or its priority number. */
  function Claim(scheme: Scheme, j: SimJob): int {
    if scheme == PSJF then j.run else j.priority
  }

  /** A preemptive scheme has no free core when a job arrives. */
  ghost predicate Contended(cfg: Config, k: nat) {
    && Arrives(cfg, k) && Preemptive(cfg.scheme)
    && forall c :: 0 <= c < |MomentAt(cfg, k).st.sched.active| ==> MomentAt(cfg, k).st.sched.active[c]
  }

  /** The scheduler's side: the new job gets the core of the last running record if its place is among
      the running ones, and otherwise waits. */
  lemma ContendByPlace(s: Sched, job: Job, time: int)
    requires Preemptive(s.scheme) && 0 < |s.active| <= |s.queue| && SchedulerTables.Front(s)
    requires forall c :: 0 <= c < |s.active| ==> s.active[c]
    requires forall i :: 0 <= i < |s.queue| ==> s.queue[i].core >= -1
    ensures var core := Contend(s, job, time).1;
            && core == (if core != -1 then s.queue[|s.active| - 1].core else -1)
            && (core != -1 <==> exists i :: 0 <= i < |s.active| && Yields(s.scheme, Seen(s, time, i), job, i))
  {
    var n := |s.active|;
    var q := Refresh(s.queue, n, time);
    assert forall i :: 0 <= i < n ==> q[i] == Seen(s, time, i);
    assert q[n - 1].core == s.queue[n - 1].core != -1;
    PlaceFound(s, job, time, q);
    var p := OfferIndex(Comparer(s.scheme), q, job);
    hide OfferIndex, Seen, Comparer, Compare;
    assert Contend(s, job, time).1 == if p < n then q[n - 1].core else -1;
    if p < n {
      assert Yields(s.scheme, Seen(s, time, p), job, p);
    } else {
      forall i | 0 <= i < n
        ensures !Yields(s.scheme, Seen(s, time, i), job, i)
      {
        assert i > 0 ==> Before(s.scheme, Seen(s, time, i), job);
      }
    }
  }

  /** Running record `x`, at place `i`, lets the new job pass: it comes after it, or, but for the head, is
      tied with it. */
  predicate Yields(scheme: Scheme, x: Job, job: Job, i: int) {
    if i == 0 then Before(scheme, job, x) else !Before(scheme, x, job)
  }

  /** The same in terms of the entries: what the comparison with a running entry comes to. */
  lemma YieldsClaim(cfg: Config, k: nat, i: nat) returns (e: nat)
    requires Legal(cfg) && Contended(cfg, k) && i < cfg.cores
    ensures var m := MomentAt(cfg, k);
            && Good(cfg, m.st, cfg.cores) && i < |m.st.sched.queue| && e < |m.st.jobs|
            && m.st.jobs[e].core == m.st.sched.queue[i].core != -1
            && m.st.jobs[e].id == m.st.sched.queue[i].id
            && var (a, b) := (Claim(cfg.scheme, m.st.jobs[m.i]), Claim(cfg.scheme, m.st.jobs[e]));
               var (x, job) := (Seen(m.st.sched, m.st.time, i), FreshOf(m));
               && (a < b ==> Yields(cfg.scheme, x, job, i))
               && (Yields(cfg.scheme, x, job, i) ==> a < b || (a == b && m.st.jobs[e].arrival == m.st.time))
  {
    hide MomentAt, Good, Entries.Listed, Positive, Yields, Seen, Claim, FreshOf;
    ArrivalReady(cfg, k);
    var m := MomentAt(cfg, k);
    SchemeOf(cfg, m.st, cfg.cores);
    EnoughQueued(cfg, m.st);
    e := RecordIsEntry(cfg, k, i);
    var q := RecordsAgree(cfg, k, e);
    FrontRuns(cfg, k, i);
    ClaimsCompared(cfg, m, e, i);
  }

  lemma ClaimsCompared(cfg: Config, m: Moment, e: nat, i: nat)
    requires Preemptive(cfg.scheme) && Good(cfg, m.st, cfg.cores) && m.i < |m.st.jobs| && e < |m.st.jobs|
    requires i < cfg.cores && i < |m.st.sched.queue| && m.st.jobs[e].id == m.st.sched.queue[i].id
    requires m.st.sched.queue[i].core != -1
    requires forall c :: 0 <= c < |m.st.sched.active| ==> m.st.sched.active[c]
    ensures var (a, b) := (Claim(cfg.scheme, m.st.jobs[m.i]), Claim(cfg.scheme, m.st.jobs[e]));
            var (x, job) := (Seen(m.st.sched, m.st.time, i), FreshOf(m));
            && (a < b ==> Yields(cfg.scheme, x, job, i))
            && (Yields(cfg.scheme, x, job, i) ==> a < b || (a == b && m.st.jobs[e].arrival == m.st.time))
  {
    hide Good;
    SchemeOf(cfg, m.st, cfg.cores);
    EntryMatches(cfg, m.st, e, i);
  }

  /** The record the scheduler makes for the arriving job. */
  function FreshOf(m: Moment): Job
    requires m.i < |m.st.jobs|
  {
    var j := m.st.jobs[m.i];
    FreshJob(j.id, m.st.time, j.run, j.priority)
  }

  lemma EnoughQueued(cfg: Config, st: Sim)
    requires Legal(cfg) && Good(cfg, st, cfg.cores)
    ensures (forall c :: 0 <= c < |st.sched.active| ==> st.sched.active[c]) ==> cfg.cores <= |st.sched.queue|
    ensures forall i :: 0 <= i < |st.sched.queue| ==> st.sched.queue[i].core >= -1
  {
    hide SchedulerTables.Queued, Entries.Listed;
    RunsForward.QueueCores(cfg, st);
    if Arrivals.Full(st.sched.active) {
      Counting.FullManyJobs(st.sched);
    }
  }

  lemma EntryMatches(cfg: Config, st: Sim, e: nat, i: nat)
    requires Good(cfg, st, cfg.cores) && e < |st.jobs| && i < |st.sched.queue| && st.jobs[e].id == st.sched.queue[i].id
    ensures var (j, q) := (st.jobs[e], st.sched.queue[i]);
            j.run == Remaining(q, st.time) && j.priority == q.priority && j.arrival == q.arrival <= st.time
  {
    hide SchedulerTables.Queued, Entries.Listed;
    Entries.EntryAt(st.jobs, e);
    SchedulerTables.AtIndex(st.sched.queue, i);
    GoodSound(cfg, st, cfg.cores, st.jobs[e].id);
  }

  /** The arriving job's core in terms of the scheduler's records. */
  lemma ContendedCore(cfg: Config, k: nat)
    requires Legal(cfg) && Contended(cfg, k)
    ensures var m, r := MomentAt(cfg, k), MomentAt(cfg, k + 1).st;
            && cfg.cores <= |m.st.sched.queue| && |r.jobs| == |m.st.jobs|
            && (r.jobs[m.i].core != -1 <==>
                  exists i :: 0 <= i < cfg.cores && Yields(cfg.scheme, Seen(m.st.sched, m.st.time, i), FreshOf(m), i))
            && (r.jobs[m.i].core != -1 ==> r.jobs[m.i].core == m.st.sched.queue[cfg.cores - 1].core)
  {
    hide MomentAt, Good, ArriveAt, Entries.Listed, Positive, Yields, Seen, FreshOf, Due;
    ArrivalReady(cfg, k);
    var m := MomentAt(cfg, k);
    SchemeOf(cfg, m.st, cfg.cores);
    ContendedAnswer(cfg, m);
  }

  lemma ContendedAnswer(cfg: Config, m: Moment)
    requires Legal(cfg) && Preemptive(cfg.scheme) && Good(cfg, m.st, cfg.cores) && m.i < |m.st.jobs|
    requires Positive(Entries.Listed(m.st.jobs)) && Due(m.st.time, Entries.Listed(m.st.jobs), m.st.jobs[m.i].id)
    requires m.st.jobs[m.i].core == -1 && forall c :: 0 <= c < |m.st.sched.active| ==> m.st.sched.active[c]
    ensures var r := ArriveAt(cfg, m.st, m.i);
            && cfg.cores <= |m.st.sched.queue| && |r.jobs| == |m.st.jobs|
            && (r.jobs[m.i].core != -1 <==>
                  exists i :: 0 <= i < cfg.cores && Yields(cfg.scheme, Seen(m.st.sched, m.st.time, i), FreshOf(m), i))
            && (r.jobs[m.i].core != -1 ==> r.jobs[m.i].core == m.st.sched.queue[cfg.cores - 1].core)
  {
    hide Good, Entries.Listed, Positive, Yields, Seen, Due, Contend, ArriveAt;
    var st := m.st;
    SchemeOf(cfg, st, cfg.cores);
    EnoughQueued(cfg, st);
    Safety.ArriveSafe(cfg, st, m.i);
    Answered(cfg, st, m.i);
    ContendIsAsked(st.sched, FreshOf(m), st.time);
    ContendByPlace(st.sched, FreshOf(m), st.time);
  }

  /** With a full house a preemptive scheme answers what `Contend` does. */
  lemma ContendIsAsked(s: Sched, job: Job, time: int)
    requires Preemptive(s.scheme) && |s.active| <= |s.queue| && forall c :: 0 <= c < |s.active| ==> s.active[c]
    requires job == FreshJob(job.id, time, job.run, job.priority)
    ensures NewJob(s, job.id, time, job.run, job.priority).1 == Contend(s, job, time).1
  {
    assert forall c :: 0 <= c < |s.active| ==> !Inactive()(s.active[c]);
  }

  lemma Answered(cfg: Config, st: Sim, i: nat)
    requires i < |st.jobs|
    ensures var core := NewJob(st.sched, st.jobs[i].id, st.time, st.jobs[i].run, st.jobs[i].priority).1;
            core == -1 || 0 <= core < cfg.cores ==>
              ArriveAt(cfg, st, i).jobs[i].core == if core == -1 then st.jobs[i].core else core
  {
    hide NewJob;
  }

  /** An arriving job that claims less than some running one gets a core at once. */
  lemma PreemptsIf(cfg: Config, k: nat, e: nat)
    requires Legal(cfg) && Contended(cfg, k) && e < |MomentAt(cfg, k).st.jobs|
    requires var m := MomentAt(cfg, k);
             m.st.jobs[e].core != -1 && Claim(cfg.scheme, m.st.jobs[m.i]) < Claim(cfg.scheme, m.st.jobs[e])
    ensures MomentAt(cfg, k + 1).st.jobs[MomentAt(cfg, k).i].core != -1
  {
    hide MomentAt;
    ContendedCore(cfg, k);
    var q := RecordsAgree(cfg, k, e);
    FrontRuns(cfg, k, q);
    var d := YieldsClaim(cfg, k, q);
    SameEntry(cfg, k, d, e);
  }

  lemma SameEntry(cfg: Config, k: nat, d: nat, e: nat)
    requires Legal(cfg) && d < |MomentAt(cfg, k).st.jobs| && e < |MomentAt(cfg, k).st.jobs|
    requires MomentAt(cfg, k).st.jobs[d].core == MomentAt(cfg, k).st.jobs[e].core != -1
    ensures d == e
  {
    hide MomentAt;
    CoresAgree(cfg, k);
  }

  /** It gets one only if some running job claims more, or as much and arrived at the same time. */
  lemma PreemptsOnlyIf(cfg: Config, k: nat) returns (e: nat)
    requires Legal(cfg) && Contended(cfg, k) && |MomentAt(cfg, k + 1).st.jobs| > MomentAt(cfg, k).i
    requires MomentAt(cfg, k + 1).st.jobs[MomentAt(cfg, k).i].core != -1
    ensures var m := MomentAt(cfg, k);
            && e < |m.st.jobs| && m.st.jobs[e].core != -1
            && var (a, b) := (Claim(cfg.scheme, m.st.jobs[m.i]), Claim(cfg.scheme, m.st.jobs[e]));
               a < b || (a == b && m.st.jobs[e].arrival == m.st.time)
  {
    hide MomentAt, Yields, Seen;
    ContendedCore(cfg, k);
    var m := MomentAt(cfg, k);
    var i :| 0 <= i < cfg.cores && Yields(cfg.scheme, Seen(m.st.sched, m.st.time, i), FreshOf(m), i);
    e := YieldsClaim(cfg, k, i);
  }

  /** So when no running job arrived at this very time, PSJF and PPRI preempt, on any number of cores,
      exactly when some running job needs more time, or is less urgent, than the new one. */
  lemma PreemptsIff(cfg: Config, k: nat)
    requires Legal(cfg) && Contended(cfg, k)
    requires var m := MomentAt(cfg, k);
             forall e :: 0 <= e < |m.st.jobs| && m.st.jobs[e].core != -1 ==> m.st.jobs[e].arrival != m.st.time
    ensures var m := MomentAt(cfg, k);
            && |MomentAt(cfg, k + 1).st.jobs| == |m.st.jobs|
            && (MomentAt(cfg, k + 1).st.jobs[m.i].core != -1 <==>
                  exists e :: (&& 0 <= e < |m.st.jobs| && m.st.jobs[e].core != -1
                               && Claim(cfg.scheme, m.st.jobs[m.i]) < Claim(cfg.scheme, m.st.jobs[e])))
  {
    hide MomentAt, Claim;
    ContendedCore(cfg, k);
    var m := MomentAt(cfg, k);
    if MomentAt(cfg, k + 1).st.jobs[m.i].core != -1 {
      var e := PreemptsOnlyIf(cfg, k);
    }
    if e :| (&& 0 <= e < |m.st.jobs| && m.st.jobs[e].core != -1
             && Claim(cfg.scheme, m.st.jobs[m.i]) < Claim(cfg.scheme, m.st.jobs[e])) {
      PreemptsIf(cfg, k, e);
    }
  }

  // ----- who loses a core -----

  /** Whatever the scheme, a job loses its core only when it has used up its time, when its quantum is
      over (RR), or to a job that arrives at that moment (PSJF, PPRI). */
  lemma WhyCoreLost(cfg: Config, k: nat, id: int, core: int) returns (since: int)
    requires Legal(cfg) && core != -1
    requires Keeping.RunsOn(MomentAt(cfg, k).st, id, core) && !Keeping.RunsOn(MomentAt(cfg, k + 1).st, id, core)
    ensures var m, r := MomentAt(cfg, k), MomentAt(cfg, k + 1).st;
            && Keeping.RunsSince(m.st, id, core, since)
            && (|| Keeping.Finishes(m, id)
                || Keeping.QuantumOver(cfg, m, core, since)
                || (Preemptive(cfg.scheme) && Keeping.Joins(m) && Keeping.RunsOn(r, m.st.jobs[m.i].id, core)))
  {
    hide MomentAt, Keeping.RunsOn, Keeping.RunsSince, Entries.Listed, SchedulerTables.Queued, Legal,
         Keeping.Finishes, Keeping.QuantumOver;
    since := Keeping.RunsSinceSome(cfg, k, id, core);
    var st := MomentAt(cfg, k).st;
    Keeping.StepKeeps(cfg, k, id);
    Keeping.ListedRuns(st, id, core);
    Keeping.ListedRuns(MomentAt(cfg, k + 1).st, id, core);
    Keeping.ListedSince(st, id, core, since);
    if Preemptive(cfg.scheme) && Arrives(cfg, k) {
      ArrivalReady(cfg, k);
      TakesCore(cfg, st, MomentAt(cfg, k).i, id, core);
    }
  }

  /** At an arrival a core changes hands to the new job only. */
  lemma TakesCore(cfg: Config, st: Sim, i: nat, id: int, core: int)
    requires i < |st.jobs| && st.jobs[i].core == -1 && core != -1
    requires Keeping.RunsOn(st, id, core) && !Keeping.RunsOn(ArriveAt(cfg, st, i), id, core)
    ensures Keeping.RunsOn(ArriveAt(cfg, st, i), st.jobs[i].id, core)
  {
    hide NewJob;
    var r := ArriveAt(cfg, st, i);
    var e :| 0 <= e < |st.jobs| && st.jobs[e].id == id && st.jobs[e].core == core;
    assert r.jobs[e].id == id && r.jobs[i].id == st.jobs[i].id;
  }
}
