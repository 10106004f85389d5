/** What preemptive shortest-job-first promises about who loses a core, and why that holds on a
    single core only. */
module Policies {
  import opened Jobs
  import QueueSpec
  import opened SchedulerSpec
  import opened SimulatorSpec
  import Invariant
  import Phases
  import opened Moments

  /** At moment `k` of the run a job arrives, and entry `e` loses its core to it. */
  ghost predicate LosesCore(cfg: Config, k: nat, e: nat) {
    var m := MomentAt(cfg, k);
    && m.Admitting? && m.i < |m.st.jobs| && m.st.jobs[m.i].arrival == m.st.time
    && e < |m.st.jobs| && m.st.jobs[e].core != -1
    && ArriveAt(cfg, m.st, m.i).jobs[e].core == -1
  }

  /** What preemptive shortest-job-first is for: whoever loses its core to an arriving job still
      needs at least as much time as that job. */
  ghost predicate OnlyShorterPreempts(cfg: Config) {
    forall k: nat, e: nat :: LosesCore(cfg, k, e) ==>
      var m := MomentAt(cfg, k); m.st.jobs[m.i].run <= m.st.jobs[e].run
  }

  // ----- one core -----

  /** An entry can only lose its core to the arriving one. */
  lemma TakesOver(cfg: Config, st: Sim, i: nat, e: nat)
    requires i < |st.jobs| && e < |st.jobs| && st.jobs[e].core != -1 && ArriveAt(cfg, st, i).jobs[e].core == -1
    ensures ArriveAt(cfg, st, i).jobs[i].core != -1 || e == i
  {
    hide NewJob;
  }

  lemma Loss(cfg: Config, k: nat, e: nat)
    requires LosesCore(cfg, k, e)
    ensures var m := MomentAt(cfg, k);
            && m.i < |m.st.jobs| && e < |m.st.jobs| && m.st.jobs[e].core != -1
            && ArriveAt(cfg, m.st, m.i).jobs[e].core == -1
            && MomentAt(cfg, k + 1).st == ArriveAt(cfg, m.st, m.i)
  {
    hide ArriveAt;
    NextStep(cfg, Finishing(Start(cfg), 0), k);
  }

  lemma OneCoreShorter(cfg: Config, k: nat, e: nat)
    requires Legal(cfg) && cfg.scheme == PSJF && cfg.cores == 1 && LosesCore(cfg, k, e)
    ensures var m := MomentAt(cfg, k);
            m.i < |m.st.jobs| && e < |m.st.jobs| && m.st.jobs[m.i].run <= m.st.jobs[e].run
  {
    hide MomentAt, ArriveAt, LosesCore, Invariant.Remaining;
    Loss(cfg, k, e);
    var m := MomentAt(cfg, k);
    TakesOver(cfg, m.st, m.i, e);
    Phases.ArriveAtEntries(cfg, m.st, m.i);
    var q := RecordsAgree(cfg, k, e);
    ShortestAlwaysRuns(cfg, k + 1, m.i, e);
  }

  // ----- several cores -----

  /** One long job that has nearly been worked off when the other cores fill up with jobs a little
      shorter than it was, and then a job longer than what it still needs. */
  function Crowd(n: nat): (load: seq<Entry>)
    requires n >= 2
    ensures |load| == n + 1
  {
    seq(n + 1, i requires 0 <= i <= n =>
      if i == 0 then Entry(0, 4 * n, 0) else if i < n then Entry(n + i, 4 * n - 1, 0) else Entry(2 * n, 2 * n + 1, 0))
  }

  function Crowding(n: nat): Config
    requires n >= 2
  {
    Config(n, PSJF, 1, Crowd(n))
  }

  /** The queue once `i` jobs of the crowd run: the first one, whose stored time is stale, is last. */
  ghost predicate Crowded(n: nat, i: nat, s: Sched)
    requires n >= 2 && i <= n
  {
    && s.scheme == PSJF && |s.queue| == i && |s.active| == n
    && (forall c :: 0 <= c < n ==> (s.active[c] <==> c < i))
    && (forall k :: 0 <= k < i - 1 ==>
          && s.queue[k].core == k + 1 && s.queue[k].remaining == 4 * n - 1
          && s.queue[k].start == s.queue[k].arrival == n + k + 1)
    && (i > 0 ==> s.queue[i - 1].core == 0 && s.queue[i - 1].remaining == 4 * n
                  && s.queue[i - 1].start == s.queue[i - 1].arrival == 0)
  }

  /** The next job is queued behind those of the same length and before the first one. */
  lemma CrowdPlace(n: nat, i: nat, s: Sched, job: Job)
    requires n >= 2 && i < n && Crowded(n, i, s)
    requires job.remaining == (if i == 0 then 4 * n else 4 * n - 1) && job.arrival == (if i == 0 then 0 else n + i)
    ensures QueueSpec.OfferIndex(Comparer(PSJF), s.queue, job) == if i == 0 then 0 else i - 1
  {
    var cmp := Comparer(PSJF);
    var k := QueueSpec.OfferIndex(cmp, s.queue, job);
    assert i > 0 ==> cmp(job, s.queue[i - 1]) < 0;
    assert forall d :: 0 <= d < i - 1 ==> cmp(job, s.queue[d]) > 0;
    assert k == if i == 0 then 0 else i - 1;
  }

  /** The next of the first `n` jobs gets the next core. */
  lemma CrowdGrows(n: nat, i: nat, s: Sched)
    requires n >= 2 && i < n && Crowded(n, i, s)
    ensures var (r, core) := NewJob(s, i, Crowd(n)[i].arrival, Crowd(n)[i].run, 0);
            Crowded(n, i + 1, r) && core == i
  {
    hide QueueSpec.OfferIndex, Compare;
    assert Inactive()(s.active[i]) && forall d :: 0 <= d < i ==> !Inactive()(s.active[d]);
    QueueSpec.FirstUnique(Inactive(), s.active, i);
    CrowdPlace(n, i, s, FreshJob(i, Crowd(n)[i].arrival, Crowd(n)[i].run, 0));
  }

  /** The full house takes the long newcomer in and sends the job with the least left away. */
  lemma CrowdAnswers(n: nat, s: Sched)
    requires n >= 2 && Crowded(n, n, s)
    ensures NewJob(s, n, 2 * n, 2 * n + 1, 0).1 == 0
  {
    assert forall d :: 0 <= d < n ==> !Inactive()(s.active[d]);
    QueueSpec.FirstUnique(Inactive(), s.active, n);
    var job := FreshJob(n, 2 * n, 2 * n + 1, 0);
    var q := Refresh(s.queue, n, 2 * n);
    assert q[0].remaining == 3 * n;
    assert Comparer(PSJF)(job, q[0]) < 0;
    assert QueueSpec.OfferIndex(Comparer(PSJF), q, job) == 0;
  }

  // ----- their run -----

  /** How many of the crowd have arrived before time `t`. */
  function Present(n: nat, t: nat): nat {
    if t == 0 then 0 else if t <= n + 1 then 1 else t - n
  }

  function CrowdJob(n: nat, t: nat, i: nat): SimJob
    requires n >= 2 && i <= n
  {
    var j := Crowd(n)[i];
    if i < Present(n, t) then SimJob(i, j.arrival, j.run - (t - j.arrival), 0, i, true)
    else SimJob(i, j.arrival, j.run, 0, -1, false)
  }

  ghost predicate CrowdAt(n: nat, t: nat, st: Sim)
    requires n >= 2 && t <= 2 * n
  {
    && st.time == t && |st.jobs| == n + 1
    && (forall i :: 0 <= i <= n ==> st.jobs[i] == CrowdJob(n, t, i))
    && Crowded(n, Present(n, t), st.sched)
  }

  lemma FinishNobody(cfg: Config, st: Sim, i: nat)
    requires i <= |st.jobs| && Phases.Working(st.jobs, |st.jobs|)
    ensures FinishPhase(cfg, st, i) == st
    decreases |st.jobs| - i
  {
    if i < |st.jobs| {
      FinishNobody(cfg, st, i + 1);
    }
  }

  /** Entry `d` and no other one from `i` on arrives now; with `d` out of range, nobody does. */
  lemma {:induction false} OneArrives(cfg: Config, st: Sim, i: nat, d: nat)
    requires i <= |st.jobs|
    requires forall k :: i <= k < |st.jobs| ==> (st.jobs[k].arrival == st.time <==> k == d)
    ensures ArrivalPhase(cfg, st, i) == if i <= d < |st.jobs| then ArriveAt(cfg, st, d) else st
    decreases |st.jobs| - i
  {
    hide ArriveAt;
    if i < |st.jobs| {
      if i == d {
        Phases.ArriveAtEntries(cfg, st, d);
        OneArrives(cfg, ArriveAt(cfg, st, d), d + 1, d);
      } else {
        OneArrives(cfg, st, i + 1, d);
      }
    }
  }

  lemma CrowdStart(n: nat)
    requires n >= 2
    ensures CrowdAt(n, 0, Start(Crowding(n)))
  {
  }

  lemma CrowdWorks(n: nat, t: nat, st: Sim)
    requires n >= 2 && t <= 2 * n && CrowdAt(n, t, st)
    ensures Phases.Working(st.jobs, |st.jobs|)
  {
    hide Crowded;
    forall i | 0 <= i < |st.jobs|
      ensures st.jobs[i].run != 0
    {
      assert st.jobs[i] == CrowdJob(n, t, i);
    }
  }

  /** Before time `2 * n` the next of the crowd arrives, or nobody. */
  lemma CrowdDue(n: nat, t: nat, st: Sim, i: nat)
    requires n >= 2 && t <= 2 * n && CrowdAt(n, t, st) && i <= n
    ensures st.jobs[i].arrival == t <==> i == (if 0 < t <= n then n + 1 else Present(n, t))
  {
    hide Crowded;
    assert st.jobs[i] == CrowdJob(n, t, i);
  }

  function ReadyJob(n: nat, t: nat, i: nat): SimJob
    requires n >= 2 && i <= n
  {
    if i < Present(n, t + 1) then CrowdJob(n, t, i).(core := i, arrived := true) else CrowdJob(n, t, i)
  }

  lemma CrowdJobLater(n: nat, t: nat, i: nat)
    requires n >= 2 && i <= n && t < 2 * n
    ensures CrowdJob(n, t + 1, i) == RunJob(ReadyJob(n, t, i))
  {
  }

  /** The state in which time unit `t` is run. */
  ghost predicate CrowdReady(n: nat, t: nat, st: Sim)
    requires n >= 2 && t < 2 * n
  {
    && st.time == t && |st.jobs| == n + 1
    && (forall i :: 0 <= i <= n ==> st.jobs[i] == ReadyJob(n, t, i))
    && Crowded(n, Present(n, t + 1), st.sched)
  }

  /** A job that is given a core nobody sits on. */
  lemma SeatedAlone(cfg: Config, st: Sim, i: nat, t: Sched, core: nat)
    requires i < |st.jobs| && core < cfg.cores && forall k :: 0 <= k < |st.jobs| ==> st.jobs[k].core != core
    requires NewJob(st.sched, st.jobs[i].id, st.time, st.jobs[i].run, st.jobs[i].priority) == (t, core)
    ensures var r := ArriveAt(cfg, st, i);
            r.time == st.time && r.sched == t && r.jobs == st.jobs[i := st.jobs[i].(arrived := true, core := core)]
  {
    hide NewJob;
  }

  lemma CrowdSeated(n: nat, t: nat, st: Sim)
    requires n >= 2 && t < 2 * n && CrowdAt(n, t, st) && (t == 0 || t > n)
    ensures CrowdReady(n, t, ArriveAt(Crowding(n), st, Present(n, t)))
  {
    hide NewJob, Crowded, ArriveAt, Crowd;
    var a := Present(n, t);
    assert st.jobs[a] == CrowdJob(n, t, a) && Crowd(n)[a].arrival == t by {
      CrowdDue(n, t, st, a);
    }
    CrowdGrows(n, a, st.sched);
    forall i | 0 <= i <= n
      ensures st.jobs[i].core != a
    {
      assert st.jobs[i] == CrowdJob(n, t, i);
    }
    var (r, core) := NewJob(st.sched, a, t, Crowd(n)[a].run, 0);
    SeatedAlone(Crowding(n), st, a, r, a);
  }

  lemma CrowdStep(n: nat, t: nat, st: Sim)
    requires n >= 2 && t < 2 * n && CrowdAt(n, t, st)
    ensures CrowdAt(n, t + 1, Tick(Ready(Crowding(n), st)))
  {
    var cfg := Crowding(n);
    CrowdWorks(n, t, st);
    FinishNobody(cfg, st, 0);
    var d := if 0 < t <= n then n + 1 else Present(n, t);
    forall i | 0 <= i <= n
      ensures st.jobs[i].arrival == t <==> i == d
    {
      CrowdDue(n, t, st, i);
    }
    OneArrives(cfg, st, 0, d);
    hide FinishPhase, ArrivalPhase, ArriveAt, Crowded;
    if d <= n {
      CrowdSeated(n, t, st);
    }
    CrowdTicks(n, t, Ready(cfg, st));
  }

  lemma CrowdTicks(n: nat, t: nat, r: Sim)
    requires n >= 2 && t < 2 * n && CrowdReady(n, t, r)
    ensures CrowdAt(n, t + 1, Tick(r))
  {
    hide Crowded, RunClocks, ReadyJob, CrowdJob;
    forall i | 0 <= i <= n
      ensures Tick(r).jobs[i] == CrowdJob(n, t + 1, i)
    {
      CrowdJobLater(n, t, i);
    }
  }

  lemma {:induction false} CrowdRuns(n: nat, t: nat)
    requires n >= 2 && t <= 2 * n
    ensures CrowdAt(n, t, StateAt(Crowding(n), t))
  {
    hide CrowdAt, Tick, Ready;
    if t == 0 {
      CrowdStart(n);
    } else {
      CrowdRuns(n, t - 1);
      CrowdStep(n, t - 1, StateAt(Crowding(n), t - 1));
    }
  }

  /** Where nobody arrives among the first `i` entries, the arrival loop gets to entry `i` unchanged. */
  lemma {:induction false} AdmitSteps(cfg: Config, st: Sim, i: nat)
    requires i <= |st.jobs| && forall k :: 0 <= k < i ==> st.jobs[k].arrival != st.time
    ensures Later(cfg, Admitting(st, 0), i) == Admitting(st, i)
  {
    if i > 0 {
      AdmitSteps(cfg, st, i - 1);
    }
  }

  lemma FinishedNext(cfg: Config, st: Sim)
    ensures cfg.scheme != RR ==> After(cfg, Finishing(st, |st.jobs|)) == Admitting(st, 0)
  {
  }

  lemma CrowdLast(n: nat, st: Sim)
    requires n >= 2 && CrowdAt(n, 2 * n, st)
    ensures st.time == 2 * n && |st.jobs| == n + 1 && Crowded(n, n, st.sched)
    ensures st.jobs[0] == SimJob(0, 0, 2 * n, 0, 0, true)
    ensures st.jobs[n] == SimJob(n, 2 * n, 2 * n + 1, 0, -1, false)
  {
    hide Crowded;
    assert st.jobs[0] == CrowdJob(n, 2 * n, 0) && st.jobs[n] == CrowdJob(n, 2 * n, n);
  }

  lemma CrowdAdmits(n: nat, st: Sim) returns (f: nat)
    requires n >= 2 && CrowdAt(n, 2 * n, st)
    ensures Later(Crowding(n), Finishing(st, 0), f) == Admitting(st, n)
  {
    hide Later, CrowdAt, FinishPhase, After, Crowd, Crowded;
    var cfg := Crowding(n);
    CrowdLast(n, st);
    CrowdWorks(n, 2 * n, st);
    FinishNobody(cfg, st, 0);
    forall i | 0 <= i < n
      ensures st.jobs[i].arrival != st.time
    {
      CrowdDue(n, 2 * n, st, i);
    }
    AdmitSteps(cfg, st, n);
    FinishedNext(cfg, st);
    f := FinishSteps(cfg, st, 0);
    NextStep(cfg, Finishing(st, 0), f);
    LaterAdds(cfg, Finishing(st, 0), f + 1, n);
    f := f + 1 + n;
  }

  /** The moment at which the last of the crowd arrives. */
  lemma CrowdMoment(n: nat) returns (k: nat)
    requires n >= 2
    ensures MomentAt(Crowding(n), k) == Admitting(StateAt(Crowding(n), 2 * n), n)
    ensures CrowdAt(n, 2 * n, StateAt(Crowding(n), 2 * n))
  {
    hide StateAt, Later, CrowdAt, FinishPhase, After, Start, Crowding, Ready;
    var cfg := Crowding(n);
    var st := StateAt(cfg, 2 * n);
    CrowdRuns(n, 2 * n);
    var l;
    k, l := StateIsMoment(cfg, 2 * n);
    var f := CrowdAdmits(n, st);
    LaterAdds(cfg, Finishing(Start(cfg), 0), k, f);
    k := k + f;
  }

  /** On two and more cores the long newcomer takes the core of a job that needs one unit less. */
  lemma CrowdBreaks(n: nat) returns (k: nat)
    requires n >= 2
    ensures LosesCore(Crowding(n), k, 0)
    ensures var m := MomentAt(Crowding(n), k); m.st.jobs[m.i].run == 2 * n + 1 > 2 * n == m.st.jobs[0].run
  {
    hide MomentAt, StateAt, CrowdAt, ArriveAt, Crowding;
    k := CrowdMoment(n);
    CrowdLoses(n, StateAt(Crowding(n), 2 * n));
  }

  lemma CrowdLoses(n: nat, st: Sim)
    requires n >= 2 && CrowdAt(n, 2 * n, st)
    ensures |st.jobs| == n + 1 && st.jobs[n].arrival == st.time && st.jobs[0].core == 0
    ensures st.jobs[n].run == 2 * n + 1 && st.jobs[0].run == 2 * n
    ensures ArriveAt(Crowding(n), st, n).jobs[0].core == -1
  {
    hide NewJob, CrowdAt, Crowded, Crowd;
    CrowdLast(n, st);
    CrowdAnswers(n, st.sched);
  }

  /** PSJF keeps its promise in every run exactly when there is a single core. */
  lemma ShorterPreemptsIffOneCore(cores: nat)
    requires cores >= 1
    ensures (forall cfg :: Legal(cfg) && cfg.scheme == PSJF && cfg.cores == cores ==> OnlyShorterPreempts(cfg))
            <==> cores == 1
  {
    hide LosesCore, MomentAt;
    if cores == 1 {
      forall cfg, k: nat, e: nat | Legal(cfg) && cfg.scheme == PSJF && cfg.cores == cores && LosesCore(cfg, k, e)
        ensures var m := MomentAt(cfg, k);
                && m.i < |m.st.jobs| && e < |m.st.jobs| && m.st.jobs[m.i].run <= m.st.jobs[e].run
      {
        OneCoreShorter(cfg, k, e);
      }
    } else {
      var k := CrowdBreaks(cores);
      CrowdLegal(cores);
      assert !OnlyShorterPreempts(Crowding(cores));
    }
  }

  lemma CrowdLegal(n: nat)
    requires n >= 2
    ensures Legal(Crowding(n)) && Crowding(n).scheme == PSJF && Crowding(n).cores == n
  {
  }
}
