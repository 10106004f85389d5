/** Sizes: how many jobs can run, and how many must be queued when all cores are taken. */
module Counting {
  import opened Jobs
  import opened SchedulerSpec
  import opened SchedulerTables
  import Arrivals
  import Invariant

  ghost function Upto(n: nat): (s: set<int>)
    ensures |s| == n && forall i :: i in s <==> 0 <= i < n
  {
    if n == 0 then {} else Upto(n - 1) + {n - 1}
  }

  lemma {:induction false} DistinctFits(s: seq<int>, a: set<int>)
    requires forall i, j :: 0 <= i < j < |s| ==> s[i] != s[j]
    requires forall i :: 0 <= i < |s| ==> s[i] in a
    ensures |s| <= |a|
  {
    if s != [] {
      var n := |s| - 1;
      DistinctFits(s[..n], a - {s[n]});
    }
  }

  lemma {:induction false} CoveringFits(s: seq<int>, a: set<int>)
    requires forall x :: x in a ==> x in s
    ensures |a| <= |s|
  {
    if s == [] {
      assert forall x :: x in a ==> x in s;
      assert a <= {};
    } else {
      var n := |s| - 1;
      forall x | x in a - {s[n]}
        ensures x in s[..n]
      {
      }
      CoveringFits(s[..n], a - {s[n]});
    }
  }

  function Cores(q: seq<Job>): (r: seq<int>)
    ensures |r| == |q| && forall i :: 0 <= i < |q| ==> r[i] == q[i].core
  {
    seq(|q|, i requires 0 <= i < |q| => q[i].core)
  }

  /** With a core free, nobody waits, so fewer jobs than cores are queued. */
  lemma FreeCoreFewJobs(s: Sched, c: nat)
    requires Keyed(s.queue) && Invariant.Seated(s.active, Queued(s.queue), -1) && c < |s.active| && !s.active[c]
    ensures forall i :: 0 <= i < |s.queue| ==> s.queue[i].core != -1
    ensures |s.queue| < |s.active|
  {
    hide Queued;
    forall i | 0 <= i < |s.queue|
      ensures s.queue[i].core in Upto(|s.active|) - {c}
    {
      AtIndex(s.queue, i);
    }
    forall i, j | 0 <= i < j < |s.queue|
      ensures s.queue[i].core != s.queue[j].core
    {
      AtIndex(s.queue, i);
      AtIndex(s.queue, j);
      assert JobKey()(s.queue[i]) != JobKey()(s.queue[j]);
    }
    DistinctFits(Cores(s.queue), Upto(|s.active|) - {c});
  }

  /** With all cores taken, at least as many jobs as cores are queued. */
  lemma FullManyJobs(s: Sched)
    requires Keyed(s.queue) && Invariant.Seated(s.active, Queued(s.queue), -1) && Arrivals.Full(s.active)
    ensures |s.active| <= |s.queue|
  {
    forall c | c in Upto(|s.active|)
      ensures c in Cores(s.queue)
    {
      assert s.active[c];
      var a :| a in Queued(s.queue) && Queued(s.queue)[a].core == c;
      var i := IndexOf(s.queue, a);
      assert Cores(s.queue)[i] == c;
    }
    CoveringFits(Cores(s.queue), Upto(|s.active|));
  }

  lemma CanPreempt(s: Sched)
    requires Keyed(s.queue) && Invariant.Seated(s.active, Queued(s.queue), -1) && Front(s) && |s.active| > 0
    ensures Arrivals.PreemptReady(s)
  {
    if Arrivals.Full(s.active) {
      FullManyJobs(s);
    } else {
      var c :| 0 <= c < |s.active| && !s.active[c];
      FreeCoreFewJobs(s, c);
    }
  }

  function Ids(q: seq<Job>): (r: seq<int>)
    ensures |r| == |q| && forall i :: 0 <= i < |q| ==> r[i] == q[i].id
  {
    seq(|q|, i requires 0 <= i < |q| => q[i].id)
  }

  lemma QueuedSize(q: seq<Job>)
    requires Keyed(q)
    ensures |Queued(q).Keys| == |q|
  {
    hide Queued;
    forall i, j | 0 <= i < j < |q|
      ensures q[i].id != q[j].id
    {
      assert JobKey()(q[i]) != JobKey()(q[j]);
    }
    forall i | 0 <= i < |q|
      ensures q[i].id in Queued(q)
    {
      AtIndex(q, i);
    }
    DistinctFits(Ids(q), Queued(q).Keys);
    forall id | id in Queued(q)
      ensures id in Ids(q)
    {
      var i := IndexOf(q, id);
      assert Ids(q)[i] == id;
    }
    CoveringFits(Ids(q), Queued(q).Keys);
  }
}
