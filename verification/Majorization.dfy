/** Work vectors compared by how much of them lies above a threshold. */
module Majorization {
  import opened SimulatorSpec
  import opened Ledgers

  /** Work of job `id` present at time `n`, as far as it exceeds `t`. */
  function Over(load: seq<Entry>, v: seq<int>, n: int, t: nat): (e: seq<int>)
    requires |v| == |load|
    ensures |e| == |v|
    ensures forall id :: 0 <= id < |v| ==> e[id] == if load[id].arrival <= n && v[id] > t then v[id] - t else 0
  {
    seq(|v|, id requires 0 <= id < |v| => if load[id].arrival <= n && v[id] > t then v[id] - t else 0)
  }

  function Marks(load: seq<Entry>, v: seq<int>, n: int, t: nat): (e: seq<int>)
    requires |v| == |load|
    ensures |e| == |v|
    ensures forall id :: 0 <= id < |v| ==> e[id] == if load[id].arrival <= n && v[id] > t then 1 else 0
  {
    seq(|v|, id requires 0 <= id < |v| => if load[id].arrival <= n && v[id] > t then 1 else 0)
  }

  /** Present work above `t`, summed over all jobs. */
  function Excess(load: seq<Entry>, v: seq<int>, n: int, t: nat): int
    requires |v| == |load|
  {
    Sum(Over(load, v, n, t))
  }

  /** Present jobs with more than `t` work left. */
  function Above(load: seq<Entry>, v: seq<int>, n: int, t: nat): int
    requires |v| == |load|
  {
    Sum(Marks(load, v, n, t))
  }

  /** A present job with work left. */
  predicate Pending(load: seq<Entry>, v: seq<int>, n: int, id: int)
    requires |v| == |load|
  {
    0 <= id < |v| && load[id].arrival <= n && v[id] > 0
  }

  lemma Distribute(t: int, x: int, y: int)
    ensures t * (x + y) == t * x + t * y
  {
  }

  lemma {:induction false} SumCombine(a: seq<int>, b: seq<int>, c: seq<int>, t: int, i: int)
    requires |a| == |b| == |c|
    requires forall k :: 0 <= k < |a| ==> a[k] + t * b[k] <= c[k]
    ensures Sum(a) + t * Sum(b) <= Sum(c)
    ensures 0 <= i < |a| && a[i] + t * b[i] < c[i] ==> Sum(a) + t * Sum(b) < Sum(c)
  {
    if a != [] {
      var n := |a| - 1;
      SumCombine(a[..n], b[..n], c[..n], t, i);
      Distribute(t, Sum(b[..n]), b[n]);
    }
  }

  lemma {:induction false} SumExact(a: seq<int>, b: seq<int>, c: seq<int>, t: int)
    requires |a| == |b| == |c|
    requires forall k :: 0 <= k < |a| ==> a[k] + t * b[k] == c[k]
    ensures Sum(a) + t * Sum(b) == Sum(c)
  {
    if a != [] {
      var n := |a| - 1;
      SumExact(a[..n], b[..n], c[..n], t);
      Distribute(t, Sum(b[..n]), b[n]);
    }
  }

  /** Raising the threshold by one costs one per job above it. */
  lemma ExcessSlope(load: seq<Entry>, v: seq<int>, n: int, t: nat)
    requires |v| == |load|
    ensures Excess(load, v, n, t) == Excess(load, v, n, t + 1) + Above(load, v, n, t)
  {
    SumExact(Over(load, v, n, t + 1), Marks(load, v, n, t), Over(load, v, n, t), 1);
  }

  /** While no pending job is below the threshold, all of them pay it in full. */
  lemma ExcessBelowAll(load: seq<Entry>, v: seq<int>, n: int, t: nat)
    requires |v| == |load|
    requires forall id :: Pending(load, v, n, id) ==> v[id] > t
    ensures Excess(load, v, n, t) == Excess(load, v, n, 0) - t * Above(load, v, n, 0)
    ensures Above(load, v, n, t) == Above(load, v, n, 0)
  {
    var e, m := Over(load, v, n, t), Marks(load, v, n, 0);
    forall id | 0 <= id < |v|
      ensures e[id] + t * m[id] == Over(load, v, n, 0)[id]
    {
      assert Pending(load, v, n, id) ==> v[id] > t;
    }
    SumExact(e, m, Over(load, v, n, 0), t);
    assert Marks(load, v, n, t) == m by {
      assert forall id :: 0 <= id < |v| && load[id].arrival <= n && v[id] > 0 ==> Pending(load, v, n, id);
    }
  }

  /** A pending job at or below the threshold pays less than in full. */
  lemma ExcessConvex(load: seq<Entry>, v: seq<int>, n: int, t: nat, q: int)
    requires |v| == |load| && Pending(load, v, n, q) && v[q] <= t
    ensures Excess(load, v, n, t) + t * Above(load, v, n, t) < Excess(load, v, n, 0)
  {
    var e, m, c := Over(load, v, n, t), Marks(load, v, n, t), Over(load, v, n, 0);
    forall id | 0 <= id < |v|
      ensures e[id] + t * m[id] <= c[id]
    {
    }
    SumCombine(e, m, c, t, q);
  }

  /** One unit of work done on job `p`. */
  lemma ExcessWork(load: seq<Entry>, v: seq<int>, n: int, t: nat, p: int)
    requires |v| == |load| && Pending(load, v, n, p)
    ensures Excess(load, v[p := v[p] - 1], n, t) == Excess(load, v, n, t) - if v[p] > t then 1 else 0
  {
    SumChange(Over(load, v, n, t), Over(load, v[p := v[p] - 1], n, t), p);
  }

  lemma ExcessNonNegative(load: seq<Entry>, v: seq<int>, n: int, t: nat)
    requires |v| == |load|
    ensures Excess(load, v, n, t) >= 0
    ensures Excess(load, v, n, 0) > 0 <==> exists id :: Pending(load, v, n, id)
  {
    var e := Over(load, v, n, t);
    var zero := seq(|v|, _ => 0);
    SumExact(zero, zero, zero, 0);
    assert Sum(zero) == 0 by { SumExact(zero, zero, zero, 1); }
    SumCombine(zero, zero, e, 0, -1);
    if id :| Pending(load, v, n, id) {
      SumCombine(zero, zero, Over(load, v, n, 0), 0, id);
    } else {
      forall id | 0 <= id < |v|
        ensures Over(load, v, n, 0)[id] == 0
      {
        assert !Pending(load, v, n, id);
      }
      assert Over(load, v, n, 0) == zero;
    }
  }

  /** `v` has at least as much work above every threshold as `w`, and the same in total. */
  ghost predicate Dominates(load: seq<Entry>, v: seq<int>, w: seq<int>, n: int) {
    && |v| == |w| == |load|
    && Excess(load, v, n, 0) == Excess(load, w, n, 0)
    && forall t: nat :: Excess(load, v, n, t) >= Excess(load, w, n, t)
  }

  /** Fewer jobs are left where the work is less evenly spread. */
  lemma DominatesFewer(load: seq<Entry>, v: seq<int>, w: seq<int>, n: int)
    requires Dominates(load, v, w, n)
    ensures Above(load, v, n, 0) <= Above(load, w, n, 0)
  {
    ExcessSlope(load, v, n, 0);
    ExcessSlope(load, w, n, 0);
  }

  /** Working on a job with the least work left, against working on any job, keeps the domination. */
  lemma ShortestKeepsDominating(load: seq<Entry>, v: seq<int>, w: seq<int>, n: int, p: int, q: int)
    requires Dominates(load, v, w, n)
    requires Pending(load, v, n, p) && Pending(load, w, n, q)
    requires forall id :: Pending(load, v, n, id) ==> v[p] <= v[id]
    ensures Dominates(load, v[p := v[p] - 1], w[q := w[q] - 1], n)
  {
    var v', w' := v[p := v[p] - 1], w[q := w[q] - 1];
    forall t: nat
      ensures Excess(load, v', n, t) >= Excess(load, w', n, t)
    {
      ShortestAtThreshold(load, v, w, n, p, q, t);
    }
    ExcessWork(load, v, n, 0, p);
    ExcessWork(load, w, n, 0, q);
  }

  lemma ShortestAtThreshold(load: seq<Entry>, v: seq<int>, w: seq<int>, n: int, p: int, q: int, t: nat)
    requires Dominates(load, v, w, n)
    requires Pending(load, v, n, p) && Pending(load, w, n, q)
    requires forall id :: Pending(load, v, n, id) ==> v[p] <= v[id]
    ensures Excess(load, v[p := v[p] - 1], n, t) >= Excess(load, w[q := w[q] - 1], n, t)
  {
    hide Excess, Above;
    ExcessWork(load, v, n, t, p);
    ExcessWork(load, w, n, t, q);
    if t < v[p] && w[q] <= t {
      var k, d := Above(load, v, n, 0), Above(load, w, n, t);
      ExcessBelowAll(load, v, n, t);
      ExcessSlope(load, v, n, t);
      ExcessSlope(load, w, n, t);
      ExcessConvex(load, w, n, t, q);
      if d >= k {
        assert t * d >= t * k;
      } else {
        assert Excess(load, v, n, t + 1) >= Excess(load, w, n, t + 1);
      }
    }
  }

  /** Work arriving at time `n + 1`, above `t`. */
  function Fresh(load: seq<Entry>, n: int, t: nat): (e: seq<int>)
    ensures |e| == |load|
    ensures forall id :: 0 <= id < |load| ==> e[id] == if load[id].arrival == n + 1
      && load[id].run > t then load[id].run - t else 0
  {
    seq(|load|, id requires 0 <= id < |load| =>
      if load[id].arrival == n + 1 && load[id].run > t then load[id].run - t else 0)
  }

  /** Nobody has worked on the jobs that are still to come. */
  predicate Untouched(load: seq<Entry>, v: seq<int>, n: int)
    requires |v| == |load|
  {
    forall id :: 0 <= id < |v| && load[id].arrival > n ==> v[id] == load[id].run
  }

  lemma ExcessArrivals(load: seq<Entry>, v: seq<int>, n: int, t: nat)
    requires |v| == |load| && Untouched(load, v, n)
    ensures Excess(load, v, n + 1, t) == Excess(load, v, n, t) + Sum(Fresh(load, n, t))
  {
    SumExact(Over(load, v, n, t), Fresh(load, n, t), Over(load, v, n + 1, t), 1);
  }

  /** Arrivals are the same on both sides. */
  lemma ArrivalsKeepDominating(load: seq<Entry>, v: seq<int>, w: seq<int>, n: int)
    requires Dominates(load, v, w, n) && Untouched(load, v, n) && Untouched(load, w, n)
    ensures Dominates(load, v, w, n + 1)
  {
    hide Excess;
    var later := n + 1;
    forall t: nat
      ensures Excess(load, v, later, t) >= Excess(load, w, later, t)
      ensures t == 0 ==> Excess(load, v, later, t) == Excess(load, w, later, t)
    {
      ExcessArrivals(load, v, n, t);
      ExcessArrivals(load, w, n, t);
    }
  }
}
