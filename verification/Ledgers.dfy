/** Totals over all loaded jobs, and how the changes of the two tables move them. */
module Ledgers {
  import opened Jobs
  import SchedulerSpec
  import opened SimulatorSpec
  import opened SchedulerTables
  import opened Invariant

  function Sum(v: seq<int>): int {
    if v == [] then 0 else Sum(v[..|v| - 1]) + v[|v| - 1]
  }

  lemma {:induction false} SumChange(a: seq<int>, b: seq<int>, i: nat)
    requires |a| == |b| && i < |a|
    requires forall k :: 0 <= k < |a| && k != i ==> a[k] == b[k]
    ensures Sum(b) - Sum(a) == b[i] - a[i]
  {
    var n := |a| - 1;
    if i == n {
      assert a[..n] == b[..n];
    } else {
      SumChange(a[..n], b[..n], i);
    }
  }

  function LeftOf(js: EntryTable, id: int): int {
    if id in js then js[id].run else 0
  }

  /** The work each loaded job still needs; finished jobs need none. */
  ghost function Left(cfg: Config, js: EntryTable): (v: seq<int>)
    ensures |v| == |cfg.load| && forall id :: 0 <= id < |v| ==> v[id] == LeftOf(js, id)
  {
    seq(|cfg.load|, id => LeftOf(js, id))
  }

  /** What a queued job will still add to turnaround beyond the waiting already charged, were it
      to run now to its end: it does not change while the job runs. */
  function Share(q: Job): int {
    q.remaining + (if q.core != -1 then q.start else q.pause) - q.arrival
  }

  function ShareOf(js: EntryTable, qs: JobTable, id: int): int {
    if id in qs then Share(qs[id]) else LeftOf(js, id)
  }

  ghost function Shares(cfg: Config, js: EntryTable, qs: JobTable): (v: seq<int>)
    ensures |v| == |cfg.load| && forall id :: 0 <= id < |v| ==> v[id] == ShareOf(js, qs, id)
  {
    seq(|cfg.load|, id => ShareOf(js, qs, id))
  }

  function AgeOf(qs: JobTable, now: int, id: int): int {
    if id in qs then now - qs[id].arrival else 0
  }

  /** How long each job has been in the system. */
  ghost function Ages(cfg: Config, qs: JobTable, now: int): (v: seq<int>)
    ensures |v| == |cfg.load| && forall id :: 0 <= id < |v| ==> v[id] == AgeOf(qs, now, id)
  {
    seq(|cfg.load|, id => AgeOf(qs, now, id))
  }

  /** Nothing that the three totals are made of has changed for job `id`. */
  ghost predicate SameFor(now: int, js: EntryTable, qs: JobTable, js': EntryTable, qs': JobTable, id: int) {
    LeftOf(js', id) == LeftOf(js, id) && ShareOf(js', qs', id) == ShareOf(js, qs, id)
      && AgeOf(qs', now, id) == AgeOf(qs, now, id)
  }

  ghost predicate SameTotals(cfg: Config, now: int, js: EntryTable, qs: JobTable, js': EntryTable, qs': JobTable) {
    && Left(cfg, js') == Left(cfg, js)
    && Shares(cfg, js', qs') == Shares(cfg, js, qs)
    && Ages(cfg, qs', now) == Ages(cfg, qs, now)
  }

  lemma TotalsSame(cfg: Config, now: int, js: EntryTable, qs: JobTable, js': EntryTable, qs': JobTable)
    requires forall id :: SameFor(now, js, qs, js', qs', id)
    ensures SameTotals(cfg, now, js, qs, js', qs')
  {
    hide LeftOf, ShareOf, AgeOf;
    forall id | 0 <= id < |cfg.load|
      ensures Left(cfg, js')[id] == Left(cfg, js)[id]
      ensures Shares(cfg, js', qs')[id] == Shares(cfg, js, qs)[id]
      ensures Ages(cfg, qs', now)[id] == Ages(cfg, qs, now)[id]
    {
      assert SameFor(now, js, qs, js', qs', id);
    }
  }

  /** Job `id` alone has changed. */
  lemma OneChanged(cfg: Config, js: EntryTable, qs: JobTable, js': EntryTable, qs': JobTable, id: nat)
    requires id < |cfg.load| && forall k :: k != id ==> ShareOf(js', qs', k) == ShareOf(js, qs, k)
    ensures Sum(Shares(cfg, js', qs')) - Sum(Shares(cfg, js, qs)) == ShareOf(js', qs', id) - ShareOf(js, qs, id)
  {
    hide ShareOf;
    var a, b := Shares(cfg, js, qs), Shares(cfg, js', qs');
    assert forall k :: 0 <= k < |a| && k != id ==> a[k] == b[k];
    SumChange(a, b, id);
  }

  lemma DropTotals(cfg: Config, now: int, js: EntryTable, qs: JobTable, id: int)
    requires Legal(cfg) && Synced(cfg, now, js, qs) && id in js && js[id].run == 0
    ensures id in qs && Left(cfg, js - {id}) == Left(cfg, js)
    ensures Sum(Shares(cfg, js - {id}, qs - {id})) == Sum(Shares(cfg, js, qs)) - (now - qs[id].arrival)
    ensures Sum(Ages(cfg, qs - {id}, now)) == Sum(Ages(cfg, qs, now)) - (now - qs[id].arrival)
  {
    assert Sound(cfg, now, id, js, qs);
    FinishSound(cfg, now, js, qs, id);
    hide Synced, Sum;
    var a, b := Ages(cfg, qs, now), Ages(cfg, qs - {id}, now);
    assert forall k :: 0 <= k < |a| && k != id ==> a[k] == b[k];
    SumChange(a, b, id);
    OneChanged(cfg, js, qs, js - {id}, qs - {id}, id);
    assert forall k :: 0 <= k < |cfg.load| ==> LeftOf(js - {id}, k) == LeftOf(js, k);
  }

  lemma ExpireTotals(cfg: Config, now: int, js: EntryTable, qs: JobTable, id: int)
    requires id in js && id in qs && qs[id].core != -1
    ensures SameTotals(cfg, now, js, qs, js[id := js[id].(core := -1)], qs[id := SchedulerSpec.Expired(qs[id], now)])
  {
    hide SameTotals;
    TotalsSame(cfg, now, js, qs, js[id := js[id].(core := -1)], qs[id := SchedulerSpec.Expired(qs[id], now)]);
  }

  lemma DispatchTotals(cfg: Config, now: int, js: EntryTable, qs: JobTable, id: int, core: int, mark: int)
    requires id in js && id in qs
    ensures var q := SchedulerSpec.Dispatched(qs[id], core, now, mark);
            var js', qs' := js[id := js[id].(core := core)], qs[id := q];
            Left(cfg, js') == Left(cfg, js) && Ages(cfg, qs', now) == Ages(cfg, qs, now)
  {
    var js', qs' := js[id := js[id].(core := core)], qs[id := SchedulerSpec.Dispatched(qs[id], core, now, mark)];
    forall k | 0 <= k < |cfg.load|
      ensures LeftOf(js', k) == LeftOf(js, k) && AgeOf(qs', now, k) == AgeOf(qs, now, k)
    {
    }
  }

  /** Dispatching charges the time since the job went idle. */
  lemma DispatchShares(cfg: Config, now: int, js: EntryTable, qs: JobTable, id: int, core: int, mark: int)
    requires Synced(cfg, now, js, qs) && id in js && id in qs && qs[id].core == -1 && core >= 0
    ensures var q := SchedulerSpec.Dispatched(qs[id], core, now, mark);
            var js', qs' := js[id := js[id].(core := core)], qs[id := q];
            Sum(Shares(cfg, js', qs')) == Sum(Shares(cfg, js, qs)) + (now - qs[id].pause)
  {
    assert Sound(cfg, now, id, js, qs);
    hide Synced, Sum;
    var q := SchedulerSpec.Dispatched(qs[id], core, now, mark);
    OneChanged(cfg, js, qs, js[id := js[id].(core := core)], qs[id := q], id);
  }

  lemma SettleTotals(cfg: Config, now: int, js: EntryTable, qs: JobTable)
    ensures SameTotals(cfg, now, js, qs, js, SettleRunning(qs, now))
  {
    hide SameTotals;
    TotalsSame(cfg, now, js, qs, js, SettleRunning(qs, now));
  }

  lemma DisplaceTotals(cfg: Config, now: int, js: EntryTable, qs: JobTable, v: int)
    requires v in js && v in qs && qs[v].core != -1 && qs[v].start == now
    ensures SameTotals(cfg, now, js, qs, js[v := js[v].(core := -1)], qs[v := qs[v].(core := -1, pause := now)])
  {
    hide SameTotals;
    TotalsSame(cfg, now, js, qs, js[v := js[v].(core := -1)], qs[v := qs[v].(core := -1, pause := now)]);
  }

  lemma ArriveTotals(cfg: Config, now: int, js: EntryTable, qs: JobTable, id: int, q: Job)
    requires Synced(cfg, now, js, qs) && Due(now, js, id)
    requires q.arrival == now && q.remaining == js[id].run
    requires if q.core != -1 then q.start == now else q.pause == now
    ensures SameTotals(cfg, now, js, qs, js[id := js[id].(arrived := true, core := q.core)], qs[id := q])
  {
    assert Sound(cfg, now, id, js, qs);
    hide Synced, SameTotals;
    TotalsSame(cfg, now, js, qs, js[id := js[id].(arrived := true, core := q.core)], qs[id := q]);
  }

  ghost function Below(qs: JobTable, n: nat): set<int> {
    set id | 0 <= id < n && id in qs
  }

  lemma BelowNext(qs: JobTable, n: nat)
    requires n > 0
    ensures |Below(qs, n)| == |Below(qs, n - 1)| + if n - 1 in qs then 1 else 0
  {
    if n - 1 in qs {
      assert Below(qs, n) == Below(qs, n - 1) + {n - 1};
    } else {
      assert Below(qs, n) == Below(qs, n - 1);
    }
  }

  /** One more time unit makes every queued job one older. */
  lemma {:induction false} AgeTick(cfg: Config, qs: JobTable, now: int, n: nat)
    requires n <= |cfg.load|
    ensures Sum(Ages(cfg, qs, now + 1)[..n]) == Sum(Ages(cfg, qs, now)[..n]) + |Below(qs, n)|
  {
    if n > 0 {
      var a, b := Ages(cfg, qs, now), Ages(cfg, qs, now + 1);
      AgeTick(cfg, qs, now, n - 1);
      BelowNext(qs, n);
      assert a[..n][..n - 1] == a[..n - 1] && b[..n][..n - 1] == b[..n - 1];
    } else {
      assert Below(qs, 0) == {};
    }
  }
}
