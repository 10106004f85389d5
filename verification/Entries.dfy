/** The simulator's job array seen as a table of entries keyed by job id. */
module Entries {
  import QueueSpec
  import Tables
  import opened SimulatorSpec
  import opened Invariant

  function EntryKey(): SimJob -> int { (j: SimJob) => j.id }

  ghost predicate Unique(jobs: seq<SimJob>) {
    Tables.Distinct(EntryKey(), jobs)
  }

  ghost function Listed(jobs: seq<SimJob>): EntryTable
    requires Unique(jobs)
  {
    Tables.Table(EntryKey(), jobs)
  }

  lemma EntryAt(jobs: seq<SimJob>, i: nat)
    requires Unique(jobs) && i < |jobs|
    ensures jobs[i].id in Listed(jobs) && Listed(jobs)[jobs[i].id] == jobs[i]
  {
  }

  lemma EntryIndex(jobs: seq<SimJob>, id: int) returns (i: nat)
    requires Unique(jobs) && id in Listed(jobs)
    ensures i < |jobs| && jobs[i] == Listed(jobs)[id] && jobs[i].id == id
  {
    i := Tables.TableIndex(EntryKey(), jobs, id);
  }

  lemma UpdateListed(jobs: seq<SimJob>, k: nat, x: SimJob)
    requires Unique(jobs) && k < |jobs| && x.id == jobs[k].id
    ensures Unique(jobs[k := x]) && Listed(jobs[k := x]) == Listed(jobs)[x.id := x]
  {
    Tables.TableUpdate(EntryKey(), jobs, k, x);
  }

  /** Overwriting with the last entry and dropping the last removes exactly entry `i`. */
  lemma SwapDeleteListed(jobs: seq<SimJob>, i: nat)
    requires Unique(jobs) && i < |jobs|
    ensures Unique(SwapDelete(jobs, i)) && Listed(SwapDelete(jobs, i)) == Listed(jobs) - {jobs[i].id}
  {
    var r, m := SwapDelete(jobs, i), Listed(jobs) - {jobs[i].id};
    var last := |jobs| - 1;
    assert |r| == last && forall k :: 0 <= k < last ==> r[k] == if k == i then jobs[last] else jobs[k];
    assert forall j, k :: 0 <= j < k < |jobs| ==> EntryKey()(jobs[j]) != EntryKey()(jobs[k]);
    assert Unique(r);
    hide SwapDelete, Unique, Listed;
    forall k | 0 <= k < |r|
      ensures r[k].id in m && m[r[k].id] == r[k]
    {
      EntryAt(jobs, if k == i then last else k);
    }
    forall id | id in m
      ensures exists k :: 0 <= k < |r| && EntryKey()(r[k]) == id
    {
      var k := EntryIndex(jobs, id);
      assert EntryKey()(r[if k == last then i else k]) == id;
    }
    Tables.TableIs(EntryKey(), r, m);
  }

  /** A job id the simulator knows as arrived is found and gets the core. */
  lemma SetActiveListed(jobs: seq<SimJob>, id: int, core: int)
    requires Unique(jobs) && id in Listed(jobs) && Listed(jobs)[id].arrived
    ensures QueueSpec.First(ArrivedAs(id), jobs) < |jobs|
    ensures var r := SetActive(jobs, id, core);
            Unique(r) && Listed(r) == Listed(jobs)[id := Listed(jobs)[id].(core := core)]
  {
    forall i | 0 <= i < |jobs|
      ensures ArrivedAs(id)(jobs[i]) <==> EntryKey()(jobs[i]) == id
    {
      EntryAt(jobs, i);
    }
    Tables.TableFirst(EntryKey(), jobs, ArrivedAs(id), id);
    var k := QueueSpec.First(ArrivedAs(id), jobs);
    UpdateListed(jobs, k, jobs[k].(core := core));
  }

  /** Applying a change that keeps ids to every entry applies it to every row of the table. */
  lemma MappedListed(jobs: seq<SimJob>, r: seq<SimJob>, m: EntryTable)
    requires Unique(jobs) && |r| == |jobs| && m.Keys == Listed(jobs).Keys
    requires forall i :: 0 <= i < |jobs| ==> r[i].id == jobs[i].id
    requires forall i :: 0 <= i < |jobs| && jobs[i].id in m ==> m[jobs[i].id] == r[i]
    ensures Unique(r) && Listed(r) == m
  {
  }

  lemma RanListed(jobs: seq<SimJob>)
    requires Unique(jobs)
    ensures Unique(RunJobs(jobs)) && Listed(RunJobs(jobs)) == Ran(Listed(jobs))
  {
    forall i | 0 <= i < |jobs|
      ensures jobs[i].id in Listed(jobs) ==> Ran(Listed(jobs))[jobs[i].id] == RunJobs(jobs)[i]
    {
      EntryAt(jobs, i);
    }
    MappedListed(jobs, RunJobs(jobs), Ran(Listed(jobs)));
  }

  lemma VacateListed(jobs: seq<SimJob>, core: int, v: int)
    requires Unique(jobs) && v in Listed(jobs) && Listed(jobs)[v].core == core
    requires forall a :: a in Listed(jobs) && Listed(jobs)[a].core == core ==> a == v
    ensures Unique(Vacate(jobs, core))
    ensures Listed(Vacate(jobs, core)) == Listed(jobs)[v := Listed(jobs)[v].(core := -1)]
  {
    var m := Listed(jobs)[v := Listed(jobs)[v].(core := -1)];
    forall i | 0 <= i < |jobs|
      ensures jobs[i].id in m ==> m[jobs[i].id] == Vacate(jobs, core)[i]
    {
      EntryAt(jobs, i);
    }
    MappedListed(jobs, Vacate(jobs, core), m);
  }

  lemma VacateNothing(jobs: seq<SimJob>, core: int)
    requires Unique(jobs)
    requires forall a :: a in Listed(jobs) ==> Listed(jobs)[a].core != core
    ensures Vacate(jobs, core) == jobs
  {
    forall i | 0 <= i < |jobs|
      ensures jobs[i].core != core
    {
      EntryAt(jobs, i);
    }
  }
}
