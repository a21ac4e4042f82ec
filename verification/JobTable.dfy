/** The agent's `jobs` map and its entries as objects (agents/host-agent/internal/agent/agent.go);
    `Claim` and `Finish` are the critical sections of the mutex. */
module JobTables {
  import opened Options
  import opened JobTableModel

  class JobEntry {
    const id: Id
    const started: int
    var done: bool
    var res: Option<JobResult>
    var finished: Option<int>

    constructor (id: Id, now: int)
      ensures Snap() == Entry(id, now, None, None, 0)
    {
      this.id, started := id, now;
      done, res, finished := false, None, None;
    }

    ghost function Snap(): Entry
      reads this
    {
      Entry(id, started, res, finished, if done then 1 else 0)
    }
  }

  ghost predicate Distinct(es: seq<JobEntry>) {
    forall i, j | 0 <= i < j < |es| :: es[i] != es[j]
  }

  ghost function Snaps(es: seq<JobEntry>): (r: seq<Entry>)
    reads es
    ensures |r| == |es| && forall i | 0 <= i < |es| :: r[i] == es[i].Snap()
  {
    seq(|es|, i requires 0 <= i < |es| reads es => es[i].Snap())
  }

  lemma SnapsGrow(es: seq<JobEntry>, e: JobEntry)
    ensures Snaps(es + [e]) == Snaps(es) + [e.Snap()]
  {
  }

  /** Where each entry of the table is among all entries. */
  ghost predicate Indexed(jobs: map<Id, JobEntry>, index: map<Id, nat>, es: seq<JobEntry>) {
    && index.Keys == jobs.Keys
    && forall id | id in jobs :: index[id] < |es| && es[index[id]] == jobs[id]
  }

  lemma IndexedAt(jobs: map<Id, JobEntry>, index: map<Id, nat>, es: seq<JobEntry>)
    requires Indexed(jobs, index, es)
    ensures index.Keys == jobs.Keys && forall id | id in jobs :: index[id] < |es| && es[index[id]] == jobs[id]
  {
  }

  lemma IndexedGrows(jobs: map<Id, JobEntry>, index: map<Id, nat>, es: seq<JobEntry>, id: Id, e: JobEntry)
    requires Indexed(jobs, index, es)
    ensures Indexed(jobs[id := e], index[id := |es|], es + [e])
  {
  }

  lemma DistinctGrows(es: seq<JobEntry>, e: JobEntry)
    requires Distinct(es) && e !in es
    ensures Distinct(es + [e])
  {
  }

  lemma ClaimSweeps(t: Table, id: Id)
    ensures var s := JobTableModel.Sweep(t);
            JobTableModel.Claim(t, id) ==
            if id in s.jobs then (s, s.jobs[id], false)
            else (Table(s.now, s.entries + [Entry(id, s.now, None, None, 0)], s.jobs[id := |s.entries|]),
                  |s.entries|, true)
  {
  }

  class JobTable {
    var jobs: map<Id, JobEntry>
    /** Every entry ever created, oldest first, and where the entries of the table are among them. */
    ghost var entries: seq<JobEntry>
    ghost var index: map<Id, nat>

    ghost predicate Valid()
      reads this
    {
      Distinct(entries) && Indexed(jobs, index, entries)
    }

    ghost function History(): seq<Entry>
      reads this`entries, entries
    {
      Snaps(entries)
    }

    ghost function Snap(now: int): Table
      reads this, entries
    {
      Table(now, History(), index)
    }

    constructor ()
      ensures Valid() && forall now :: Snap(now) == Table(now, [], map[])
    {
      jobs, entries, index := map[], [], map[];
    }

    /** Drops one entry if it finished too long ago. */
    method SweepOne(id: Id, now: int)
      requires Valid() && id in jobs
      modifies this`jobs, this`index
      ensures Valid()
      ensures Stale(now, old(jobs)[id].Snap()) ==> jobs == old(jobs) - {id} && index == old(index) - {id}
      ensures !Stale(now, old(jobs)[id].Snap()) ==> jobs == old(jobs) && index == old(index)
    {
      var e := jobs[id];
      if e.finished != None && now - e.finished.value > RETENTION {
        jobs := jobs - {id};
        index := index - {id};
      }
    }

    /** Visits every entry once, in any order. */
    method DropStale(now: int)
      requires Valid()
      modifies this`jobs, this`index
      ensures Valid() && jobs.Keys <= old(jobs).Keys
      ensures forall id | id in jobs :: jobs[id] == old(jobs)[id] && index[id] == old(index)[id]
      ensures forall id | id in old(jobs) :: id in jobs <==> !Stale(now, old(jobs)[id].Snap())
    {
      hide Distinct, Stale, JobEntry.Snap;
      var left := jobs.Keys;
      while left != {}
        invariant Valid() && left <= jobs.Keys && jobs.Keys <= old(jobs).Keys
        invariant forall id | id in jobs :: jobs[id] == old(jobs)[id] && index[id] == old(index)[id]
        invariant forall id | id in old(jobs) && id !in left :: id in jobs <==> !Stale(now, old(jobs)[id].Snap())
        decreases |left|
      {
        var id :| id in left;
        SweepOne(id, now);
        left := left - {id};
      }
    }

    /** Drops every entry that finished too long ago. */
    method Sweep(now: int)
      requires Valid()
      modifies this`jobs, this`index
      ensures Valid() && Snap(now) == JobTableModel.Sweep(old(Snap(now)))
    {
      hide Distinct, JobTable.History;
      ghost var t := Snap(now);
      EntriesMatch();
      DropStale(now);
      SweepIs(t, index);
    }

    lemma EntriesMatch()
      requires Valid()
      ensures forall id | id in jobs :: index[id] < |History()| && History()[index[id]] == jobs[id].Snap()
    {
    }

    static lemma SweepIs(t: Table, kept: map<Id, nat>)
      requires kept.Keys <= t.jobs.Keys && forall id | id in kept :: kept[id] == t.jobs[id]
      requires forall id | id in t.jobs ::
                 id in kept <==> !(t.jobs[id] < |t.entries| && Stale(t.now, t.entries[t.jobs[id]]))
      ensures t.(jobs := kept) == JobTableModel.Sweep(t)
    {
      assert kept == JobTableModel.Sweep(t).jobs;
    }

    /** Registers `id`; `first` says that the caller must run the job. */
    method Claim(id: Id, now: int) returns (e: JobEntry, first: bool)
      requires Valid()
      modifies this
      ensures Valid() && e in entries && (first ==> fresh(e)) && (!first ==> e in old(entries))
      ensures exists k :: 0 <= k < |entries| && entries[k] == e
                && (Snap(now), k, first) == JobTableModel.Claim(old(Snap(now)), id)
    {
      hide Snaps, Distinct, Indexed, JobTableModel.Sweep, JobTableModel.Claim;
      ghost var t := Snap(now);
      Sweep(now);
      ghost var es, s := entries, Snap(now);
      ClaimSweeps(t, id);
      IndexedAt(jobs, index, entries);
      if id in jobs {
        e, first := jobs[id], false;
        assert entries[index[id]] == e && (Snap(now), index[id], first) == JobTableModel.Claim(t, id);
        return;
      }
      e := new JobEntry(id, now);
      first := true;
      IndexedGrows(jobs, index, es, id, e);
      jobs := jobs[id := e];
      index := index[id := |entries|];
      entries := entries + [e];
      SnapsGrow(es, e);
      DistinctGrows(es, e);
      assert Snap(now) == Table(now, s.entries + [Entry(id, now, None, None, 0)], s.jobs[id := |s.entries|]);
      assert entries[|es|] == e && (Snap(now), |es|, first) == JobTableModel.Claim(t, id);
    }

    /** Stores the result, then wakes the requests waiting on the same id. */
    method Finish(id: Id, e: JobEntry, res: JobResult, now: int, ghost k: nat)
      requires Valid() && k < |entries| && entries[k] == e && !e.done
      modifies this`jobs, this`index, e
      ensures Valid() && Snap(now) == JobTableModel.Finish(old(Snap(now)), id, k, res)
    {
      e.res := Some(res);
      e.finished := Some(now);
      if !res.ok {
        jobs := jobs - {id};
        index := index - {id};
      }
      e.done := true;
    }
  }
}
