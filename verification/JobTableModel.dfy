/** The job table of the host agent (agents/host-agent/internal/agent/agent.go) under any number of
    concurrent request handlers. Every entry ever created stays in `entries`, so an entry is one
    execution of a job; `jobs` is the table itself. A step is what one handler does between two
    points where others can run: `claim` and `finish` hold the mutex and are one step each. */
module JobTableModel {
  import opened Options

  type Id = string

  /** `payload` stands for the result or the error; for a create it is the new VM. */
  datatype JobResult = JobResult(jobId: Id, ok: bool, payload: nat)

  /** `closes` counts the calls of close(done). */
  datatype Entry = Entry(id: Id, started: int, res: Option<JobResult>, finished: Option<int>, closes: nat)

  datatype Table = Table(now: int, entries: seq<Entry>, jobs: map<Id, nat>)

  /** One hour, in nanoseconds. */
  const RETENTION := 3_600_000_000_000

  predicate Stale(now: int, e: Entry) {
    e.finished != None && now - e.finished.value > RETENTION
  }

  function Sweep(t: Table): Table {
    t.(jobs := map id | id in t.jobs && !(t.jobs[id] < |t.entries| && Stale(t.now, t.entries[t.jobs[id]]))
                 :: t.jobs[id])
  }

  /** The entry to use, and whether the caller has to run the job. */
  function Claim(t: Table, id: Id): (Table, nat, bool) {
    var s := Sweep(t);
    if id in s.jobs then (s, s.jobs[id], false)
    else
      (s.(entries := s.entries + [Entry(id, s.now, None, None, 0)], jobs := s.jobs[id := |s.entries|]),
       |s.entries|, true)
  }

  function Finish(t: Table, id: Id, e: nat, res: JobResult): Table
    requires e < |t.entries|
  {
    var done := t.entries[e].(res := Some(res), finished := Some(t.now), closes := t.entries[e].closes + 1);
    t.(entries := t.entries[e := done], jobs := if res.ok then t.jobs else t.jobs - {id})
  }

  // ---- what the table keeps ----

  ghost predicate WellTimed(t: Table, e: Entry) {
    && e.started <= t.now
    && (e.finished != None ==> e.started <= e.finished.value <= t.now)
    && (e.res == None <==> e.finished == None)
    && e.closes == (if e.finished == None then 0 else 1)
  }

  /** The execution still runs, or succeeded at most `RETENTION` ago. */
  ghost predicate Current(t: Table, e: Entry) {
    e.finished == None || (e.res != None && e.res.value.ok && !Stale(t.now, e))
  }

  /** `later` may start after `earlier` of the same id: it is over, and if it succeeded its result
      was kept for the whole retention. */
  ghost predicate MayFollow(earlier: Entry, later: Entry) {
    && earlier.finished != None && earlier.finished.value <= later.started
    && (earlier.res != None && earlier.res.value.ok ==> later.started - earlier.finished.value > RETENTION)
  }

  ghost predicate TableInv(t: Table) {
    && (forall e | 0 <= e < |t.entries| :: WellTimed(t, t.entries[e]))
    && (forall id | id in t.jobs :: t.jobs[id] < |t.entries| && t.entries[t.jobs[id]].id == id)
    && (forall id | id in t.jobs :: t.entries[t.jobs[id]].res == None || t.entries[t.jobs[id]].res.value.ok)
    && (forall e | 0 <= e < |t.entries| && Current(t, t.entries[e]) ::
        t.entries[e].id in t.jobs && t.jobs[t.entries[e].id] == e)
    && (forall e, f | 0 <= e < f < |t.entries| && t.entries[e].id == t.entries[f].id ::
        MayFollow(t.entries[e], t.entries[f]))
  }

  lemma SweepInv(t: Table)
    requires TableInv(t)
    ensures TableInv(Sweep(t))
  {
  }

  /** A claim runs the job exactly when no execution of that id is running and none succeeded within
      the retention; otherwise it hands out that very execution. Nothing that exists is changed. */
  lemma ClaimRunsIff(t: Table, id: Id)
    requires TableInv(t)
    ensures var (u, e, first) := Claim(t, id);
            && e < |u.entries| && u.entries[e].id == id && u.now == t.now
            && (first <==> forall k | 0 <= k < |t.entries| && t.entries[k].id == id :: !Current(t, t.entries[k]))
            && (first ==> e == |t.entries| && u.entries == t.entries + [Entry(id, t.now, None, None, 0)])
            && (!first ==> u.entries == t.entries && Current(t, t.entries[e]))
  {
    var s := Sweep(t);
    SweepInv(t);
    if id in s.jobs {
      assert Current(t, t.entries[s.jobs[id]]);
    }
  }

  lemma NewEntryInv(t: Table, id: Id)
    requires TableInv(t) && id !in t.jobs
    requires forall k | 0 <= k < |t.entries| && t.entries[k].id == id ::
              MayFollow(t.entries[k], Entry(id, t.now, None, None, 0))
    ensures TableInv(t.(entries := t.entries + [Entry(id, t.now, None, None, 0)], jobs := t.jobs[id := |t.entries|]))
  {
    hide MayFollow, Stale;
    var u := t.(entries := t.entries + [Entry(id, t.now, None, None, 0)], jobs := t.jobs[id := |t.entries|]);
    forall k | 0 <= k < |u.entries| && Current(u, u.entries[k])
      ensures u.entries[k].id in u.jobs && u.jobs[u.entries[k].id] == k
    {
      if k < |t.entries| { assert Current(t, t.entries[k]); }
    }
  }

  lemma ClaimInv(t: Table, id: Id)
    requires TableInv(t)
    ensures TableInv(Claim(t, id).0)
  {
    hide TableInv;
    SweepInv(t);
    ClaimRunsIff(t, id);
    if Claim(t, id).2 {
      forall k | 0 <= k < |t.entries| && t.entries[k].id == id
        ensures MayFollow(t.entries[k], Entry(id, t.now, None, None, 0))
      {
        assert !Current(t, t.entries[k]);
        EntryTimed(t, k);
      }
      NewEntryInv(Sweep(t), id);
    }
  }

  lemma EntryTimed(t: Table, e: nat)
    requires TableInv(t) && e < |t.entries|
    ensures WellTimed(t, t.entries[e])
  {
  }

  /** Finishing a running execution stores its result, closes `done` once, and drops the id from the
      table only when the job failed. */
  lemma FinishInv(t: Table, e: nat, res: JobResult)
    requires TableInv(t) && e < |t.entries| && t.entries[e].finished == None
    ensures TableInv(Finish(t, t.entries[e].id, e, res))
    ensures var u := Finish(t, t.entries[e].id, e, res);
            u.entries[e].res == Some(res) && u.entries[e].closes == 1 && u.entries[e].id == t.entries[e].id
  {
    var id := t.entries[e].id;
    var u := Finish(t, id, e, res);
    assert WellTimed(t, t.entries[e]) && Current(t, t.entries[e]);
    forall k, l | 0 <= k < l < |u.entries| && u.entries[k].id == u.entries[l].id
      ensures MayFollow(u.entries[k], u.entries[l])
    {
      assert MayFollow(t.entries[k], t.entries[l]);
    }
    forall k | 0 <= k < |u.entries| && Current(u, u.entries[k])
      ensures u.entries[k].id in u.jobs && u.jobs[u.entries[k].id] == k
    {
      if k != e { assert Current(t, t.entries[k]); }
    }
    forall k | 0 <= k < |u.entries| ensures WellTimed(u, u.entries[k]) {
      assert WellTimed(t, t.entries[k]);
    }
  }

  lemma TickInv(t: Table, now: int)
    requires TableInv(t) && t.now <= now
    ensures TableInv(t.(now := now))
  {
    var u := t.(now := now);
    forall k | 0 <= k < |u.entries| ensures WellTimed(u, u.entries[k]) {
      assert WellTimed(t, t.entries[k]);
    }
    forall k | 0 <= k < |u.entries| && Current(u, u.entries[k])
      ensures u.entries[k].id in u.jobs && u.jobs[u.entries[k].id] == k
    {
      assert Current(t, t.entries[k]);
    }
  }
}
