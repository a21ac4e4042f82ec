/** Request handlers of the host agent running concurrently on one job table. */
module JobHandlers {
  import opened Options
  import opened JobTableModel

  /** Where a handler is. `Ran` holds a result that `finish` has not stored yet. */
  datatype Pc =
    | Running
    | Ran(res: JobResult)
    | Answering(res: JobResult)
    | Waiting
    | Replied(res: JobResult)
    | GaveUp

  /** One request: the id it asks for, the execution it is attached to, and whether it runs it. */
  datatype Handler = Handler(id: Id, entry: nat, first: bool, pc: Pc)

  /** `owner[e]` is the handler that runs execution `e`; `badJobs` counts unreadable requests. */
  datatype Agent = Agent(table: Table, handlers: seq<Handler>, owner: seq<nat>, cancelled: bool, badJobs: nat)

  datatype Input =
    | Tick(now: int)
    | Unreadable
    | Request(id: Id)
    | RunEnds(h: nat, ok: bool, payload: nat)
    | Stores(h: nat)
    | Replies(h: nat)
    | Wakes(h: nat)
    | Cancels
    | GivesUp(h: nat)

  function Init(now: int): Agent {
    Agent(Table(now, [], map[]), [], [], false, 0)
  }

  predicate At(a: Agent, h: nat) {
    h < |a.handlers| && a.handlers[h].entry < |a.table.entries|
  }

  predicate Enabled(a: Agent, i: Input) {
    match i
    case Tick(now) => a.table.now <= now
    case Unreadable => true
    case Request(_) => true
    case RunEnds(h, _, _) => At(a, h) && a.handlers[h].pc.Running?
    case Stores(h) => At(a, h) && a.handlers[h].pc.Ran?
    case Replies(h) => At(a, h) && a.handlers[h].pc.Answering?
    case Wakes(h) => At(a, h) && a.handlers[h].pc.Waiting? && a.table.entries[a.handlers[h].entry].closes > 0
    case Cancels => true
    case GivesUp(h) => At(a, h) && a.handlers[h].pc.Waiting? && a.cancelled
  }

  function Move(a: Agent, h: nat, pc: Pc): Agent
    requires h < |a.handlers|
  {
    a.(handlers := a.handlers[h := a.handlers[h].(pc := pc)])
  }

  /** What the zero value of an entry's result field would answer. */
  const NoResult := JobResult("", false, 0)

  function Step(a: Agent, i: Input): Agent
    requires Enabled(a, i)
  {
    match i
    case Tick(now) => a.(table := a.table.(now := now))
    case Unreadable => a.(badJobs := a.badJobs + 1)
    case Request(id) =>
      var (t, e, first) := Claim(a.table, id);
      a.(table := t,
         handlers := a.handlers + [Handler(id, e, first, if first then Running else Waiting)],
         owner := if first then a.owner + [|a.handlers|] else a.owner)
    case RunEnds(h, ok, payload) => Move(a, h, Ran(JobResult(a.handlers[h].id, ok, payload)))
    case Stores(h) =>
      var x := a.handlers[h];
      Move(a.(table := Finish(a.table, x.id, x.entry, x.pc.res)), h, Answering(x.pc.res))
    case Replies(h) => Move(a, h, Replied(a.handlers[h].pc.res))
    case Wakes(h) =>
      var e := a.table.entries[a.handlers[h].entry];
      Move(a, h, Replied(if e.res == None then NoResult else e.res.value))
    case Cancels => a.(cancelled := true)
    case GivesUp(h) => Move(a, h, GaveUp)
  }

  // ---- the invariant ----

  predicate Executing(x: Handler) {
    x.pc.Running? || x.pc.Ran?
  }

  /** A handler against the execution it is attached to. */
  ghost predicate Fits(x: Handler, e: Entry) {
    && x.id == e.id
    && (x.first ==> !x.pc.Waiting? && !x.pc.GaveUp?)
    && (!x.first ==> x.pc.Waiting? || x.pc.GaveUp? || x.pc.Replied?)
    && (x.first ==> (Executing(x) <==> e.finished == None))
    && (x.pc.Ran? ==> x.pc.res.jobId == x.id)
    && (x.pc.Answering? || x.pc.Replied? ==> e.res == Some(x.pc.res))
  }

  ghost predicate HandlersInv(a: Agent) {
    && (forall h | 0 <= h < |a.handlers| :: At(a, h) && Fits(a.handlers[h], a.table.entries[a.handlers[h].entry]))
    && |a.owner| == |a.table.entries|
    && (forall e | 0 <= e < |a.owner| ::
        a.owner[e] < |a.handlers| && a.handlers[a.owner[e]].first && a.handlers[a.owner[e]].entry == e)
    && (forall h | 0 <= h < |a.handlers| && a.handlers[h].first && a.handlers[h].entry < |a.owner| ::
        a.owner[a.handlers[h].entry] == h)
  }

  ghost predicate Inv(a: Agent) {
    TableInv(a.table) && HandlersInv(a)
  }

  lemma NewExecution(a: Agent, b: Agent, id: Id)
    requires HandlersInv(a)
    requires b.table.entries == a.table.entries + [Entry(id, a.table.now, None, None, 0)]
    requires b.handlers == a.handlers + [Handler(id, |a.table.entries|, true, Running)]
    requires b.owner == a.owner + [|a.handlers|]
    ensures HandlersInv(b)
  {
    hide Fits;
    assert Fits(b.handlers[|a.handlers|], b.table.entries[|a.table.entries|]) by {
      FirstFits(id, |a.table.entries|, a.table.now);
    }
    forall h | 0 <= h < |a.handlers|
      ensures At(b, h) && b.handlers[h] == a.handlers[h]
            && b.table.entries[a.handlers[h].entry] == a.table.entries[a.handlers[h].entry]
    {
      assert At(a, h);
    }
  }

  lemma FirstFits(id: Id, e: nat, now: int)
    ensures Fits(Handler(id, e, true, Running), Entry(id, now, None, None, 0))
  {
  }

  lemma NewWaiter(a: Agent, b: Agent, id: Id, e: nat)
    requires HandlersInv(a) && e < |a.table.entries| && a.table.entries[e].id == id
    requires b.table.entries == a.table.entries && b.owner == a.owner
    requires b.handlers == a.handlers + [Handler(id, e, false, Waiting)]
    ensures HandlersInv(b)
  {
    hide Fits;
    assert Fits(b.handlers[|a.handlers|], b.table.entries[e]) by { WaiterFits(a.table.entries[e], e); }
    forall h | 0 <= h < |a.handlers| ensures At(b, h) && b.handlers[h] == a.handlers[h] {
      assert At(a, h);
    }
  }

  lemma WaiterFits(x: Entry, e: nat)
    ensures Fits(Handler(x.id, e, false, Waiting), x)
  {
  }

  lemma RequestHandlers(a: Agent, id: Id)
    requires Inv(a)
    ensures HandlersInv(Step(a, Request(id)))
  {
    hide TableInv, HandlersInv, Claim, Current;
    ClaimRunsIff(a.table, id);
    var (t, e, first) := Claim(a.table, id);
    if first {
      NewExecution(a, Step(a, Request(id)), id);
    } else {
      NewWaiter(a, Step(a, Request(id)), id, e);
    }
  }

  lemma MoveInv(a: Agent, h: nat, pc: Pc)
    requires Inv(a) && At(a, h)
    requires Fits(a.handlers[h].(pc := pc), a.table.entries[a.handlers[h].entry])
    ensures Inv(Move(a, h, pc))
  {
    hide TableInv, Fits;
  }

  lemma UnfinishedHasNoResult(t: Table, e: nat)
    requires TableInv(t) && e < |t.entries| && t.entries[e].finished == None
    ensures t.entries[e].res == None
  {
    assert WellTimed(t, t.entries[e]);
  }

  lemma StoresInv(a: Agent, h: nat)
    requires Inv(a) && Enabled(a, Stores(h))
    ensures Inv(Step(a, Stores(h)))
  {
    hide TableInv;
    var x := a.handlers[h];
    assert Fits(x, a.table.entries[x.entry]);
    UnfinishedHasNoResult(a.table, x.entry);
    FinishInv(a.table, x.entry, x.pc.res);
    var b := Step(a, Stores(h));
    forall k | 0 <= k < |b.handlers| ensures At(b, k) && Fits(b.handlers[k], b.table.entries[b.handlers[k].entry]) {
      assert At(a, k) && Fits(a.handlers[k], a.table.entries[a.handlers[k].entry]);
    }
  }

  lemma WakesFits(a: Agent, h: nat)
    requires Inv(a) && Enabled(a, Wakes(h))
    ensures var e := a.table.entries[a.handlers[h].entry];
              e.res != None && Fits(a.handlers[h].(pc := Replied(e.res.value)), e)
  {
    assert Fits(a.handlers[h], a.table.entries[a.handlers[h].entry]);
    assert WellTimed(a.table, a.table.entries[a.handlers[h].entry]);
  }

  lemma StepInv(a: Agent, i: Input)
    requires Inv(a) && Enabled(a, i)
    ensures Inv(Step(a, i))
  {
    hide TableInv, HandlersInv, Claim, Finish;
    match i
    case Tick(now) =>
      TickInv(a.table, now);
      TickHandlers(a, now);
    case Unreadable => SameHandlers(a, Step(a, i));
    case Cancels => SameHandlers(a, Step(a, i));
    case Request(id) =>
      ClaimInv(a.table, id);
      RequestHandlers(a, id);
    case Stores(h) => StoresInv(a, h);
    case Wakes(h) =>
      WakesFits(a, h);
      MoveInv(a, h, Step(a, i).handlers[h].pc);
    case RunEnds(h, _, _) =>
      HandlerFits(a, h);
      MoveInv(a, h, Step(a, i).handlers[h].pc);
    case Replies(h) =>
      HandlerFits(a, h);
      MoveInv(a, h, Step(a, i).handlers[h].pc);
    case GivesUp(h) =>
      HandlerFits(a, h);
      MoveInv(a, h, GaveUp);
  }

  lemma HandlerFits(a: Agent, h: nat)
    requires Inv(a) && At(a, h)
    ensures Fits(a.handlers[h], a.table.entries[a.handlers[h].entry])
  {
    hide TableInv, Fits;
  }

  lemma SameHandlers(a: Agent, b: Agent)
    requires Inv(a) && b.table == a.table && b.handlers == a.handlers && b.owner == a.owner
    ensures Inv(b)
  {
    hide TableInv, Fits;
  }

  lemma TickHandlers(a: Agent, now: int)
    requires Inv(a)
    ensures HandlersInv(a.(table := a.table.(now := now)))
  {
    hide TableInv, Fits;
  }

  // ---- every run ----

  ghost predicate IsRun(run: seq<Agent>, ins: seq<Input>) {
    && |run| == |ins| + 1
    && run[0] == Init(run[0].table.now)
    && forall k | 0 <= k < |ins| :: Enabled(run[k], ins[k]) && run[k + 1] == Step(run[k], ins[k])
  }

  lemma {:induction false} RunInv(run: seq<Agent>, ins: seq<Input>, k: nat)
    requires IsRun(run, ins) && k < |run|
    ensures Inv(run[k])
    decreases k
  {
    if k > 0 {
      hide Inv, Step, Enabled;
      RunInv(run, ins, k - 1);
      assert run[k - 1 + 1] == Step(run[k - 1], ins[k - 1]);
      StepInv(run[k - 1], ins[k - 1]);
    }
  }

  /** No two handlers execute the same job id at the same time. */
  lemma OneExecutionAtATime(run: seq<Agent>, ins: seq<Input>, k: nat, g: nat, h: nat)
    requires IsRun(run, ins) && k < |run| && g < |run[k].handlers| && h < |run[k].handlers|
    requires Executing(run[k].handlers[g]) && Executing(run[k].handlers[h])
    requires run[k].handlers[g].id == run[k].handlers[h].id
    ensures g == h
  {
    hide IsRun;
    RunInv(run, ins, k);
    var a := run[k];
    ExecutingIsCurrent(a, g);
    ExecutingIsCurrent(a, h);
  }

  lemma ExecutingIsCurrent(a: Agent, h: nat)
    requires Inv(a) && h < |a.handlers| && Executing(a.handlers[h])
    ensures a.handlers[h].id in a.table.jobs && a.table.jobs[a.handlers[h].id] == a.handlers[h].entry
    ensures a.handlers[h].entry < |a.owner| && a.owner[a.handlers[h].entry] == h
  {
    assert At(a, h) && Fits(a.handlers[h], a.table.entries[a.handlers[h].entry]);
    assert Current(a.table, a.table.entries[a.handlers[h].entry]);
  }

  /** Every handler that has answered answered with the stored result of the execution it was
      attached to, which is the execution of its own id; so all of them give the same answer. */
  lemma RepliesWithItsExecution(run: seq<Agent>, ins: seq<Input>, k: nat, h: nat)
    requires IsRun(run, ins) && k < |run| && h < |run[k].handlers| && run[k].handlers[h].pc.Replied?
    ensures var x := run[k].handlers[h];
            && x.entry < |run[k].table.entries| && run[k].table.entries[x.entry].id == x.id
            && run[k].table.entries[x.entry].res == Some(x.pc.res)
            && run[k].table.entries[x.entry].closes == 1
  {
    hide IsRun;
    RunInv(run, ins, k);
    assert At(run[k], h);
    assert WellTimed(run[k].table, run[k].table.entries[run[k].handlers[h].entry]);
  }

  /** Two executions of one id never overlap, and after a success the next one starts only when the
      retention has passed since the success finished. */
  lemma SuccessIsNotRepeated(run: seq<Agent>, ins: seq<Input>, k: nat, e: nat, f: nat)
    requires IsRun(run, ins) && k < |run| && e < f < |run[k].table.entries|
    requires run[k].table.entries[e].id == run[k].table.entries[f].id
    ensures MayFollow(run[k].table.entries[e], run[k].table.entries[f])
  {
    hide IsRun, HandlersInv, MayFollow, WellTimed, Current;
    RunInv(run, ins, k);
  }

  /** `done` of every execution is closed exactly once its result is stored, and never twice. */
  lemma DoneClosesOnce(run: seq<Agent>, ins: seq<Input>, k: nat, e: nat)
    requires IsRun(run, ins) && k < |run| && e < |run[k].table.entries|
    ensures var x := run[k].table.entries[e];
            x.closes <= 1 && (x.closes == 1 <==> x.finished != None) && (x.closes == 1 <==> x.res != None)
  {
    hide IsRun, HandlersInv, MayFollow, Current;
    RunInv(run, ins, k);
    assert WellTimed(run[k].table, run[k].table.entries[e]);
  }

  /** Nobody waits for an execution that nobody runs: either a handler is executing it, or its
      result is there to answer with. */
  lemma WaitersAreServed(run: seq<Agent>, ins: seq<Input>, k: nat, h: nat)
    requires IsRun(run, ins) && k < |run| && h < |run[k].handlers| && run[k].handlers[h].pc.Waiting?
    ensures var a := run[k]; var e := a.handlers[h].entry;
            || Enabled(a, Wakes(h))
            || (e < |a.owner| && a.owner[e] < |a.handlers| && a.handlers[a.owner[e]].entry == e
                && Executing(a.handlers[a.owner[e]]))
  {
    hide IsRun;
    RunInv(run, ins, k);
    var a := run[k];
    var e := a.handlers[h].entry;
    assert At(a, h) && WellTimed(a.table, a.table.entries[e]);
    assert At(a, a.owner[e]) && Fits(a.handlers[a.owner[e]], a.table.entries[e]);
  }

  /** A request runs the job exactly when no execution of its id is running and none succeeded
      within the retention; in particular a failed job runs again, and a request never runs a job
      that another handler is executing. */
  lemma RequestRunsIff(run: seq<Agent>, ins: seq<Input>, k: nat, id: Id)
    requires IsRun(run, ins) && k < |run|
    ensures var b := Step(run[k], Request(id)); var t := run[k].table;
            b.handlers[|run[k].handlers|].first
            <==> forall e | 0 <= e < |t.entries| && t.entries[e].id == id ::
                   t.entries[e].finished != None
                   && (t.entries[e].res != None && t.entries[e].res.value.ok ==>
                       t.now - t.entries[e].finished.value > 3_600_000_000_000)
  {
    hide IsRun, HandlersInv, MayFollow, WellTimed, TableInv, Claim;
    RunInv(run, ins, k);
    ClaimRunsIff(run[k].table, id);
  }
}
