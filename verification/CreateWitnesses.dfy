/** Runs of `createServer` that show where its promises end: a placement that stays held, a rollback
    that a create outlives, and a refused deletion that leaves two VMs. */
module CreateWitnesses {
  import opened Options
  import opened JobTableModel
  import JobHandlers
  import opened CreateModel
  import opened CreateRuns

  const Completed := ActivityAttempt("h", true, Completes)

  /** The run takes step `k`. */
  ghost predicate Takes(server: string, workflow: string, run: seq<Saga>, ins: seq<Input>, k: nat)
    requires k < |ins| < |run|
  {
    Enabled(run[k], ins[k]) && run[k + 1] == Step(server, workflow, run[k], ins[k])
  }

  lemma StepsMakeARun(server: string, workflow: string, run: seq<Saga>, ins: seq<Input>)
    requires |run| == |ins| + 1 && run[0] == Begin(0)
    requires forall k: nat | k < |ins| :: Takes(server, workflow, run, ins, k)
    ensures IsRun(server, workflow, run, ins)
  {
    hide Enabled, Step, JobId;
    assert Begin(0).agent.table.now == 0;
    forall k | 0 <= k < |ins| ensures Enabled(run[k], ins[k]) && run[k + 1] == Step(server, workflow, run[k], ins[k]) {
      assert Takes(server, workflow, run, ins, k);
    }
  }

  // ---- a placement whose completion is lost ----

  function LostInputs(): seq<Input> {
    [Completed, ActivityAttempt("h", true, GivesUp), Completed, Completed, Completed]
  }

  function LostRun(): seq<Saga> {
    var s0 := Begin(0);
    var s1 := s0.(wf := Awaits(PlaceServer("")), row := EmptyRow.(status := Provisioning));
    var s2 := s1.(wf := Awaits(SetFailed), row := EmptyRow.(status := Provisioning, host := Some("h")),
        tookPlace := true);
    var s3 := s2.(wf := Awaits(FailAction), row := EmptyRow.(status := Status.Failed, host := Some("h")));
    [s0, s1, s2, s3, s3.(wf := Awaits(EmitFailed)), s3.(wf := FailedCleanly)]
  }

  lemma LostTakes(server: string, workflow: string, k: nat)
    requires k < 5
    ensures Takes(server, workflow, LostRun(), LostInputs(), k)
  {
    hide JobHandlers.Init, JobHandlers.Step, JobId;
    match k
    case 1 => assert LostInputs()[k] == ActivityAttempt("h", true, GivesUp);
    case _ => assert LostInputs()[k] == Completed;
  }

  /** A placement whose every reply is lost leaves a failed server on its host. */
  lemma ALostPlacementStaysHeld(server: string, workflow: string)
    ensures IsRun(server, workflow, LostRun(), LostInputs())
    ensures LostRun()[5].wf == FailedCleanly && LostRun()[5].row.host == Some("h")
  {
    hide Takes;
    forall k: nat | k < |LostInputs()|
      ensures Takes(server, workflow, LostRun(), LostInputs(), k)
    {
      LostTakes(server, workflow, k);
    }
    StepsMakeARun(server, workflow, LostRun(), LostInputs());
  }

  // ---- a create that has cloned its VM ----

  /** Up to here both runs below agree: the request arrived, and VM 1 was cloned but not configured. */
  function CloneInputs(): seq<Input> {
    [Completed, Completed, Completed, AttemptStarts(true, Retries), RequestArrives(0), CloneEnds(0, true, 1)]
  }

  function FirstEntry(job: Id): Entry {
    Entry(job, 0, None, None, 0)
  }

  function Placed(): Saga {
    Begin(0).(wf := Awaits(CreateVm), placed := true, tookPlace := true,
              row := Row(Provisioning, Some("h"), true, false, None, false))
  }

  function Asked(): Saga {
    Placed().(row := Row(Provisioning, Some("h"), true, true, None, false), attempt := AwaitsReply(0), attempts := 1,
        inFlight := {0})
  }

  function Working(job: Id): Saga {
    Asked().(inFlight := {}, numbers := [0], execs := [AtClone],
             agent := JobHandlers.Agent(Table(0, [FirstEntry(job)], map[job := 0]),
                                        [JobHandlers.Handler(job, 0, true, JobHandlers.Running)], [0], false, 0))
  }

  function CloneRun(job: Id): seq<Saga> {
    var s0 := Begin(0);
    var s1 := s0.(wf := Awaits(PlaceServer("")), row := EmptyRow.(status := Provisioning));
    var s2 := Placed().(wf := Awaits(ReserveIp), row := EmptyRow.(status := Provisioning, host := Some("h")));
    [s0, s1, s2, Placed(), Asked(), Working(job), Working(job).(execs := [AtConfigure(1)])]
  }

  lemma CloneTakesFirst(server: string, workflow: string, k: nat)
    requires k < 3
    ensures Takes(server, workflow, CloneRun(JobId(server, workflow)), CloneInputs(), k)
  {
    hide JobHandlers.Step, JobId, Working;
    assert CloneInputs()[k] == Completed;
  }

  lemma CloneTakesAttempt(server: string, workflow: string)
    ensures Takes(server, workflow, CloneRun(JobId(server, workflow)), CloneInputs(), 3)
  {
    hide JobHandlers.Step, JobId, Working;
    assert CloneInputs()[3] == AttemptStarts(true, Retries);
    assert {} + {0} == {0};
  }

  lemma FirstRequest(job: Id, a: JobHandlers.Agent)
    requires a == JobHandlers.Init(0)
    ensures JobHandlers.Step(a, JobHandlers.Request(job)) == Working(job).agent
  {
    assert Sweep(a.table).jobs == map[];
    assert map[][job := 0] == map[job := 0];
  }

  lemma CloneTakesRequest(server: string, workflow: string)
    ensures Takes(server, workflow, CloneRun(JobId(server, workflow)), CloneInputs(), 4)
  {
    hide JobHandlers.Step, JobId;
    assert CloneInputs()[4] == RequestArrives(0);
    FirstRequest(JobId(server, workflow), Asked().agent);
    assert {0} - {0} == {};
  }

  lemma CloneTakesClone(server: string, workflow: string)
    ensures Takes(server, workflow, CloneRun(JobId(server, workflow)), CloneInputs(), 5)
  {
    hide JobHandlers.Step, JobId;
    assert CloneInputs()[5] == CloneEnds(0, true, 1);
    assert [AtClone][0 := AtConfigure(1)] == [AtConfigure(1)];
  }

  lemma CloneTakes(server: string, workflow: string, k: nat)
    requires k < 6
    ensures Takes(server, workflow, CloneRun(JobId(server, workflow)), CloneInputs(), k)
  {
    hide Takes;
    if k < 3 { CloneTakesFirst(server, workflow, k); }
    CloneTakesAttempt(server, workflow);
    CloneTakesRequest(server, workflow);
    CloneTakesClone(server, workflow);
  }

  /** A run goes on from where another one ends. */
  lemma Continued(
      server: string, workflow: string, front: seq<Saga>, ins: seq<Input>, tail: seq<Saga>, more: seq<Input>)
    requires |front| == |ins| + 1 && |tail| == |more| + 1 && front[|ins|] == tail[0] && front[0] == Begin(0)
    requires forall k: nat | k < |ins| :: Takes(server, workflow, front, ins, k)
    requires forall k: nat | k < |more| :: Takes(server, workflow, tail, more, k)
    ensures IsRun(server, workflow, front[..|ins|] + tail, ins + more)
  {
    hide Enabled, Step, JobId;
    var run, all := front[..|ins|] + tail, ins + more;
    forall k: nat | k < |all| ensures Takes(server, workflow, run, all, k) {
      if k < |ins| {
        assert Takes(server, workflow, front, ins, k);
        assert run[k] == front[k] && run[k + 1] == front[k + 1];
      } else {
        assert Takes(server, workflow, tail, more, k - |ins|);
        assert run[k] == tail[k - |ins|] && run[k + 1] == tail[k - |ins| + 1];
      }
    }
    StepsMakeARun(server, workflow, run, all);
  }

  // ---- a rollback that a create outlives ----

  function LeakInputs(): seq<Input> {
    [ReplyTimesOut(GivesUp), Compensates(true, {}, true, Completes), ConfigureEnds(0, true, true), Completed,
        Completed, Completed]
  }

  function LeakTail(job: Id): seq<Saga> {
    var s0 := CloneRun(job)[6];
    var s1 := s0.(wf := Awaits(CompensateCreate), attempt := NoAttempt);
    var s2 := s1.(wf := Awaits(SetFailed), row := EmptyRow.(status := Provisioning));
    var s3 := s2.(execs := [AtResize(1)], tagged := {1});
    var s4 := s3.(wf := Awaits(FailAction), row := EmptyRow.(status := Status.Failed));
    [s0, s1, s2, s3, s4, s4.(wf := Awaits(EmitFailed)), s4.(wf := FailedCleanly)]
  }

  lemma LeakTakesTimeout(server: string, workflow: string)
    ensures Takes(server, workflow, LeakTail(JobId(server, workflow)), LeakInputs(), 0)
  {
    hide JobHandlers.Step, JobId, Working;
    assert LeakInputs()[0] == ReplyTimesOut(GivesUp);
    ClonedView(JobId(server, workflow));
  }

  lemma ClonedView(job: Id)
    ensures var s := CloneRun(job)[6];
            s.wf == Awaits(CreateVm) && s.placed && s.row == Asked().row && s.attempt == AwaitsReply(0)
                && s.tagged == {} && s.strays == {}
  {
  }

  lemma LeakTakesRollback(server: string, workflow: string)
    ensures Takes(server, workflow, LeakTail(JobId(server, workflow)), LeakInputs(), 1)
  {
    hide JobHandlers.Step, JobId, Working;
    var s := LeakTail(JobId(server, workflow))[1];
    assert LeakInputs()[1] == Compensates(true, {}, true, Completes);
    ClonedView(JobId(server, workflow));
    assert Working(JobId(server, workflow)).tagged == {} by { ClonedView(JobId(server, workflow)); }
    assert s.tagged - Refs(s, true) * {} == s.tagged && s.strays - Refs(s, true) * {} == s.strays;
  }

  lemma LeakTakesConfigure(server: string, workflow: string)
    ensures Takes(server, workflow, LeakTail(JobId(server, workflow)), LeakInputs(), 2)
  {
    hide JobHandlers.Step, JobId;
    assert LeakInputs()[2] == ConfigureEnds(0, true, true);
    assert {} + {1} == {1} && {} - {1} == {};
    assert [AtConfigure(1)][0 := AtResize(1)] == [AtResize(1)];
  }

  lemma LeakTakesHandler(server: string, workflow: string, k: nat)
    requires 3 <= k < 6
    ensures Takes(server, workflow, LeakTail(JobId(server, workflow)), LeakInputs(), k)
  {
    hide JobHandlers.Step, JobId, Working;
    assert LeakInputs()[k] == Completed;
  }

  /** A rollback that takes effect, finds and deletes all there is, while VM 1 is cloned but not yet
      configured: the create goes on and gives VM 1 the tag, and the run ends as a handled failure. */
  lemma ARollbackDuringACreateLeaks(server: string, workflow: string)
    ensures var job := JobId(server, workflow);
            var run, ins := CloneRun(job)[..6] + LeakTail(job), CloneInputs() + LeakInputs();
            && IsRun(server, workflow, run, ins) && |run| == 13 && run[7] == LeakTail(job)[1]
            && Undoes(run[7], ins[7]) && ins[7].found && Refs(run[7], true) <= ins[7].deleted
            && run[12].wf == FailedCleanly && Released(run[12].row) && run[12].tagged == {1}
  {
    hide Takes, JobId, Enabled, Step, JobHandlers.Step;
    var job := JobId(server, workflow);
    forall k: nat | k < |CloneInputs()|
      ensures Takes(server, workflow, CloneRun(job), CloneInputs(), k)
    {
      CloneTakes(server, workflow, k);
    }
    forall k: nat | k < |LeakInputs()| ensures Takes(server, workflow, LeakTail(job), LeakInputs(), k) {
      LeakTakesTimeout(server, workflow);
      LeakTakesRollback(server, workflow);
      if k >= 3 { LeakTakesHandler(server, workflow, k); }
      LeakTakesConfigure(server, workflow);
    }
    Continued(server, workflow, CloneRun(job), CloneInputs(), LeakTail(job), LeakInputs());
    assert Refs(LeakTail(job)[1], true) == {};
  }

  // ---- a refused deletion ----

  function TwiceInputs(): seq<Input> {
    [ConfigureEnds(0, false, true), DeleteEnds(0, false), AgentActs(JobHandlers.RunEnds(0, false, 0)),
     AgentActs(JobHandlers.Stores(0)),
     ReplyTimesOut(Retries), AttemptStarts(true, Retries), RequestArrives(1), CloneEnds(1, true, 2),
     ConfigureEnds(1, true, true)]
  }

  function FailedResult(job: Id): JobResult {
    JobResult(job, false, 0)
  }

  function FailedAgent(job: Id): JobHandlers.Agent {
    JobHandlers.Agent(
      Table(0, [FirstEntry(job).(res := Some(FailedResult(job)), finished := Some(0), closes := 1)], map[]),
                      [JobHandlers.Handler(job, 0, true, JobHandlers.Answering(FailedResult(job)))], [0], false, 0)
  }

  function SecondAgent(job: Id): JobHandlers.Agent {
    var a := FailedAgent(job);
    a.(table := Table(0, a.table.entries + [FirstEntry(job)], map[job := 1]),
       handlers := a.handlers + [JobHandlers.Handler(job, 1, true, JobHandlers.Running)], owner := [0, 1])
  }

  function TwiceTail(job: Id): seq<Saga> {
    var s0 := CloneRun(job)[6];
    var s1 := s0.(execs := [AtDelete(1)], tagged := {1});
    var s2 := s1.(execs := [NotMade], strays := {1});
    var s3 := s2.(agent :=
        s2.agent.(handlers := [JobHandlers.Handler(job, 0, true, JobHandlers.Ran(FailedResult(job)))]));
    var s4 := s3.(agent := FailedAgent(job));
    var s5 := s4.(attempt := NoAttempt);
    var s6 := s5.(attempt := AwaitsReply(1), attempts := 2, inFlight := {1});
    var s7 := s6.(inFlight := {}, agent := SecondAgent(job), numbers := [0, 1], execs := [NotMade, AtClone]);
    var s8 := s7.(execs := [NotMade, AtConfigure(2)]);
    [s0, s1, s2, s3, s4, s5, s6, s7, s8, s8.(execs := [NotMade, AtResize(2)], tagged := {1, 2})]
  }

  lemma TwiceTakesRefusal(server: string, workflow: string, k: nat)
    requires k < 2
    ensures Takes(server, workflow, TwiceTail(JobId(server, workflow)), TwiceInputs(), k)
  {
    hide JobHandlers.Step, JobId, FailedAgent, SecondAgent;
    match k
    case 0 =>
      assert TwiceInputs()[0] == ConfigureEnds(0, false, true);
      assert {} + {1} == {1} && {} - {1} == {};
      assert [AtConfigure(1)][0 := AtDelete(1)] == [AtDelete(1)];
    case 1 =>
      assert TwiceInputs()[1] == DeleteEnds(0, false);
      assert {} + {1} * {1} == {1};
      assert [AtDelete(1)][0 := NotMade] == [NotMade];
  }

  lemma RunFails(job: Id, a: JobHandlers.Agent)
    requires a == Working(job).agent
    ensures JobHandlers.Enabled(a, JobHandlers.RunEnds(0, false, 0))
    ensures JobHandlers.Step(a, JobHandlers.RunEnds(0, false, 0))
            == a.(handlers := [JobHandlers.Handler(job, 0, true, JobHandlers.Ran(FailedResult(job)))])
  {
    var h := JobHandlers.Handler(job, 0, true, JobHandlers.Running);
    assert [h][0 := h.(pc := JobHandlers.Ran(FailedResult(job)))] == [h.(pc := JobHandlers.Ran(FailedResult(job)))];
  }

  lemma FailureStored(job: Id, a: JobHandlers.Agent)
    requires a == Working(job).agent.(handlers :=
              [JobHandlers.Handler(job, 0, true, JobHandlers.Ran(FailedResult(job)))])
    ensures JobHandlers.Enabled(a, JobHandlers.Stores(0))
              && JobHandlers.Step(a, JobHandlers.Stores(0)) == FailedAgent(job)
  {
    var e := FirstEntry(job).(res := Some(FailedResult(job)), finished := Some(0), closes := 1);
    assert [FirstEntry(job)][0 := e] == [e];
    assert map[job := 0] - {job} == map[];
    var h := JobHandlers.Handler(job, 0, true, JobHandlers.Ran(FailedResult(job)));
    assert [h][0 := h.(pc := JobHandlers.Answering(FailedResult(job)))]
        == [h.(pc := JobHandlers.Answering(FailedResult(job)))];
  }

  lemma TwiceTakesFailure(server: string, workflow: string, k: nat)
    requires 2 <= k < 4
    ensures Takes(server, workflow, TwiceTail(JobId(server, workflow)), TwiceInputs(), k)
  {
    hide JobHandlers.Step, JobHandlers.Enabled, JobId, FailedAgent, SecondAgent;
    var job := JobId(server, workflow);
    match k
    case 2 =>
      assert TwiceInputs()[2] == AgentActs(JobHandlers.RunEnds(0, false, 0));
      RunFails(job, TwiceTail(job)[2].agent);
    case 3 =>
      assert TwiceInputs()[3] == AgentActs(JobHandlers.Stores(0));
      FailureStored(job, TwiceTail(job)[3].agent);
  }

  lemma TwiceTakesRetry(server: string, workflow: string, k: nat)
    requires 4 <= k < 6
    ensures Takes(server, workflow, TwiceTail(JobId(server, workflow)), TwiceInputs(), k)
  {
    hide JobHandlers.Step, JobHandlers.Enabled, JobId, FailedAgent, SecondAgent;
    match k
    case 4 => assert TwiceInputs()[4] == ReplyTimesOut(Retries);
    case 5 =>
      assert TwiceInputs()[5] == AttemptStarts(true, Retries);
      assert {} + {1} == {1};
  }

  lemma SecondRequest(job: Id)
    ensures JobHandlers.Step(FailedAgent(job), JobHandlers.Request(job)) == SecondAgent(job)
              && Timely(FailedAgent(job).table)
  {
    assert Sweep(FailedAgent(job).table).jobs == map[];
    assert map[][job := 1] == map[job := 1];
  }

  lemma TwiceTakesRequest(server: string, workflow: string)
    ensures Takes(server, workflow, TwiceTail(JobId(server, workflow)), TwiceInputs(), 6)
  {
    hide JobHandlers.Step, JobHandlers.Enabled, JobId;
    assert TwiceInputs()[6] == RequestArrives(1);
    SecondRequest(JobId(server, workflow));
    assert {1} - {1} == {};
  }

  lemma TwiceTakesClone(server: string, workflow: string, k: nat)
    requires 7 <= k < 9
    ensures Takes(server, workflow, TwiceTail(JobId(server, workflow)), TwiceInputs(), k)
  {
    hide JobHandlers.Step, JobHandlers.Enabled, JobId;
    match k
    case 7 =>
      assert TwiceInputs()[7] == CloneEnds(1, true, 2);
      assert [NotMade, AtClone][1 := AtConfigure(2)] == [NotMade, AtConfigure(2)];
    case 8 =>
      assert TwiceInputs()[8] == ConfigureEnds(1, true, true);
      assert [NotMade, AtConfigure(2)][1 := AtResize(2)] == [NotMade, AtResize(2)];
      assert {1} + {2} == {1, 2} && {1} - {2} == {1};
  }

  /** A create whose configuration fails after the tag was set, and whose own deletion is refused, leaves
      its VM; the repeated attempt makes another one, and two VMs carry the tag. */
  lemma ARefusedDeletionLeavesTwo(server: string, workflow: string)
    ensures var job := JobId(server, workflow);
            var run, ins := CloneRun(job)[..6] + TwiceTail(job), CloneInputs() + TwiceInputs();
            && IsRun(server, workflow, run, ins) && |run| == 16
            && ins[7] == DeleteEnds(0, false) && run[15].tagged == {1, 2} && run[15].strays == {1}
  {
    hide Takes, JobId, Enabled, Step, JobHandlers.Step, FailedAgent, SecondAgent;
    var job := JobId(server, workflow);
    forall k: nat | k < |CloneInputs()|
      ensures Takes(server, workflow, CloneRun(job), CloneInputs(), k)
    {
      CloneTakes(server, workflow, k);
    }
    forall k: nat | k < |TwiceInputs()| ensures Takes(server, workflow, TwiceTail(job), TwiceInputs(), k) {
      if k < 2 { TwiceTakesRefusal(server, workflow, k); }
      if 2 <= k < 4 { TwiceTakesFailure(server, workflow, k); }
      if 4 <= k < 6 { TwiceTakesRetry(server, workflow, k); }
      TwiceTakesRequest(server, workflow);
      if k >= 7 { TwiceTakesClone(server, workflow, k); }
    }
    Continued(server, workflow, CloneRun(job), CloneInputs(), TwiceTail(job), TwiceInputs());
  }
}
