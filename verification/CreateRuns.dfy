/** What every run of `createServer` ends with. */
module CreateRuns {
  import opened Options
  import opened JobTableModel
  import JobHandlers
  import opened CreateModel

  // ---- the agent's part ----

  function Ended(res: JobResult): Create {
    if res.ok then Made(res.payload) else NotMade
  }

  /** A handler that runs `create`, against the state of that execution. */
  ghost predicate Tied(x: JobHandlers.Handler, c: Create) {
    match x.pc
    case Running => true
    case Ran(res) => c == Ended(res)
    case Answering(res) => c == Ended(res)
    case Replied(res) => c == Ended(res)
    case _ => false
  }

  predicate Over(e: Entry) {
    e.finished != None && e.res != None && !e.res.value.ok
  }

  /** Every execution of the job but the last has failed. */
  ghost predicate AgentInv(job: Id, s: Saga) {
    && JobHandlers.Inv(s.agent)
    && |s.numbers| == |s.agent.handlers|
    && |s.execs| == |s.agent.table.entries| == |s.agent.owner|
    && (forall e | 0 <= e < |s.execs| :: s.agent.table.entries[e].id == job)
    && (forall e | 0 <= e < |s.execs| ::
        s.agent.owner[e] < |s.agent.handlers| && Tied(s.agent.handlers[s.agent.owner[e]], s.execs[e]))
    && (forall e | 0 <= e < |s.execs| - 1 :: Over(s.agent.table.entries[e]))
  }

  predicate InProgress(c: Create) {
    !c.Made? && !c.NotMade?
  }

  /** Only the last execution can be in progress, and only while its handler runs it. */
  lemma InProgressIsLast(job: Id, s: Saga, e: nat)
    requires AgentInv(job, s) && e < |s.execs| && InProgress(s.execs[e])
    ensures e == |s.execs| - 1 && s.agent.handlers[s.agent.owner[e]].pc.Running?
  {
    assert Tied(s.agent.handlers[s.agent.owner[e]], s.execs[e]);
    assert JobHandlers.At(s.agent, s.agent.owner[e]);
    assert JobHandlers.Fits(s.agent.handlers[s.agent.owner[e]], s.agent.table.entries[e]);
    assert e < |s.execs| - 1 ==> Over(s.agent.table.entries[e]);
  }

  /** A successful answer comes from the last execution, and names the VM that it made. */
  lemma AnswerIsLast(job: Id, s: Saga, h: nat)
    requires AgentInv(job, s) && h < |s.agent.handlers| && s.agent.handlers[h].pc.Replied?
              && s.agent.handlers[h].pc.res.ok
    ensures |s.execs| > 0 && s.execs[|s.execs| - 1] == Made(s.agent.handlers[h].pc.res.payload)
  {
    var e := s.agent.handlers[h].entry;
    assert JobHandlers.At(s.agent, h) && JobHandlers.Fits(s.agent.handlers[h], s.agent.table.entries[e]);
    assert e < |s.execs| - 1 ==> Over(s.agent.table.entries[e]);
    var o := s.agent.owner[e];
    assert Tied(s.agent.handlers[o], s.execs[e]);
    assert JobHandlers.At(s.agent, o) && JobHandlers.Fits(s.agent.handlers[o], s.agent.table.entries[e]);
    assert WellTimed(s.agent.table, s.agent.table.entries[e]);
  }

  // ---- the tag ----

  /** The VMs that carry the tag, judged from the last execution. */
  ghost predicate Tags(c: Create, tagged: set<nat>) {
    match c
    case AtResize(vm) => tagged == {vm}
    case AtStart(vm) => tagged == {vm}
    case Made(vm) => tagged == {vm}
    case AtDelete(vm) => tagged <= {vm}
    case _ => tagged == {}
  }

  /** The most that an execution accounts for. */
  function Cap(c: Create): set<nat> {
    match c
    case AtResize(vm) => {vm}
    case AtStart(vm) => {vm}
    case AtDelete(vm) => {vm}
    case Made(vm) => {vm}
    case _ => {}
  }

  function LastCap(s: Saga): set<nat> {
    if s.execs == [] then {} else Cap(s.execs[|s.execs| - 1])
  }

  /** At every moment: what carries the tag is a stray, or belongs to the last execution. */
  ghost predicate Within(s: Saga) {
    s.strays <= s.tagged && s.tagged - s.strays <= LastCap(s)
  }

  /** While nothing was rolled back: strays apart, the tag is where the last execution put it. */
  ghost predicate Exact(s: Saga) {
    if s.execs == [] then s.tagged - s.strays == {} else Tags(s.execs[|s.execs| - 1], s.tagged - s.strays)
  }

  // ---- the row ----

  function Stage(a: Activity): nat {
    match a
    case SetProvisioning => 0
    case PlaceServer(_) => 1
    case ReserveIp => 2
    case CreateVm => 3
    case WaitForBoot => 4
    case ApplyFirewall => 5
    case StartMeter => 6
    case SetActive => 7
    case CompleteAction => 8
    case EmitActive => 9
    case _ => 10
  }

  /** The row has what the activities before stage `n` gave it. */
  ghost predicate Reached(r: Row, n: nat) {
    && (n > 1 ==> r.host != None)
    && (n > 2 ==> r.ips)
    && (n > 3 ==> r.ref != None)
    && (n > 6 ==> r.metered)
    && (n > 7 ==> r.status == Active)
    && (r.ref != None ==> r.privateIp)
  }

  /** Before `createVm` nothing beyond the placement and the address is held. */
  ghost predicate Early(s: Saga) {
    && s.execs == [] && s.inFlight == {} && s.agent.handlers == [] && s.tagged == {}
    && s.row.ref == None && !s.row.privateIp && !s.row.metered
  }

  ghost predicate RefMade(s: Saga) {
    s.row.ref != None ==> |s.execs| > 0 && s.execs[|s.execs| - 1] == Made(s.row.ref.value)
  }

  predicate Released(r: Row) {
    r.host == None && !r.ips && !r.privateIp && r.ref == None && !r.metered
  }

  ghost predicate Trying(s: Saga, n: nat) {
    && Exact(s) && Reached(s.row, n) && RefMade(s)
    && (s.placed <==> n > 1)
    && (n < 3 ==> Early(s))
    && (n < 2 ==> !s.row.ips)
    && (n <= 1 ==> (s.row.host != None <==> s.tookPlace))
    && (s.attempt.AwaitsReply? ==> n == 3 && s.row.privateIp)
  }

  /** In the handler without a placement that completed: nothing was asked of the agent. */
  ghost predicate Unplaced(s: Saga) {
    Early(s) && !s.row.ips && (s.row.host != None <==> s.tookPlace)
  }

  ghost predicate RolledBack(s: Saga) {
    if s.placed then Released(s.row) else Unplaced(s)
  }

  ghost predicate WfInv(s: Saga) {
    match s.wf
    case Succeeded => Trying(s, 10)
    case Aborted => true
    case FailedCleanly => s.row.status == Failed && RolledBack(s)
    case Awaits(a) =>
      if !InHandler(a) then Trying(s, Stage(a))
      else if a == CompensateCreate then s.placed && (if s.row.host == None then Released(s.row) else RefMade(s))
      else (a != SetFailed ==> s.row.status == Failed) && RolledBack(s)
  }

  ghost predicate SInv(job: Id, s: Saga) {
    AgentInv(job, s) && Within(s) && WfInv(s)
  }

  lemma BeginInv(job: Id, now: int)
    ensures SInv(job, Begin(now))
  {
  }

  // ---- how attempts end ----

  /** An activity of the try block: what it leaves is what the next one, or the handler, starts from. */
  lemma EndsTrying(s: Saga, o: Outcome)
    requires s.wf.Awaits? && !InHandler(s.wf.a) && Trying(s, Stage(s.wf.a))
    requires o == Completes ==> WfInv(Completed(s))
    ensures WfInv(Ends(s, o))
  {
    hide Exact;
    SameExact(s, GivenUp(s));
  }

  lemma BeforeCreateVm(s: Saga, host: string, applied: bool, o: Outcome)
    requires WfInv(s) && Enabled(s, ActivityAttempt(host, applied, o)) && !InHandler(s.wf.a) && Stage(s.wf.a) < 3
    ensures WfInv(Step("", "", s, ActivityAttempt(host, applied, o)))
  {
    hide Exact;
    var a := if s.wf.a.PlaceServer? then PlaceServer(host) else s.wf.a;
    var t := if applied then s.(row := Effect(a, s.row), tookPlace := s.tookPlace || a.PlaceServer?) else s;
    SameExact(s, t);
    if o == Completes { SameExact(s, Completed(t)); }
    EndsTrying(t, o);
  }

  lemma AfterCreateVm(s: Saga, host: string, applied: bool, o: Outcome)
    requires WfInv(s) && Enabled(s, ActivityAttempt(host, applied, o)) && !InHandler(s.wf.a) && Stage(s.wf.a) > 3
    ensures WfInv(Step("", "", s, ActivityAttempt(host, applied, o)))
  {
    hide Exact, Early;
    var a := if s.wf.a.PlaceServer? then PlaceServer(host) else s.wf.a;
    var t := if applied then s.(row := Effect(a, s.row), tookPlace := s.tookPlace || a.PlaceServer?) else s;
    SameExact(s, t);
    if o == Completes { SameExact(s, Completed(t)); }
    EndsTrying(t, o);
  }

  lemma SameExact(s: Saga, t: Saga)
    requires t.execs == s.execs && t.tagged == s.tagged && t.strays == s.strays
    ensures Exact(t) == Exact(s)
  {
  }

  lemma HandlerActivity(s: Saga, host: string, applied: bool, o: Outcome)
    requires WfInv(s) && Enabled(s, ActivityAttempt(host, applied, o)) && InHandler(s.wf.a)
    ensures WfInv(Step("", "", s, ActivityAttempt(host, applied, o)))
  {
  }

  lemma AttemptStartsInv(s: Saga, sent: bool, o: Outcome)
    requires WfInv(s) && Enabled(s, AttemptStarts(sent, o))
    ensures WfInv(Step("", "", s, AttemptStarts(sent, o)))
  {
    hide Exact, Early;
    var t := Step("", "", s, AttemptStarts(sent, o));
    SameExact(s, t);
    if s.row.ref != None {
      EndsTrying(s, o);
    } else if !sent {
      var u := s.(row := s.row.(privateIp := true));
      SameExact(s, u);
      EndsTrying(u, o);
    }
  }

  lemma ReplyArrivesInv(job: Id, s: Saga, h: nat, stored: bool, o: Outcome)
    requires SInv(job, s) && Enabled(s, ReplyArrives(h, stored, o))
    ensures WfInv(Step("", "", s, ReplyArrives(h, stored, o)))
  {
    hide AgentInv, Exact, Gone, Early;
    var res := s.agent.handlers[h].pc.res;
    if res.ok { AnswerIsLast(job, s, h); }
    var u := s.(attempt := NoAttempt, row := if stored && res.ok then s.row.(ref := Some(res.payload)) else s.row);
    SameExact(s, u);
    if o == Completes { SameExact(s, Completed(u)); }
    EndsTrying(u, o);
  }

  lemma ReplyTimesOutInv(s: Saga, o: Outcome)
    requires WfInv(s) && Enabled(s, ReplyTimesOut(o))
    ensures WfInv(Step("", "", s, ReplyTimesOut(o)))
  {
    hide Exact, Early;
    SameExact(s, s.(attempt := NoAttempt));
    EndsTrying(s.(attempt := NoAttempt), o);
  }

  lemma CompensatesInv(s: Saga, i: Input)
    requires WfInv(s) && Within(s) && Enabled(s, i) && i.Compensates?
    ensures WfInv(Step("", "", s, i)) && Within(Step("", "", s, i))
  {
  }

  // ---- what the agent does ----

  /** The workflow's view is unchanged, and what it relies on is kept. */
  ghost predicate KeepsView(s: Saga, t: Saga) {
    && t.wf == s.wf && t.placed == s.placed && t.row == s.row && t.attempt == s.attempt && t.tookPlace == s.tookPlace
    && (Exact(s) ==> Exact(t)) && (RefMade(s) ==> RefMade(t)) && (Early(s) ==> Early(t))
  }

  lemma ViewWf(s: Saga, t: Saga)
    requires WfInv(s) && KeepsView(s, t)
    ensures WfInv(t)
  {
    hide Exact, RefMade, Early;
    EarlyRow(s);
    EarlyRow(t);
  }

  lemma EarlyRow(s: Saga)
    ensures Early(s) ==> Exact(s) && RefMade(s)
  {
  }

  lemma NotCurrentIsOver(t: Table, e: nat)
    requires TableInv(t) && e < |t.entries| && Timely(t) && !Current(t, t.entries[e])
    ensures Over(t.entries[e])
  {
    assert WellTimed(t, t.entries[e]);
  }

  lemma OverIsNotMade(job: Id, s: Saga, e: nat)
    requires AgentInv(job, s) && e < |s.execs| && Over(s.agent.table.entries[e])
    ensures s.execs[e] == NotMade
  {
    var o := s.agent.owner[e];
    assert Tied(s.agent.handlers[o], s.execs[e]);
    assert JobHandlers.At(s.agent, o) && JobHandlers.Fits(s.agent.handlers[o], s.agent.table.entries[e]);
  }

  /** While results are kept, a request starts the job only if every execution so far has failed. */
  lemma FirstMeansAllFailed(job: Id, s: Saga)
    requires AgentInv(job, s) && Timely(s.agent.table) && Claim(s.agent.table, job).2
    ensures forall e | 0 <= e < |s.execs| :: Over(s.agent.table.entries[e]) && s.execs[e] == NotMade
  {
    ClaimRunsIff(s.agent.table, job);
    forall e | 0 <= e < |s.execs| ensures Over(s.agent.table.entries[e]) && s.execs[e] == NotMade {
      assert s.agent.table.entries[e].id == job;
      NotCurrentIsOver(s.agent.table, e);
      OverIsNotMade(job, s, e);
    }
  }

  lemma OwnersTied(job: Id, s: Saga)
    requires AgentInv(job, s)
    ensures forall e | 0 <= e < |s.execs| ::
              s.agent.owner[e] < |s.agent.handlers| && Tied(s.agent.handlers[s.agent.owner[e]], s.execs[e])
  {
    hide JobHandlers.Inv, Tied, Over;
  }

  /** A request that has to run the job starts a new execution behind the failed ones. */
  lemma NewCreate(job: Id, s: Saga, t: Saga, n: nat)
    requires AgentInv(job, s) && JobHandlers.Inv(t.agent)
    requires forall e | 0 <= e < |s.execs| :: Over(s.agent.table.entries[e])
    requires t.agent.table.entries == s.agent.table.entries + [Entry(job, s.agent.table.now, None, None, 0)]
    requires |t.agent.handlers| == |s.agent.handlers| + 1 && t.agent.handlers[..|s.agent.handlers|] == s.agent.handlers
    requires t.agent.handlers[|s.agent.handlers|].pc == JobHandlers.Running
    requires t.agent.owner == s.agent.owner + [|s.agent.handlers|]
    requires t.numbers == s.numbers + [n] && t.execs == s.execs + [AtClone]
    ensures AgentInv(job, t)
  {
    hide JobHandlers.Inv, Over;
    forall e | 0 <= e < |t.execs|
      ensures t.agent.owner[e] < |t.agent.handlers| && Tied(t.agent.handlers[t.agent.owner[e]], t.execs[e])
    {
      if e < |s.execs| {
        assert Tied(s.agent.handlers[s.agent.owner[e]], s.execs[e]);
        assert t.agent.handlers[..|s.agent.handlers|][s.agent.owner[e]] == s.agent.handlers[s.agent.owner[e]];
      }
    }
  }

  lemma NewWaiter(job: Id, s: Saga, t: Saga, n: nat)
    requires AgentInv(job, s) && JobHandlers.Inv(t.agent)
    requires t.agent.table.entries == s.agent.table.entries && t.agent.owner == s.agent.owner && t.execs == s.execs
    requires |t.agent.handlers| == |s.agent.handlers| + 1 && t.agent.handlers[..|s.agent.handlers|] == s.agent.handlers
    requires t.numbers == s.numbers + [n]
    ensures AgentInv(job, t)
  {
    hide JobHandlers.Inv, Over, Tied;
    forall e | 0 <= e < |t.execs|
      ensures t.agent.owner[e] < |t.agent.handlers| && Tied(t.agent.handlers[t.agent.owner[e]], t.execs[e])
    {
      assert Tied(s.agent.handlers[s.agent.owner[e]], s.execs[e]);
      assert t.agent.handlers[..|s.agent.handlers|][s.agent.owner[e]] == s.agent.handlers[s.agent.owner[e]];
    }
  }

  lemma RequestArrivesInv(server: string, workflow: string, s: Saga, n: nat)
    requires SInv(JobId(server, workflow), s) && Enabled(s, RequestArrives(n))
    ensures SInv(JobId(server, workflow), Step(server, workflow, s, RequestArrives(n)))
  {
    hide JobHandlers.Inv, AgentInv, WfInv, Claim, Timely, Tags, JobId, Quiet;
    var job := JobId(server, workflow);
    var t := Step(server, workflow, s, RequestArrives(n));
    AgentPart(job, s);
    ClaimRunsIff(s.agent.table, job);
    JobHandlers.StepInv(s.agent, JobHandlers.Request(job));
    assert t.agent.handlers[..|s.agent.handlers|] == s.agent.handlers;
    if Claim(s.agent.table, job).2 {
      FirstMeansAllFailed(job, s);
      NewCreate(job, s, t, n);
      NewCreateView(s, t);
    } else {
      NewWaiter(job, s, t, n);
    }
    InFlightIsNotEarly(s, n);
    ViewWf(s, t);
  }

  lemma InFlightIsNotEarly(s: Saga, n: nat)
    ensures n in s.inFlight ==> !Early(s)
  {
  }

  lemma NewCreateView(s: Saga, t: Saga)
    requires t.execs == s.execs + [AtClone] && t.tagged == s.tagged && t.strays == s.strays && t.row == s.row
    requires forall e | 0 <= e < |s.execs| :: s.execs[e] == NotMade
    ensures (Exact(s) ==> Exact(t)) && (RefMade(s) ==> RefMade(t)) && (Within(s) ==> Within(t))
  {
  }

  lemma AgentPart(job: Id, s: Saga)
    requires AgentInv(job, s)
    ensures JobHandlers.Inv(s.agent) && TableInv(s.agent.table)
              && |s.execs| == |s.agent.table.entries| == |s.agent.owner|
    ensures |s.numbers| == |s.agent.handlers|
  {
  }

  // ---- the steps of one execution ----

  lemma ExecInv(job: Id, s: Saga, e: nat, c: Create, tagged: set<nat>, strays: set<nat>)
    requires SInv(job, s) && e < |s.execs| && InProgress(s.execs[e])
    requires Tags(s.execs[e], s.tagged - s.strays) ==> Tags(c, tagged - strays)
    requires s.tagged - s.strays <= Cap(s.execs[e]) && s.strays <= s.tagged ==>
              tagged - strays <= Cap(c) && strays <= tagged
    ensures SInv(job, SetExec(s, e, c, tagged, strays))
  {
    hide JobHandlers.Inv, WfInv, Over, Tags, Cap;
    var t := SetExec(s, e, c, tagged, strays);
    InProgressIsLast(job, s, e);
    forall k | 0 <= k < |t.execs|
      ensures t.agent.owner[k] < |t.agent.handlers| && Tied(t.agent.handlers[t.agent.owner[k]], t.execs[k])
    {
      assert Tied(s.agent.handlers[s.agent.owner[k]], s.execs[k]);
    }
    ViewWf(s, t);
  }

  lemma CreateStepInv(server: string, workflow: string, s: Saga, i: Input)
    requires SInv(JobId(server, workflow), s) && Enabled(s, i)
    requires i.CloneEnds? || i.ConfigureEnds? || i.ResizeEnds? || i.StartEnds? || i.DeleteEnds?
    ensures SInv(JobId(server, workflow), Step(server, workflow, s, i))
  {
    hide SInv, JobId;
    var t := Step(server, workflow, s, i);
    ExecInv(JobId(server, workflow), s, i.e, t.execs[i.e], t.tagged, t.strays);
  }

  // ---- the agent's own steps ----

  lemma ActKeepsOwners(job: Id, s: Saga, j: JobHandlers.Input)
    requires AgentInv(job, s) && AgentMay(s, j)
    ensures var b := JobHandlers.Step(s.agent, j);
            && b.owner == s.agent.owner && |b.handlers| == |s.agent.handlers|
                && |b.table.entries| == |s.agent.table.entries|
            && (forall e | 0 <= e < |s.execs| :: b.table.entries[e].id == s.agent.table.entries[e].id)
            && (forall e | 0 <= e < |s.execs| && Over(s.agent.table.entries[e]) :: Over(b.table.entries[e]))
            && (forall h | 0 <= h < |b.handlers| && JobHandlers.Executing(b.handlers[h]) ::
                JobHandlers.Executing(s.agent.handlers[h]))
  {
    hide JobHandlers.Inv;
    if j.Stores? {
      StoringIsUnfinished(job, s, j.h);
    }
  }

  lemma StoringIsUnfinished(job: Id, s: Saga, h: nat)
    requires AgentInv(job, s) && h < |s.agent.handlers| && s.agent.handlers[h].pc.Ran?
    ensures s.agent.handlers[h].entry < |s.execs| && !Over(s.agent.table.entries[s.agent.handlers[h].entry])
  {
    assert JobHandlers.At(s.agent, h)
        && JobHandlers.Fits(s.agent.handlers[h], s.agent.table.entries[s.agent.handlers[h].entry]);
  }

  lemma ActKeepsTied(job: Id, s: Saga, j: JobHandlers.Input, e: nat)
    requires AgentInv(job, s) && AgentMay(s, j) && e < |s.execs|
    ensures var b := JobHandlers.Step(s.agent, j);
              s.agent.owner[e] < |b.handlers| && Tied(b.handlers[s.agent.owner[e]], s.execs[e])
  {
    hide Finish, Over;
    var o := s.agent.owner[e];
    assert Tied(s.agent.handlers[o], s.execs[e]);
    assert s.agent.handlers[o].first && s.agent.handlers[o].entry == e;
    assert JobHandlers.At(s.agent, o) && JobHandlers.Fits(s.agent.handlers[o], s.agent.table.entries[e]);
  }

  lemma AgentActsInv(server: string, workflow: string, s: Saga, j: JobHandlers.Input)
    requires SInv(JobId(server, workflow), s) && Enabled(s, AgentActs(j))
    ensures SInv(JobId(server, workflow), Step(server, workflow, s, AgentActs(j)))
  {
    hide JobHandlers.Inv, WfInv, Over, Tied, JobHandlers.Step, JobHandlers.Enabled, Tags, JobId;
    var job := JobId(server, workflow);
    var t := s.(agent := JobHandlers.Step(s.agent, j));
    JobHandlers.StepInv(s.agent, j);
    ActKeepsOwners(job, s, j);
    forall e | 0 <= e < |t.execs|
      ensures t.agent.owner[e] < |t.agent.handlers| && Tied(t.agent.handlers[t.agent.owner[e]], t.execs[e])
    {
      ActKeepsTied(job, s, j, e);
    }
    ViewWf(s, t);
  }

  // ---- every step, every run ----

  predicate OfWorkflow(i: Input) {
    i.ActivityAttempt? || i.AttemptStarts? || i.RequestLost? || i.ReplyArrives? || i.ReplyTimesOut? || i.Compensates?
  }

  lemma WorkflowStepInv(server: string, workflow: string, s: Saga, i: Input)
    requires SInv(JobId(server, workflow), s) && Enabled(s, i) && OfWorkflow(i)
    ensures WfInv(Step(server, workflow, s, i))
  {
    hide WfInv, AgentInv, JobId, Within;
    match i
    case ActivityAttempt(host, applied, o) =>
      if InHandler(s.wf.a) {
        HandlerActivity(s, host, applied, o);
      } else if Stage(s.wf.a) < 3 {
        BeforeCreateVm(s, host, applied, o);
      } else {
        AfterCreateVm(s, host, applied, o);
      }
    case AttemptStarts(sent, o) => AttemptStartsInv(s, sent, o);
    case RequestLost(n) =>
      InFlightIsNotEarly(s, n);
      ViewWf(s, Step(server, workflow, s, i));
    case ReplyArrives(h, stored, o) => ReplyArrivesInv(JobId(server, workflow), s, h, stored, o);
    case ReplyTimesOut(o) => ReplyTimesOutInv(s, o);
    case Compensates(_, _, _, _) => CompensatesInv(s, i);
  }

  lemma WorkflowKeepsAgent(server: string, workflow: string, s: Saga, i: Input)
    requires AgentInv(JobId(server, workflow), s) && Enabled(s, i) && OfWorkflow(i)
    ensures AgentInv(JobId(server, workflow), Step(server, workflow, s, i))
  {
    hide JobHandlers.Inv, Tied, Over, JobId;
  }

  lemma WorkflowKeepsWithin(server: string, workflow: string, s: Saga, i: Input)
    requires Within(s) && Enabled(s, i) && OfWorkflow(i)
    ensures Within(Step(server, workflow, s, i))
  {
    hide Cap, JobId;
  }

  lemma StepInv(server: string, workflow: string, s: Saga, i: Input)
    requires SInv(JobId(server, workflow), s) && Enabled(s, i)
    ensures SInv(JobId(server, workflow), Step(server, workflow, s, i))
  {
    hide WfInv, AgentInv, Within, JobId, Enabled, Step;
    match i
    case RequestArrives(n) => RequestArrivesInv(server, workflow, s, n);
    case AgentActs(j) => AgentActsInv(server, workflow, s, j);
    case CloneEnds(_, _, _) => CreateStepInv(server, workflow, s, i);
    case ConfigureEnds(_, _, _) => CreateStepInv(server, workflow, s, i);
    case ResizeEnds(_, _) => CreateStepInv(server, workflow, s, i);
    case StartEnds(_, _) => CreateStepInv(server, workflow, s, i);
    case DeleteEnds(_, _) => CreateStepInv(server, workflow, s, i);
    case _ =>
      WorkflowStepInv(server, workflow, s, i);
      WorkflowKeepsAgent(server, workflow, s, i);
      WorkflowKeepsWithin(server, workflow, s, i);
  }

  ghost predicate IsRun(server: string, workflow: string, run: seq<Saga>, ins: seq<Input>) {
    && |run| == |ins| + 1
    && run[0] == Begin(run[0].agent.table.now)
    && forall k | 0 <= k < |ins| :: Enabled(run[k], ins[k]) && run[k + 1] == Step(server, workflow, run[k], ins[k])
  }

  lemma RunLength(server: string, workflow: string, run: seq<Saga>, ins: seq<Input>)
    requires IsRun(server, workflow, run, ins)
    ensures |run| == |ins| + 1
  {
    hide Enabled, Step, Begin;
  }

  lemma RunStep(server: string, workflow: string, run: seq<Saga>, ins: seq<Input>, k: nat)
    requires IsRun(server, workflow, run, ins) && k < |ins|
    ensures Enabled(run[k], ins[k]) && run[k + 1] == Step(server, workflow, run[k], ins[k])
  {
    hide Enabled, Step, Begin;
  }

  lemma {:induction false} RunInv(server: string, workflow: string, run: seq<Saga>, ins: seq<Input>, k: nat)
    requires IsRun(server, workflow, run, ins) && k < |run|
    ensures SInv(JobId(server, workflow), run[k])
    decreases k
  {
    hide SInv, Enabled, Step, JobId;
    if k == 0 {
      BeginInv(JobId(server, workflow), run[0].agent.table.now);
    } else {
      RunInv(server, workflow, run, ins, k - 1);
      RunStep(server, workflow, run, ins, k - 1);
      StepInv(server, workflow, run[k - 1], ins[k - 1]);
    }
  }

  /** No create was refused the deletion of a VM that carries the tag. */
  ghost predicate NoneRefused(run: seq<Saga>, ins: seq<Input>, k: nat)
    requires k <= |ins| <= |run|
  {
    forall j: nat | j < k && ins[j].DeleteEnds? && At(run[j], ins[j].e) && run[j].execs[ins[j].e].AtDelete? ::
      ins[j].ok || run[j].execs[ins[j].e].vm !in run[j].tagged
  }

  lemma {:induction false} StraysNeedRefusals(server: string, workflow: string, run: seq<Saga>, ins: seq<Input>, k: nat)
    requires IsRun(server, workflow, run, ins) && k < |run| && NoneRefused(run, ins, k)
    ensures run[k].strays == {}
    decreases k
  {
    if k > 0 {
      hide IsRun, Enabled, JobId, Effect, After, JobHandlers.Step;
      RunLength(server, workflow, run, ins);
      RunStep(server, workflow, run, ins, k - 1);
      StraysNeedRefusals(server, workflow, run, ins, k - 1);
      StrayStep(server, workflow, run[k - 1], ins[k - 1]);
    }
  }

  lemma StrayStep(server: string, workflow: string, s: Saga, i: Input)
    requires Enabled(s, i) && s.strays == {}
    requires i.DeleteEnds? ==> i.ok || s.execs[i.e].vm !in s.tagged
    ensures Step(server, workflow, s, i).strays == {}
  {
    hide JobId, Effect, After, JobHandlers.Step;
  }

  /** At no moment do two VMs carry the server's tag, but for those whose deletion by their own create
      was refused: whatever replies are lost, however often attempts are repeated, and even if a
      rollback runs at the same time, cannot find the VMs or cannot delete them. */
  lemma NeverTwoVms(server: string, workflow: string, run: seq<Saga>, ins: seq<Input>, k: nat, v: nat, w: nat)
    requires IsRun(server, workflow, run, ins) && k < |run|
    requires v in run[k].tagged && w in run[k].tagged
    ensures v !in run[k].strays && w !in run[k].strays ==> v == w
    ensures NoneRefused(run, ins, k) ==> v == w
  {
    hide IsRun, AgentInv, JobId, WfInv, NoneRefused;
    RunLength(server, workflow, run, ins);
    RunInv(server, workflow, run, ins, k);
    if NoneRefused(run, ins, k) { StraysNeedRefusals(server, workflow, run, ins, k); }
    if v !in run[k].strays && w !in run[k].strays {
      assert v in run[k].tagged - run[k].strays && w in run[k].tagged - run[k].strays;
      assert v in LastCap(run[k]) && w in LastCap(run[k]);
    }
  }

  /** A run that succeeds leaves an active, metered server that holds its host, its addresses and the
      VM it names; no other VM carries its tag, but for refused deletions. */
  lemma SuccessHoldsExactlyItsVm(server: string, workflow: string, run: seq<Saga>, ins: seq<Input>, k: nat)
    requires IsRun(server, workflow, run, ins) && k < |run| && run[k].wf == Succeeded
    ensures var r := run[k].row;
            && r.status == Active && r.host != None && r.ips && r.privateIp && r.metered
            && r.ref != None && run[k].tagged == {r.ref.value} + run[k].strays && r.ref.value !in run[k].strays
            && (NoneRefused(run, ins, k) ==> run[k].tagged == {r.ref.value})
  {
    hide IsRun, AgentInv, JobId, NoneRefused;
    RunLength(server, workflow, run, ins);
    RunInv(server, workflow, run, ins, k);
    assert run[k].tagged - run[k].strays == {run[k].row.ref.value};
    assert run[k].row.ref.value in run[k].tagged - run[k].strays;
    if NoneRefused(run, ins, k) { StraysNeedRefusals(server, workflow, run, ins, k); }
  }

  /** A run that fails holds no address, no VM in its row and no meter, and no host once it got past
      placement. One that failed before holds the host exactly when an attempt of `placeServer` took
      effect although none of them was reported as completed, and never asked for a VM. */
  lemma FailureHoldsNothingButALostPlacement(server: string, workflow: string, run: seq<Saga>, ins: seq<Input>, k: nat)
    requires IsRun(server, workflow, run, ins) && k < |run| && run[k].wf == FailedCleanly
    ensures var s := run[k];
            && s.row.status == Failed && s.row.ref == None && !s.row.ips && !s.row.privateIp && !s.row.metered
            && (s.row.host == None <==> s.placed || !s.tookPlace)
            && (!s.placed ==> s.tagged == {})
  {
    hide IsRun, AgentInv, JobId, Exact, RefMade;
    RunInv(server, workflow, run, ins, k);
  }

  // ---- what a rollback leaves ----

  /** The rollback whose database part takes effect: it is the one that clears the host. */
  ghost predicate Undoes(s: Saga, i: Input) {
    i.Compensates? && i.applied && s.row.host != None
  }

  /** The rollback does not delete VM `v`: it is not looked for or not found, or the deletion fails. */
  ghost predicate Misses(s: Saga, i: Input, v: nat)
    requires i.Compensates?
  {
    v in s.tagged && !(v in Refs(s, i.found) && v in i.deleted)
  }

  ghost predicate TagsVm(s: Saga, i: Input, v: nat) {
    i.ConfigureEnds? && i.tagSet && i.e < |s.execs| && s.execs[i.e] == AtConfigure(v)
  }

  ghost predicate Deletes(s: Saga, i: Input, v: nat) {
    i.DeleteEnds? && i.ok && i.e < |s.execs| && s.execs[i.e] == AtDelete(v)
  }

  ghost predicate DeletedAfter(run: seq<Saga>, ins: seq<Input>, j: nat, k: nat, v: nat)
    requires k <= |ins| <= |run|
  {
    exists m :: j < m < k && Deletes(run[m], ins[m], v)
  }

  /** If the rollback at `a` missed VM `v`, or a create gave it the tag after that, its create deleted it
      later. */
  ghost predicate Undone(run: seq<Saga>, ins: seq<Input>, a: nat, k: nat, v: nat)
    requires a < k <= |ins| <= |run| && ins[a].Compensates?
  {
    && (Misses(run[a], ins[a], v) ==> DeletedAfter(run, ins, a, k, v))
    && forall j | a < j < k && TagsVm(run[j], ins[j], v) :: DeletedAfter(run, ins, j, k, v)
  }

  ghost predicate AllUndone(run: seq<Saga>, ins: seq<Input>, a: nat, k: nat)
    requires a < k <= |ins| <= |run| && ins[a].Compensates?
  {
    forall v :: Undone(run, ins, a, k, v)
  }

  /** In the handler and without a host, so that no rollback deletes anything any more. */
  ghost predicate Past(s: Saga) {
    s.row.host == None && s.wf != Succeeded && (s.wf.Awaits? ==> InHandler(s.wf.a))
  }

  lemma PastStays(server: string, workflow: string, s: Saga, i: Input)
    requires Past(s) && Enabled(s, i)
    ensures Past(Step(server, workflow, s, i))
  {
    hide JobId, JobHandlers.Step;
  }

  lemma UndoingIsPast(server: string, workflow: string, s: Saga, i: Input, v: nat)
    requires Enabled(s, i) && Undoes(s, i)
    ensures Past(Step(server, workflow, s, i))
    ensures v in Step(server, workflow, s, i).tagged <==> Misses(s, i, v)
  {
    hide JobId, JobHandlers.Step;
  }

  lemma PastTags(server: string, workflow: string, s: Saga, i: Input, v: nat)
    requires Past(s) && Enabled(s, i)
    ensures v in Step(server, workflow, s, i).tagged <==> TagsVm(s, i, v) || (v in s.tagged && !Deletes(s, i, v))
  {
    hide JobId, JobHandlers.Step, Effect, After;
  }

  /** VM `v` carries the tag at `k`, judged from the rollback at `a` and the steps of creates after it. */
  ghost predicate Marked(run: seq<Saga>, ins: seq<Input>, a: nat, k: nat, v: nat)
    requires a < k <= |ins| <= |run| && ins[a].Compensates?
  {
    || (Misses(run[a], ins[a], v) && !DeletedAfter(run, ins, a, k, v))
    || exists j :: a < j < k && TagsVm(run[j], ins[j], v) && !DeletedAfter(run, ins, j, k, v)
  }

  lemma MarkedStep(run: seq<Saga>, ins: seq<Input>, a: nat, k: nat, v: nat)
    requires a < k < |ins| <= |run| && ins[a].Compensates?
    ensures Marked(run, ins, a, k + 1, v)
            <==> TagsVm(run[k], ins[k], v) || (Marked(run, ins, a, k, v) && !Deletes(run[k], ins[k], v))
  {
    hide TagsVm, Deletes, Misses;
    NotBoth(run[k], ins[k], v);
    forall j: nat | j < k
      ensures DeletedAfter(run, ins, j, k + 1, v) <==> DeletedAfter(run, ins, j, k, v) || Deletes(run[k], ins[k], v)
    {
      NextDeleted(run, ins, j, k, v);
    }
    assert !DeletedAfter(run, ins, k, k + 1, v);
    if TagsVm(run[k], ins[k], v) {
      assert Marked(run, ins, a, k + 1, v);
    } else if Marked(run, ins, a, k, v) && !Deletes(run[k], ins[k], v)
        && !(Misses(run[a], ins[a], v) && !DeletedAfter(run, ins, a, k, v)) {
      var j :| a < j < k && TagsVm(run[j], ins[j], v) && !DeletedAfter(run, ins, j, k, v);
      assert !DeletedAfter(run, ins, j, k + 1, v);
    }
  }

  lemma NotBoth(s: Saga, i: Input, v: nat)
    ensures !(TagsVm(s, i, v) && Deletes(s, i, v))
  {
  }

  lemma NextDeleted(run: seq<Saga>, ins: seq<Input>, j: nat, k: nat, v: nat)
    requires j < k < |ins| <= |run|
    ensures DeletedAfter(run, ins, j, k + 1, v) <==> DeletedAfter(run, ins, j, k, v) || Deletes(run[k], ins[k], v)
  {
    hide Deletes;
    if DeletedAfter(run, ins, j, k, v) {
      var m :| j < m < k && Deletes(run[m], ins[m], v);
      assert j < m < k + 1;
    }
  }

  /** After the rollback that takes effect, the tag is exactly where the later events leave it. */
  lemma {:induction false} TaggedIsMarked(
      server: string, workflow: string, run: seq<Saga>, ins: seq<Input>, a: nat, k: nat, v: nat)
    requires IsRun(server, workflow, run, ins) && a < k < |run| && Undoes(run[a], ins[a])
    ensures Past(run[k]) && (v in run[k].tagged <==> Marked(run, ins, a, k, v))
    decreases k
  {
    hide IsRun, Enabled, Step, Past, TagsVm, Misses, Deletes;
    RunLength(server, workflow, run, ins);
    RunStep(server, workflow, run, ins, k - 1);
    if k == a + 1 {
      UndoingIsPast(server, workflow, run[a], ins[a], v);
    } else {
      hide Marked;
      TaggedIsMarked(server, workflow, run, ins, a, k - 1, v);
      MarkedStep(run, ins, a, k - 1, v);
      PastTags(server, workflow, run[k - 1], ins[k - 1], v);
      PastStays(server, workflow, run[k - 1], ins[k - 1]);
    }
  }

  /** A placed server is without a host only after a rollback that took effect. */
  lemma {:induction false} HostWasCleared(server: string, workflow: string, run: seq<Saga>, ins: seq<Input>, k: nat)
    requires IsRun(server, workflow, run, ins) && k < |run| && run[k].placed && run[k].row.host == None
    ensures exists a: nat :: a < k && Undoes(run[a], ins[a])
    decreases k
  {
    hide IsRun, Enabled, Step, Undoes;
    RunLength(server, workflow, run, ins);
    if k == 0 {
      FirstIsUnplaced(server, workflow, run, ins);
    } else {
      RunStep(server, workflow, run, ins, k - 1);
      RunInv(server, workflow, run, ins, k - 1);
      ClearingStep(server, workflow, run[k - 1], ins[k - 1]);
      if !Undoes(run[k - 1], ins[k - 1]) { HostWasCleared(server, workflow, run, ins, k - 1); }
    }
  }

  lemma FirstIsUnplaced(server: string, workflow: string, run: seq<Saga>, ins: seq<Input>)
    requires IsRun(server, workflow, run, ins)
    ensures !run[0].placed
  {
    hide Enabled, Step;
  }

  lemma ClearingStep(server: string, workflow: string, s: Saga, i: Input)
    requires Enabled(s, i) && Step(server, workflow, s, i).placed && Step(server, workflow, s, i).row.host == None
    ensures Undoes(s, i) || (s.placed && s.row.host == None)
  {
    hide JobId, JobHandlers.Step;
  }

  /** How a handled failure ends, exactly: there was a rollback that took effect, and no VM carries the
      tag if and only if every VM that it missed, and every VM that a create gave the tag after it, was
      deleted by its create later. Other attempts of the rollback make no difference. */
  lemma FailedRunLeavesNoVmIff(server: string, workflow: string, run: seq<Saga>, ins: seq<Input>, k: nat)
    requires IsRun(server, workflow, run, ins) && k < |run| && run[k].wf == FailedCleanly && run[k].placed
    ensures |run| == |ins| + 1 && exists a: nat :: a < k && Undoes(run[a], ins[a])
    ensures forall a: nat | a < k && Undoes(run[a], ins[a]) :: run[k].tagged == {} <==> AllUndone(run, ins, a, k)
  {
    hide IsRun, Misses, TagsVm, Deletes, SInv, Undone;
    RunLength(server, workflow, run, ins);
    FailureHoldsNothingButALostPlacement(server, workflow, run, ins, k);
    HostWasCleared(server, workflow, run, ins, k);
    forall a: nat | a < k && Undoes(run[a], ins[a]) ensures run[k].tagged == {} <==> AllUndone(run, ins, a, k) {
      forall v ensures v in run[k].tagged <==> !Undone(run, ins, a, k, v) {
        TaggedIsMarked(server, workflow, run, ins, a, k, v);
        UndoneIsUnmarked(run, ins, a, k, v);
      }
    }
  }

  lemma UndoneIsUnmarked(run: seq<Saga>, ins: seq<Input>, a: nat, k: nat, v: nat)
    requires a < k <= |ins| <= |run| && ins[a].Compensates?
    ensures Undone(run, ins, a, k, v) <==> !Marked(run, ins, a, k, v)
  {
    hide Misses, TagsVm, Deletes, DeletedAfter;
  }

  /** What the environment has to give one rollback: no create is under way, the search by tag answers,
      and the deletions succeed. */
  ghost predicate Clean(s: Saga, i: Input) {
    i.Compensates? && Quiet(s) && i.found && Refs(s, true) <= i.deleted
  }

  ghost predicate Gone(s: Saga) {
    s.tagged == {} && Quiet(s) && Past(s)
  }

  lemma CleanIsGone(server: string, workflow: string, s: Saga, i: Input)
    requires Enabled(s, i) && Undoes(s, i) && Clean(s, i)
    ensures Gone(Step(server, workflow, s, i))
  {
    hide JobId, JobHandlers.Step;
  }

  lemma GoneStays(server: string, workflow: string, s: Saga, i: Input)
    requires SInv(JobId(server, workflow), s) && Gone(s) && Enabled(s, i)
    ensures Gone(Step(server, workflow, s, i))
  {
    hide JobHandlers.Inv, WfInv, JobId, Within, Past;
    PastStays(server, workflow, s, i);
    match i
    case AgentActs(j) => ActKeepsOwners(JobId(server, workflow), s, j);
    case CloneEnds(e, _, _) => QuietIsOver(JobId(server, workflow), s, e);
    case ConfigureEnds(e, _, _) => QuietIsOver(JobId(server, workflow), s, e);
    case ResizeEnds(e, _) => QuietIsOver(JobId(server, workflow), s, e);
    case StartEnds(e, _) => QuietIsOver(JobId(server, workflow), s, e);
    case DeleteEnds(e, _) => QuietIsOver(JobId(server, workflow), s, e);
    case _ => PastIsNotCreating(s);
  }

  lemma QuietIsOver(job: Id, s: Saga, e: nat)
    requires AgentInv(job, s) && Quiet(s) && e < |s.execs|
    ensures !InProgress(s.execs[e])
  {
    hide JobHandlers.Inv, Over, Tied;
    if InProgress(s.execs[e]) {
      InProgressIsLast(job, s, e);
      OwnersTied(job, s);
    }
  }

  lemma PastIsNotCreating(s: Saga)
    ensures Past(s) ==> s.wf != Awaits(CreateVm)
  {
  }

  /** A clean rollback is enough, whatever the other attempts were like: from then on no VM carries the
      tag. */
  lemma {:induction false} ACleanRollbackIsEnough(
      server: string, workflow: string, run: seq<Saga>, ins: seq<Input>, a: nat, k: nat)
    requires IsRun(server, workflow, run, ins) && a < k < |run| && Undoes(run[a], ins[a]) && Clean(run[a], ins[a])
    ensures Gone(run[k])
    decreases k
  {
    hide IsRun, Enabled, Step, Undoes, Clean, Gone, SInv, JobId;
    RunLength(server, workflow, run, ins);
    RunStep(server, workflow, run, ins, k - 1);
    if k == a + 1 {
      CleanIsGone(server, workflow, run[a], ins[a]);
    } else {
      ACleanRollbackIsEnough(server, workflow, run, ins, a, k - 1);
      RunInv(server, workflow, run, ins, k - 1);
      GoneStays(server, workflow, run[k - 1], ins[k - 1]);
    }
  }

  /** One rollback leaves no VM with the tag exactly when every such VM was deleted, which takes a search
      by tag that answers for every VM but the one in the row. */
  lemma RollbackClearsIff(job: Id, s: Saga, found: bool, deleted: set<nat>, applied: bool, o: Outcome)
    requires SInv(job, s) && Enabled(s, Compensates(found, deleted, applied, o)) && s.row.host != None
    ensures Step("", "", s, Compensates(found, deleted, applied, o)).tagged == {}
            <==> s.tagged <= deleted
                 && (s.tagged == {} || found || (s.row.ref != None && s.strays <= {s.row.ref.value}))
  {
    hide AgentInv, Quiet, JobHandlers.Step;
    var refs := Refs(s, found);
    var left := s.tagged - refs * deleted;
    forall v | v in s.tagged ensures v in left <==> !(v in deleted && (found || s.row.ref == Some(v))) {}
    if left == {} {
      assert forall v | v in s.tagged :: v !in left;
    }
  }
}
