/** One run of `createServer` (apps/api/src/workflows/workflows.ts): the workflow, the database row
    its activities change (apps/api/src/workflows/activities.ts), the requests it sends to the host
    agent, the agent's job table, and the VMs that carry the server's tag. Replies get lost, attempts
    are repeated any number of times, and what happens next is always the environment's choice. */
module CreateModel {
  import opened Options
  import opened JobTableModel
  import JobHandlers

  datatype Status = Queued | Provisioning | Active | Failed

  /** What the server holds. */
  datatype Row = Row(status: Status, host: Option<string>, ips: bool, privateIp: bool, ref: Option<nat>, metered: bool)

  datatype Activity =
    | SetProvisioning
    | PlaceServer(host: string)
    | ReserveIp
    | CreateVm
    | WaitForBoot
    | ApplyFirewall
    | StartMeter
    | SetActive
    | CompleteAction
    | EmitActive
    | CompensateCreate
    | SetFailed
    | FailAction
    | EmitFailed

  /** Where the workflow is: awaiting an activity, or over. `Aborted` is an error inside the handler. */
  datatype Wf = Awaits(a: Activity) | Succeeded | FailedCleanly | Aborted

  /** The running attempt of `createVm`: none, or waiting for the reply to its request. */
  datatype Attempt = NoAttempt | AwaitsReply(number: nat)

  /** Where one execution of the agent's `create` is. */
  datatype Create =
    | AtClone
    | AtConfigure(vm: nat)
    | AtResize(vm: nat)
    | AtStart(vm: nat)
    | AtDelete(vm: nat)
    | Made(vm: nat)
    | NotMade

  /** `agent` is the job table with its handlers, `execs[e]` the state of execution `e`, and
      `numbers[h]` the attempt whose request handler `h` serves. `strays` are the tagged VMs whose
      deletion by their own create was refused. `tookPlace` records that an attempt of `placeServer`
      took effect. */
  datatype Saga = Saga(
    wf: Wf,
    placed: bool,
    row: Row,
    attempt: Attempt,
    attempts: nat,
    inFlight: set<nat>,
    agent: JobHandlers.Agent,
    numbers: seq<nat>,
    execs: seq<Create>,
    tagged: set<nat>,
    strays: set<nat>,
    tookPlace: bool)

  const EmptyRow := Row(Queued, None, false, false, None, false)

  function Begin(now: int): Saga {
    Saga(Awaits(SetProvisioning), false, EmptyRow, NoAttempt, 0, {}, JobHandlers.Init(now), [], [], {}, {}, false)
  }

  /** The id of the create job: the same for every attempt of one workflow run. */
  function JobId(serverId: string, workflowId: string): Id {
    "vm.create:" + serverId + (if workflowId == "" then "" else ":" + workflowId)
  }

  // ---- activities ----

  /** What one attempt of an activity does to the row; every one of them may be repeated. */
  function Effect(a: Activity, r: Row): Row {
    match a
    case SetProvisioning => r.(status := Provisioning)
    case PlaceServer(h) => if r.host != None then r else r.(host := Some(h))
    case ReserveIp => r.(ips := true)
    case StartMeter => r.(metered := true)
    case SetActive => r.(status := Active)
    case CompensateCreate => r.(host := None, ips := false, privateIp := false, ref := None, metered := false)
    case SetFailed => r.(status := Failed)
    case _ => r
  }

  /** The activity that follows once `a` has completed. */
  function After(a: Activity): Wf {
    match a
    case SetProvisioning => Awaits(PlaceServer(""))
    case PlaceServer(_) => Awaits(ReserveIp)
    case ReserveIp => Awaits(CreateVm)
    case CreateVm => Awaits(WaitForBoot)
    case WaitForBoot => Awaits(ApplyFirewall)
    case ApplyFirewall => Awaits(StartMeter)
    case StartMeter => Awaits(SetActive)
    case SetActive => Awaits(CompleteAction)
    case CompleteAction => Awaits(EmitActive)
    case EmitActive => Succeeded
    case CompensateCreate => Awaits(SetFailed)
    case SetFailed => Awaits(FailAction)
    case FailAction => Awaits(EmitFailed)
    case EmitFailed => FailedCleanly
  }

  predicate InHandler(a: Activity) {
    a == CompensateCreate || a == SetFailed || a == FailAction || a == EmitFailed
  }

  /** The workflow goes on after a completed activity. */
  function Completed(s: Saga): Saga
    requires s.wf.Awaits?
  {
    s.(wf := After(s.wf.a), placed := s.placed || s.wf.a.PlaceServer?)
  }

  /** An activity failed for good: into the handler, or out of it. */
  function GivenUp(s: Saga): Saga
    requires s.wf.Awaits?
  {
    if InHandler(s.wf.a) then s.(wf := Aborted)
    else s.(wf := if s.placed then Awaits(CompensateCreate) else Awaits(SetFailed), attempt := NoAttempt)
  }

  /** How an attempt ends for the workflow: it completes, is tried again, or was the last one. */
  datatype Outcome = Completes | Retries | GivesUp

  function Ends(s: Saga, o: Outcome): Saga
    requires s.wf.Awaits?
  {
    match o
    case Completes => Completed(s)
    case Retries => s
    case GivesUp => GivenUp(s)
  }

  // ---- what can happen next ----

  datatype Input =
    | ActivityAttempt(host: string, applied: bool, o: Outcome)
    | AttemptStarts(sent: bool, o: Outcome)
    | RequestArrives(n: nat)
    | RequestLost(n: nat)
    | CloneEnds(e: nat, ok: bool, vm: nat)
    | ConfigureEnds(e: nat, ok: bool, tagSet: bool)
    | ResizeEnds(e: nat, ok: bool)
    | StartEnds(e: nat, ok: bool)
    | DeleteEnds(e: nat, ok: bool)
    | AgentActs(i: JobHandlers.Input)
    | ReplyArrives(h: nat, stored: bool, o: Outcome)
    | ReplyTimesOut(o: Outcome)
    | Compensates(found: bool, deleted: set<nat>, applied: bool, o: Outcome)

  /** No create job runs and no request for one is on its way. */
  ghost predicate Quiet(s: Saga) {
    s.inFlight == {} && forall h | 0 <= h < |s.agent.handlers| :: !JobHandlers.Executing(s.agent.handlers[h])
  }

  /** Every successful result is still kept. */
  predicate Timely(t: Table) {
    forall e | 0 <= e < |t.entries| && t.entries[e].res != None && t.entries[e].res.value.ok ::
      !Stale(t.now, t.entries[e])
  }

  predicate At(s: Saga, e: nat) {
    e < |s.execs| && e < |s.agent.owner|
  }

  /** The agent's own steps: the clock, storing a result, answering, waking. The run ends only when
      `create` has ended, with its outcome. */
  predicate AgentMay(s: Saga, i: JobHandlers.Input) {
    && JobHandlers.Enabled(s.agent, i)
    && match i
       case Tick(_) => true
       case Stores(_) => true
       case Replies(_) => true
       case Wakes(_) => true
       case RunEnds(h, ok, payload) =>
         && s.agent.handlers[h].entry < |s.execs|
         && s.execs[s.agent.handlers[h].entry] == (if ok then Made(payload) else NotMade)
       case _ => false
  }

  /** The VMs that `compensateCreate` tries to delete: the one in the row, and the tagged ones if the
      search for them succeeded. */
  function Refs(s: Saga, found: bool): set<nat> {
    (if s.row.ref == None then {} else {s.row.ref.value}) + (if found then s.tagged else {})
  }

  predicate Enabled(s: Saga, i: Input) {
    match i
    case ActivityAttempt(_, applied, o) =>
      s.wf.Awaits? && s.wf.a != CreateVm && s.wf.a != CompensateCreate && (o == Completes ==> applied)
    case AttemptStarts(sent, o) =>
      s.wf == Awaits(CreateVm) && s.attempt == NoAttempt && (o == Completes ==> s.row.ref != None)
    case RequestArrives(n) => n in s.inFlight && Timely(s.agent.table)
    case RequestLost(n) => n in s.inFlight
    case CloneEnds(e, _, _) => At(s, e) && s.execs[e] == AtClone
    case ConfigureEnds(e, ok, tagSet) => At(s, e) && s.execs[e].AtConfigure? && (ok ==> tagSet)
    case ResizeEnds(e, _) => At(s, e) && s.execs[e].AtResize?
    case StartEnds(e, _) => At(s, e) && s.execs[e].AtStart?
    case DeleteEnds(e, _) => At(s, e) && s.execs[e].AtDelete?
    case AgentActs(j) => AgentMay(s, j)
    case ReplyArrives(h, stored, o) =>
      && s.wf == Awaits(CreateVm) && s.attempt.AwaitsReply?
      && h < |s.agent.handlers| && h < |s.numbers| && s.agent.handlers[h].pc.Replied?
          && s.numbers[h] == s.attempt.number
      && (o == Completes ==> stored && s.agent.handlers[h].pc.res.ok)
    case ReplyTimesOut(o) => s.wf == Awaits(CreateVm) && s.attempt.AwaitsReply? && o != Completes
    case Compensates(found, deleted, applied, o) =>
      s.wf == Awaits(CompensateCreate) && (o == Completes ==> applied)
  }

  function SetExec(s: Saga, e: nat, c: Create, tagged: set<nat>, strays: set<nat>): Saga
    requires e < |s.execs|
  {
    s.(execs := s.execs[e := c], tagged := tagged, strays := strays)
  }

  function Step(serverId: string, workflowId: string, s: Saga, i: Input): Saga
    requires Enabled(s, i)
  {
    match i
    case ActivityAttempt(host, applied, o) =>
      var a := if s.wf.a.PlaceServer? then PlaceServer(host) else s.wf.a;
      Ends(if applied then s.(row := Effect(a, s.row), tookPlace := s.tookPlace || a.PlaceServer?) else s, o)
    case AttemptStarts(sent, o) =>
      // a VM that the row already knows is not created again; an attempt may fail before its request
      if s.row.ref != None then Ends(s, o)
      else if !sent then Ends(s.(row := s.row.(privateIp := true)), o)
      else s.(row := s.row.(privateIp := true), attempt := AwaitsReply(s.attempts), attempts := s.attempts + 1,
              inFlight := s.inFlight + {s.attempts})
    case RequestArrives(n) =>
      var b := JobHandlers.Step(s.agent, JobHandlers.Request(JobId(serverId, workflowId)));
      s.(inFlight := s.inFlight - {n}, agent := b, numbers := s.numbers + [n],
         execs := if |b.table.entries| > |s.agent.table.entries| then s.execs + [AtClone] else s.execs)
    case RequestLost(n) => s.(inFlight := s.inFlight - {n})
    case CloneEnds(e, ok, vm) => SetExec(s, e, if ok then AtConfigure(vm) else NotMade, s.tagged, s.strays)
    case ConfigureEnds(e, ok, tagSet) =>
      // a VM id that is used again belongs to the new create
      var vm := s.execs[e].vm;
      SetExec(s, e, if ok then AtResize(vm) else AtDelete(vm),
              if tagSet then s.tagged + {vm} else s.tagged, if tagSet then s.strays - {vm} else s.strays)
    case ResizeEnds(e, ok) =>
      SetExec(s, e, if ok then AtStart(s.execs[e].vm) else AtDelete(s.execs[e].vm), s.tagged, s.strays)
    case StartEnds(e, ok) =>
      SetExec(s, e, if ok then Made(s.execs[e].vm) else AtDelete(s.execs[e].vm), s.tagged, s.strays)
    case DeleteEnds(e, ok) =>
      // `create` ignores the error of its own deletion
      var vm := s.execs[e].vm;
      SetExec(s, e, NotMade, if ok then s.tagged - {vm} else s.tagged,
              if ok then s.strays - {vm} else s.strays + s.tagged * {vm})
    case AgentActs(j) => s.(agent := JobHandlers.Step(s.agent, j))
    case ReplyArrives(h, stored, o) =>
      var res := s.agent.handlers[h].pc.res;
      Ends(s.(attempt := NoAttempt, row := if stored && res.ok then s.row.(ref := Some(res.payload)) else s.row), o)
    case ReplyTimesOut(o) => Ends(s.(attempt := NoAttempt), o)
    case Compensates(found, deleted, applied, o) =>
      // without a host nothing is looked up and nothing deleted
      var refs := if s.row.host == None then {} else Refs(s, found);
      Ends(s.(tagged := s.tagged - refs * deleted, strays := s.strays - refs * deleted,
             row := if applied then Effect(CompensateCreate, s.row) else s.row), o)
  }
}
