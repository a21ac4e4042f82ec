/** What a run of `createServer` did, in order: which activities were carried out before it ended as it
    did, and which calls made a VM. The order is given here as lists of activities and calls. */
module CreateHistory {
  import opened Options
  import opened JobTableModel
  import JobHandlers
  import opened CreateModel
  import opened CreateRuns

  // ---- activities ----

  /** The try part; any host will do for the placement. */
  const TryPart: seq<Activity> :=
    [SetProvisioning, PlaceServer(""), ReserveIp, CreateVm, WaitForBoot, ApplyFirewall, StartMeter, SetActive,
     CompleteAction, EmitActive]

  /** The handler; without a placement there is nothing to roll back. */
  function HandlerPart(placed: bool): seq<Activity> {
    if placed then [CompensateCreate, SetFailed, FailAction, EmitFailed] else [SetFailed, FailAction, EmitFailed]
  }

  predicate SameKind(a: Activity, b: Activity) {
    a == b || (a.PlaceServer? && b.PlaceServer?)
  }

  /** The workflow waits for activity `a`, and an attempt of it takes effect and is reported as completed. */
  ghost predicate CarriesOut(s: Saga, i: Input, a: Activity) {
    && s.wf.Awaits? && SameKind(s.wf.a, a)
    && match i
       case ActivityAttempt(_, applied, o) => applied && o == Completes
       case AttemptStarts(_, o) => a == CreateVm && s.row.ref != None && o == Completes
       case ReplyArrives(h, stored, o) =>
         a == CreateVm && stored && o == Completes && h < |s.agent.handlers| && s.agent.handlers[h].pc.Replied?
         && s.agent.handlers[h].pc.res.ok
       case Compensates(_, _, applied, o) => a == CompensateCreate && applied && o == Completes
       case _ => false
  }

  /** Activity `acts[j]` is carried out at step `at[j]`, one after the other, all before `k`. */
  ghost predicate InOrder(run: seq<Saga>, ins: seq<Input>, k: nat, at: seq<nat>, acts: seq<Activity>)
    requires k <= |ins| <= |run|
  {
    && |at| == |acts|
    && (forall i, j | 0 <= i < j < |at| :: at[i] < at[j])
    && (forall j | 0 <= j < |at| :: at[j] < k && CarriesOut(run[at[j]], ins[at[j]], acts[j]))
  }

  ghost predicate CarriedOut(run: seq<Saga>, ins: seq<Input>, k: nat, acts: seq<Activity>)
    requires k <= |ins| <= |run|
  {
    exists at :: InOrder(run, ins, k, at, acts)
  }

  /** What has to be behind a workflow that got to where `s` is. */
  function Behind(s: Saga): seq<Activity> {
    match s.wf
    case Succeeded => TryPart
    case FailedCleanly => HandlerPart(s.placed)
    case Aborted => []
    case Awaits(a) =>
      match a
      case SetProvisioning => []
      case PlaceServer(_) => TryPart[..1]
      case ReserveIp => TryPart[..2]
      case CreateVm => TryPart[..3]
      case WaitForBoot => TryPart[..4]
      case ApplyFirewall => TryPart[..5]
      case StartMeter => TryPart[..6]
      case SetActive => TryPart[..7]
      case CompleteAction => TryPart[..8]
      case EmitActive => TryPart[..9]
      case CompensateCreate => []
      case SetFailed => if s.placed then HandlerPart(true)[..1] else []
      case FailAction => if s.placed then HandlerPart(true)[..2] else HandlerPart(false)[..1]
      case EmitFailed => if s.placed then HandlerPart(true)[..3] else HandlerPart(false)[..2]
  }

  /** The end of an attempt: a completion adds the activity; otherwise the workflow stays, or begins the
      handler, or leaves it. */
  lemma EndMoves(s: Saga, u: Saga, o: Outcome)
    requires s.wf.Awaits? && u.wf == s.wf && u.placed == s.placed && (s.wf.a == CompensateCreate ==> s.placed)
    ensures var t := Ends(u, o);
            if o == Completes then exists a :: Behind(t) == Behind(s) + [a] && SameKind(s.wf.a, a)
            else (t.wf == s.wf && t.placed == s.placed) || Behind(t) == []
  {
    if o == Completes {
      var next := if s.wf.a.PlaceServer? then PlaceServer("") else s.wf.a;
      assert Behind(Ends(u, o)) == Behind(s) + [next];
    }
  }

  lemma RollbackIsPlaced(s: Saga)
    requires WfInv(s) && s.wf == Awaits(CompensateCreate)
    ensures s.placed
  {
  }

  lemma CompletionIsCarriedOut(s: Saga, i: Input, a: Activity)
    requires Enabled(s, i) && s.wf.Awaits? && SameKind(s.wf.a, a)
    ensures (i.ActivityAttempt? || i.ReplyArrives? || i.Compensates?) && i.o == Completes ==> CarriesOut(s, i, a)
    ensures i.AttemptStarts? && i.o == Completes && s.row.ref != None ==> CarriesOut(s, i, a)
  {
  }

  /** Where an attempt ends, if it does. */
  lemma StepEnds(server: string, workflow: string, s: Saga, i: Input) returns (u: Saga, o: Outcome, ended: bool)
    requires Enabled(s, i) && OfWorkflow(i)
    ensures var t := Step(server, workflow, s, i);
            if ended then s.wf.Awaits? && u.wf == s.wf && u.placed == s.placed && t == Ends(u, o)
            else t.wf == s.wf && t.placed == s.placed
    ensures ended && o == Completes ==>
              && (i.ActivityAttempt? || i.ReplyArrives? || i.Compensates? || (i.AttemptStarts? && s.row.ref != None))
              && i.o == o
  {
    hide JobId, Effect, Ends;
    ended, u, o := true, s, if i.RequestLost? then Retries else i.o;
    match i
    case ActivityAttempt(host, applied, _) =>
      var a := if s.wf.a.PlaceServer? then PlaceServer(host) else s.wf.a;
      if applied { u := s.(row := Effect(a, s.row), tookPlace := s.tookPlace || a.PlaceServer?); }
    case AttemptStarts(sent, _) =>
      if s.row.ref == None {
        u := s.(row := s.row.(privateIp := true));
        ended := !sent;
      }
    case ReplyArrives(h, stored, _) =>
      var res := s.agent.handlers[h].pc.res;
      u := s.(attempt := NoAttempt, row := if stored && res.ok then s.row.(ref := Some(res.payload)) else s.row);
    case ReplyTimesOut(_) => u := s.(attempt := NoAttempt);
    case Compensates(found, deleted, applied, _) =>
      var refs := if s.row.host == None then {} else Refs(s, found);
      u := s.(tagged := s.tagged - refs * deleted, strays := s.strays - refs * deleted,
              row := if applied then Effect(CompensateCreate, s.row) else s.row);
    case RequestLost(_) => ended := false;
  }

  /** A step leaves what is behind the workflow, empties it, or carries one activity out and adds it. */
  ghost predicate Moves(s: Saga, i: Input, t: Saga) {
    || Behind(t) == Behind(s) || Behind(t) == []
    || exists a :: Behind(t) == Behind(s) + [a] && CarriesOut(s, i, a)
  }

  lemma SameBehind(s: Saga, t: Saga)
    ensures t.wf == s.wf && t.placed == s.placed ==> Behind(t) == Behind(s)
  {
  }

  lemma WorkflowMoves(server: string, workflow: string, s: Saga, i: Input)
    requires WfInv(s) && Enabled(s, i) && OfWorkflow(i)
    ensures Moves(s, i, Step(server, workflow, s, i))
  {
    hide Step, Enabled, WfInv, Behind, Ends, CarriesOut;
    var t := Step(server, workflow, s, i);
    var u, o, ended := StepEnds(server, workflow, s, i);
    SameBehind(s, t);
    if ended {
      if s.wf == Awaits(CompensateCreate) { RollbackIsPlaced(s); }
      EndMoves(s, u, o);
      if o == Completes {
        var a :| Behind(t) == Behind(s) + [a] && SameKind(s.wf.a, a);
        CompletionIsCarriedOut(s, i, a);
      }
    }
  }

  lemma OthersKeepWorkflow(server: string, workflow: string, s: Saga, i: Input)
    requires Enabled(s, i) && !OfWorkflow(i)
    ensures var t := Step(server, workflow, s, i); t.wf == s.wf && t.placed == s.placed
  {
    hide JobId, JobHandlers.Step;
  }

  lemma StepMoves(server: string, workflow: string, s: Saga, i: Input)
    requires WfInv(s) && Enabled(s, i)
    ensures Moves(s, i, Step(server, workflow, s, i))
  {
    hide Step, Enabled, WfInv, Behind, CarriesOut;
    if OfWorkflow(i) {
      WorkflowMoves(server, workflow, s, i);
    } else {
      OthersKeepWorkflow(server, workflow, s, i);
      SameBehind(s, Step(server, workflow, s, i));
    }
  }

  lemma LongerRun(run: seq<Saga>, ins: seq<Input>, k: nat, acts: seq<Activity>)
    requires k < |ins| <= |run| && CarriedOut(run, ins, k, acts)
    ensures CarriedOut(run, ins, k + 1, acts)
  {
    var at :| InOrder(run, ins, k, at, acts);
    assert InOrder(run, ins, k + 1, at, acts);
  }

  lemma OneMore(run: seq<Saga>, ins: seq<Input>, k: nat, acts: seq<Activity>, a: Activity)
    requires k < |ins| <= |run| && CarriedOut(run, ins, k, acts) && CarriesOut(run[k], ins[k], a)
    ensures CarriedOut(run, ins, k + 1, acts + [a])
  {
    hide CarriesOut;
    var at :| InOrder(run, ins, k, at, acts);
    assert InOrder(run, ins, k + 1, at + [k], acts + [a]);
  }

  lemma NothingCarriedOut(run: seq<Saga>, ins: seq<Input>, k: nat)
    requires k <= |ins| <= |run|
    ensures CarriedOut(run, ins, k, [])
  {
    assert InOrder(run, ins, k, [], []);
  }

  lemma {:induction false} BehindIsCarriedOut(
      server: string, workflow: string, run: seq<Saga>, ins: seq<Input>, k: nat)
    requires IsRun(server, workflow, run, ins) && k < |run|
    ensures |run| == |ins| + 1 && CarriedOut(run, ins, k, Behind(run[k]))
    decreases k
  {
    hide IsRun, Enabled, Step, AgentInv, Within, WfInv, JobId, Behind, CarriedOut, CarriesOut;
    RunLength(server, workflow, run, ins);
    NothingCarriedOut(run, ins, k);
    if k == 0 {
      NothingIsBehind(server, workflow, run, ins);
    } else {
      var s, i := run[k - 1], ins[k - 1];
      BehindIsCarriedOut(server, workflow, run, ins, k - 1);
      RunStep(server, workflow, run, ins, k - 1);
      RunInv(server, workflow, run, ins, k - 1);
      StepMoves(server, workflow, s, i);
      LongerRun(run, ins, k - 1, Behind(s));
      if a :| Behind(run[k]) == Behind(s) + [a] && CarriesOut(s, i, a) {
        OneMore(run, ins, k - 1, Behind(s), a);
      }
    }
  }

  lemma NothingIsBehind(server: string, workflow: string, run: seq<Saga>, ins: seq<Input>)
    requires IsRun(server, workflow, run, ins)
    ensures Behind(run[0]) == []
  {
    hide Enabled, Step;
  }

  /** A run that succeeds has carried out every activity of the try part, one after the other: the firewall
      was applied after the boot and before the meter started. */
  lemma SuccessCarriesOutEverything(server: string, workflow: string, run: seq<Saga>, ins: seq<Input>, k: nat)
    requires IsRun(server, workflow, run, ins) && k < |run| && run[k].wf == Succeeded
    ensures |run| == |ins| + 1
    ensures CarriedOut(run, ins, k,
              [SetProvisioning, PlaceServer(""), ReserveIp, CreateVm, WaitForBoot, ApplyFirewall, StartMeter,
               SetActive, CompleteAction, EmitActive])
  {
    hide IsRun, CarriedOut;
    BehindIsCarriedOut(server, workflow, run, ins, k);
  }

  /** A run that fails has marked the server and its action as failed and said so, in this order, after the
      rollback if a placement was reported. */
  lemma FailureCarriesOutHandler(server: string, workflow: string, run: seq<Saga>, ins: seq<Input>, k: nat)
    requires IsRun(server, workflow, run, ins) && k < |run| && run[k].wf == FailedCleanly
    ensures |run| == |ins| + 1
    ensures CarriedOut(run, ins, k, (if run[k].placed then [CompensateCreate] else [])
                                    + [SetFailed, FailAction, EmitFailed])
  {
    hide IsRun, CarriedOut;
    BehindIsCarriedOut(server, workflow, run, ins, k);
    assert Behind(run[k]) == (if run[k].placed then [CompensateCreate] else []) + [SetFailed, FailAction, EmitFailed];
  }

  // ---- the meter ----

  /** The VM was waited for, and then its firewall was applied. */
  ghost predicate BootedAndGuarded(run: seq<Saga>, ins: seq<Input>, k: nat)
    requires k <= |ins| <= |run|
  {
    exists b, m ::
      && 0 <= b < m < k
      && CarriesOut(run[b], ins[b], WaitForBoot) && CarriesOut(run[m], ins[m], ApplyFirewall)
  }

  lemma EndsKeepRow(s: Saga, o: Outcome)
    requires s.wf.Awaits?
    ensures Ends(s, o).row == s.row
  {
  }

  lemma OthersKeepRow(server: string, workflow: string, s: Saga, i: Input)
    requires Enabled(s, i) && !OfWorkflow(i)
    ensures Step(server, workflow, s, i).row == s.row
  {
    hide JobId, JobHandlers.Step;
  }

  lemma AttemptsDoNotMeter(server: string, workflow: string, s: Saga, i: Input)
    requires Enabled(s, i) && OfWorkflow(i) && !i.ActivityAttempt?
    ensures Step(server, workflow, s, i).row.metered ==> s.row.metered
  {
    hide JobId, Ends;
    forall u: Saga, o | u.wf.Awaits? ensures Ends(u, o).row == u.row { EndsKeepRow(u, o); }
  }

  lemma MeterStarts(server: string, workflow: string, s: Saga, i: Input)
    requires Enabled(s, i) && !s.row.metered && Step(server, workflow, s, i).row.metered
    ensures s.wf == Awaits(StartMeter)
  {
    hide Step, Enabled;
    if !OfWorkflow(i) {
      OthersKeepRow(server, workflow, s, i);
    } else if i.ActivityAttempt? {
      ActivityMeters(server, workflow, s, i);
    } else {
      AttemptsDoNotMeter(server, workflow, s, i);
    }
  }

  lemma ActivityMeters(server: string, workflow: string, s: Saga, i: Input)
    requires Enabled(s, i) && i.ActivityAttempt? && !s.row.metered
    ensures Step(server, workflow, s, i).row.metered ==> s.wf == Awaits(StartMeter)
  {
    hide Ends;
    var a := if s.wf.a.PlaceServer? then PlaceServer(i.host) else s.wf.a;
    var u := if i.applied then s.(row := Effect(a, s.row), tookPlace := s.tookPlace || a.PlaceServer?) else s;
    EndsKeepRow(u, i.o);
  }

  lemma MeterIsBehindBoot(run: seq<Saga>, ins: seq<Input>, k: nat)
    requires k <= |ins| < |run| && run[k].wf == Awaits(StartMeter) && CarriedOut(run, ins, k, Behind(run[k]))
    ensures BootedAndGuarded(run, ins, k)
  {
    hide CarriesOut;
    var at :| InOrder(run, ins, k, at, Behind(run[k]));
    assert Behind(run[k])[4] == WaitForBoot && Behind(run[k])[5] == ApplyFirewall;
    assert CarriesOut(run[at[4]], ins[at[4]], WaitForBoot) && CarriesOut(run[at[5]], ins[at[5]], ApplyFirewall);
  }

  /** A broken server is never billed: none is metered before its VM was up and its firewall applied. */
  lemma {:induction false} NoMeterBeforeBoot(
      server: string, workflow: string, run: seq<Saga>, ins: seq<Input>, k: nat)
    requires IsRun(server, workflow, run, ins) && k < |run| && run[k].row.metered
    ensures |run| == |ins| + 1 && BootedAndGuarded(run, ins, k)
    decreases k
  {
    hide IsRun, Enabled, Step, Behind, CarriedOut, CarriesOut;
    RunLength(server, workflow, run, ins);
    if k == 0 {
      FirstIsUnmetered(server, workflow, run, ins);
    } else {
      RunStep(server, workflow, run, ins, k - 1);
      if run[k - 1].row.metered {
        NoMeterBeforeBoot(server, workflow, run, ins, k - 1);
      } else {
        MeterStarts(server, workflow, run[k - 1], ins[k - 1]);
        BehindIsCarriedOut(server, workflow, run, ins, k - 1);
        MeterIsBehindBoot(run, ins, k - 1);
      }
      var b, m :| && 0 <= b < m < k - 1
                  && CarriesOut(run[b], ins[b], WaitForBoot) && CarriesOut(run[m], ins[m], ApplyFirewall);
      assert 0 <= b < m < k;
    }
  }

  lemma FirstIsUnmetered(server: string, workflow: string, run: seq<Saga>, ins: seq<Input>)
    requires IsRun(server, workflow, run, ins)
    ensures !run[0].row.metered
  {
    hide Enabled, Step;
  }

  // ---- the host ----

  lemma HostStep(server: string, workflow: string, s: Saga, i: Input)
    requires Enabled(s, i) && s.row.host != None && !(i.Compensates? && i.applied)
    ensures Step(server, workflow, s, i).row.host == s.row.host
  {
    hide JobId, Ends, JobHandlers.Step;
    forall u: Saga, o | u.wf.Awaits? ensures Ends(u, o).row == u.row { EndsKeepRow(u, o); }
  }

  /** A placed server stays on its host until a rollback takes effect: repeating the placement does not move
      it, whichever host the attempt would take. */
  lemma {:induction false} HostStays(
      server: string, workflow: string, run: seq<Saga>, ins: seq<Input>, j: nat, k: nat)
    requires IsRun(server, workflow, run, ins) && j <= k < |run| && run[j].row.host != None
    requires |run| == |ins| + 1 && forall m | j <= m < k :: !(ins[m].Compensates? && ins[m].applied)
    ensures run[k].row.host == run[j].row.host
    decreases k
  {
    hide IsRun, Enabled, Step;
    if j < k {
      HostStays(server, workflow, run, ins, j, k - 1);
      RunStep(server, workflow, run, ins, k - 1);
      HostStep(server, workflow, run[k - 1], ins[k - 1]);
    }
  }

  // ---- the calls that make a VM ----

  /** The input is the outcome of a call of execution `e`. */
  predicate CallOf(i: Input, e: nat) {
    match i
    case CloneEnds(x, _, _) => x == e
    case ConfigureEnds(x, _, _) => x == e
    case ResizeEnds(x, _) => x == e
    case StartEnds(x, _) => x == e
    case DeleteEnds(x, _) => x == e
    case _ => false
  }

  /** The outcomes of the calls of execution `e` so far. */
  function Calls(ins: seq<Input>, k: nat, e: nat): seq<Input>
    requires k <= |ins|
  {
    if k == 0 then [] else Calls(ins, k - 1, e) + if CallOf(ins[k - 1], e) then [ins[k - 1]] else []
  }

  function Cloned(e: nat, vm: nat): seq<Input> {
    [CloneEnds(e, true, vm)]
  }

  function Configured(e: nat, vm: nat): seq<Input> {
    Cloned(e, vm) + [ConfigureEnds(e, true, true)]
  }

  function Resized(e: nat, vm: nat): seq<Input> {
    Configured(e, vm) + [ResizeEnds(e, true)]
  }

  /** VM `vm` was cloned, and a later call failed. */
  predicate BrokeOff(calls: seq<Input>, e: nat, vm: nat) {
    || (exists tagSet :: calls == Cloned(e, vm) + [ConfigureEnds(e, false, tagSet)])
    || calls == Configured(e, vm) + [ResizeEnds(e, false)]
    || calls == Resized(e, vm) + [StartEnds(e, false)]
  }

  ghost predicate BrokeOffSomewhere(calls: seq<Input>, e: nat) {
    exists vm :: BrokeOff(calls, e, vm)
  }

  predicate DeletionOf(i: Input, e: nat) {
    i.DeleteEnds? && i.e == e
  }

  /** The calls that lead to where the execution is. */
  ghost predicate LeadsTo(calls: seq<Input>, e: nat, c: Create) {
    match c
    case AtClone => calls == []
    case AtConfigure(vm) => calls == Cloned(e, vm)
    case AtResize(vm) => calls == Configured(e, vm)
    case AtStart(vm) => calls == Resized(e, vm)
    case Made(vm) => calls == Resized(e, vm) + [StartEnds(e, true)]
    case AtDelete(vm) => BrokeOff(calls, e, vm)
    case NotMade =>
      || (exists vm :: calls == [CloneEnds(e, false, vm)])
      || (|calls| > 0 && DeletionOf(calls[|calls| - 1], e) && BrokeOffSomewhere(calls[..|calls| - 1], e))
  }

  ghost predicate CallsLead(s: Saga, ins: seq<Input>, k: nat, e: nat)
    requires k <= |ins|
  {
    if e < |s.execs| then LeadsTo(Calls(ins, k, e), e, s.execs[e]) else Calls(ins, k, e) == []
  }

  lemma CallLeads(server: string, workflow: string, s: Saga, i: Input, e: nat, calls: seq<Input>)
    requires Enabled(s, i) && CallOf(i, e) && e < |s.execs| && LeadsTo(calls, e, s.execs[e])
    ensures e < |Step(server, workflow, s, i).execs|
    ensures LeadsTo(calls + [i], e, Step(server, workflow, s, i).execs[e])
  {
    hide BrokeOff, JobId;
    var t := Step(server, workflow, s, i);
    match i
    case CloneEnds(_, ok, vm) => assert calls + [i] == [i];
    case ConfigureEnds(_, ok, _) => Breaks(calls, e, s.execs[e].vm, i);
    case ResizeEnds(_, _) => Breaks(calls, e, s.execs[e].vm, i);
    case StartEnds(_, _) => Breaks(calls, e, s.execs[e].vm, i);
    case DeleteEnds(_, _) =>
      assert (calls + [i])[..|calls|] == calls;
      assert BrokeOffSomewhere(calls, e);
  }

  lemma Breaks(calls: seq<Input>, e: nat, vm: nat, i: Input)
    ensures calls == Cloned(e, vm) && i.ConfigureEnds? && i.e == e && !i.ok ==> BrokeOff(calls + [i], e, vm)
    ensures calls == Configured(e, vm) && i == ResizeEnds(e, false) ==> BrokeOff(calls + [i], e, vm)
    ensures calls == Resized(e, vm) && i == StartEnds(e, false) ==> BrokeOff(calls + [i], e, vm)
  {
  }

  lemma OtherCallsKeep(server: string, workflow: string, s: Saga, i: Input, e: nat)
    requires Enabled(s, i) && !CallOf(i, e)
    ensures var t := Step(server, workflow, s, i);
            if e < |s.execs| then e < |t.execs| && t.execs[e] == s.execs[e]
            else e < |t.execs| ==> t.execs[e] == AtClone
  {
    hide JobId, Ends, JobHandlers.Step;
    forall u: Saga, o | u.wf.Awaits? ensures Ends(u, o).execs == u.execs { EndsKeepExecs(u, o); }
  }

  lemma EndsKeepExecs(s: Saga, o: Outcome)
    requires s.wf.Awaits?
    ensures Ends(s, o).execs == s.execs
  {
  }

  lemma CallNeedsExec(s: Saga, i: Input, e: nat)
    requires Enabled(s, i) && CallOf(i, e)
    ensures e < |s.execs|
  {
  }

  lemma {:induction false} CallsLeadThere(
      server: string, workflow: string, run: seq<Saga>, ins: seq<Input>, k: nat, e: nat)
    requires IsRun(server, workflow, run, ins) && k < |run|
    ensures |run| == |ins| + 1 && CallsLead(run[k], ins, k, e)
    decreases k
  {
    hide IsRun, Enabled, Step, LeadsTo, CallOf;
    RunLength(server, workflow, run, ins);
    if k == 0 {
      NothingCreated(server, workflow, run, ins);
    } else {
      var s, i, before := run[k - 1], ins[k - 1], Calls(ins, k - 1, e);
      CallsLeadThere(server, workflow, run, ins, k - 1, e);
      RunStep(server, workflow, run, ins, k - 1);
      if CallOf(i, e) {
        CallNeedsExec(s, i, e);
        CallLeads(server, workflow, s, i, e, before);
      } else {
        assert before + [] == before;
        OtherCallsKeep(server, workflow, s, i, e);
        FreshLeads(e);
      }
    }
  }

  lemma FreshLeads(e: nat)
    ensures LeadsTo([], e, AtClone)
  {
  }

  lemma NothingCreated(server: string, workflow: string, run: seq<Saga>, ins: seq<Input>)
    requires IsRun(server, workflow, run, ins)
    ensures run[0].execs == []
  {
    hide Enabled, Step;
  }

  /** A VM that a create reports as made was cloned, configured with the tag, resized and started, each call
      once and in this order. A create that reports none failed to clone, or tried to delete what it had
      cloned after a later call failed. */
  lemma MadeWasBuilt(server: string, workflow: string, run: seq<Saga>, ins: seq<Input>, k: nat, e: nat)
    requires IsRun(server, workflow, run, ins) && k < |run| && e < |run[k].execs|
    ensures |run| == |ins| + 1
    ensures forall vm | run[k].execs[e] == Made(vm) ::
              Calls(ins, k, e)
              == [CloneEnds(e, true, vm), ConfigureEnds(e, true, true), ResizeEnds(e, true), StartEnds(e, true)]
    ensures run[k].execs[e] == NotMade ==>
              var calls := Calls(ins, k, e);
              || (exists vm :: calls == [CloneEnds(e, false, vm)])
              || (|calls| > 1 && DeletionOf(calls[|calls| - 1], e) && BrokeOffSomewhere(calls[..|calls| - 1], e))
  {
    hide IsRun;
    CallsLeadThere(server, workflow, run, ins, k, e);
  }

  // ---- the job id ----

  function UpToColon(s: string): string {
    if s == [] || s[0] == ':' then [] else [s[0]] + UpToColon(s[1..])
  }

  lemma {:induction false} ServerIsUpToColon(server: string, rest: string)
    requires ':' !in server
    ensures UpToColon(server + ":" + rest) == server
  {
    if server == "" {
      assert server + ":" + rest == ":" + rest;
    } else {
      ServerIsUpToColon(server[1..], rest);
      assert (server + ":" + rest)[1..] == server[1..] + ":" + rest;
    }
  }

  /** Different servers, and different workflow runs of one server, never share a create job; server ids have
      no colon. */
  lemma JobIdsDiffer(server: string, workflow: string, server': string, workflow': string)
    requires ':' !in server && ':' !in server'
    ensures JobId(server, workflow) == JobId(server', workflow') <==> server == server' && workflow == workflow'
  {
    var a, b := JobId(server, workflow), JobId(server', workflow');
    var n := |"vm.create:"|;
    assert a[n..] == server + (if workflow == "" then "" else ":" + workflow);
    assert b[n..] == server' + (if workflow' == "" then "" else ":" + workflow');
    if a == b {
      Unsuffixed(server, workflow, server', workflow');
    }
  }

  lemma Unsuffixed(server: string, workflow: string, server': string, workflow': string)
    requires ':' !in server && ':' !in server'
    requires server + (if workflow == "" then "" else ":" + workflow)
          == server' + (if workflow' == "" then "" else ":" + workflow')
    ensures server == server' && workflow == workflow'
  {
    if workflow != "" && workflow' != "" {
      assert server + (":" + workflow) == server + ":" + workflow;
      assert server' + (":" + workflow') == server' + ":" + workflow';
      ServerIsUpToColon(server, workflow);
      ServerIsUpToColon(server', workflow');
      assert (server + ":" + workflow)[|server| + 1..] == workflow;
      assert (server' + ":" + workflow')[|server'| + 1..] == workflow';
    } else {
      assert server + "" == server && server' + "" == server';
      ColonInside(server, workflow, server');
      ColonInside(server', workflow', server);
    }
  }

  lemma ColonInside(a: string, x: string, b: string)
    ensures a + (":" + x) == b ==> ':' in b
  {
    assert (a + (":" + x))[|a|] == ':';
  }
}
