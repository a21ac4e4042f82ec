/** `createServer` as it is written (apps/api/src/workflows/workflows.ts): sequenced activities, each
    tried several times, with a handler that rolls back. Everything the methods do, and everything
    the network, the agent and the hypervisor do in between, is a step of `CreateModel`, so the object
    only ever walks along a run. */
module Workflows {
  import opened Options
  import opened JobTableModel
  import JobHandlers
  import opened CreateModel
  import opened CreateRuns
  import opened CreateHistory

  datatype Result = Done | Undone | Stranded

  const ATTEMPTS := 5
  const SLOW_ATTEMPTS := 3

  /** Where the workflow goes when activity `a` has failed for good. */
  function Failing(a: Activity, placed: bool): Wf {
    if InHandler(a) then Aborted else if placed then Awaits(CompensateCreate) else Awaits(SetFailed)
  }

  /** The attempts among the inputs. */
  function Tries(ins: seq<Input>): nat {
    if ins == [] then 0
    else
      var i := ins[|ins| - 1];
      Tries(ins[..|ins| - 1]) + if i.ActivityAttempt? || i.AttemptStarts? || i.Compensates? then 1 else 0
  }

  lemma TriesSnoc(ins: seq<Input>, i: Input)
    ensures Tries(ins + [i]) == Tries(ins) + if i.ActivityAttempt? || i.AttemptStarts? || i.Compensates? then 1 else 0
  {
    assert (ins + [i])[..|ins|] == ins;
  }

  /** An attempt of `createVm` is over. */
  predicate EndsAttempt(s: Saga, t: Saga, o: Outcome)
    requires s.wf.Awaits?
  {
    && t.attempt == NoAttempt && t.placed == s.placed
    && t.wf == match o
               case Completes => After(s.wf.a)
               case Retries => s.wf
               case GivesUp => Failing(s.wf.a, s.placed)
  }

  class ServerWorkflow {
    const server: string
    const workflow: string
    /** The row, the attempt, the agent and the VMs, with the place the workflow has reached. */
    var s: Saga
    /** The run so far. */
    ghost var run: seq<Saga>
    ghost var ins: seq<Input>

    ghost predicate Valid()
      reads this
    {
      |run| == |ins| + 1 && IsRun(server, workflow, run, ins) && s == run[|ins|]
    }

    constructor (server: string, workflow: string, now: int)
      ensures this.server == server && this.workflow == workflow && Valid() && s == Begin(now) && ins == []
    {
      this.server, this.workflow := server, workflow;
      s, run, ins := Begin(now), [Begin(now)], [];
      new;
      FreshRun(server, workflow, now);
    }

    static lemma FreshRun(server: string, workflow: string, now: int)
      ensures IsRun(server, workflow, [Begin(now)], [])
    {
      hide Enabled, Step, JobId;
      assert Begin(now).agent.table.now == now;
    }

    /** One step of anyone. */
    method Take(i: Input)
      requires Valid() && Enabled(s, i)
      modifies this
      ensures Valid() && s == Step(server, workflow, old(s), i) && ins == old(ins) + [i]
      ensures Tries(ins) == Tries(old(ins)) + if i.ActivityAttempt? || i.AttemptStarts? || i.Compensates? then 1 else 0
    {
      TriesSnoc(ins, i);
      hide Enabled, Step, IsRun, Begin;
      LongerRun(server, workflow, run, ins, i);
      s := Step(server, workflow, s, i);
      run := run + [s];
      ins := ins + [i];
    }

    static lemma LongerRun(server: string, workflow: string, run: seq<Saga>, ins: seq<Input>, i: Input)
      requires |run| == |ins| + 1 && IsRun(server, workflow, run, ins) && Enabled(run[|ins|], i)
      ensures IsRun(server, workflow, run + [Step(server, workflow, run[|ins|], i)], ins + [i])
    {
      hide Enabled, Step, Begin, JobId;
    }

    /** The requests, the agent and the hypervisor move on by themselves, any number of times. */
    method WorldMoves()
      requires Valid()
      modifies this
      ensures Valid() && s.wf == old(s).wf && s.placed == old(s).placed && s.attempt == old(s).attempt
      ensures Tries(ins) == Tries(old(ins))
    {
      hide Enabled, Step, IsRun;
      var steps: int := *;
      while steps > 0
        invariant Valid() && s.wf == old(s).wf && s.placed == old(s).placed && s.attempt == old(s).attempt
        invariant Tries(ins) == Tries(old(ins))
      {
        steps := steps - 1;
        var i: Input := *;
        if Enabled(s, i) && (i.RequestLost? || !OfWorkflow(i)) {
          WorldKeeps(server, workflow, s, i);
          Take(i);
        }
      }
    }

    static lemma WorldKeeps(server: string, workflow: string, s: Saga, i: Input)
      requires Enabled(s, i) && (i.RequestLost? || !OfWorkflow(i))
      ensures var t := Step(server, workflow, s, i); t.wf == s.wf && t.placed == s.placed && t.attempt == s.attempt
    {
      hide JobId;
    }

    /** Whether this attempt, the last one or not, completes, is repeated, or ends the activity. */
    method Ending(mayComplete: bool, last: bool) returns (o: Outcome)
      ensures (o == Completes ==> mayComplete) && (last ==> o != Retries)
    {
      var completed: bool, final: bool := *, *;
      o := if mayComplete && completed then Completes else if last || final then GivesUp else Retries;
    }

    /** Tries an activity on the row up to `limit` times; an attempt may be cut short before or after its
        effect, its completion may get lost, and an error that is not retryable ends it at once. */
    method Act(a: Activity, limit: nat) returns (ok: bool)
      requires limit > 0 && Valid() && s.wf == Awaits(a) && a != Activity.CreateVm && a != Activity.CompensateCreate
                && s.attempt == NoAttempt
      modifies this
      ensures Valid() && s.attempt == NoAttempt
      ensures s.wf == if ok then After(a) else Failing(a, old(s).placed)
      ensures s.placed == (old(s).placed || (ok && a.PlaceServer?))
      ensures Tries(old(ins)) < Tries(ins) <= Tries(old(ins)) + limit
    {
      hide IsRun, Enabled, Step;
      var o, n := Retries, 0;
      while o == Retries
        invariant Valid() && s.attempt == NoAttempt && n <= limit && (o == Retries ==> n < limit)
        invariant o != Retries ==> n > 0
        invariant o == Retries ==> s.wf == old(s).wf && s.placed == old(s).placed
        invariant Tries(ins) == Tries(old(ins)) + n
        invariant o == Completes ==> s.wf == After(a) && s.placed == (old(s).placed || a.PlaceServer?)
        invariant o == GivesUp ==> s.placed == old(s).placed && s.wf == Failing(old(s).wf.a, old(s).placed)
        decreases limit - n
      {
        n := n + 1;
        WorldMoves();
        var applied: bool, host: string := *, *;
        o := Ending(applied, n == limit);
        AttemptEnds(server, workflow, s, host, applied, o);
        Take(ActivityAttempt(host, applied, o));
      }
      ok := o == Completes;
    }

    static lemma AttemptEnds(server: string, workflow: string, s: Saga, host: string, applied: bool, o: Outcome)
      requires s.wf.Awaits? && s.wf.a != Activity.CreateVm && s.wf.a != Activity.CompensateCreate
                && s.attempt == NoAttempt && (o == Completes ==> applied)
      ensures Enabled(s, ActivityAttempt(host, applied, o))
      ensures var t := Step(server, workflow, s, ActivityAttempt(host, applied, o));
              && t.attempt == NoAttempt
              && (o == Completes ==> t.wf == After(s.wf.a) && t.placed == (s.placed || s.wf.a.PlaceServer?))
              && (o == Retries ==> t.wf == s.wf && t.placed == s.placed)
              && (o == GivesUp ==> t.wf == Failing(s.wf.a, s.placed) && t.placed == s.placed)
    {
      hide JobId, JobHandlers.Step;
    }

    /** Waits for the reply to the request of this attempt, from whichever handler, or for the timeout. */
    method AwaitReply(last: bool) returns (o: Outcome)
      requires Valid() && s.wf == Awaits(Activity.CreateVm) && s.attempt.AwaitsReply?
      modifies this
      ensures Valid() && s.attempt == NoAttempt && (last ==> o != Retries)
      ensures o == Completes ==> s.wf == After(Activity.CreateVm) && s.placed == old(s).placed
      ensures o == Retries ==> s.wf == old(s).wf && s.placed == old(s).placed
      ensures o == GivesUp ==> s.placed == old(s).placed && s.wf == Failing(old(s).wf.a, old(s).placed)
    {
      hide IsRun, JobHandlers.Step, JobId, Step, Enabled, Tries;
      WorldMoves();
      var h: nat, stored: bool := *, *;
      if h < |s.agent.handlers| && h < |s.numbers| && s.agent.handlers[h].pc.Replied?
          && s.numbers[h] == s.attempt.number {
        o := Ending(stored && s.agent.handlers[h].pc.res.ok, last);
        ReplyEnds(server, workflow, s, h, stored, o);
        Take(ReplyArrives(h, stored, o));
      } else {
        o := Ending(false, last);
        TimeoutEnds(server, workflow, s, o);
        Take(ReplyTimesOut(o));
      }
    }

    static lemma ReplyEnds(server: string, workflow: string, s: Saga, h: nat, stored: bool, o: Outcome)
      requires s.wf == Awaits(Activity.CreateVm) && s.attempt.AwaitsReply?
      requires h < |s.agent.handlers| && h < |s.numbers| && s.agent.handlers[h].pc.Replied?
      requires s.numbers[h] == s.attempt.number && (o == Completes ==> stored && s.agent.handlers[h].pc.res.ok)
      ensures Enabled(s, ReplyArrives(h, stored, o))
      ensures EndsAttempt(s, Step(server, workflow, s, ReplyArrives(h, stored, o)), o)
    {
      hide JobId, JobHandlers.Step;
    }

    static lemma TimeoutEnds(server: string, workflow: string, s: Saga, o: Outcome)
      requires s.wf == Awaits(Activity.CreateVm) && s.attempt.AwaitsReply? && o != Completes
      ensures Enabled(s, ReplyTimesOut(o))
      ensures EndsAttempt(s, Step(server, workflow, s, ReplyTimesOut(o)), o)
    {
      hide JobId, JobHandlers.Step;
    }

    /** One attempt: a VM that the row knows is not asked for again; otherwise a request with the job's
        fixed id is sent, unless the attempt fails before. */
    method AttemptVm(last: bool) returns (o: Outcome)
      requires Valid() && s.wf == Awaits(Activity.CreateVm) && s.attempt == NoAttempt
      modifies this
      ensures Valid() && s.attempt == NoAttempt && (last ==> o != Retries)
      ensures o == Completes ==> s.wf == After(Activity.CreateVm) && s.placed == old(s).placed
      ensures o == Retries ==> s.wf == old(s).wf && s.placed == old(s).placed
      ensures o == GivesUp ==> s.placed == old(s).placed && s.wf == Failing(old(s).wf.a, old(s).placed)
    {
      hide IsRun, JobHandlers.Step, JobId, Step, Enabled, Tries;
      WorldMoves();
      var sent: bool := *;
      if s.row.ref != None || !sent {
        o := Ending(s.row.ref != None, last);
        StartEnds(server, workflow, s, sent, o);
        Take(AttemptStarts(sent, o));
      } else {
        StartSends(server, workflow, s);
        Take(AttemptStarts(true, Retries));
        o := AwaitReply(last);
      }
    }

    static lemma StartEnds(server: string, workflow: string, s: Saga, sent: bool, o: Outcome)
      requires s.wf == Awaits(Activity.CreateVm) && s.attempt == NoAttempt
      requires (s.row.ref != None || !sent) && (o == Completes ==> s.row.ref != None)
      ensures Enabled(s, AttemptStarts(sent, o))
      ensures EndsAttempt(s, Step(server, workflow, s, AttemptStarts(sent, o)), o)
    {
      hide JobId, JobHandlers.Step;
    }

    static lemma StartSends(server: string, workflow: string, s: Saga)
      requires s.wf == Awaits(Activity.CreateVm) && s.attempt == NoAttempt && s.row.ref == None
      ensures Enabled(s, AttemptStarts(true, Retries))
      ensures var t := Step(server, workflow, s, AttemptStarts(true, Retries));
              t.wf == s.wf && t.placed == s.placed && t.attempt.AwaitsReply?
    {
      hide JobId, JobHandlers.Step;
    }

    method CreateVm() returns (ok: bool)
      requires Valid() && s.wf == Awaits(Activity.CreateVm) && s.attempt == NoAttempt
      modifies this
      ensures Valid() && s.attempt == NoAttempt && s.placed == old(s).placed
      ensures s.wf == if ok then After(Activity.CreateVm) else Failing(Activity.CreateVm, old(s).placed)
    {
      hide IsRun;
      var o, n := Retries, 0;
      while o == Retries
        invariant Valid() && s.attempt == NoAttempt && n <= SLOW_ATTEMPTS && (o == Retries ==> n < SLOW_ATTEMPTS)
        invariant s.placed == old(s).placed
        invariant s.wf == if o == Completes then After(Activity.CreateVm) else if o == Retries then old(s).wf
                  else Failing(Activity.CreateVm, old(s).placed)
        decreases SLOW_ATTEMPTS - n
      {
        n := n + 1;
        o := AttemptVm(n == SLOW_ATTEMPTS);
      }
      ok := o == Completes;
    }

    /** Deletes every VM found, one by one; a failed deletion is only logged. */
    method DeleteVms(refs: set<nat>) returns (deleted: set<nat>)
      ensures deleted <= refs
    {
      deleted := {};
      var left := refs;
      while left != {}
        invariant left <= refs && deleted <= refs
        decreases |left|
      {
        var r :| r in left;
        var ok: bool := *;
        if ok { deleted := deleted + {r}; }
        left := left - {r};
      }
    }

    /** Finds the VMs of the server, deletes them and releases what it holds, up to five times. A search
        that fails counts as having found nothing, and without a host there is nothing to find. */
    method CompensateCreate() returns (ok: bool)
      requires Valid() && s.wf == Awaits(Activity.CompensateCreate) && s.attempt == NoAttempt
      modifies this
      ensures Valid() && s.attempt == NoAttempt && s.placed == old(s).placed
      ensures s.wf == if ok then After(Activity.CompensateCreate) else Aborted
    {
      hide IsRun, JobHandlers.Step, JobId;
      var o, n := Retries, 0;
      while o == Retries
        invariant Valid() && s.attempt == NoAttempt && n <= ATTEMPTS && (o == Retries ==> n < ATTEMPTS)
        invariant s.placed == old(s).placed
        invariant s.wf == if o == Completes then After(Activity.CompensateCreate) else if o == Retries then old(s).wf
                  else Aborted
        decreases ATTEMPTS - n
      {
        n := n + 1;
        WorldMoves();
        var found: bool, applied: bool := *, *;
        var deleted := DeleteVms(if s.row.host == None then {} else Refs(s, found));
        o := Ending(applied, n == ATTEMPTS);
        Take(Compensates(found, deleted, applied, o));
      }
      ok := o == Completes;
    }

    /** The try block up to the addresses. `placed` tells the handler whether there is anything to roll
        back. */
    method Reserve() returns (ok: bool, placed: bool)
      requires Valid() && s.wf == Awaits(SetProvisioning) && !s.placed && s.attempt == NoAttempt
      modifies this
      ensures Valid() && s.attempt == NoAttempt && s.placed == placed && (ok ==> placed)
      ensures s.wf == if ok then Awaits(Activity.CreateVm) else if placed then Awaits(Activity.CompensateCreate)
                else Awaits(SetFailed)
    {
      hide IsRun, ServerWorkflow.Valid;
      placed := false;
      ok := Act(SetProvisioning, ATTEMPTS);
      if !ok { return; }
      ok := Act(PlaceServer(""), ATTEMPTS);
      if !ok { return; }
      placed := true;
      ok := Act(ReserveIp, ATTEMPTS);
    }

    /** The try block once the VM exists. */
    method Activate() returns (ok: bool)
      requires Valid() && s.wf == Awaits(WaitForBoot) && s.placed && s.attempt == NoAttempt
      modifies this
      ensures Valid() && s.attempt == NoAttempt && s.placed
      ensures s.wf == if ok then Succeeded else Awaits(Activity.CompensateCreate)
      ensures ok ==> CarriedOut(run, ins, |ins|,
                [SetProvisioning, Activity.PlaceServer(""), ReserveIp, Activity.CreateVm, WaitForBoot,
                 ApplyFirewall, StartMeter, SetActive, CompleteAction, EmitActive])
    {
      hide IsRun, ServerWorkflow.Valid, Tries, After, Failing, CarriedOut;
      ActivationOrder();
      ok := Act(WaitForBoot, SLOW_ATTEMPTS);
      if !ok { return; }
      ok := Act(ApplyFirewall, ATTEMPTS);
      if !ok { return; }
      ok := Act(StartMeter, ATTEMPTS);
      if !ok { return; }
      ok := Act(SetActive, ATTEMPTS);
      if !ok { return; }
      ok := Act(CompleteAction, ATTEMPTS);
      if !ok { return; }
      ok := Act(EmitActive, ATTEMPTS);
      if ok { AllCarriedOut(); }
    }

    lemma AllCarriedOut()
      requires Valid() && s.wf == Succeeded
      ensures CarriedOut(run, ins, |ins|,
                [SetProvisioning, Activity.PlaceServer(""), ReserveIp, Activity.CreateVm, WaitForBoot,
                 ApplyFirewall, StartMeter, SetActive, CompleteAction, EmitActive])
    {
      hide IsRun, CarriedOut;
      SuccessCarriesOutEverything(server, workflow, run, ins, |ins|);
    }

    static lemma ActivationOrder()
      ensures forall a | a in [WaitForBoot, ApplyFirewall, StartMeter, SetActive, CompleteAction, EmitActive] ::
                Failing(a, true) == Awaits(Activity.CompensateCreate)
      ensures After(WaitForBoot) == Awaits(ApplyFirewall) && After(ApplyFirewall) == Awaits(StartMeter)
      ensures After(StartMeter) == Awaits(SetActive) && After(SetActive) == Awaits(CompleteAction)
      ensures After(CompleteAction) == Awaits(EmitActive) && After(EmitActive) == Succeeded
    {
    }

    /** The whole try block. */
    method TryCreate() returns (ok: bool, placed: bool)
      requires Valid() && s.wf == Awaits(SetProvisioning) && !s.placed && s.attempt == NoAttempt
      modifies this
      ensures Valid() && s.attempt == NoAttempt && s.placed == placed
      ensures s.wf == if ok then Succeeded else if placed then Awaits(Activity.CompensateCreate) else Awaits(SetFailed)
    {
      hide IsRun, ServerWorkflow.Valid;
      ok, placed := Reserve();
      if !ok { return; }
      ok := CreateVm();
      if !ok { return; }
      ok := Activate();
    }

    /** `createServer`. Done: active, metered and holding host, addresses and the VM it names; no other VM
        carries the tag, but for refused deletions. Undone: nothing is held but a host whose placement took
        effect without ever being reported; and no VM carries the tag exactly if what the rollback missed,
        and what creates tagged after it, was deleted by its create. */
    method CreateServer() returns (result: Result, placed: bool)
      requires Valid() && s.wf == Awaits(SetProvisioning) && !s.placed && s.attempt == NoAttempt
      modifies this
      ensures Valid()
      ensures result == Done ==>
                && s.row.status == Active && s.row.host != None && s.row.ips && s.row.privateIp && s.row.metered
                && s.row.ref != None && s.tagged == {s.row.ref.value} + s.strays
                && CarriedOut(run, ins, |ins|,
                     [SetProvisioning, Activity.PlaceServer(""), ReserveIp, Activity.CreateVm, WaitForBoot,
                      ApplyFirewall, StartMeter, SetActive, CompleteAction, EmitActive])
      ensures result == Undone ==>
                && s.row.status == Status.Failed && s.row.ref == None && !s.row.ips && !s.row.privateIp
                    && !s.row.metered
                && (s.row.host != None <==> s.tookPlace && !placed)
                && (!placed ==> s.tagged == {})
                && CarriedOut(run, ins, |ins|, (if placed then [Activity.CompensateCreate] else [])
                                               + [SetFailed, FailAction, EmitFailed])
      ensures result == Undone && placed ==>
                && (exists a: nat :: a < |ins| && Undoes(run[a], ins[a]))
                && forall a: nat | a < |ins| && Undoes(run[a], ins[a]) ::
                     s.tagged == {} <==> AllUndone(run, ins, a, |ins|)
    {
      hide IsRun, Undoes, AllUndone, CarriedOut, Tries;
      var ok;
      ok, placed := TryCreate();
      if ok {
        SuccessHoldsExactlyItsVm(server, workflow, run, ins, |ins|);
        SuccessCarriesOutEverything(server, workflow, run, ins, |ins|);
        return Done, placed;
      }
      if placed {
        ok := CompensateCreate();
        if !ok { return Stranded, placed; }
      }
      ok := Act(SetFailed, ATTEMPTS);
      if !ok { return Stranded, placed; }
      ok := Act(FailAction, ATTEMPTS);
      if !ok { return Stranded, placed; }
      ok := Act(EmitFailed, ATTEMPTS);
      if !ok { return Stranded, placed; }
      FailureHoldsNothingButALostPlacement(server, workflow, run, ins, |ins|);
      FailureCarriesOutHandler(server, workflow, run, ins, |ins|);
      if placed { FailedRunLeavesNoVmIff(server, workflow, run, ins, |ins|); }
      result := Undone;
    }
  }
}
