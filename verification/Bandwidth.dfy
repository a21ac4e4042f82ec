/** Bandwidth metering by counter differences (agents/host-agent/internal/agent/agent.go). */
module BandwidthModel {
  import opened Options

  /** What is billed for a reading after the previous one; a smaller reading means that the VM booted
      again, and the first one only sets the baseline. */
  function Delta(last: Option<nat>, counter: nat): nat {
    match last
    case None => 0
    case Some(l) => if counter < l then counter else counter - l
  }

  /** One VM as the hypervisor lists it. `tagged`: its tags name a server. */
  datatype Listed = Listed(vmid: nat, template: bool, tagged: bool, netOut: nat)

  /** What one tick does to what is remembered of one VM, and what it bills. */
  function TickOne(last: Option<nat>, seen: Option<Listed>): (Option<nat>, nat) {
    match seen
    case None => (None, 0)
    case Some(vm) =>
      if vm.template then (None, 0)
      else if !vm.tagged then (last, 0)
      else (Some(vm.netOut), Delta(last, vm.netOut))
  }

  // ---- a series of readings ----

  function Billed(rs: seq<nat>): nat {
    if |rs| < 2 then 0 else Billed(rs[..|rs| - 1]) + Delta(Some(rs[|rs| - 2]), rs[|rs| - 1])
  }

  /** The sum of the readings after which the counter was seen to start over: the final readings of all
      boots but the last. */
  function EarlierBoots(rs: seq<nat>): nat {
    if |rs| < 2 then 0
    else EarlierBoots(rs[..|rs| - 1]) + if rs[|rs| - 1] < rs[|rs| - 2] then rs[|rs| - 2] else 0
  }

  /** What is billed is the sum of every boot's final reading less the baseline. */
  lemma {:induction false} BilledIsBootTotals(rs: seq<nat>)
    requires rs != []
    ensures Billed(rs) + rs[0] == EarlierBoots(rs) + rs[|rs| - 1]
  {
    if |rs| > 1 {
      BilledIsBootTotals(rs[..|rs| - 1]);
    }
  }

  /** Without a reset that is the last reading less the first, and only then. */
  lemma NoResetBillsTheDifference(rs: seq<nat>)
    requires rs != []
    ensures Billed(rs) + rs[0] == rs[|rs| - 1] <==> forall i | 0 < i < |rs| :: rs[i - 1] <= rs[i]
  {
    BilledIsBootTotals(rs);
    NoEarlierBoots(rs);
  }

  lemma {:induction false} NoEarlierBoots(rs: seq<nat>)
    ensures EarlierBoots(rs) == 0 <==> forall i | 0 < i < |rs| :: rs[i - 1] <= rs[i]
  {
    if |rs| > 1 {
      NoEarlierBoots(rs[..|rs| - 1]);
    }
  }

  // ---- the real traffic ----

  /** One vmid over its whole life: `sent` counts every byte ever sent, `counter` those since boot.
      `last` is what the agent remembers, `baseline` the bytes sent before the first reading that is
      billed against; `read` and `restarted` describe the last reading: bytes sent by then, and whether
      the counter started over since. `first` is the first reading, `finals` the sum of the last readings
      of the boots that are over, and `unseen` that of the readings before resets that no smaller reading
      gave away. */
  datatype World = World(
    sent: nat, counter: nat, last: Option<nat>, billed: nat, baseline: Option<nat>, read: nat, restarted: bool,
    first: Option<nat>, finals: nat, unseen: nat)

  const Unread := World(0, 0, None, 0, None, 0, false, None, 0, 0)

  datatype Event =
    | Sends(bytes: nat)
    | StartsOver
    | Ticks(listed: bool, template: bool, tagged: bool)
    | AgentRestarts

  predicate Metered(e: Event) {
    e.Ticks? && e.listed && !e.template && e.tagged
  }

  /** A boot, or a new VM under a vmid that was free, starts the counter over. A tick sees the VM or
      does not. */
  function Happens(w: World, e: Event): World {
    match e
    case Sends(n) => w.(sent := w.sent + n, counter := w.counter + n)
    case StartsOver =>
      w.(counter := 0, restarted := true,
         finals := if w.last != None && !w.restarted then w.finals + w.last.value else w.finals)
    case AgentRestarts => w.(last := None)
    case Ticks(listed, template, tagged) =>
      var (last, delta) := TickOne(w.last, if listed then Some(Listed(0, template, tagged, w.counter)) else None);
      var t := w.(last := last, billed := w.billed + delta);
      if Metered(e) then
        t.(baseline := if w.baseline == None then Some(w.sent) else w.baseline, read := w.sent, restarted := false,
           first := if w.first == None then Some(w.counter) else w.first,
           unseen := if w.last != None && w.restarted && w.counter >= w.last.value
                     then w.unseen + w.last.value else w.unseen)
      else t
  }

  ghost predicate WInv(w: World) {
    && w.read <= w.sent
    && (w.baseline == None ==> w.billed == 0 && w.last == None)
    && (w.baseline != None ==> w.baseline.value <= w.read && w.billed <= w.read - w.baseline.value)
    && (w.last != None ==>
          if w.restarted then w.counter <= w.sent - w.read else w.counter - w.last.value == w.sent - w.read)
  }

  function Run(w: World, es: seq<Event>): World
    decreases |es|
  {
    if es == [] then w else Run(Happens(w, es[0]), es[1..])
  }

  lemma HappensInv(w: World, e: Event)
    requires WInv(w)
    ensures WInv(Happens(w, e)) && Happens(w, e).billed >= w.billed
  {
  }

  lemma {:induction false} RunInv(w: World, es: seq<Event>)
    requires WInv(w)
    ensures WInv(Run(w, es)) && Run(w, es).billed >= w.billed
    decreases |es|
  {
    if es != [] {
      HappensInv(w, es[0]);
      RunInv(Happens(w, es[0]), es[1..]);
    }
  }

  lemma {:induction false} RunInTwo(w: World, es: seq<Event>, more: seq<Event>)
    ensures Run(w, es + more) == Run(Run(w, es), more)
    decreases |es|
  {
    if es == [] {
      assert es + more == more;
    } else {
      assert (es + more)[0] == es[0] && (es + more)[1..] == es[1..] + more;
      RunInTwo(Happens(w, es[0]), es[1..], more);
    }
  }

  /** Whatever happens to a VM from its creation on - traffic, boots between or during ticks, restarts
      of the agent, ticks that do not list it - no more is billed than it sent since the first reading,
      and nothing is ever taken back. */
  lemma NeverOverBills(es: seq<Event>, more: seq<Event>)
    ensures var w := Run(Unread, es);
            && (w.baseline == None ==> w.billed == 0)
            && (w.baseline != None ==> w.baseline.value <= w.sent && w.billed <= w.sent - w.baseline.value)
            && w.billed <= Run(Unread, es + more).billed
  {
    RunInv(Unread, es);
    RunInTwo(Unread, es, more);
    RunInv(Run(Unread, es), more);
  }

  /** The VM is metered at every tick, and the agent runs on. */
  predicate Steady(es: seq<Event>) {
    forall i | 0 <= i < |es| :: !es[i].AgentRestarts? && (es[i].Ticks? ==> Metered(es[i]))
  }

  ghost predicate Counted(w: World) {
    && (w.last != None <==> w.first != None)
    && (w.last == None ==> w.billed == 0 && w.finals == 0 && w.unseen == 0)
    && (w.last != None ==> w.billed + w.first.value + w.unseen == w.finals + if w.restarted then 0 else w.last.value)
  }

  lemma {:induction false} SteadyIsCounted(w: World, es: seq<Event>)
    requires WInv(w) && Counted(w) && Steady(es)
    ensures Counted(Run(w, es))
    decreases |es|
  {
    if es != [] {
      HappensInv(w, es[0]);
      SteadyIsCounted(Happens(w, es[0]), es[1..]);
    }
  }

  /** What is billed of a VM that is metered steadily, exactly: the final readings of all its boots less
      the first reading, if and only if every reset was seen or came after a reading of zero. */
  lemma BillsEveryBootIff(es: seq<Event>)
    requires Steady(es) && Run(Unread, es).last != None && !Run(Unread, es).restarted
    ensures var w := Run(Unread, es);
            && w.first != None
            && (w.billed + w.first.value == w.finals + w.last.value <==> w.unseen == 0)
            && w.billed + w.first.value <= w.finals + w.last.value
  {
    SteadyIsCounted(Unread, es);
  }
}

module BandwidthMeters {
  import opened Options
  import opened BandwidthModel

  function Get(m: map<nat, nat>, k: nat): Option<nat> {
    if k in m then Some(m[k]) else None
  }

  /** The listed VM with this id. */
  function Find(vms: seq<Listed>, vmid: nat): Option<Listed> {
    if vms == [] then None
    else if vms[|vms| - 1].vmid == vmid then Some(vms[|vms| - 1])
    else Find(vms[..|vms| - 1], vmid)
  }

  ghost predicate Distinct(vms: seq<Listed>) {
    forall i, j | 0 <= i < j < |vms| :: vms[i].vmid != vms[j].vmid
  }

  /** A tagged VM that is no template: the ones the tick meters. */
  predicate IsMetered(vm: Option<Listed>) {
    vm != None && !vm.value.template && vm.value.tagged
  }

  lemma {:induction false} FindIsListed(vms: seq<Listed>, vmid: nat)
    ensures Find(vms, vmid) != None ==> exists i ::
              0 <= i < |vms| && vms[i] == Find(vms, vmid).value && vms[i].vmid == vmid
  {
    if vms != [] && vms[|vms| - 1].vmid != vmid && Find(vms, vmid) != None {
      FindIsListed(vms[..|vms| - 1], vmid);
      var i :| 0 <= i < |vms| - 1 && vms[..|vms| - 1][i] == Find(vms, vmid).value;
      assert vms[i] == Find(vms, vmid).value;
    }
  }

  class BandwidthMeter {
    /** The last counter seen per vmid. */
    var netOut: map<nat, nat>

    constructor ()
      ensures netOut == map[]
    {
      netOut := map[];
    }

    method NetOutDelta(vmid: nat, counter: nat) returns (delta: nat)
      modifies this
      ensures netOut == old(netOut)[vmid := counter] && delta == Delta(Get(old(netOut), vmid), counter)
    {
      if vmid !in netOut {
        delta := 0;
      } else if counter < netOut[vmid] {
        delta := counter;
      } else {
        delta := counter - netOut[vmid];
      }
      netOut := netOut[vmid := counter];
    }

    /** Meters the listed VMs, then forgets those that are gone. Each vmid is treated as `TickOne` says,
        and `usage` has exactly what there is to bill. */
    method Tick(vms: seq<Listed>) returns (usage: map<nat, nat>)
      requires Distinct(vms)
      modifies this
      ensures forall id: nat :: Get(netOut, id) == TickOne(Get(old(netOut), id), Find(vms, id)).0
      ensures forall id: nat :: (if id in usage then usage[id] else 0) == TickOne(Get(old(netOut), id), Find(vms, id)).1
      ensures forall id | id in usage :: usage[id] > 0
    {
      ghost var was := netOut;
      var seen: set<nat> := {};
      usage := map[];
      for i := 0 to |vms|
        invariant forall id: nat :: id in seen <==> Find(vms[..i], id) != None && !Find(vms[..i], id).value.template
        invariant forall id: nat :: Get(netOut, id) ==
                    if IsMetered(Find(vms[..i], id)) then Some(Find(vms[..i], id).value.netOut) else Get(was, id)
        invariant forall id: nat :: (if id in usage then usage[id] else 0) ==
                    if IsMetered(Find(vms[..i], id)) then Delta(Get(was, id), Find(vms[..i], id).value.netOut) else 0
        invariant forall id | id in usage :: usage[id] > 0
      {
        var vm := vms[i];
        FindNext(vms, i);
        if vm.template { continue; }
        seen := seen + {vm.vmid};
        if vm.tagged {
          var delta := NetOutDelta(vm.vmid, vm.netOut);
          if delta > 0 { usage := usage[vm.vmid := delta]; }
        }
      }
      assert vms[..|vms|] == vms;
      netOut := map id | id in netOut && id in seen :: netOut[id];
    }

    static lemma FindNext(vms: seq<Listed>, i: nat)
      requires Distinct(vms) && i < |vms|
      ensures Find(vms[..i], vms[i].vmid) == None
      ensures forall id :: Find(vms[..i + 1], id) == if id == vms[i].vmid then Some(vms[i]) else Find(vms[..i], id)
    {
      assert vms[..i + 1][..i] == vms[..i];
      FindIsListed(vms[..i], vms[i].vmid);
    }
  }
}
