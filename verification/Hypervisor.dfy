/** One VM's network configuration and firewall on the hypervisor, and the API calls on it, as the
    simulator answers them (agents/host-agent/internal/pvesim/pvesim.go). A script, which can be any,
    says what goes wrong with each call. */
module Hypervisor {
  /** A firewall rule as the form fields it was posted with. */
  type Form = map<string, string>

  /** `options` are the firewall options but for the IP filter. */
  datatype Vm = Vm(
    config: map<string, string>,
    options: Form,
    ipfilter: bool,
    ipsets: map<string, seq<string>>,
    rules: seq<Form>)

  function WithoutEntry(entries: seq<string>, cidr: string): (kept: seq<string>)
    ensures forall c :: c in kept <==> c in entries && c != cidr
  {
    if entries == [] then []
    else if entries[0] == cidr then WithoutEntry(entries[1..], cidr)
    else [entries[0]] + WithoutEntry(entries[1..], cidr)
  }

  /** What becomes of one call: it works; it is answered with an error; it works but its answer is lost;
      it never arrives. */
  datatype Fault = Works | Refused | LostReply | Down

  function Next(script: seq<Fault>): Fault {
    if script == [] then Works else script[0]
  }

  function Rest(script: seq<Fault>): seq<Fault> {
    if script == [] then [] else script[1..]
  }

  lemma NothingHindered()
    ensures Next([]) == Works && Rest([]) == []
  {
  }

  /** 1 if the fault keeps a call from working, 0 if it does not. */
  function Hinders(fault: Fault): nat {
    if fault == Works then 0 else 1
  }

  class Api {
    var vm: Vm
    /** The faults of the calls to come; after them everything works. */
    var script: seq<Fault>
    /** The VM after every call so far. */
    ghost var trace: seq<Vm>
    /** How many deletions of a rule were answered without being carried out. */
    ghost var refused: nat
    /** How many calls the script kept from working, as far as the client can tell. */
    ghost var hindered: nat

    constructor (vm: Vm, script: seq<Fault>)
      ensures this.vm == vm && this.script == script && trace == [] && refused == 0 && hindered == 0
    {
      this.vm, this.script, trace, refused, hindered := vm, script, [], 0, 0;
    }

    /** A call that makes the VM `next` when it works. */
    method Call(next: Vm) returns (ok: bool)
      modifies this`vm, this`trace, this`script, this`hindered
      ensures vm == next || (!ok && vm == old(vm))
      ensures ok <==> Next(old(script)) == Works
      ensures trace == old(trace) + [vm]
      ensures script == Rest(old(script)) && hindered == old(hindered) + Hinders(Next(old(script)))
    {
      var fault := Next(script);
      script := Rest(script);
      hindered := hindered + Hinders(fault);
      if fault == Works || fault == LostReply { vm := next; }
      ok := fault == Works;
      trace := trace + [vm];
    }

    method Read() returns (ok: bool)
      modifies this`trace, this`script, this`hindered
      ensures ok <==> Next(old(script)) == Works
      ensures trace == old(trace) + [vm]
      ensures script == Rest(old(script)) && hindered == old(hindered) + Hinders(Next(old(script)))
    {
      ok := Next(script) == Works;
      hindered := hindered + Hinders(Next(script));
      script := Rest(script);
      trace := trace + [vm];
    }

    /** A call that the hypervisor answers with an error, whatever the script says. */
    method Fails() returns (ok: bool)
      modifies this`trace, this`script, this`hindered
      ensures !ok && trace == old(trace) + [vm]
      ensures script == Rest(old(script)) && hindered == old(hindered) + Hinders(Next(old(script)))
    {
      hindered := hindered + Hinders(Next(script));
      script := Rest(script);
      trace := trace + [vm];
      ok := false;
    }

    method GetConfig() returns (ok: bool, config: map<string, string>)
      modifies this`trace, this`script, this`hindered
      ensures ok <==> Next(old(script)) == Works
      ensures trace == old(trace) + [vm] && config == vm.config
      ensures script == Rest(old(script)) && hindered == old(hindered) + Hinders(Next(old(script)))
    {
      ok := Read();
      config := vm.config;
    }

    /** Sets one configuration key, whatever it held before. */
    method PostConfig(key: string, value: string) returns (ok: bool)
      modifies this`vm, this`trace, this`script, this`hindered
      ensures vm == old(vm).(config := old(vm).config[key := value]) || (!ok && vm == old(vm))
      ensures ok <==> Next(old(script)) == Works
      ensures trace == old(trace) + [vm]
      ensures script == Rest(old(script)) && hindered == old(hindered) + Hinders(Next(old(script)))
    {
      ok := Call(vm.(config := vm.config[key := value]));
    }

    method DeleteConfig(key: string) returns (ok: bool)
      modifies this`vm, this`trace, this`script, this`hindered
      ensures vm == old(vm).(config := old(vm).config - {key}) || (!ok && vm == old(vm))
      ensures ok <==> Next(old(script)) == Works
      ensures trace == old(trace) + [vm]
      ensures script == Rest(old(script)) && hindered == old(hindered) + Hinders(Next(old(script)))
    {
      ok := Call(vm.(config := vm.config - {key}));
    }

    /** Replaces the options. */
    method PutOptions(options: Form, ipfilter: bool) returns (ok: bool)
      modifies this`vm, this`trace, this`script, this`hindered
      ensures vm == old(vm).(options := options, ipfilter := ipfilter) || (!ok && vm == old(vm))
      ensures ok <==> Next(old(script)) == Works
      ensures trace == old(trace) + [vm]
      ensures script == Rest(old(script)) && hindered == old(hindered) + Hinders(Next(old(script)))
    {
      ok := Call(vm.(options := options, ipfilter := ipfilter));
    }

    /** How many rules there are; their positions count from 0. */
    method GetRules() returns (ok: bool, n: nat)
      modifies this`trace, this`script, this`hindered
      ensures ok <==> Next(old(script)) == Works
      ensures trace == old(trace) + [vm] && n == |vm.rules|
      ensures script == Rest(old(script)) && hindered == old(hindered) + Hinders(Next(old(script)))
    {
      ok := Read();
      n := |vm.rules|;
    }

    /** The client looks only at whether an answer came, not at what it says. */
    method DeleteRule(pos: nat) returns (answered: bool)
      modifies this
      ensures trace == old(trace) + [vm] && script == Rest(old(script))
      ensures answered <==> Next(old(script)) == Works || Next(old(script)) == Refused
      ensures vm == if pos < |old(vm).rules| && (Next(old(script)) == Works || Next(old(script)) == LostReply)
                    then old(vm).(rules := old(vm).rules[..pos] + old(vm).rules[pos + 1..]) else old(vm)
      ensures refused == old(refused) + if answered && vm == old(vm) then 1 else 0
      ensures hindered == old(hindered) + if answered then 0 else 1
    {
      var fault := Next(script);
      script := Rest(script);
      answered := fault == Works || fault == Refused;
      if (fault == Works || fault == LostReply) && pos < |vm.rules| {
        ghost var was := vm;
        vm := vm.(rules := vm.rules[..pos] + vm.rules[pos + 1..]);
        assert |vm.rules| < |was.rules|;
      } else if answered {
        refused := refused + 1;
      }
      if !answered { hindered := hindered + 1; }
      trace := trace + [vm];
    }

    method PostRule(form: Form) returns (ok: bool)
      modifies this`vm, this`trace, this`script, this`hindered
      ensures vm == old(vm).(rules := old(vm).rules + [form]) || (!ok && vm == old(vm))
      ensures ok <==> Next(old(script)) == Works
      ensures trace == old(trace) + [vm]
      ensures script == Rest(old(script)) && hindered == old(hindered) + Hinders(Next(old(script)))
    {
      ok := Call(vm.(rules := vm.rules + [form]));
    }

    method ListSets() returns (ok: bool, names: set<string>)
      modifies this`trace, this`script, this`hindered
      ensures ok <==> Next(old(script)) == Works
      ensures trace == old(trace) + [vm] && names == vm.ipsets.Keys
      ensures script == Rest(old(script)) && hindered == old(hindered) + Hinders(Next(old(script)))
    {
      ok := Read();
      names := vm.ipsets.Keys;
    }

    method PostSet(name: string) returns (ok: bool)
      modifies this`vm, this`trace, this`script, this`hindered
      ensures (name !in old(vm).ipsets && vm == old(vm).(ipsets := old(vm).ipsets[name := []]))
                || (!ok && vm == old(vm))
      ensures ok <==> Next(old(script)) == Works && name !in old(vm).ipsets
      ensures trace == old(trace) + [vm]
      ensures script == Rest(old(script)) && hindered == old(hindered) + Hinders(Next(old(script)))
    {
      if name in vm.ipsets { ok := Fails(); } else { ok := Call(vm.(ipsets := vm.ipsets[name := []])); }
    }

    method GetSet(name: string) returns (ok: bool, entries: seq<string>)
      modifies this`trace, this`script, this`hindered
      ensures ok <==> Next(old(script)) == Works && name in vm.ipsets
      ensures trace == old(trace) + [vm] && (ok ==> name in vm.ipsets && entries == vm.ipsets[name])
      ensures script == Rest(old(script)) && hindered == old(hindered) + Hinders(Next(old(script)))
    {
      entries := [];
      if name in vm.ipsets {
        ok := Read();
        entries := vm.ipsets[name];
      } else {
        ok := Fails();
      }
    }

    method PostEntry(name: string, cidr: string) returns (ok: bool)
      modifies this`vm, this`trace, this`script, this`hindered
      ensures || (name in old(vm).ipsets && cidr !in old(vm).ipsets[name]
                  && vm == old(vm).(ipsets := old(vm).ipsets[name := old(vm).ipsets[name] + [cidr]]))
              || (!ok && vm == old(vm))
      ensures ok <==> Next(old(script)) == Works && name in old(vm).ipsets && cidr !in old(vm).ipsets[name]
      ensures trace == old(trace) + [vm]
      ensures script == Rest(old(script)) && hindered == old(hindered) + Hinders(Next(old(script)))
    {
      if name !in vm.ipsets || cidr in vm.ipsets[name] {
        ok := Fails();
      } else {
        ok := Call(vm.(ipsets := vm.ipsets[name := vm.ipsets[name] + [cidr]]));
      }
    }

    method DeleteEntry(name: string, cidr: string) returns (ok: bool)
      modifies this`vm, this`trace, this`script, this`hindered
      ensures || (name in old(vm).ipsets
                  && vm == old(vm).(ipsets := old(vm).ipsets[name := WithoutEntry(old(vm).ipsets[name], cidr)]))
              || (!ok && vm == old(vm))
      ensures ok <==> Next(old(script)) == Works && name in old(vm).ipsets
      ensures trace == old(trace) + [vm]
      ensures script == Rest(old(script)) && hindered == old(hindered) + Hinders(Next(old(script)))
    {
      if name !in vm.ipsets {
        ok := Fails();
      } else {
        ok := Call(vm.(ipsets := vm.ipsets[name := WithoutEntry(vm.ipsets[name], cidr)]));
      }
    }

    /** Deletes the set with its entries. */
    method DeleteSet(name: string) returns (ok: bool)
      modifies this`vm, this`trace, this`script, this`hindered
      ensures (name in old(vm).ipsets && vm == old(vm).(ipsets := old(vm).ipsets - {name})) || (!ok && vm == old(vm))
      ensures ok <==> Next(old(script)) == Works && name in old(vm).ipsets
      ensures trace == old(trace) + [vm]
      ensures script == Rest(old(script)) && hindered == old(hindered) + Hinders(Next(old(script)))
    {
      if name !in vm.ipsets { ok := Fails(); } else { ok := Call(vm.(ipsets := vm.ipsets - {name})); }
    }
  }
}
