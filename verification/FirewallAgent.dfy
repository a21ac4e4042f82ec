/** The calls that bring a VM's firewall to the wanted state, one API call at a time. What they leave
    is stated for every moment between two calls, wherever a failed call stops them. */
module FirewallAgent {
  import opened Options
  import opened Hypervisor
  import opened FirewallSpec
  import opened FirewallMeaning

  // ---- rules ----

  method ToPveRules(rules: seq<Rule>) returns (out: seq<FWRule>)
    ensures out == Translated(rules)
  {
    out := [];
    for i := 0 to |rules|
      invariant out == Translated(rules[..i])
    {
      var r := rules[i];
      ghost var was := out;
      for j := 0 to |r.cidrs|
        invariant out == was + ForCidrs(r, r.cidrs[..j])
      {
        assert ForCidrs(r, r.cidrs[..j + 1]) == ForCidrs(r, r.cidrs[..j]) + [ForCidr(r, r.cidrs[j])];
        out := out + [ForCidr(r, r.cidrs[j])];
      }
      assert r.cidrs[..|r.cidrs|] == r.cidrs;
      assert rules[..i + 1][..i] == rules[..i];
    }
    assert rules[..|rules|] == rules;
  }

  /** Every VM in the trace from position `n` on has the configuration and sets of `vm`, and either
      its filter setting or `ipfilter`. */
  ghost predicate OnlyRules(trace: seq<Vm>, n: nat, vm: Vm, ipfilter: bool) {
    forall j | n <= j < |trace| ::
      trace[j].config == vm.config && trace[j].ipsets == vm.ipsets
          && (trace[j].ipfilter == vm.ipfilter || trace[j].ipfilter == ipfilter)
  }

  lemma OnlyRulesStart(trace: seq<Vm>, vm: Vm, ipfilter: bool)
    ensures OnlyRules(trace, |trace|, vm, ipfilter)
  {
  }

  lemma OnlyRulesNext(trace: seq<Vm>, n: nat, vm: Vm, ipfilter: bool)
    requires OnlyRules(trace, n, vm, ipfilter)
    ensures forall rules :: OnlyRules(trace + [vm.(rules := rules)], n, vm, ipfilter)
  {
  }

  /** `kept` is what remains of `rules` when some are deleted. */
  ghost predicate Remains(kept: seq<Form>, rules: seq<Form>)
  {
    if rules == [] then kept == []
    else Remains(kept, rules[1..]) || (kept != [] && kept[0] == rules[0] && Remains(kept[1..], rules[1..]))
  }

  /** What deleting the rules from the last to the first leaves, judged from the script: whether every
      call was answered, the rules, and the faults still to come. */
  function Deletions(rules: seq<Form>, kept: seq<Form>, script: seq<Fault>): (bool, seq<Form>, seq<Fault>)
    decreases |rules|
  {
    if rules == [] then (true, kept, script)
    else
      var n := |rules| - 1;
      match Next(script)
      case Works => Deletions(rules[..n], kept, Rest(script))
      case Refused => Deletions(rules[..n], [rules[n]] + kept, Rest(script))
      case LostReply => (false, rules[..n] + kept, Rest(script))
      case Down => (false, rules + kept, Rest(script))
  }

  lemma NextDeletion(was: seq<Form>, i: nat, kept: seq<Form>, script: seq<Fault>)
    requires i < |was|
    ensures Deletions(was[..i + 1], kept, script)
         == match Next(script)
            case Works => Deletions(was[..i], kept, Rest(script))
            case Refused => Deletions(was[..i], [was[i]] + kept, Rest(script))
            case LostReply => (false, was[..i] + kept, Rest(script))
            case Down => (false, was[..i + 1] + kept, Rest(script))
  {
    assert was[..i + 1][..i] == was[..i] && was[..i + 1][i] == was[i];
  }

  lemma DeletionsDone(kept: seq<Form>, script: seq<Fault>)
    ensures Deletions([], kept, script) == (true, kept, script)
  {
  }

  lemma RuleGone(was: seq<Form>, i: nat, kept: seq<Form>)
    requires i < |was|
    ensures var rules := was[..i + 1] + kept;
            rules[..i] + rules[i + 1..] == was[..i] + kept && rules == was[..i] + ([was[i]] + kept)
    ensures Remains(kept, was[i + 1..]) ==> Remains(kept, was[i..]) && Remains([was[i]] + kept, was[i..])
  {
    var rules := was[..i + 1] + kept;
    assert rules[..i] == was[..i] && rules[i + 1..] == kept;
    assert was[i..][1..] == was[i + 1..] && ([was[i]] + kept)[1..] == kept;
  }

  /** Deletes the rules from the last to the first. A deletion that the hypervisor refuses goes
      unnoticed and leaves its rule. */
  method DeleteRules(api: Api, n: nat) returns (ok: bool, ghost kept: seq<Form>)
    requires n == |api.vm.rules|
    modifies api
    ensures OnlyRules(api.trace, |old(api.trace)|, old(api.vm), old(api.vm).ipfilter) && old(api.trace) <= api.trace
    ensures api.vm == old(api.vm).(rules := api.vm.rules)
    ensures ok ==> api.vm.rules == kept && Remains(kept, old(api.vm).rules) && |kept| == api.refused - old(api.refused)
    ensures ok <==> api.hindered == old(api.hindered)
    ensures old(api.script) == [] ==> api.script == [] && api.hindered == old(api.hindered)
    ensures (ok, api.vm.rules, api.script) == Deletions(old(api.vm).rules, [], old(api.script))
  {
    hide Deletions, Remains, Next, Rest, OnlyRules;
    ghost var vm, start, was := api.vm, |api.trace|, api.vm.rules;
    NothingHindered();
    OnlyRulesStart(api.trace, vm, vm.ipfilter);
    var i := n;
    kept := [];
    assert was[..n] == was && was[..n] + kept == was;
    NothingRemains(was[n..]);
    while i > 0
      invariant 0 <= i <= n && api.vm == old(api.vm).(rules := was[..i] + kept)
      invariant Remains(kept, was[i..]) && |kept| == api.refused - old(api.refused)
      invariant OnlyRules(api.trace, |old(api.trace)|, old(api.vm), old(api.vm).ipfilter) && old(api.trace) <= api.trace
      invariant api.hindered == old(api.hindered)
      invariant old(api.script) == [] ==> api.script == []
      invariant Deletions(was, [], old(api.script)) == Deletions(was[..i], kept, api.script)
    {
      i := i - 1;
      ghost var before := api.refused;
      NextDeletion(was, i, kept, api.script);
      RuleGone(was, i, kept);
      OnlyRulesNext(api.trace, start, vm, vm.ipfilter);
      var answered := api.DeleteRule(i);
      if !answered { return false, kept; }
      if api.refused == before + 1 { kept := [was[i]] + kept; }
    }
    DeletionsDone(kept, api.script);
    assert was[..0] == [] && was[..0] + kept == kept && was[0..] == was;
    ok := true;
  }

  lemma NothingRemains(rules: seq<Form>)
    ensures rules == [] ==> Remains([], rules)
  {
  }

  method PostRules(api: Api, rules: seq<FWRule>) returns (ok: bool)
    modifies api`vm, api`trace, api`script, api`hindered
    ensures OnlyRules(api.trace, |old(api.trace)|, old(api.vm), old(api.vm).ipfilter) && old(api.trace) <= api.trace
    ensures api.vm == old(api.vm).(rules := api.vm.rules)
    ensures ok ==> api.vm.rules == old(api.vm).rules + Forms(rules)
    ensures ok <==> api.hindered == old(api.hindered)
    ensures old(api.script) == [] ==> api.script == [] && api.hindered == old(api.hindered)
  {
    for j := 0 to |rules|
      invariant api.vm == old(api.vm).(rules := old(api.vm).rules + Forms(rules[..j]))
      invariant OnlyRules(api.trace, |old(api.trace)|, old(api.vm), old(api.vm).ipfilter) && old(api.trace) <= api.trace
      invariant api.hindered == old(api.hindered)
      invariant old(api.script) == [] ==> api.script == []
    {
      assert Forms(rules[..j + 1]) == Forms(rules[..j]) + [FormOf(rules[j])];
      ok := api.PostRule(FormOf(rules[j]));
      if !ok { return; }
    }
    assert rules[..|rules|] == rules;
    ok := true;
  }

  /** Sets the options, deletes the old rules and posts the new ones. When it succeeds the rules are
      what was left by refused deletions, then the new ones; and it does succeed when nothing but
      deletions is hindered, and those only by refusals. */
  method SetFirewall(api: Api, rules: seq<FWRule>, ipfilter: bool) returns (ok: bool, ghost kept: seq<Form>)
    modifies api
    ensures OnlyRules(api.trace, |old(api.trace)|, old(api.vm), ipfilter) && old(api.trace) <= api.trace
    ensures api.vm.config == old(api.vm).config && api.vm.ipsets == old(api.vm).ipsets
    ensures api.vm.ipfilter == old(api.vm).ipfilter || api.vm.ipfilter == ipfilter
    ensures ok ==> api.vm.ipfilter == ipfilter && api.vm.options == FilterOptions()
    ensures ok ==> api.vm.rules == kept + Forms(rules)
    ensures ok ==> Remains(kept, old(api.vm).rules) && |kept| == api.refused - old(api.refused)
    ensures ok <==> api.hindered == old(api.hindered)
    ensures old(api.script) == [] ==> api.script == [] && api.hindered == old(api.hindered)
    ensures var (all, left, rest) := Deletions(old(api.vm).rules, [], Rest(Rest(old(api.script))));
            Next(old(api.script)) == Works && Next(Rest(old(api.script))) == Works && all && rest == [] ==>
                ok && kept == left
  {
    hide Forms, Deletions, Remains;
    kept := [];
    ok := api.PutOptions(FilterOptions(), ipfilter);
    if !ok { return; }
    var n: nat;
    ok, n := api.GetRules();
    if !ok { return; }
    ok, kept := DeleteRules(api, n);
    if !ok { return; }
    ok := PostRules(api, rules);
  }

  // ---- IP sets ----

  /** `to` differs from `from` only in set `name`, and that set, once it exists, keeps whatever it
      has of `cidrs`. */
  ghost predicate Grows(from: Vm, to: Vm, name: string, cidrs: seq<string>) {
    && to == from.(ipsets := to.ipsets)
    && (forall m ::
        m != name ==> (m in to.ipsets <==> m in from.ipsets) && (m in to.ipsets ==> to.ipsets[m] == from.ipsets[m]))
    && (name in from.ipsets ==>
          name in to.ipsets && forall c | c in cidrs && c in from.ipsets[name] :: c in to.ipsets[name])
  }

  ghost predicate GrowsAlong(trace: seq<Vm>, n: nat, from: Vm, name: string, cidrs: seq<string>) {
    forall j | n <= j < |trace| :: Grows(from, trace[j], name, cidrs)
  }

  lemma GrowsTo(from: Vm, vm: Vm, name: string, cidrs: seq<string>, entries: seq<string>)
    requires Grows(from, vm, name, cidrs)
    requires name in vm.ipsets ==> forall c | c in cidrs && c in vm.ipsets[name] :: c in entries
    ensures Grows(from, vm.(ipsets := vm.ipsets[name := entries]), name, cidrs)
  {
  }

  method DropUnwanted(api: Api, name: string, cidrs: seq<string>, entries: seq<string>, ghost from: Vm)
    returns (ok: bool)
    requires name in api.vm.ipsets && api.vm.ipsets[name] == entries && Grows(from, api.vm, name, cidrs)
    modifies api`vm, api`trace, api`script, api`hindered
    ensures GrowsAlong(api.trace, |old(api.trace)|, from, name, cidrs) && old(api.trace) <= api.trace
    ensures Grows(from, api.vm, name, cidrs) && name in api.vm.ipsets
    ensures ok ==> forall c :: c in api.vm.ipsets[name] <==> c in entries && c in cidrs
    ensures ok <==> api.hindered == old(api.hindered)
    ensures old(api.script) == [] ==> api.script == [] && api.hindered == old(api.hindered)
  {
    hide Grows;
    for i := 0 to |entries|
      invariant GrowsAlong(api.trace, |old(api.trace)|, from, name, cidrs) && old(api.trace) <= api.trace
      invariant Grows(from, api.vm, name, cidrs) && name in api.vm.ipsets
      invariant forall c :: c in api.vm.ipsets[name] <==> c in entries && (c in cidrs || c !in entries[..i])
      invariant api.hindered == old(api.hindered)
      invariant old(api.script) == [] ==> api.script == []
    {
      if entries[i] !in cidrs {
        GrowsTo(from, api.vm, name, cidrs, WithoutEntry(api.vm.ipsets[name], entries[i]));
        ok := api.DeleteEntry(name, entries[i]);
        if !ok { return; }
      }
    }
    assert entries[..|entries|] == entries;
    ok := true;
  }

  /** Every address that is listed twice is in `have`. */
  predicate DoublesIn(cidrs: seq<string>, have: seq<string>) {
    forall p, q | 0 <= p < q < |cidrs| && cidrs[p] == cidrs[q] :: cidrs[p] in have
  }

  lemma DoublesNext(cidrs: seq<string>, have: seq<string>, i: nat)
    requires i < |cidrs| && DoublesIn(cidrs[..i], have)
    ensures DoublesIn(cidrs[..i + 1], have) <==> cidrs[i] in have || cidrs[i] !in cidrs[..i]
    ensures DoublesIn(cidrs, have) ==> DoublesIn(cidrs[..i + 1], have)
  {
    if cidrs[i] in cidrs[..i] {
      var p :| 0 <= p < i && cidrs[p] == cidrs[i];
      assert cidrs[..i + 1][p] == cidrs[..i + 1][i];
    }
  }

  /** What the set holds; nothing if it does not exist. */
  function EntriesOf(vm: Vm, name: string): seq<string> {
    if name in vm.ipsets then vm.ipsets[name] else []
  }

  method AddMissing(api: Api, name: string, cidrs: seq<string>, have: seq<string>, ghost from: Vm) returns (ok: bool)
    requires name in api.vm.ipsets && Grows(from, api.vm, name, cidrs)
    requires forall c :: c in api.vm.ipsets[name] <==> c in have && c in cidrs
    modifies api`vm, api`trace, api`script, api`hindered
    ensures GrowsAlong(api.trace, |old(api.trace)|, from, name, cidrs) && old(api.trace) <= api.trace
    ensures Grows(from, api.vm, name, cidrs) && name in api.vm.ipsets
    ensures ok ==> forall c :: c in api.vm.ipsets[name] <==> c in cidrs
    ensures ok <==> api.hindered == old(api.hindered) && DoublesIn(cidrs, have)
    ensures old(api.script) == [] ==> api.script == [] && api.hindered == old(api.hindered)
  {
    hide Grows;
    for i := 0 to |cidrs|
      invariant GrowsAlong(api.trace, |old(api.trace)|, from, name, cidrs) && old(api.trace) <= api.trace
      invariant Grows(from, api.vm, name, cidrs) && name in api.vm.ipsets
      invariant forall c :: c in api.vm.ipsets[name] <==> c in cidrs && (c in have || c in cidrs[..i])
      invariant DoublesIn(cidrs[..i], have)
      invariant api.hindered == old(api.hindered)
      invariant old(api.script) == [] ==> api.script == []
    {
      DoublesNext(cidrs, have, i);
      if cidrs[i] !in have {
        GrowsTo(from, api.vm, name, cidrs, api.vm.ipsets[name] + [cidrs[i]]);
        ok := api.PostEntry(name, cidrs[i]);
        if !ok { return; }
      }
    }
    assert cidrs[..|cidrs|] == cidrs;
    ok := true;
  }

  lemma GrowsSelf(vm: Vm, name: string, cidrs: seq<string>)
    ensures Grows(vm, vm, name, cidrs)
    ensures name !in vm.ipsets ==> Grows(vm, vm.(ipsets := vm.ipsets[name := []]), name, cidrs)
  {
  }

  /** Makes the set hold exactly `cidrs`: creates it when missing, deletes what is not wanted, then
      adds what is not there. At no moment does it lose an address that is wanted. It succeeds exactly
      when no call was hindered and every address that is listed twice was there already: the second
      addition of a new one is refused. */
  method SyncIpSet(api: Api, name: string, cidrs: seq<string>) returns (ok: bool)
    modifies api`vm, api`trace, api`script, api`hindered
    ensures GrowsAlong(api.trace, |old(api.trace)|, old(api.vm), name, cidrs) && old(api.trace) <= api.trace
    ensures Grows(old(api.vm), api.vm, name, cidrs)
    ensures ok ==> name in api.vm.ipsets && forall c :: c in api.vm.ipsets[name] <==> c in cidrs
    ensures ok <==> api.hindered == old(api.hindered) && DoublesIn(cidrs, EntriesOf(old(api.vm), name))
    ensures old(api.script) == [] ==> api.script == [] && api.hindered == old(api.hindered)
  {
    hide Grows, DoublesIn;
    ghost var from := api.vm;
    GrowsSelf(from, name, cidrs);
    var names: set<string>;
    ok, names := api.ListSets();
    if !ok { return; }
    if name !in names {
      ok := api.PostSet(name);
      if !ok { return; }
    }
    var entries: seq<string>;
    ok, entries := api.GetSet(name);
    if !ok { return; }
    ok := DropUnwanted(api, name, cidrs, entries, from);
    if !ok { return; }
    assert entries == EntriesOf(from, name);
    ok := AddMissing(api, name, cidrs, entries, from);
  }

  /** Removes the set with its entries. A missing set is fine. */
  method DeleteIpSet(api: Api, name: string) returns (ok: bool)
    modifies api`vm, api`trace, api`script, api`hindered
    ensures forall j | |old(api.trace)| <= j < |api.trace| ::
              api.trace[j] == old(api.vm) || api.trace[j] == old(api.vm).(ipsets := old(api.vm).ipsets - {name})
    ensures old(api.trace) <= api.trace
    ensures api.vm == old(api.vm) || api.vm == old(api.vm).(ipsets := old(api.vm).ipsets - {name})
    ensures ok ==> name !in api.vm.ipsets
    ensures ok <==> api.hindered == old(api.hindered)
    ensures old(api.script) == [] ==> api.script == [] && api.hindered == old(api.hindered)
  {
    var names: set<string>;
    ok, names := api.ListSets();
    if !ok || name !in names { return; }
    ok := api.DeleteSet(name);
  }

  // ---- the whole reconciliation ----

  /** NIC `k` may be filtered: its own static address is among the addresses sent for it. */
  predicate Matches(config: map<string, string>, addrs: map<string, seq<string>>, k: string) {
    StaticOf(config, k) != "" && k in addrs && StaticOf(config, k) in addrs[k]
  }

  /** A NIC configured with a static address, as the agent writes it, may be filtered exactly if the plan
      has that address for it; one on DHCP or without a configuration may not. */
  lemma WrittenNicMatches(
      config: map<string, string>, addrs: map<string, seq<string>>, n: string, address: string, prefix: string)
    requires ',' !in address && '/' !in address && ',' !in prefix && address != "dhcp" && address != ""
    ensures Lookup(config, "ipconfig" + n) == "ip=" + address + "/" + prefix ==>
              (Matches(config, addrs, "net" + n) <==> "net" + n in addrs && address in addrs["net" + n])
    ensures Lookup(config, "ipconfig" + n) == "ip=dhcp" || "ipconfig" + n !in config ==>
              !Matches(config, addrs, "net" + n)
  {
    hide StaticAddress;
    assert ("net" + n)[3..] == n;
    StaticAddressReadsBack(address, prefix, "");
    NoConfigNoAddress();
  }

  lemma NoConfigNoAddress()
    ensures StaticAddress("") == ""
  {
    assert SplitOn("", ',') == [[]];
  }

  ghost predicate MayEnable(config: map<string, string>, addrs: map<string, seq<string>>) {
    && (exists k :: k in config && IsNic(k))
    && forall k | k in config && IsNic(k) :: Matches(config, addrs, k)
  }

  /** The sets say what the plan wants for NIC `k`: its addresses, or no set at all. */
  ghost predicate Settled(vm: Vm, addrs: map<string, seq<string>>, k: string) {
    if Matches(vm.config, addrs, k)
    then SetName(k) in vm.ipsets && forall c :: c in vm.ipsets[SetName(k)] <==> c in addrs[k]
    else SetName(k) !in vm.ipsets
  }

  lemma SetNamesDiffer(k: string, m: string)
    ensures SetName(k) == SetName(m) ==> k == m
  {
    assert SetName(k)[|"ipfilter-"|..] == k && SetName(m)[|"ipfilter-"|..] == m;
  }

  lemma OnlyRulesSafe(trace: seq<Vm>, n: nat, vm: Vm, ipfilter: bool)
    requires OnlyRules(trace, n, vm, ipfilter)
    requires Safe(vm) && (ipfilter ==> Filterable(vm))
    ensures SafeFrom(trace, n)
  {
    forall j | n <= j < |trace| ensures Safe(trace[j]) {
      if trace[j].ipfilter {
        assert Filterable(vm);
        assert forall k | k in vm.config && IsNic(k) :: Passes(trace[j], k) by {
          assert forall k :: Passes(trace[j], k) == Passes(vm, k);
        }
      }
    }
  }

  lemma GrowsKeepsSafe(from: Vm, to: Vm, k: string, cidrs: seq<string>)
    requires Grows(from, to, SetName(k), cidrs) && Safe(from)
    requires StaticOf(from.config, k) in cidrs
    ensures Safe(to)
  {
    hide StaticOf, SetName, IsNic;
    if to.ipfilter {
      forall m | m in to.config && IsNic(m) ensures Passes(to, m) {
        assert Passes(from, m);
        SetNamesDiffer(k, m);
      }
    }
  }

  lemma GrowsKeepsSettled(from: Vm, to: Vm, addrs: map<string, seq<string>>, k: string, cidrs: seq<string>, m: string)
    requires Grows(from, to, SetName(k), cidrs) && m != k && Settled(from, addrs, m)
    ensures Settled(to, addrs, m)
  {
    hide StaticOf, SetName;
    SetNamesDiffer(k, m);
  }

  lemma DeleteKeepsSettled(from: Vm, to: Vm, addrs: map<string, seq<string>>, k: string, m: string)
    requires to == from || to == from.(ipsets := from.ipsets - {SetName(k)})
    requires m != k && Settled(from, addrs, m)
    ensures Settled(to, addrs, m)
  {
    hide StaticOf, SetName;
    SetNamesDiffer(k, m);
  }

  /** Every NIC's set is synced or removed, in any order. */
  ghost predicate SameButSets(from: Vm, to: Vm) {
    to == from.(ipsets := to.ipsets)
  }

  /** No address that the plan lists twice for NIC `k` is missing from its set. */
  predicate Addable(vm: Vm, addrs: map<string, seq<string>>, k: string) {
    Matches(vm.config, addrs, k) ==> DoublesIn(addrs[k], EntriesOf(vm, SetName(k)))
  }

  lemma AddableSame(from: Vm, to: Vm, addrs: map<string, seq<string>>, k: string)
    requires SameButSets(from, to) && EntriesOf(to, SetName(k)) == EntriesOf(from, SetName(k))
    ensures Addable(to, addrs, k) == Addable(from, addrs, k)
  {
  }

  lemma OthersAddable(from: Vm, to: Vm, addrs: map<string, seq<string>>, k: string, cidrs: seq<string>, m: string)
    requires Grows(from, to, SetName(k), cidrs) || to == from || to == from.(ipsets := from.ipsets - {SetName(k)})
    requires m != k
    ensures Addable(to, addrs, m) == Addable(from, addrs, m)
  {
    hide Matches, DoublesIn, SetName;
    SetNamesDiffer(k, m);
    AddableSame(from, to, addrs, m);
  }

  /** Brings the set of one NIC to its wanted state. */
  method SettleNic(api: Api, addrs: map<string, seq<string>>, k: string) returns (ok: bool)
    requires api.vm.ipfilter ==> Matches(api.vm.config, addrs, k)
    modifies api`vm, api`trace, api`script, api`hindered
    ensures old(api.trace) <= api.trace && SameButSets(old(api.vm), api.vm)
    ensures Safe(old(api.vm)) ==> SafeFrom(api.trace, |old(api.trace)|) && Safe(api.vm)
    ensures forall m | m != k && Settled(old(api.vm), addrs, m) :: Settled(api.vm, addrs, m)
    ensures ok ==> Settled(api.vm, addrs, k)
    ensures ok <==> api.hindered == old(api.hindered) && Addable(old(api.vm), addrs, k)
    ensures forall m | m != k :: Addable(api.vm, addrs, m) == Addable(old(api.vm), addrs, m)
    ensures old(api.script) == [] ==> api.script == [] && api.hindered == old(api.hindered)
  {
    hide StaticOf, SetName, Safe, Settled, Grows, IsNic, DoublesIn, EntriesOf;
    ghost var from := api.vm;
    ghost var start := |api.trace|;
    if Matches(api.vm.config, addrs, k) {
      ok := SyncIpSet(api, SetName(k), addrs[k]);
      assert SameButSets(from, api.vm) by { GrowsFrame(from, api.vm, SetName(k), addrs[k]); }
      assert ok ==> Settled(api.vm, addrs, k) by { SyncedIsSettled(api.vm, addrs, k); }
      forall m | m != k && Settled(from, addrs, m) ensures Settled(api.vm, addrs, m) {
        GrowsKeepsSettled(from, api.vm, addrs, k, addrs[k], m);
      }
      forall m | m != k ensures Addable(api.vm, addrs, m) == Addable(from, addrs, m) {
        OthersAddable(from, api.vm, addrs, k, addrs[k], m);
      }
      if Safe(from) {
        GrowsKeepsSafe(from, api.vm, k, addrs[k]);
        forall j | start <= j < |api.trace| ensures Safe(api.trace[j]) {
          GrowsKeepsSafe(from, api.trace[j], k, addrs[k]);
        }
      }
    } else {
      ok := DeleteIpSet(api, SetName(k));
      assert ok ==> Settled(api.vm, addrs, k) by { DeletedIsSettled(api.vm, addrs, k); }
      forall m | m != k && Settled(from, addrs, m) ensures Settled(api.vm, addrs, m) {
        DeleteKeepsSettled(from, api.vm, addrs, k, m);
      }
      forall m | m != k ensures Addable(api.vm, addrs, m) == Addable(from, addrs, m) {
        OthersAddable(from, api.vm, addrs, k, [], m);
      }
      OffIsSafe(api.vm);
      forall j | start <= j < |api.trace| ensures Safe(api.trace[j]) { OffIsSafe(api.trace[j]); }
    }
  }

  lemma GrowsFrame(from: Vm, to: Vm, name: string, cidrs: seq<string>)
    requires Grows(from, to, name, cidrs)
    ensures SameButSets(from, to)
  {
  }

  lemma OffIsSafe(vm: Vm)
    ensures !vm.ipfilter ==> Safe(vm)
  {
  }

  lemma SyncedIsSettled(vm: Vm, addrs: map<string, seq<string>>, k: string)
    requires Matches(vm.config, addrs, k)
    ensures SetName(k) in vm.ipsets && (forall c :: c in vm.ipsets[SetName(k)] <==> c in addrs[k]) ==>
              Settled(vm, addrs, k)
  {
    hide StaticOf, SetName;
  }

  lemma DeletedIsSettled(vm: Vm, addrs: map<string, seq<string>>, k: string)
    requires !Matches(vm.config, addrs, k)
    ensures SetName(k) !in vm.ipsets ==> Settled(vm, addrs, k)
  {
    hide StaticOf, SetName;
  }

  /** Settles every NIC in any order. While the filter is on, every NIC must match. */
  method SettleNics(api: Api, addrs: map<string, seq<string>>, nics: set<string>) returns (ok: bool)
    requires api.vm.ipfilter ==> forall k | k in nics :: Matches(api.vm.config, addrs, k)
    modifies api`vm, api`trace, api`script, api`hindered
    ensures old(api.trace) <= api.trace && SameButSets(old(api.vm), api.vm)
    ensures Safe(old(api.vm)) ==> SafeFrom(api.trace, |old(api.trace)|) && Safe(api.vm)
    ensures ok ==> forall k | k in nics :: Settled(api.vm, addrs, k)
    ensures ok <==> api.hindered == old(api.hindered) && forall k | k in nics :: Addable(old(api.vm), addrs, k)
    ensures old(api.script) == [] ==> api.script == [] && api.hindered == old(api.hindered)
  {
    hide Matches, Safe, Settled, IsNic, Addable;
    var left := nics;
    while left != {}
      invariant left <= nics && old(api.trace) <= api.trace && SameButSets(old(api.vm), api.vm)
      invariant Safe(old(api.vm)) ==> SafeFrom(api.trace, |old(api.trace)|) && Safe(api.vm)
      invariant forall k | k in nics && k !in left :: Settled(api.vm, addrs, k)
      invariant forall k | k in nics && k !in left :: Addable(old(api.vm), addrs, k)
      invariant forall k | k in left :: Addable(api.vm, addrs, k) == Addable(old(api.vm), addrs, k)
      invariant api.hindered == old(api.hindered)
      invariant old(api.script) == [] ==> api.script == []
      decreases |left|
    {
      var k :| k in left;
      ok := SettleNic(api, addrs, k);
      if !ok { return; }
      left := left - {k};
    }
    ok := true;
  }

  lemma SettledIsFilterable(vm: Vm, addrs: map<string, seq<string>>)
    requires forall k | k in vm.config && IsNic(k) :: Matches(vm.config, addrs, k) && Settled(vm, addrs, k)
    ensures Filterable(vm)
  {
    hide IsNic, StaticOf, SetName;
  }

  /** What `SetFirewall` leaves, given what it may change. */
  lemma AfterSetFirewall(trace: seq<Vm>, n: nat, from: Vm, to: Vm, ipfilter: bool)
    requires OnlyRules(trace, n, from, ipfilter) && (ipfilter ==> Filterable(from))
    requires to.config == from.config && to.ipsets == from.ipsets
              && (to.ipfilter == from.ipfilter || to.ipfilter == ipfilter)
    ensures Safe(from) ==> SafeFrom(trace, n) && Safe(to)
    ensures to.ipfilter == ipfilter ==> Safe(to)
  {
    hide IsNic, Filterable, Safe;
    if Safe(from) { OnlyRulesSafe(trace, n, from, ipfilter); }
    OffIsSafe(to);
    if ipfilter { FilterableIsSafe(from, to); }
    if Safe(from) && (to.ipfilter ==> from.ipfilter) { SafeUnlessSwitchedOn(from, to); }
  }

  lemma SafeUnlessSwitchedOn(from: Vm, to: Vm)
    requires Safe(from) && to.config == from.config && to.ipsets == from.ipsets && (to.ipfilter ==> from.ipfilter)
    ensures Safe(to)
  {
    hide IsNic, StaticOf, SetName;
    if to.ipfilter {
      forall k | k in to.config && IsNic(k) ensures Passes(to, k) { assert Passes(from, k); }
    }
  }

  lemma NothingKept(kept: seq<Form>, forms: seq<Form>)
    ensures kept + forms == forms <==> |kept| == 0
  {
    assert |kept| == 0 ==> kept + forms == forms;
    assert |kept + forms| == |kept| + |forms|;
  }

  lemma MayEnableIff(config: map<string, string>, addrs: map<string, seq<string>>, nics: set<string>)
    requires nics == set k | k in config && IsNic(k)
    ensures MayEnable(config, addrs) <==> nics != {} && forall k | k in nics :: Matches(config, addrs, k)
  {
    hide Matches, IsNic;
    if MayEnable(config, addrs) {
      var k :| k in config && IsNic(k);
      assert k in nics;
    }
    if nics != {} && forall k | k in nics :: Matches(config, addrs, k) {
      var k :| k in nics;
      assert k in config && IsNic(k);
      assert MayEnable(config, addrs);
    }
  }

  lemma OneRefusal(rule: Form)
    ensures Deletions([rule], [], [Refused]) == (true, [rule], [])
  {
    hide Deletions;
    NextDeletion([rule], 0, [], [Refused]);
    DeletionsDone([rule], []);
    assert [rule][..1] == [rule] && [rule][..0] == [] && [rule] + [] == [rule];
    assert Rest([Refused]) == [];
  }

  /** One refused deletion is enough: `SetFirewall` reports success, and the old rule is still there, in
      front of the wanted ones. */
  method ARefusedDeletionLeavesItsRule(config: map<string, string>, rule: Form, rules: seq<FWRule>, ipfilter: bool)
    returns (api: Api, ok: bool)
    ensures fresh(api) && ok && api.refused == 1
    ensures api.vm.rules == [rule] + Forms(rules) && api.vm.rules != Forms(rules)
  {
    hide Forms;
    var script := [Works, Works, Refused];
    api := new Api(Vm(config, map[], !ipfilter, map[], [rule]), script);
    assert Rest(Rest(script)) == [Refused];
    OneRefusal(rule);
    ghost var kept;
    ok, kept := SetFirewall(api, rules, ipfilter);
    NothingKept([rule], Forms(rules));
  }

  /** From a safe VM every moment of the call is safe, wherever it stops. When it succeeds, whatever
      the VM was like before: the filter is on exactly when every NIC, and there is one, may be
      filtered; each NIC's set holds exactly its addresses or does not exist; the VM is safe; and the
      rules are what refused deletions left, then the wanted ones, so exactly the wanted ones if and
      only if no deletion was refused. */
  method ApplyFirewall(api: Api, rules: seq<FWRule>, addresses: Option<map<string, seq<string>>>)
    returns (ok: bool, ghost kept: seq<Form>)
    modifies api
    ensures old(api.trace) <= api.trace && api.vm.config == old(api.vm).config
    ensures Safe(old(api.vm)) ==> SafeFrom(api.trace, |old(api.trace)|) && Safe(api.vm)
    ensures ok ==> Safe(api.vm)
    ensures ok ==> (api.vm.ipfilter <==> addresses != None && MayEnable(api.vm.config, addresses.value))
    ensures ok && addresses != None ==> forall k | k in api.vm.config && IsNic(k) :: Settled(api.vm, addresses.value, k)
    ensures ok ==>
              api.vm.options == FilterOptions() && api.vm.rules == kept + Forms(rules)
              && Remains(kept, old(api.vm).rules) && |kept| == api.refused - old(api.refused)
    ensures ok <==> api.hindered == old(api.hindered) && (addresses == None
                      || forall k | k in old(api.vm).config && IsNic(k) :: Addable(old(api.vm), addresses.value, k))
    ensures old(api.script) == [] ==> api.script == [] && api.hindered == old(api.hindered)
    ensures ok ==> (api.vm.rules == Forms(rules) <==> api.refused == old(api.refused))
    ensures ok && api.refused == old(api.refused) ==> Enforces(api.vm, rules)
  {
    hide Matches, Safe, Settled, IsNic, Filterable, Remains, Forms, OnlyRules, Addable, Enforces, FilterOptions;
    kept := [];
    ghost var n := |api.trace|;
    if addresses == None {
      ok, kept := SetFirewall(api, rules, false);
      AfterSetFirewall(api.trace, n, old(api.vm), api.vm, false);
      NothingKept(kept, Forms(rules));
      WantedRulesEnforce(api.vm, rules);
      return;
    }
    var config: map<string, string>;
    ok, config := api.GetConfig();
    if !ok { return; }
    var nics := set k | k in config && IsNic(k);
    MayEnableIff(config, addresses.value, nics);
    if nics != {} && forall k | k in nics :: Matches(config, addresses.value, k) {
      ok, kept := TurnOn(api, rules, addresses.value, nics);
    } else {
      ok, kept := TurnOff(api, rules, addresses.value, nics);
    }
    NothingKept(kept, Forms(rules));
    WantedRulesEnforce(api.vm, rules);
  }

  /** The job: translates the security group's rules and applies them. When it succeeds and no deletion was
      refused, an inbound packet passes if and only if some inbound rule of the group lists it. */
  method ApplyGroup(api: Api, group: seq<Rule>, addresses: Option<map<string, seq<string>>>) returns (ok: bool)
    modifies api
    ensures api.vm.config == old(api.vm).config
    ensures Safe(old(api.vm)) ==> SafeFrom(api.trace, |old(api.trace)|) && Safe(api.vm)
    ensures ok && api.refused == old(api.refused) ==>
              forall inRange: Ranges, p: Packet ::
                LetsThrough(inRange, api.vm, p)
                <==> !p.inbound || exists i :: 0 <= i < |group| && Lists(inRange, group[i], p)
    ensures old(api.script) == [] && addresses == None ==> ok
  {
    hide Safe, Settled, Remains, Forms, Enforces, FilterOptions, LetsThrough, Lists, IsNic, Translated, MayEnable;
    var rules := ToPveRules(group);
    ghost var kept;
    ok, kept := ApplyFirewall(api, rules, addresses);
    if ok && api.refused == old(api.refused) {
      forall inRange: Ranges, p: Packet
        ensures LetsThrough(inRange, api.vm, p)
                <==> !p.inbound || exists i :: 0 <= i < |group| && Lists(inRange, group[i], p)
      {
        GroupIsEnforced(inRange, api.vm, group, p);
      }
    }
  }

  /** The filter goes off before any set is removed, so no NIC is ever filtered with an empty set. */
  method TurnOff(api: Api, rules: seq<FWRule>, addrs: map<string, seq<string>>, nics: set<string>)
    returns (ok: bool, ghost kept: seq<Form>)
    modifies api
    ensures old(api.trace) <= api.trace && api.vm.config == old(api.vm).config
    ensures Safe(old(api.vm)) ==> SafeFrom(api.trace, |old(api.trace)|) && Safe(api.vm)
    ensures ok ==> !api.vm.ipfilter && Safe(api.vm) && forall k | k in nics :: Settled(api.vm, addrs, k)
    ensures ok ==>
              api.vm.options == FilterOptions() && api.vm.rules == kept + Forms(rules)
              && Remains(kept, old(api.vm).rules) && |kept| == api.refused - old(api.refused)
    ensures ok <==> api.hindered == old(api.hindered) && forall k | k in nics :: Addable(old(api.vm), addrs, k)
    ensures old(api.script) == [] ==> api.script == [] && api.hindered == old(api.hindered)
  {
    hide Matches, Safe, Settled, IsNic, Filterable, Remains, Forms, OnlyRules, Addable;
    ghost var n := |api.trace|;
    ok, kept := SetFirewall(api, rules, false);
    AfterSetFirewall(api.trace, n, old(api.vm), api.vm, false);
    if !ok { return; }
    forall k ensures Addable(api.vm, addrs, k) == Addable(old(api.vm), addrs, k) {
      AddableKept(old(api.vm), api.vm, addrs, k);
    }
    ok := SettleNics(api, addrs, nics);
  }

  /** The filter goes on only after every NIC's set is in place. */
  method TurnOn(api: Api, rules: seq<FWRule>, addrs: map<string, seq<string>>, nics: set<string>)
    returns (ok: bool, ghost kept: seq<Form>)
    requires nics == set k | k in api.vm.config && IsNic(k)
    requires forall k | k in nics :: Matches(api.vm.config, addrs, k)
    modifies api
    ensures old(api.trace) <= api.trace && api.vm.config == old(api.vm).config
    ensures Safe(old(api.vm)) ==> SafeFrom(api.trace, |old(api.trace)|) && Safe(api.vm)
    ensures ok ==> api.vm.ipfilter && Safe(api.vm) && forall k | k in nics :: Settled(api.vm, addrs, k)
    ensures ok ==>
              api.vm.options == FilterOptions() && api.vm.rules == kept + Forms(rules)
              && Remains(kept, old(api.vm).rules) && |kept| == api.refused - old(api.refused)
    ensures ok <==> api.hindered == old(api.hindered) && forall k | k in nics :: Addable(old(api.vm), addrs, k)
    ensures old(api.script) == [] ==> api.script == [] && api.hindered == old(api.hindered)
  {
    hide Matches, Safe, Settled, IsNic, Filterable, Remains, Forms, OnlyRules, Addable;
    kept := [];
    ok := SettleNics(api, addrs, nics);
    if !ok { return; }
    ghost var settled := api.vm;
    ghost var n := |api.trace|;
    SettledIsFilterable(settled, addrs);
    ok, kept := SetFirewall(api, rules, true);
    AfterSetFirewall(api.trace, n, settled, api.vm, true);
    forall k | k in nics && Settled(settled, addrs, k)
      ensures Settled(api.vm, addrs, k)
    {
      SettledSame(settled, api.vm, addrs, k);
    }
  }

  lemma AddableKept(vm: Vm, after: Vm, addrs: map<string, seq<string>>, k: string)
    requires after.config == vm.config && after.ipsets == vm.ipsets
    ensures Addable(after, addrs, k) == Addable(vm, addrs, k)
  {
  }

  lemma FilterableIsSafe(vm: Vm, after: Vm)
    requires Filterable(vm) && after.config == vm.config && after.ipsets == vm.ipsets
    ensures Safe(after)
  {
    hide IsNic, StaticOf, SetName;
    forall k | k in after.config && IsNic(k) ensures Passes(after, k) { assert Passes(vm, k); }
  }

  lemma SettledSame(vm: Vm, after: Vm, addrs: map<string, seq<string>>, k: string)
    requires after.config == vm.config && after.ipsets == vm.ipsets
    ensures Settled(after, addrs, k) == Settled(vm, addrs, k)
  {
  }
}
