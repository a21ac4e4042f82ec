/** Firewall rules and the IP filter: how the agent brings a VM to the wanted state
    (agents/host-agent/internal/agent/agent.go, agents/host-agent/internal/proxmox/client.go). */
module FirewallSpec {
  import opened Hypervisor

  // ---- addresses and NICs ----

  function SplitOn(s: string, c: char): (parts: seq<string>)
    ensures |parts| > 0
  {
    if s == [] then [[]]
    else
      var rest := SplitOn(s[1..], c);
      if s[0] == c then [[]] + rest else [[s[0]] + rest[0]] + rest[1..]
  }

  function FirstIp(parts: seq<string>): string {
    if parts == [] then ""
    else if "ip=" <= parts[0] && parts[0][3..] != "dhcp" then SplitOn(parts[0][3..], '/')[0]
    else FirstIp(parts[1..])
  }

  /** The address of a cloud-init ipconfig with a static address, or "". */
  function StaticAddress(ipconfig: string): string {
    FirstIp(SplitOn(ipconfig, ','))
  }

  predicate Digits(s: string) {
    forall i | 0 <= i < |s| :: '0' <= s[i] <= '9'
  }

  predicate IsNic(k: string) {
    "net" <= k && |k| > 3 && Digits(k[3..])
  }

  function Lookup(config: map<string, string>, k: string): string {
    if k in config then config[k] else ""
  }

  /** The static address that cloud-init gives NIC `k`. */
  function StaticOf(config: map<string, string>, k: string): string {
    if |k| >= 3 then StaticAddress(Lookup(config, "ipconfig" + k[3..])) else ""
  }

  function SetName(k: string): string {
    "ipfilter-" + k
  }

  // ---- safety ----

  /** The NIC can send from its own address while the filter is on. */
  predicate Passes(vm: Vm, k: string) {
    && StaticOf(vm.config, k) != ""
    && SetName(k) in vm.ipsets && StaticOf(vm.config, k) in vm.ipsets[SetName(k)]
  }

  /** Every NIC would keep its traffic if the filter were on. */
  ghost predicate Filterable(vm: Vm) {
    forall k | k in vm.config && IsNic(k) :: Passes(vm, k)
  }

  ghost predicate Safe(vm: Vm) {
    vm.ipfilter ==> Filterable(vm)
  }

  ghost predicate SafeFrom(trace: seq<Vm>, n: nat) {
    forall j | n <= j < |trace| :: Safe(trace[j])
  }

  // ---- rules ----

  datatype FWRule = FWRule(typ: string, action: string, proto: string, dport: string, source: string, dest: string)

  function Colons(s: string): string {
    seq(|s|, i requires 0 <= i < |s| => if s[i] == '-' then ':' else s[i])
  }

  function Put(f: Form, k: string, v: string, present: bool): Form {
    if present then f[k := v] else f
  }

  /** On, inbound dropped and outbound accepted where no rule says otherwise. */
  function FilterOptions(): Form {
    map["enable" := "1", "policy_in" := "DROP", "policy_out" := "ACCEPT", "dhcp" := "1", "ndp" := "1"]
  }

  /** The form a rule is posted as: empty fields are left out, and ports only go with tcp and udp. */
  function FormOf(r: FWRule): Form {
    var f := map["type" := r.typ, "action" := r.action, "enable" := "1"];
    var p := Put(f, "proto", r.proto, r.proto != "" && r.proto != "any");
    var d := Put(p, "dport", Colons(r.dport), r.dport != "" && (r.proto == "tcp" || r.proto == "udp"));
    Put(Put(d, "source", r.source, r.source != ""), "dest", r.dest, r.dest != "")
  }

  function Forms(rules: seq<FWRule>): seq<Form> {
    seq(|rules|, i requires 0 <= i < |rules| => FormOf(rules[i]))
  }

  datatype Rule = Rule(direction: string, protocol: string, ports: string, cidrs: seq<string>)

  function ForCidr(r: Rule, cidr: string): FWRule {
    if r.direction == "outbound" then FWRule("out", "ACCEPT", r.protocol, r.ports, "", cidr)
    else FWRule("in", "ACCEPT", r.protocol, r.ports, cidr, "")
  }

  function ForCidrs(r: Rule, cidrs: seq<string>): seq<FWRule> {
    seq(|cidrs|, i requires 0 <= i < |cidrs| => ForCidr(r, cidrs[i]))
  }

  /** One rule per address range, in the order given. */
  function Translated(rules: seq<Rule>): seq<FWRule> {
    if rules == [] then []
    else Translated(rules[..|rules| - 1]) + ForCidrs(rules[|rules| - 1], rules[|rules| - 1].cidrs)
  }

  /** `x` is what rule `r` becomes for one of its address ranges. */
  ghost predicate ComesFrom(x: FWRule, r: Rule) {
    exists j :: 0 <= j < |r.cidrs| && x == ForCidr(r, r.cidrs[j])
  }

  lemma ForCidrsCovers(r: Rule, x: FWRule)
    ensures x in ForCidrs(r, r.cidrs) <==> ComesFrom(x, r)
  {
    hide ForCidr;
    if ComesFrom(x, r) {
      var j :| 0 <= j < |r.cidrs| && x == ForCidr(r, r.cidrs[j]);
      assert ForCidrs(r, r.cidrs)[j] == x;
    }
  }

  /** The translation allows exactly what the given rules list: every rule for every address range,
      and nothing else. */
  lemma {:induction false} TranslatedCovers(rules: seq<Rule>, x: FWRule)
    ensures x in Translated(rules) <==> exists i :: 0 <= i < |rules| && ComesFrom(x, rules[i])
  {
    hide ComesFrom, ForCidrs;
    if rules != [] {
      var n := |rules| - 1;
      TranslatedCovers(rules[..n], x);
      ForCidrsCovers(rules[n], x);
      if i :| 0 <= i < n && ComesFrom(x, rules[i]) { assert ComesFrom(x, rules[..n][i]); }
    }
  }

  // ---- what cloud-init configs say ----

  lemma {:induction false} SplitPlain(s: string, c: char)
    requires c !in s
    ensures SplitOn(s, c) == [s]
  {
    if s != [] {
      SplitPlain(s[1..], c);
      assert s == [s[0]] + s[1..];
    }
  }

  lemma {:induction false} SplitFirst(s: string, c: char, rest: string)
    requires c !in s
    ensures SplitOn(s + [c] + rest, c) == [s] + SplitOn(rest, c)
  {
    if s == [] {
      assert s + [c] + rest == [c] + rest;
    } else {
      SplitFirst(s[1..], c, rest);
      assert (s + [c] + rest)[1..] == s[1..] + [c] + rest;
      assert s == [s[0]] + s[1..];
    }
  }

  /** The config the agent writes for a static address is read back as that address, with a gateway
      behind it or not. */
  lemma StaticAddressReadsBack(address: string, prefix: string, gateway: string)
    requires ',' !in address && '/' !in address && ',' !in prefix && address != "dhcp"
    ensures StaticAddress("ip=" + address + "/" + prefix) == address
    ensures StaticAddress("ip=" + address + "/" + prefix + ",gw=" + gateway) == address
    ensures StaticAddress("ip=dhcp") == ""
  {
    hide SplitOn;
    var part := "ip=" + address + "/" + prefix;
    AddressOfPart(address, prefix);
    SplitPlain(part, ',');
    SplitFirst(part, ',', "gw=" + gateway);
    assert part + ",gw=" + gateway == part + [','] + ("gw=" + gateway);
    SplitPlain("ip=dhcp", ',');
    assert "ip=dhcp"[3..] == "dhcp";
  }

  lemma AddressOfPart(address: string, prefix: string)
    requires '/' !in address
    ensures var part := "ip=" + address + "/" + prefix;
            "ip=" <= part && part[3..] != "dhcp" && SplitOn(part[3..], '/')[0] == address
  {
    hide SplitOn;
    var part := "ip=" + address + "/" + prefix;
    assert part[3..] == address + ['/'] + prefix;
    assert part[3..][|address|] == '/';
    SplitFirst(address, '/', prefix);
  }
}
