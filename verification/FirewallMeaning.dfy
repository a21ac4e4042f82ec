/** What firewall rules mean: which packets the hypervisor lets through, judged from the forms it was
    given, against what the rules and the security group list. Whether an address is in a range is a
    parameter. */
module FirewallMeaning {
  import opened Options
  import opened Hypervisor
  import opened FirewallSpec

  type Address = string

  type Ranges = (string, Address) -> bool

  datatype Packet = Packet(inbound: bool, proto: string, port: nat, from: Address, to: Address)

  // ---- ports ----

  predicate IsNumber(s: string) {
    s != "" && Digits(s)
  }

  function Value(s: string): nat
    requires Digits(s)
  {
    if s == [] then 0 else 10 * Value(s[..|s| - 1]) + (s[|s| - 1] as int - '0' as int)
  }

  /** The text cut at every separator. */
  function CutAt(s: string, seps: set<char>): (parts: seq<string>)
    ensures |parts| > 0
  {
    if s == [] then [[]]
    else
      var rest := CutAt(s[1..], seps);
      if s[0] in seps then [[]] + rest else [[s[0]] + rest[0]] + rest[1..]
  }

  /** One number, or the bounds of a range. */
  predicate InBounds(bounds: seq<string>, port: nat) {
    || (|bounds| == 1 && IsNumber(bounds[0]) && Value(bounds[0]) == port)
    || (|bounds| == 2 && IsNumber(bounds[0]) && IsNumber(bounds[1]) && Value(bounds[0]) <= port <= Value(bounds[1]))
  }

  /** A list of ports and ranges, separated by commas. */
  predicate PortListed(ports: string, seps: set<char>, port: nat) {
    exists item | item in SplitOn(ports, ',') :: InBounds(CutAt(item, seps), port)
  }

  // ---- the hypervisor's reading ----

  predicate Has(f: Form, k: string, v: string) {
    k in f && f[k] == v
  }

  /** A field that is not in the form stands for anything; a range of ports is written with a colon. */
  predicate FormMatches(inRange: Ranges, f: Form, p: Packet) {
    && Has(f, "type", if p.inbound then "in" else "out") && Has(f, "enable", "1")
    && ("proto" in f ==> f["proto"] == p.proto)
    && ("dport" in f ==> PortListed(f["dport"], {':'}, p.port))
    && ("source" in f ==> inRange(f["source"], p.from))
    && ("dest" in f ==> inRange(f["dest"], p.to))
  }

  /** The first rule that matches decides, then the policy of the direction. */
  function Verdict(inRange: Ranges, rules: seq<Form>, policy: bool, p: Packet): bool {
    if rules == [] then policy
    else if FormMatches(inRange, rules[0], p) then Has(rules[0], "action", "ACCEPT")
    else Verdict(inRange, rules[1..], policy, p)
  }

  predicate LetsThrough(inRange: Ranges, vm: Vm, p: Packet) {
    Has(vm.options, "enable", "1") ==>
      Verdict(inRange, vm.rules, Has(vm.options, if p.inbound then "policy_in" else "policy_out", "ACCEPT"), p)
  }

  // ---- the agent's rules ----

  predicate WithPorts(proto: string) {
    proto == "tcp" || proto == "udp"
  }

  /** Ports mean something for tcp and udp only; a range of them is written with a dash. */
  predicate Describes(inRange: Ranges, r: FWRule, p: Packet) {
    && r.typ == (if p.inbound then "in" else "out")
    && (r.proto == "" || r.proto == "any" || r.proto == p.proto)
    && (WithPorts(r.proto) && r.dport != "" ==> PortListed(r.dport, {'-', ':'}, p.port))
    && (r.source == "" || inRange(r.source, p.from))
    && (r.dest == "" || inRange(r.dest, p.to))
  }

  /** The first rule that describes the packet decides; otherwise only outbound packets pass. */
  function Decides(inRange: Ranges, rules: seq<FWRule>, p: Packet): bool {
    if rules == [] then !p.inbound
    else if Describes(inRange, rules[0], p) then rules[0].action == "ACCEPT"
    else Decides(inRange, rules[1..], p)
  }

  /** The hypervisor lets through exactly the packets that the rules let through. */
  ghost predicate Enforces(vm: Vm, rules: seq<FWRule>) {
    forall inRange: Ranges, p: Packet :: LetsThrough(inRange, vm, p) <==> Decides(inRange, rules, p)
  }

  // ---- the security group's rules ----

  /** The other end of the packet is in one of the rule's ranges, and direction, protocol and port are
      the rule's; an empty range stands for any address. */
  ghost predicate Lists(inRange: Ranges, r: Rule, p: Packet) {
    && (r.direction == "outbound" <==> !p.inbound)
    && (r.protocol == "" || r.protocol == "any" || r.protocol == p.proto)
    && (WithPorts(r.protocol) && r.ports != "" ==> PortListed(r.ports, {'-', ':'}, p.port))
    && exists cidr | cidr in r.cidrs :: cidr == "" || inRange(cidr, if p.inbound then p.from else p.to)
  }

  // ---- colons and dashes ----

  lemma ColonsIn(s: string)
    requires s != []
    ensures Colons(s) == [if s[0] == '-' then ':' else s[0]] + Colons(s[1..])
  {
  }

  lemma {:induction false} CutColons(s: string)
    ensures CutAt(Colons(s), {':'}) == CutAt(s, {'-', ':'})
  {
    if s != [] {
      ColonsIn(s);
      assert Colons(s)[1..] == Colons(s[1..]);
      CutColons(s[1..]);
    }
  }

  lemma {:induction false} SplitColons(s: string)
    ensures |SplitOn(Colons(s), ',')| == |SplitOn(s, ',')|
    ensures forall i | 0 <= i < |SplitOn(s, ',')| :: SplitOn(Colons(s), ',')[i] == Colons(SplitOn(s, ',')[i])
  {
    if s != [] {
      ColonsIn(s);
      assert Colons(s)[1..] == Colons(s[1..]);
      SplitColons(s[1..]);
      var rest := SplitOn(s[1..], ',');
      if s[0] != ',' {
        var first := [s[0]] + rest[0];
        ColonsIn(first);
        assert first[1..] == rest[0];
      }
    }
  }

  lemma PortsKept(ports: string, port: nat)
    ensures PortListed(Colons(ports), {':'}, port) <==> PortListed(ports, {'-', ':'}, port)
  {
    hide InBounds, CutAt, SplitOn, Colons;
    var items, posted := SplitOn(ports, ','), SplitOn(Colons(ports), ',');
    SplitColons(ports);
    forall i | 0 <= i < |items|
      ensures InBounds(CutAt(posted[i], {':'}), port) <==> InBounds(CutAt(items[i], {'-', ':'}), port)
    {
      CutColons(items[i]);
    }
    if PortListed(Colons(ports), {':'}, port) {
      var i :| 0 <= i < |posted| && InBounds(CutAt(posted[i], {':'}), port);
      assert items[i] in items;
    }
    if PortListed(ports, {'-', ':'}, port) {
      var i :| 0 <= i < |items| && InBounds(CutAt(items[i], {'-', ':'}), port);
      assert posted[i] in posted;
    }
  }

  // ---- what is posted means what was asked ----

  /** The form posted for a rule matches exactly the packets that the rule describes, and carries its
      action. */
  lemma PostedMeansAsked(inRange: Ranges, r: FWRule, p: Packet)
    ensures FormMatches(inRange, FormOf(r), p) <==> Describes(inRange, r, p)
    ensures Has(FormOf(r), "action", "ACCEPT") <==> r.action == "ACCEPT"
  {
    hide PortListed, Colons;
    PortsKept(r.dport, p.port);
  }

  lemma {:induction false} FormsDecide(inRange: Ranges, rules: seq<FWRule>, p: Packet)
    ensures Verdict(inRange, Forms(rules), !p.inbound, p) == Decides(inRange, rules, p)
  {
    hide FormMatches, Describes, FormOf, Has;
    if rules != [] {
      assert Forms(rules)[0] == FormOf(rules[0]) && Forms(rules)[1..] == Forms(rules[1..]);
      PostedMeansAsked(inRange, rules[0], p);
      FormsDecide(inRange, rules[1..], p);
    }
  }

  /** With the options of `SetFirewall` and exactly the wanted rules, what passes is what they say. */
  lemma WantedRulesEnforce(vm: Vm, rules: seq<FWRule>)
    ensures vm.options == FilterOptions() && vm.rules == Forms(rules) ==> Enforces(vm, rules)
  {
    hide Forms, Verdict, Decides;
    if vm.options == FilterOptions() && vm.rules == Forms(rules) {
      forall inRange: Ranges, p: Packet ensures LetsThrough(inRange, vm, p) <==> Decides(inRange, rules, p) {
        FormsDecide(inRange, rules, p);
      }
    }
  }

  lemma {:induction false} AcceptingRulesDecide(inRange: Ranges, rules: seq<FWRule>, p: Packet)
    requires forall i | 0 <= i < |rules| :: rules[i].action == "ACCEPT"
    ensures Decides(inRange, rules, p)
            <==> !p.inbound || exists i :: 0 <= i < |rules| && Describes(inRange, rules[i], p)
  {
    hide Describes;
    if rules != [] {
      AcceptingRulesDecide(inRange, rules[1..], p);
      var rest := rules[1..];
      if i :| 0 <= i < |rest| && Describes(inRange, rest[i], p) { assert Describes(inRange, rules[i + 1], p); }
      if i :| 1 <= i < |rules| && Describes(inRange, rules[i], p) { assert Describes(inRange, rest[i - 1], p); }
    }
  }

  /** One range of a group's rule describes the packet exactly if the rule lists it for that range. */
  lemma RangeDescribes(inRange: Ranges, r: Rule, cidr: string, p: Packet)
    ensures Describes(inRange, ForCidr(r, cidr), p)
            <==> && (r.direction == "outbound" <==> !p.inbound)
                 && (r.protocol == "" || r.protocol == "any" || r.protocol == p.proto)
                 && (WithPorts(r.protocol) && r.ports != "" ==> PortListed(r.ports, {'-', ':'}, p.port))
                 && (cidr == "" || inRange(cidr, if p.inbound then p.from else p.to))
  {
    hide PortListed;
  }

  lemma RuleDescribes(inRange: Ranges, r: Rule, p: Packet)
    ensures (exists x :: ComesFrom(x, r) && Describes(inRange, x, p)) <==> Lists(inRange, r, p)
  {
    hide PortListed, Describes, ForCidr;
    if x :| ComesFrom(x, r) && Describes(inRange, x, p) {
      var j :| 0 <= j < |r.cidrs| && x == ForCidr(r, r.cidrs[j]);
      RangeDescribes(inRange, r, r.cidrs[j], p);
      assert r.cidrs[j] in r.cidrs;
    }
    if Lists(inRange, r, p) {
      var cidr :| cidr in r.cidrs && (cidr == "" || inRange(cidr, if p.inbound then p.from else p.to));
      RangeDescribes(inRange, r, cidr, p);
      assert ComesFrom(ForCidr(r, cidr), r);
    }
  }

  lemma ComesAccepting(x: FWRule, r: Rule)
    ensures ComesFrom(x, r) ==> x.action == "ACCEPT"
  {
  }

  /** Where the translation of a security group is enforced, an inbound packet passes if and only if some
      inbound rule of the group lists it, and every outbound packet passes. */
  lemma GroupIsEnforced(inRange: Ranges, vm: Vm, group: seq<Rule>, p: Packet)
    requires Enforces(vm, Translated(group))
    ensures LetsThrough(inRange, vm, p)
            <==> !p.inbound || exists i :: 0 <= i < |group| && Lists(inRange, group[i], p)
  {
    hide LetsThrough, Describes, Lists, Decides, Translated, ComesFrom;
    var rules := Translated(group);
    assert LetsThrough(inRange, vm, p) <==> Decides(inRange, rules, p);
    forall i | 0 <= i < |rules| ensures rules[i].action == "ACCEPT" {
      TranslatedCovers(group, rules[i]);
      var g :| 0 <= g < |group| && ComesFrom(rules[i], group[g]);
      ComesAccepting(rules[i], group[g]);
    }
    AcceptingRulesDecide(inRange, rules, p);
    if i :| 0 <= i < |rules| && Describes(inRange, rules[i], p) {
      TranslatedCovers(group, rules[i]);
      var g :| 0 <= g < |group| && ComesFrom(rules[i], group[g]);
      RuleDescribes(inRange, group[g], p);
    }
    if g :| 0 <= g < |group| && Lists(inRange, group[g], p) {
      RuleDescribes(inRange, group[g], p);
      var x :| ComesFrom(x, group[g]) && Describes(inRange, x, p);
      TranslatedCovers(group, x);
      var i :| 0 <= i < |rules| && rules[i] == x;
    }
  }
}
