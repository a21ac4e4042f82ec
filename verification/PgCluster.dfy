/** A simulated PostgreSQL cluster (apps/api/src/drivers/fake-platform-agents.ts): members are
    configured one by one, a majority elects a leader, a leader that is down is replaced, and users and
    databases are made by the leader. */
module PgClusterModel {
  import opened Options

  /** `configured` in the order in which the members got their first configuration. */
  datatype Pg = Pg(configured: seq<nat>, leader: Option<nat>, roles: set<string>, dbs: set<string>)

  const NoCluster := Pg([], None, {}, {})

  function Majority(n: nat): nat {
    n / 2 + 1
  }

  /** The lowest member that runs. */
  function LowestUp(configured: seq<nat>, up: set<nat>): (m: Option<nat>)
    ensures m == None ==> forall i | i in configured :: i !in up
    ensures m != None ==>
              m.value in configured && m.value in up && forall i | i in configured && i in up :: m.value <= i
  {
    if configured == [] then None
    else
      var rest := LowestUp(configured[1..], up);
      if configured[0] !in up || (rest != None && rest.value < configured[0]) then rest else Some(configured[0])
  }

  function Failover(p: Pg, up: set<nat>): Pg {
    if p.leader == None || p.leader.value in up then p
    else
      var m := LowestUp(p.configured, up);
      if m == None then p else p.(leader := m)
  }

  function Join(p: Pg, me: nat): Pg {
    if me in p.configured then p else p.(configured := p.configured + [me])
  }

  function Elect(p: Pg, n: nat): Pg {
    if p.leader == None && |p.configured| >= Majority(n) && p.configured != []
    then p.(leader := Some(p.configured[0])) else p
  }

  /** Member `me` of `n` gets a configuration; the result says whether it is applied or not ready yet.
      The cluster record is stored either way. */
  function ApplyDb(p: Pg, n: nat, me: nat, users: set<string>, dbs: set<string>, up: set<nat>): (Pg, bool) {
    var q := Failover(Elect(Join(p, me), n), up);
    if q.leader == None then (q, false)
    else
      var r := if q.leader == Some(me) then q.(roles := q.roles + users, dbs := q.dbs + dbs) else q;
      (r, users <= r.roles && dbs <= r.dbs)
  }

  datatype Event =
    | Config(me: nat, users: set<string>, dbs: set<string>, up: set<nat>)
    | Status(up: set<nat>)

  /** Only a running member of the cluster answers a request. */
  predicate CanHappen(nodes: set<nat>, e: Event) {
    e.Config? ==> e.me in nodes && e.me in e.up
  }

  function Happens(p: Pg, nodes: set<nat>, e: Event): Pg {
    match e
    case Config(me, users, dbs, up) => ApplyDb(p, |nodes|, me, users, dbs, up).0
    case Status(up) => Failover(p, up)
  }

  predicate Accepted(p: Pg, nodes: set<nat>, e: Event) {
    e.Config? && ApplyDb(p, |nodes|, e.me, e.users, e.dbs, e.up).1
  }

  ghost predicate Distinct(s: seq<nat>) {
    forall i, j | 0 <= i < j < |s| :: s[i] != s[j]
  }

  ghost predicate Inv(p: Pg, nodes: set<nat>) {
    && Distinct(p.configured) && (forall i | i in p.configured :: i in nodes)
    && (p.leader != None ==> p.leader.value in p.configured && |p.configured| >= Majority(|nodes|))
  }

  lemma HappensInv(p: Pg, nodes: set<nat>, e: Event)
    requires Inv(p, nodes) && CanHappen(nodes, e)
    ensures Inv(Happens(p, nodes, e), nodes)
  {
  }

  /** What is recorded and who is configured only grows, and a cluster that has a leader keeps one. */
  ghost predicate Grows(p: Pg, q: Pg) {
    && p.roles <= q.roles && p.dbs <= q.dbs && p.configured <= q.configured
    && (p.leader != None ==> q.leader != None)
  }

  lemma HappensGrows(p: Pg, nodes: set<nat>, e: Event)
    ensures Grows(p, Happens(p, nodes, e))
    ensures Accepted(p, nodes, e) ==> e.users <= Happens(p, nodes, e).roles && e.dbs <= Happens(p, nodes, e).dbs
  {
  }

  ghost predicate IsRun(nodes: set<nat>, run: seq<Pg>, es: seq<Event>) {
    && |run| == |es| + 1 && run[0] == NoCluster
    && forall k | 0 <= k < |es| :: CanHappen(nodes, es[k]) && run[k + 1] == Happens(run[k], nodes, es[k])
  }

  /** At every moment a leader is one of the configured members, of which there are a majority. */
  lemma {:induction false} LeaderNeedsAMajority(nodes: set<nat>, run: seq<Pg>, es: seq<Event>, k: nat)
    requires IsRun(nodes, run, es) && k < |run|
    ensures Inv(run[k], nodes)
    decreases k
  {
    if k > 0 {
      hide Inv, Happens, CanHappen;
      LeaderNeedsAMajority(nodes, run, es, k - 1);
      assert CanHappen(nodes, es[k - 1]) && run[k - 1 + 1] == Happens(run[k - 1], nodes, es[k - 1]);
      HappensInv(run[k - 1], nodes, es[k - 1]);
    } else {
      EmptyInv(nodes);
    }
  }

  lemma EmptyInv(nodes: set<nat>)
    ensures Inv(NoCluster, nodes)
  {
  }

  lemma {:induction false} RunGrows(nodes: set<nat>, run: seq<Pg>, es: seq<Event>, j: nat, k: nat)
    requires IsRun(nodes, run, es) && j <= k < |run|
    ensures Grows(run[j], run[k])
    decreases k
  {
    hide Happens, CanHappen;
    if j < k {
      RunGrows(nodes, run, es, j, k - 1);
      assert run[k - 1 + 1] == Happens(run[k - 1], nodes, es[k - 1]);
      HappensGrows(run[k - 1], nodes, es[k - 1]);
    }
  }

  /** A configuration that was accepted once, by whichever member, stays recorded through every later
      event and every failover. */
  lemma AcceptedStaysRecorded(nodes: set<nat>, run: seq<Pg>, es: seq<Event>, j: nat, k: nat)
    requires IsRun(nodes, run, es) && j < k < |run| && Accepted(run[j], nodes, es[j])
    ensures es[j].users <= run[k].roles && es[j].dbs <= run[k].dbs
  {
    hide Happens, CanHappen, Accepted;
    assert run[j + 1] == Happens(run[j], nodes, es[j]);
    HappensGrows(run[j], nodes, es[j]);
    RunGrows(nodes, run, es, j + 1, k);
  }

  /** A configuration is accepted exactly when the cluster has a leader afterwards and that leader is
      the member itself or has everything on record already. */
  lemma AcceptedIff(p: Pg, nodes: set<nat>, e: Event)
    requires e.Config?
    ensures var q := Happens(p, nodes, e);
            Accepted(p, nodes, e)
            <==> q.leader != None && (q.leader == Some(e.me) || (e.users <= p.roles && e.dbs <= p.dbs))
  {
  }

  /** A leader gives way only when it is down, and then to the lowest configured member that runs; and
      after a configuration the leader runs. */
  lemma OnlyADownLeaderIsReplaced(p: Pg, nodes: set<nat>, e: Event)
    requires Inv(p, nodes) && CanHappen(nodes, e)
    ensures var q := Happens(p, nodes, e);
            && (p.leader != None && q.leader != p.leader ==>
                  p.leader.value !in e.up && q.leader.value in e.up && q.leader.value in q.configured
                  && forall i | i in q.configured && i in e.up :: q.leader.value <= i)
            && (e.Config? && q.leader != None ==> q.leader.value in e.up)
  {
  }

  /** A configuration elects as soon as it makes a majority: the member that was configured first, if that
      one runs, and otherwise the lowest one that does. */
  lemma MajorityElects(p: Pg, nodes: set<nat>, e: Event)
    requires Inv(p, nodes) && CanHappen(nodes, e) && e.Config?
    ensures var q := Happens(p, nodes, e);
            && q.configured == (if e.me in p.configured then p.configured else p.configured + [e.me])
            && (q.leader != None <==> p.leader != None || 2 * |q.configured| > |nodes|)
            && (p.leader == None && q.leader != None ==>
                  if q.configured[0] in e.up then q.leader == Some(q.configured[0])
                  else q.leader.value in e.up && forall i | i in q.configured && i in e.up :: q.leader.value <= i)
  {
  }

  /** The event gave the member its configuration. */
  predicate Configures(e: Event, i: nat) {
    e.Config? && e.me == i
  }

  /** The configuration reached its member while that one led. */
  ghost predicate Makes(e: Event, after: Pg, name: string, isRole: bool) {
    e.Config? && after.leader == Some(e.me) && name in (if isRole then e.users else e.dbs)
  }

  lemma HappensRecords(p: Pg, nodes: set<nat>, e: Event, name: string)
    ensures var q := Happens(p, nodes, e);
            && (name in q.roles <==> name in p.roles || Makes(e, q, name, true))
            && (name in q.dbs <==> name in p.dbs || Makes(e, q, name, false))
            && (forall i :: i in q.configured <==> i in p.configured || Configures(e, i))
            && (e.Status? ==> q.configured == p.configured && (q.leader == None <==> p.leader == None))
  {
  }

  /** In every run there is a leader exactly when a majority was configured, the configured members are
      those that got a configuration, and what is recorded is what leaders were configured with. */
  lemma {:induction false} LeaderIffMajority(nodes: set<nat>, run: seq<Pg>, es: seq<Event>, k: nat)
    requires IsRun(nodes, run, es) && k < |run|
    ensures |run| == |es| + 1
    ensures run[k].leader != None <==> 2 * |run[k].configured| > |nodes| && run[k].configured != []
    ensures forall i :: i in run[k].configured <==> exists j :: 0 <= j < k && Configures(es[j], i)
    ensures forall name :: name in run[k].roles <==> exists j :: 0 <= j < k && Makes(es[j], run[j + 1], name, true)
    ensures forall name :: name in run[k].dbs <==> exists j :: 0 <= j < k && Makes(es[j], run[j + 1], name, false)
    decreases k
  {
    hide Inv, Happens, CanHappen, Makes, Configures;
    if k > 0 {
      var p, e := run[k - 1], es[k - 1];
      LeaderIffMajority(nodes, run, es, k - 1);
      LeaderNeedsAMajority(nodes, run, es, k - 1);
      assert CanHappen(nodes, e) && run[k - 1 + 1] == Happens(p, nodes, e);
      forall name
        ensures name in run[k].roles <==> name in p.roles || Makes(e, run[k], name, true)
        ensures name in run[k].dbs <==> name in p.dbs || Makes(e, run[k], name, false)
      {
        HappensRecords(p, nodes, e, name);
      }
      HappensRecords(p, nodes, e, "");
      if e.Config? { MajorityElects(p, nodes, e); }
      forall i ensures i in run[k].configured <==> exists j :: 0 <= j < k && Configures(es[j], i) {
        if j :| 0 <= j < k && Configures(es[j], i) { assert j == k - 1 || j < k - 1; }
      }
    }
  }
}

module PgClusters {
  import opened Options
  import opened PgClusterModel

  ghost predicate IsLeast(s: set<nat>, m: nat) {
    m in s && forall i | i in s :: m <= i
  }

  lemma {:induction false} LeastExists(s: set<nat>)
    requires s != {}
    ensures exists m :: IsLeast(s, m)
  {
    var x :| x in s;
    var t := s - {x};
    if t == {} {
      assert s == {x};
      assert IsLeast(s, x);
    } else {
      LeastExists(t);
      var m :| IsLeast(t, m);
      assert s == t + {x};
      assert IsLeast(s, if m < x then m else x);
    }
  }

  method Least(s: set<nat>) returns (m: nat)
    requires s != {}
    ensures IsLeast(s, m)
  {
    LeastExists(s);
    assert exists x :: x in s && forall i | i in s :: x <= i by { ghost var x :| IsLeast(s, x); }
    m :| m in s && forall i | i in s :: m <= i;
  }

  lemma LowestIs(configured: seq<nat>, up: set<nat>, index: nat)
    requires index in configured && index in up && forall i | i in configured && i in up :: index <= i
    ensures LowestUp(configured, up) == Some(index)
  {
    hide LowestUp;
  }

  lemma NoneIsUp(configured: seq<nat>, up: set<nat>)
    requires forall i | i in configured :: i !in up
    ensures LowestUp(configured, up) == None
  {
    hide LowestUp;
  }

  class PgCluster {
    const nodes: set<nat>
    var configured: seq<nat>
    var leader: Option<nat>
    var roles: set<string>
    var dbs: set<string>

    ghost function Snap(): Pg
      reads this
    {
      Pg(configured, leader, roles, dbs)
    }

    constructor (nodes: set<nat>)
      ensures this.nodes == nodes && Snap() == NoCluster && Inv(Snap(), nodes)
    {
      this.nodes := nodes;
      configured, leader, roles, dbs := [], None, {}, {};
      new;
      EmptyInv(nodes);
    }

    /** Goes through the members in ascending order and takes the first that runs. */
    method Failover(up: set<nat>)
      modifies this`leader
      ensures Snap() == PgClusterModel.Failover(old(Snap()), up)
    {
      hide LowestUp;
      ghost var was := leader;
      if leader == None || leader.value in up { return; }
      var left := set i | i in configured;
      while left != {}
        invariant leader == was && forall i | i in left :: i in configured
        invariant forall i | i in configured && i !in left :: i !in up
        decreases |left|
      {
        var index := Least(left);
        if index in up {
          LowestIs(configured, up, index);
          leader := Some(index);
          return;
        }
        left := left - {index};
      }
      NoneIsUp(configured, up);
    }

    /** Member `me`, which runs, gets a configuration. */
    method ApplyDb(me: nat, users: set<string>, databases: set<string>, up: set<nat>) returns (ready: bool)
      requires Inv(Snap(), nodes) && me in nodes && me in up
      modifies this
      ensures (Snap(), ready) == PgClusterModel.ApplyDb(old(Snap()), |nodes|, me, users, databases, up)
                && Inv(Snap(), nodes)
    {
      HappensInv(Snap(), nodes, Config(me, users, databases, up));
      if me !in configured { configured := configured + [me]; }
      if leader == None && |configured| >= |nodes| / 2 + 1 { leader := Some(configured[0]); }
      Failover(up);
      if leader == None { return false; }
      if leader == Some(me) {
        roles := roles + users;
        dbs := dbs + databases;
      }
      ready := users <= roles && databases <= dbs;
    }
  }
}
