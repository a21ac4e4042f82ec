/** Joining a simulated Kubernetes cluster (apps/api/src/drivers/fake-platform-agents.ts): the first
    control plane node makes the cluster, every other node has to show a bootstrap token that the
    cluster issued and the hash of its certificate authority. */
module KubeJoinModel {
  import opened Options

  datatype Node = Node(index: nat, control: bool)

  /** A token's value is the moment it expires; 0 is one that was made to run out. */
  datatype Cluster = Cluster(ca: nat, tokens: map<string, nat>, nodes: set<Node>)

  /** A token as it was handed out. */
  datatype Issue = Issue(ca: nat, token: string, at: nat)

  /** What a node joined with. */
  datatype Join = Join(ca: nat, token: string, at: nat)

  /** `nextCa` stands for the random authority of the next cluster; `issued` and `joins` record what was
      handed out and used. */
  datatype Kube = Kube(
    now: nat,
    cluster: Option<Cluster>,
    initialized: set<Node>,
    nextCa: nat,
    issued: set<Issue>,
    joins: map<Node, Join>)

  function Begin(now: nat): Kube {
    Kube(now, None, {}, 1, {}, map[])
  }

  /** 24 hours, in milliseconds. */
  const DAY := 86_400_000

  datatype Answer = Applied | NotReady | Failed

  predicate First(m: Node) {
    m.control && m.index == 0
  }

  /** The checks of `join`. */
  predicate MayJoin(k: Kube, caHash: Option<nat>, token: string) {
    && k.cluster != None && token in k.cluster.value.tokens
    && k.cluster.value.tokens[token] != 0 && k.now <= k.cluster.value.tokens[token]
    && caHash == Some(k.cluster.value.ca)
  }

  function Initialize(k: Kube, m: Node, cl: Cluster): Kube {
    k.(cluster := Some(cl.(nodes := cl.nodes + {m})), initialized := k.initialized + {m})
  }

  function ApplyK8s(k: Kube, m: Node, caHash: Option<nat>, token: string, removed: set<Node>): (Kube, Answer) {
    if m in k.initialized then
      (if First(m) && k.cluster != None
       then k.(cluster := Some(k.cluster.value.(nodes := k.cluster.value.nodes - removed))) else k, Applied)
    else if First(m) then
      var cl := Cluster(k.nextCa, map[token := k.now + DAY], {m} - removed);
      (k.(cluster := Some(cl), initialized := k.initialized + {m}, nextCa := k.nextCa + 1,
          issued := k.issued + {Issue(k.nextCa, token, k.now)}), Applied)
    else if caHash == None then (k, NotReady)
    else if !MayJoin(k, caHash, token) then (k, Failed)
    else (Initialize(k, m, k.cluster.value).(joins := k.joins[m := Join(k.cluster.value.ca, token, k.now)]), Applied)
  }

  datatype Event =
    | Tick(now: nat)
    | Config(m: Node, caHash: Option<nat>, token: string, removed: set<Node>)
    | JoinToken(m: Node, token: string)
    | TokensRunOut
    | Boots(m: Node)

  predicate CanHappen(k: Kube, e: Event) {
    e.Tick? ==> k.now <= e.now
  }

  function Happens(k: Kube, e: Event): Kube {
    match e
    case Tick(now) => k.(now := now)
    case Config(m, caHash, token, removed) => ApplyK8s(k, m, caHash, token, removed).0
    case JoinToken(m, token) =>
      if m !in k.initialized || !m.control || k.cluster == None then k
      else
        var cl := k.cluster.value;
        k.(cluster := Some(cl.(tokens := cl.tokens[token := k.now + DAY])),
            issued := k.issued + {Issue(cl.ca, token, k.now)})
    case TokensRunOut =>
      if k.cluster == None then k
      else k.(cluster := Some(k.cluster.value.(tokens := map t | t in k.cluster.value.tokens :: 0)))
    case Boots(m) => k.(initialized := k.initialized - {m})
  }

  /** The token was handed out for this authority, no more than a day before it was used. */
  ghost predicate Vouched(issued: set<Issue>, j: Join) {
    exists i :: i in issued && i.ca == j.ca && i.token == j.token && i.at <= j.at <= i.at + DAY
  }

  ghost predicate TokenKnown(k: Kube, token: string)
    requires k.cluster != None && token in k.cluster.value.tokens
  {
    var exp := k.cluster.value.tokens[token];
    exp == 0 || (DAY <= exp && exp - DAY <= k.now && Issue(k.cluster.value.ca, token, exp - DAY) in k.issued)
  }

  ghost predicate Inv(k: Kube) {
    && (k.cluster != None ==>
          k.cluster.value.ca < k.nextCa && forall t | t in k.cluster.value.tokens :: TokenKnown(k, t))
    && (forall m | m in k.initialized && !First(m) ::
        m in k.joins && Vouched(k.issued, k.joins[m]) && k.joins[m].at <= k.now)
    && (forall i | i in k.issued :: i.ca < k.nextCa)
  }

  lemma MoreVouched(issued: set<Issue>, more: set<Issue>, j: Join)
    requires Vouched(issued, j) && issued <= more
    ensures Vouched(more, j)
  {
  }

  lemma JoinIsVouched(k: Kube, caHash: Option<nat>, token: string)
    requires Inv(k) && MayJoin(k, caHash, token)
    ensures Vouched(k.issued, Join(k.cluster.value.ca, token, k.now))
  {
    assert TokenKnown(k, token);
    assert Issue(k.cluster.value.ca, token, k.cluster.value.tokens[token] - DAY) in k.issued;
  }

  lemma ConfigInv(k: Kube, m: Node, caHash: Option<nat>, token: string, removed: set<Node>)
    requires Inv(k)
    ensures Inv(ApplyK8s(k, m, caHash, token, removed).0)
  {
    hide Vouched;
    var t := ApplyK8s(k, m, caHash, token, removed).0;
    if m !in k.initialized && !First(m) && MayJoin(k, caHash, token) { JoinIsVouched(k, caHash, token); }
    forall n | n in k.initialized && !First(n)
      ensures Vouched(t.issued, k.joins[n])
    {
      MoreVouched(k.issued, t.issued, k.joins[n]);
    }
    if k.cluster != None { assert forall x | x in k.cluster.value.tokens :: TokenKnown(k, x); }
  }

  lemma HappensInv(k: Kube, e: Event)
    requires Inv(k) && CanHappen(k, e)
    ensures Inv(Happens(k, e))
  {
    hide Vouched;
    if e.Config? {
      ConfigInv(k, e.m, e.caHash, e.token, e.removed);
    } else {
      var t := Happens(k, e);
      if k.cluster != None { assert forall x | x in k.cluster.value.tokens :: TokenKnown(k, x); }
      forall n | n in k.initialized && !First(n)
        ensures Vouched(t.issued, k.joins[n])
      {
        MoreVouched(k.issued, t.issued, k.joins[n]);
      }
    }
  }

  ghost predicate IsRun(run: seq<Kube>, es: seq<Event>) {
    && |run| == |es| + 1 && run[0] == Begin(run[0].now)
    && forall k | 0 <= k < |es| :: CanHappen(run[k], es[k]) && run[k + 1] == Happens(run[k], es[k])
  }

  lemma {:induction false} RunInv(run: seq<Kube>, es: seq<Event>, k: nat)
    requires IsRun(run, es) && k < |run|
    ensures Inv(run[k])
    decreases k
  {
    if k > 0 {
      hide Inv, Happens, CanHappen;
      RunInv(run, es, k - 1);
      assert CanHappen(run[k - 1], es[k - 1]) && run[k - 1 + 1] == Happens(run[k - 1], es[k - 1]);
      HappensInv(run[k - 1], es[k - 1]);
    }
  }

  /** Every node but the first is in the cluster only with a token that the cluster's own authority
      handed out at most a day before the node used it. */
  lemma NodesJoinWithIssuedTokens(run: seq<Kube>, es: seq<Event>, k: nat, m: Node)
    requires IsRun(run, es) && k < |run| && m in run[k].initialized && !First(m)
    ensures m in run[k].joins && Vouched(run[k].issued, run[k].joins[m]) && run[k].joins[m].at <= run[k].now
  {
    hide IsRun, Vouched;
    RunInv(run, es, k);
  }

  /** The gate, both ways: such a node is let in exactly when it shows a token of the current cluster
      that has not run out, and the hash of the current authority. */
  lemma LetInIff(k: Kube, m: Node, caHash: Option<nat>, token: string, removed: set<Node>)
    requires !First(m) && m !in k.initialized
    ensures var (t, answer) := ApplyK8s(k, m, caHash, token, removed);
            && (m in t.initialized
                <==> k.cluster != None && token in k.cluster.value.tokens && k.cluster.value.tokens[token] != 0
                                        && k.now <= k.cluster.value.tokens[token] && caHash == Some(k.cluster.value.ca))
            && (m in t.initialized <==> answer == Applied) && (answer != Applied ==> t == k)
            && (answer == NotReady <==> caHash == None)
            && (m in t.initialized ==> t.cluster.value.nodes == k.cluster.value.nodes + {m})
  {
  }

  /** What a configuration of the first node leaves of the cluster's nodes: those it had, and the node itself
      if it makes the cluster, without the ones to remove. */
  lemma FirstNodeReconciles(k: Kube, m: Node, caHash: Option<nat>, token: string, removed: set<Node>)
    requires First(m)
    ensures var (t, answer) := ApplyK8s(k, m, caHash, token, removed);
            && answer == Applied && m in t.initialized
            && (m !in k.initialized ==> t.cluster != None && t.cluster.value.nodes == {m} - removed)
            && (m in k.initialized && k.cluster != None ==>
                  t.cluster == Some(k.cluster.value.(nodes := k.cluster.value.nodes - removed)))
  {
  }

  // ---- how long a token is good ----

  /** The first node makes a new cluster. */
  predicate MakesCluster(k: Kube, e: Event) {
    e.Config? && First(e.m) && e.m !in k.initialized
  }

  /** The event hands out the token, for the cluster that there is or that it makes. */
  predicate Issues(k: Kube, e: Event, token: string) {
    || (MakesCluster(k, e) && e.token == token)
    || (e.JoinToken? && e.token == token && e.m in k.initialized && e.m.control && k.cluster != None)
  }

  /** Until when the token lets nodes in, judged from the events: a day from when it was handed out last,
      unless all tokens ran out or a new cluster was made since. */
  function GoodUntil(run: seq<Kube>, es: seq<Event>, k: nat, token: string): Option<nat>
    requires k <= |es| <= |run|
  {
    if k == 0 then None
    else if Issues(run[k - 1], es[k - 1], token) then Some(run[k - 1].now + 86_400_000)
    else if es[k - 1].TokensRunOut? || MakesCluster(run[k - 1], es[k - 1]) then None
    else GoodUntil(run, es, k - 1, token)
  }

  function Held(k: Kube, token: string): Option<nat> {
    if k.cluster != None && token in k.cluster.value.tokens && k.cluster.value.tokens[token] != 0
    then Some(k.cluster.value.tokens[token]) else None
  }

  lemma HappensHolds(k: Kube, e: Event, token: string)
    ensures Held(Happens(k, e), token)
            == if Issues(k, e, token) then Some(k.now + 86_400_000)
               else if e.TokensRunOut? || MakesCluster(k, e) then None else Held(k, token)
  {
  }

  /** A token lets a node with the right hash in exactly until a day after it was handed out last, by the
      cluster as it is now, unless the tokens were made to run out since. */
  lemma {:induction false} TokensLastADay(run: seq<Kube>, es: seq<Event>, k: nat, caHash: Option<nat>, token: string)
    requires IsRun(run, es) && k < |run|
    ensures |run| == |es| + 1
    ensures MayJoin(run[k], caHash, token)
            <==> GoodUntil(run, es, k, token) != None && run[k].now <= GoodUntil(run, es, k, token).value
                 && run[k].cluster != None && caHash == Some(run[k].cluster.value.ca)
    ensures Held(run[k], token) == GoodUntil(run, es, k, token)
    decreases k
  {
    if k > 0 {
      hide Happens, CanHappen, Issues, MakesCluster;
      TokensLastADay(run, es, k - 1, caHash, token);
      assert run[k - 1 + 1] == Happens(run[k - 1], es[k - 1]);
      HappensHolds(run[k - 1], es[k - 1], token);
    }
  }

  /** Once every token ran out, or the first node made a new cluster, nothing that was valid before lets
      a node in. */
  lemma OldSecretsAreWorthless(
      k: Kube, m: Node, n: Node, caHash: Option<nat>, token: string, other: string, removed: set<Node>)
    requires Inv(k) && !First(m) && m !in k.initialized && MayJoin(k, caHash, token)
    ensures m !in ApplyK8s(Happens(k, TokensRunOut), m, caHash, token, removed).0.initialized
    ensures First(n) && n !in k.initialized ==>
              m !in ApplyK8s(Happens(k, Config(n, None, other, {})), m, caHash, token, removed).0.initialized
  {
  }
}

module KubeClusters {
  import opened Options
  import opened KubeJoinModel

  class KubeCluster {
    var now: nat
    var cluster: Option<Cluster>
    var initialized: set<Node>
    var nextCa: nat
    ghost var issued: set<Issue>
    ghost var joins: map<Node, KubeJoinModel.Join>

    ghost function Snap(): Kube
      reads this
    {
      Kube(now, cluster, initialized, nextCa, issued, joins)
    }

    constructor (now: nat)
      ensures Snap() == Begin(now) && Inv(Snap())
    {
      this.now, cluster, initialized, nextCa, issued, joins := now, None, {}, 1, {}, map[];
    }

    /** The checks of kubeadm join, in its order. */
    method Join(caHash: Option<nat>, token: string) returns (ok: bool)
      ensures ok == MayJoin(Snap(), caHash, token)
    {
      if cluster == None { return false; }
      if token !in cluster.value.tokens { return false; }
      var exp := cluster.value.tokens[token];
      if exp == 0 || exp < now { return false; }
      ok := caHash == Some(cluster.value.ca);
    }

    method ApplyK8s(m: Node, caHash: Option<nat>, token: string, removed: set<Node>) returns (answer: Answer)
      requires Inv(Snap())
      modifies this
      ensures Inv(Snap()) && (Snap(), answer) == KubeJoinModel.ApplyK8s(old(Snap()), m, caHash, token, removed)
    {
      hide Inv;
      ConfigInv(Snap(), m, caHash, token, removed);
      if m !in initialized {
        if First(m) {
          cluster := Some(Cluster(nextCa, map[token := now + DAY], {}));
          issued := issued + {Issue(nextCa, token, now)};
          nextCa := nextCa + 1;
        } else {
          if caHash == None { return NotReady; }
          var ok := Join(caHash, token);
          if !ok { return Failed; }
          joins := joins[m := KubeJoinModel.Join(cluster.value.ca, token, now)];
        }
        initialized := initialized + {m};
        assert First(m) ==> cluster.value.nodes + {m} == {m};
        cluster := Some(cluster.value.(nodes := cluster.value.nodes + {m}));
      }
      if First(m) && cluster != None {
        cluster := Some(cluster.value.(nodes := cluster.value.nodes - removed));
      }
      answer := Applied;
    }

    /** A control plane node hands out a new bootstrap token. */
    method IssueToken(m: Node, token: string) returns (ok: bool)
      requires Inv(Snap())
      modifies this
      ensures Inv(Snap()) && Snap() == Happens(old(Snap()), JoinToken(m, token))
      ensures ok <==> m in initialized && m.control && cluster != None
    {
      hide Inv;
      HappensInv(Snap(), JoinToken(m, token));
      if m !in initialized || !m.control || cluster == None { return false; }
      issued := issued + {Issue(cluster.value.ca, token, now)};
      cluster := Some(cluster.value.(tokens := cluster.value.tokens[token := now + DAY]));
      ok := true;
    }
  }
}
