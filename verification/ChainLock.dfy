/** The per-key lock of the simulated agents (apps/api/src/drivers/fake-platform-agents.ts): each key
    has a chain of promises, a new task runs after the one before it has settled, and a settled task
    removes the chain if it is still its end. */
module ChainLockModel {
  import opened Options

  /** Request handlers lock the host first and, inside that, possibly the cluster. */
  datatype Key = Host(name: string) | Cluster(name: string)

  datatype Phase = Waiting | Running | Settled

  /** One call of `locked`: the call it waits for, and the call on a host that awaits it, if any. `cleaned`:
      its `finally` has run. */
  datatype Call = Call(key: Key, prev: Option<nat>, parent: Option<nat>, phase: Phase, cleaned: bool)

  datatype Locks = Locks(calls: seq<Call>, chains: map<Key, nat>)

  const Empty := Locks([], map[])

  datatype Input =
    | Arrives(key: Key, parent: Option<nat>)
    | Starts(c: nat)
    | Settles(c: nat)
    | CleansUp(c: nat)

  predicate IsSettled(l: Locks, c: nat) {
    c < |l.calls| && l.calls[c].phase == Settled
  }

  /** A task inside another awaits it, so a task settles only after those it awaits. */
  predicate ChildrenSettled(l: Locks, c: nat) {
    forall d | 0 <= d < |l.calls| :: l.calls[d].parent == Some(c) ==> l.calls[d].phase == Settled
  }

  predicate Enabled(l: Locks, i: Input) {
    match i
    case Arrives(key, parent) =>
      parent != None ==>
        key.Cluster? && parent.value < |l.calls| && l.calls[parent.value].phase == Running
        && l.calls[parent.value].key.Host?
    case Starts(c) =>
      c < |l.calls| && l.calls[c].phase == Waiting && (l.calls[c].prev == None || IsSettled(l, l.calls[c].prev.value))
    case Settles(c) => c < |l.calls| && l.calls[c].phase == Running && ChildrenSettled(l, c)
    case CleansUp(c) => c < |l.calls| && l.calls[c].phase == Settled && !l.calls[c].cleaned
  }

  function Locked(l: Locks, key: Key, parent: Option<nat>): Locks {
    var prev := if key in l.chains then Some(l.chains[key]) else None;
    Locks(l.calls + [Call(key, prev, parent, Waiting, false)], l.chains[key := |l.calls|])
  }

  function CleanUp(l: Locks, c: nat): Locks
    requires c < |l.calls|
  {
    var key := l.calls[c].key;
    Locks(l.calls[c := l.calls[c].(cleaned := true)],
          if key in l.chains && l.chains[key] == c then l.chains - {key} else l.chains)
  }

  function Step(l: Locks, i: Input): Locks
    requires Enabled(l, i)
  {
    match i
    case Arrives(key, parent) => Locked(l, key, parent)
    case Starts(c) => l.(calls := l.calls[c := l.calls[c].(phase := Running)])
    case Settles(c) => l.(calls := l.calls[c := l.calls[c].(phase := Settled)])
    case CleansUp(c) => CleanUp(l, c)
  }

  // ---- the invariant ----

  /** `d` is an earlier call on the key of `c`. */
  predicate Before(calls: seq<Call>, d: nat, c: nat) {
    d < c < |calls| && calls[d].key == calls[c].key
  }

  /** The chain of a key ends at its last call; a key without a chain has nothing pending. */
  ghost predicate ChainsEnd(l: Locks) {
    && (forall k | k in l.chains :: l.chains[k] < |l.calls| && l.calls[l.chains[k]].key == k)
    && (forall c: nat | c < |l.calls| && l.calls[c].key in l.chains :: c <= l.chains[l.calls[c].key])
    && (forall c: nat | c < |l.calls| && l.calls[c].key !in l.chains :: l.calls[c].phase == Settled)
  }

  /** A task that has started has every earlier task of its key behind it. */
  ghost predicate InOrder(calls: seq<Call>) {
    forall c: nat, d: nat | Before(calls, d, c) && calls[c].phase != Waiting :: calls[d].phase == Settled
  }

  /** An earlier task `d` of the key is over, or the one that `c` waits for is not before it. */
  predicate Awaited(calls: seq<Call>, d: nat, c: nat)
    requires d < c < |calls|
  {
    match calls[c].prev
    case None => calls[d].phase == Settled
    case Some(p) => d <= p
  }

  ghost predicate Linked(calls: seq<Call>) {
    forall c: nat, d: nat | Before(calls, d, c) && calls[c].phase == Waiting :: Awaited(calls, d, c)
  }

  ghost predicate PrevSame(calls: seq<Call>) {
    forall c: nat | c < |calls| && calls[c].prev != None :: Before(calls, calls[c].prev.value, c)
  }

  ghost predicate Nested(calls: seq<Call>) {
    forall c: nat | c < |calls| && calls[c].parent != None ::
      calls[c].parent.value < c && calls[calls[c].parent.value].key.Host? && calls[c].key.Cluster?
  }

  ghost predicate Inv(l: Locks) {
    ChainsEnd(l) && InOrder(l.calls) && Linked(l.calls) && PrevSame(l.calls) && Nested(l.calls)
  }

  // ---- arrivals ----

  lemma ArrivalInOrder(calls: seq<Call>, x: Call)
    requires InOrder(calls) && x.phase == Waiting
    ensures InOrder(calls + [x])
  {
    forall c: nat, d: nat | Before(calls + [x], d, c) && (calls + [x])[c].phase != Waiting
      ensures (calls + [x])[d].phase == Settled
    {
      assert Before(calls, d, c);
    }
  }

  lemma ArrivalLinked(calls: seq<Call>, x: Call)
    requires Linked(calls)
    requires forall d: nat | d < |calls| && calls[d].key == x.key ::
               if x.prev == None then calls[d].phase == Settled else d <= x.prev.value
    ensures Linked(calls + [x])
  {
    forall c: nat, d: nat | Before(calls + [x], d, c) && (calls + [x])[c].phase == Waiting
      ensures Awaited(calls + [x], d, c)
    {
      if c < |calls| { assert Before(calls, d, c) && Awaited(calls, d, c); }
    }
  }

  lemma ArrivalPrev(calls: seq<Call>, x: Call)
    requires PrevSame(calls) && (x.prev != None ==> x.prev.value < |calls| && calls[x.prev.value].key == x.key)
    ensures PrevSame(calls + [x])
  {
    forall c: nat | c < |calls + [x]| && (calls + [x])[c].prev != None
      ensures Before(calls + [x], (calls + [x])[c].prev.value, c)
    {
      if c < |calls| { assert Before(calls, calls[c].prev.value, c); }
    }
  }

  lemma ArrivesInv(l: Locks, key: Key, parent: Option<nat>)
    requires Inv(l) && Enabled(l, Arrives(key, parent))
    ensures Inv(Locked(l, key, parent))
  {
    hide InOrder, Linked, PrevSame;
    var prev := if key in l.chains then Some(l.chains[key]) else None;
    var x := Call(key, prev, parent, Waiting, false);
    ArrivalInOrder(l.calls, x);
    ArrivalLinked(l.calls, x);
    ArrivalPrev(l.calls, x);
  }

  // ---- starting and settling ----

  /** A task starts only when every earlier one of its key has settled. */
  lemma StartIsInOrder(l: Locks, c: nat, d: nat)
    requires Inv(l) && Enabled(l, Starts(c)) && Before(l.calls, d, c)
    ensures l.calls[d].phase == Settled
  {
    hide ChainsEnd, Nested;
    assert Awaited(l.calls, d, c);
    match l.calls[c].prev
    case None =>
    case Some(p) =>
      assert Before(l.calls, p, c);
      if d < p { assert Before(l.calls, d, p); }
  }

  lemma PhaseInOrder(l: Locks, c: nat, phase: Phase)
    requires Inv(l) && c < |l.calls| && phase != Waiting
    requires (phase == Running && Enabled(l, Starts(c))) || (l.calls[c].phase == Running && phase == Settled)
    ensures InOrder(l.calls[c := l.calls[c].(phase := phase)])
  {
    hide ChainsEnd, Linked, PrevSame, Nested, Enabled;
    var calls := l.calls[c := l.calls[c].(phase := phase)];
    forall e: nat, d: nat | Before(calls, d, e) && calls[e].phase != Waiting ensures calls[d].phase == Settled {
      assert Before(l.calls, d, e);
      if e == c && phase == Running { StartIsInOrder(l, c, d); }
      StartingIsWaiting(l, c);
    }
  }

  lemma StartingIsWaiting(l: Locks, c: nat)
    ensures Enabled(l, Starts(c)) ==> l.calls[c].phase == Waiting
  {
  }

  lemma PhaseLinked(calls: seq<Call>, c: nat, phase: Phase)
    requires Linked(calls) && PrevSame(calls) && Nested(calls) && c < |calls| && phase != Waiting
              && calls[c].phase != Settled
    ensures Linked(calls[c := calls[c].(phase := phase)]) && PrevSame(calls[c := calls[c].(phase := phase)])
    ensures Nested(calls[c := calls[c].(phase := phase)])
  {
    var t := calls[c := calls[c].(phase := phase)];
    forall e: nat, d: nat | Before(t, d, e) && t[e].phase == Waiting ensures Awaited(t, d, e) {
      assert Before(calls, d, e) && Awaited(calls, d, e);
    }
    forall e: nat | e < |t| && t[e].prev != None ensures Before(t, t[e].prev.value, e) {
      assert Before(calls, calls[e].prev.value, e);
    }
  }

  lemma PhaseInv(l: Locks, c: nat, phase: Phase)
    requires Inv(l) && c < |l.calls| && phase != Waiting
    requires (phase == Running && Enabled(l, Starts(c))) || (l.calls[c].phase == Running && phase == Settled)
    ensures Inv(l.(calls := l.calls[c := l.calls[c].(phase := phase)]))
  {
    hide InOrder, Linked, PrevSame, Nested;
    StartingIsWaiting(l, c);
    PhaseInOrder(l, c, phase);
    PhaseLinked(l.calls, c, phase);
  }

  // ---- cleaning up ----

  lemma CleanedSame(calls: seq<Call>, c: nat)
    requires InOrder(calls) && Linked(calls) && PrevSame(calls) && Nested(calls) && c < |calls|
    ensures var t := calls[c := calls[c].(cleaned := true)]; InOrder(t) && Linked(t) && PrevSame(t) && Nested(t)
  {
    var t := calls[c := calls[c].(cleaned := true)];
    assert forall e: nat | e < |t| :: t[e].(cleaned := true) == calls[e].(cleaned := true);
    forall e: nat, d: nat | Before(t, d, e) ensures Before(calls, d, e) && Awaited(t, d, e) == Awaited(calls, d, e) {
    }
    forall e: nat | e < |t| && t[e].prev != None ensures Before(t, t[e].prev.value, e) {
      assert Before(calls, calls[e].prev.value, e);
    }
  }

  /** Cleaning up removes a chain only when nothing of its key is pending. */
  lemma CleanUpInv(l: Locks, c: nat)
    requires Inv(l) && Enabled(l, CleansUp(c))
    ensures Inv(CleanUp(l, c))
  {
    hide Linked, PrevSame, Nested;
    var t := CleanUp(l, c);
    CleanedSame(l.calls, c);
    forall e: nat | e < |t.calls| && t.calls[e].key !in t.chains ensures t.calls[e].phase == Settled {
      if l.calls[e].key in l.chains && e < c { assert Before(l.calls, e, c); }
    }
  }

  lemma StepInv(l: Locks, i: Input)
    requires Inv(l) && Enabled(l, i)
    ensures Inv(Step(l, i))
  {
    hide Inv;
    match i
    case Arrives(key, parent) => ArrivesInv(l, key, parent);
    case Starts(c) => PhaseInv(l, c, Running);
    case Settles(c) => PhaseInv(l, c, Settled);
    case CleansUp(c) => CleanUpInv(l, c);
  }

  // ---- every run ----

  ghost predicate IsRun(run: seq<Locks>, ins: seq<Input>) {
    && |run| == |ins| + 1 && run[0] == Empty
    && forall k | 0 <= k < |ins| :: Enabled(run[k], ins[k]) && run[k + 1] == Step(run[k], ins[k])
  }

  lemma {:induction false} RunInv(run: seq<Locks>, ins: seq<Input>, k: nat)
    requires IsRun(run, ins) && k < |run|
    ensures Inv(run[k])
    decreases k
  {
    if k > 0 {
      hide Inv, Step, Enabled;
      RunInv(run, ins, k - 1);
      assert run[k - 1 + 1] == Step(run[k - 1], ins[k - 1]);
      StepInv(run[k - 1], ins[k - 1]);
    }
  }

  /** Of any two tasks on one key the one that arrived first has settled before the other starts:
      they never run together, and they run in the order of arrival, whatever fails. */
  lemma OneAtATimeInArrivalOrder(run: seq<Locks>, ins: seq<Input>, k: nat, d: nat, c: nat)
    requires IsRun(run, ins) && k < |run| && d < c < |run[k].calls| && run[k].calls[d].key == run[k].calls[c].key
    requires run[k].calls[c].phase != Waiting
    ensures run[k].calls[d].phase == Settled
  {
    hide IsRun, ChainsEnd, Linked, PrevSame, Nested;
    RunInv(run, ins, k);
    assert Before(run[k].calls, d, c);
  }

  /** As long as a task is pending its key keeps its chain, and the chain ends at the last arrival: a
      later task can never slip past a pending one. */
  lemma PendingKeepsItsChain(run: seq<Locks>, ins: seq<Input>, k: nat, c: nat)
    requires IsRun(run, ins) && k < |run| && c < |run[k].calls| && run[k].calls[c].phase != Settled
    ensures run[k].calls[c].key in run[k].chains && c <= run[k].chains[run[k].calls[c].key] < |run[k].calls|
  {
    hide IsRun, InOrder, Linked, PrevSame, Nested;
    RunInv(run, ins, k);
  }

  /** The key's chain is there exactly as long as its last task was not cleaned up after. */
  ghost predicate NoLeak(l: Locks) {
    forall c: nat | c < |l.calls| && IsLast(l, c) ::
      if l.calls[c].cleaned then l.calls[c].key !in l.chains
      else l.calls[c].key in l.chains && l.chains[l.calls[c].key] == c
  }

  ghost predicate IsLast(l: Locks, c: nat)
    requires c < |l.calls|
  {
    forall d: nat | c < d < |l.calls| :: l.calls[d].key != l.calls[c].key
  }

  lemma StepKeepsNoLeak(l: Locks, i: Input)
    requires Inv(l) && NoLeak(l) && Enabled(l, i)
    ensures NoLeak(Step(l, i))
  {
    hide InOrder, Linked, PrevSame, Nested;
    var t := Step(l, i);
    forall c: nat | c < |t.calls| && IsLast(t, c)
      ensures if t.calls[c].cleaned then t.calls[c].key !in t.chains
              else t.calls[c].key in t.chains && t.chains[t.calls[c].key] == c
    {
      if c < |l.calls| {
        forall d: nat | c < d < |l.calls| ensures l.calls[d].key != l.calls[c].key {
          assert t.calls[d].key != t.calls[c].key;
        }
        assert IsLast(l, c);
        if i.Arrives? { assert t.calls[|l.calls|].key != t.calls[c].key; }
      }
    }
  }

  /** Nothing leaks: in every run a key has a chain exactly while its last task is not cleaned up after, and
      the chain ends at that task; so once everything is over and cleaned up the map is empty. */
  lemma {:induction false} ChainsAreRemoved(run: seq<Locks>, ins: seq<Input>, k: nat)
    requires IsRun(run, ins) && k < |run|
    ensures NoLeak(run[k])
    ensures (forall c: nat | c < |run[k].calls| :: run[k].calls[c].cleaned) ==> run[k].chains == map[]
    decreases k
  {
    hide Inv, Step, Enabled, NoLeak;
    if k > 0 {
      ChainsAreRemoved(run, ins, k - 1);
      RunInv(run, ins, k - 1);
      assert Enabled(run[k - 1], ins[k - 1]) && run[k - 1 + 1] == Step(run[k - 1], ins[k - 1]);
      StepKeepsNoLeak(run[k - 1], ins[k - 1]);
    } else {
      NothingLeaks();
    }
    RunInv(run, ins, k);
    AllCleaned(run[k]);
  }

  lemma NothingLeaks()
    ensures NoLeak(Empty)
  {
  }

  lemma AllCleaned(l: Locks)
    requires Inv(l) && NoLeak(l)
    ensures (forall c: nat | c < |l.calls| :: l.calls[c].cleaned) ==> l.chains == map[]
  {
    hide InOrder, Linked, PrevSame, Nested;
    forall k | k in l.chains ensures exists c: nat :: c < |l.calls| && !l.calls[c].cleaned {
      assert IsLast(l, l.chains[k]);
    }
  }

  /** The first pending task of a key. */
  function FirstPending(l: Locks, key: Key, from: nat): Option<nat>
    decreases |l.calls| - from
  {
    if from >= |l.calls| then None
    else if l.calls[from].key == key && l.calls[from].phase != Settled then Some(from)
    else FirstPending(l, key, from + 1)
  }

  lemma {:induction false} FirstPendingIsFirst(l: Locks, key: Key, from: nat, c: nat)
    requires from <= c < |l.calls| && l.calls[c].key == key && l.calls[c].phase != Settled
    ensures var f := FirstPending(l, key, from);
            && f != None && from <= f.value <= c && l.calls[f.value].key == key && l.calls[f.value].phase != Settled
            && forall d | from <= d < f.value :: l.calls[d].key == key ==> l.calls[d].phase == Settled
    decreases c - from
  {
    if !(l.calls[from].key == key && l.calls[from].phase != Settled) {
      FirstPendingIsFirst(l, key, from + 1, c);
    }
  }

  /** The first pending task of a key can start, or is running. */
  lemma FirstMovesOn(l: Locks, key: Key, c: nat)
    requires Inv(l) && c < |l.calls| && l.calls[c].key == key && l.calls[c].phase != Settled
    ensures var f := FirstPending(l, key, 0);
            f != None && f.value < |l.calls| && l.calls[f.value].key == key
                && (l.calls[f.value].phase == Running || Enabled(l, Starts(f.value)))
  {
    FirstPendingIsFirst(l, key, 0, c);
    var f := FirstPending(l, key, 0).value;
    if l.calls[f].phase == Waiting && l.calls[f].prev != None {
      assert Before(l.calls, l.calls[f].prev.value, f);
    }
  }

  ghost predicate CanMove(l: Locks) {
    exists i :: Enabled(l, i) && (i.Starts? || i.Settles?)
  }

  lemma ClusterTaskSettles(l: Locks, c: nat)
    requires Inv(l) && c < |l.calls| && l.calls[c].key.Cluster? && l.calls[c].phase == Running
    ensures Enabled(l, Settles(c))
  {
    hide ChainsEnd, InOrder, Linked, PrevSame;
    forall d: nat | d < |l.calls| ensures l.calls[d].parent != Some(c) {
      assert l.calls[d].parent != None ==> l.calls[l.calls[d].parent.value].key.Host?;
    }
  }

  /** Locking the host and then the cluster cannot deadlock: while any task is pending, some task can
      start or settle. */
  lemma NestingCannotDeadlock(run: seq<Locks>, ins: seq<Input>, k: nat, c: nat)
    requires IsRun(run, ins) && k < |run| && c < |run[k].calls| && run[k].calls[c].phase != Settled
    ensures CanMove(run[k])
  {
    hide IsRun, Inv;
    RunInv(run, ins, k);
    var l := run[k];
    if d :| 0 <= d < |l.calls| && l.calls[d].key.Cluster? && l.calls[d].phase != Settled {
      ClusterCanMove(l, d);
    } else {
      FirstMovesOn(l, l.calls[c].key, c);
      var f := FirstPending(l, l.calls[c].key, 0).value;
      if l.calls[f].phase == Running {
        ChildrenAreOver(l, f);
        assert Enabled(l, Settles(f));
      } else {
        assert Enabled(l, Starts(f));
      }
    }
  }

  lemma ClusterCanMove(l: Locks, d: nat)
    requires Inv(l) && d < |l.calls| && l.calls[d].key.Cluster? && l.calls[d].phase != Settled
    ensures CanMove(l)
  {
    hide Inv;
    FirstMovesOn(l, l.calls[d].key, d);
    var f := FirstPending(l, l.calls[d].key, 0).value;
    if l.calls[f].phase == Running {
      ClusterTaskSettles(l, f);
      assert Enabled(l, Settles(f));
    } else {
      assert Enabled(l, Starts(f));
    }
  }

  lemma ChildrenAreOver(l: Locks, f: nat)
    requires Inv(l) && forall d | 0 <= d < |l.calls| :: l.calls[d].key.Cluster? ==> l.calls[d].phase == Settled
    ensures ChildrenSettled(l, f)
  {
    hide ChainsEnd, InOrder, Linked, PrevSame;
  }
}

module ChainLocks {
  import opened Options
  import opened ChainLockModel

  class ChainLock {
    var chains: map<Key, nat>
    /** The promises themselves: every call of `Locked` with its phase. */
    var calls: seq<Call>

    ghost function Snap(): Locks
      reads this
    {
      Locks(calls, chains)
    }

    ghost predicate Valid()
      reads this
    {
      Inv(Snap())
    }

    constructor ()
      ensures Snap() == Empty && Valid()
    {
      chains, calls := map[], [];
    }

    /** Queues a task behind the end of the key's chain and makes it the new end. */
    method Locked(key: Key, parent: Option<nat>) returns (c: nat)
      requires Valid() && Enabled(Snap(), Arrives(key, parent))
      modifies this
      ensures Valid() && Snap() == ChainLockModel.Locked(old(Snap()), key, parent) && c == |old(calls)|
    {
      hide Inv;
      ArrivesInv(Snap(), key, parent);
      var prev := if key in chains then Some(chains[key]) else None;
      c := |calls|;
      calls := calls + [Call(key, prev, parent, Waiting, false)];
      chains := chains[key := c];
    }

    /** The promise chain moves on: a call starts, or settles. */
    method MoveOn(c: nat, phase: Phase)
      requires Valid() && c < |calls| && phase != Waiting
      requires Enabled(Snap(), if phase == Running then Starts(c) else Settles(c))
      modifies this`calls
      ensures Valid() && Snap() == Step(old(Snap()), if phase == Running then Starts(c) else Settles(c))
    {
      hide Inv;
      PhaseInv(Snap(), c, phase);
      calls := calls[c := calls[c].(phase := phase)];
    }

    /** The `finally` of a settled task. */
    method Finally(c: nat)
      requires Valid() && Enabled(Snap(), CleansUp(c))
      modifies this
      ensures Valid() && Snap() == CleanUp(old(Snap()), c)
    {
      hide Inv;
      CleanUpInv(Snap(), c);
      var key := calls[c].key;
      calls := calls[c := calls[c].(cleaned := true)];
      if key in chains && chains[key] == c { chains := chains - {key}; }
    }
  }
}
