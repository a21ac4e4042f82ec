/** The streaming redactor (services/prgd-gateway/src/secrets.ts): it holds back the last
    (longest secret - 1) bytes, scrubs what it held together with each new chunk and shows the rest. */
module Redactor {
  import opened Scrub

  /** The constructor's filter. */
  function Kept(values: seq<Bytes>): (r: seq<Secret>)
    ensures forall v :: v in r <==> v in values && |v| >= MIN_REDACT_LENGTH
  {
    if values == [] then []
    else if |values[0]| >= MIN_REDACT_LENGTH then [values[0]] + Kept(values[1..])
    else Kept(values[1..])
  }

  /** One byte less than the longest secret, 0 without secrets. */
  function HoldFor(secrets: seq<Secret>): (n: nat)
    ensures forall s | s in secrets :: |s| - 1 <= n
    ensures if secrets == [] then n == 0 else exists s | s in secrets :: n == |s| - 1
  {
    if secrets == [] then 0
    else
      var rest, first := HoldFor(secrets[1..]), |secrets[0]| - 1;
      assert forall s | s in secrets :: s == secrets[0] || s in secrets[1..];
      if rest > first then rest else first
  }

  // ---- whole runs ----

  datatype Op = Push(chunk: Bytes) | Flush

  /** A run so far: everything shown, what is held back, the positions in `shown` where a flush
      ended, and the last of them (0 before the first flush). */
  datatype Run = Run(shown: Bytes, held: Bytes, cuts: set<nat>, last: nat)

  function Step(secrets: seq<Secret>, r: Run, op: Op): Run {
    match op
    case Flush =>
      var n := |r.shown + r.held|;
      Run(r.shown + r.held, [], r.cuts + {n}, n)
    case Push(chunk) =>
      if secrets == [] then r.(shown := r.shown + chunk)
      else
        var all := ScrubAll(r.held + chunk, secrets);
        var keep := if HoldFor(secrets) <= |all| then HoldFor(secrets) else |all|;
        r.(shown := r.shown + all[..|all| - keep], held := all[|all| - keep..])
  }

  /** A call only adds to what was shown; a flush shows exactly the window. */
  lemma StepAppends(secrets: seq<Secret>, r: Run, op: Op)
    ensures r.shown <= Step(secrets, r, op).shown
    ensures op.Flush? ==> Step(secrets, r, op).held == [] && Step(secrets, r, op).shown == r.shown + r.held
  {
  }

  function Stream(secrets: seq<Secret>, ops: seq<Op>): Run
  {
    if ops == [] then Run([], [], {}, 0)
    else Step(secrets, Stream(secrets, ops[..|ops| - 1]), ops[|ops| - 1])
  }

  lemma StreamSnoc(secrets: seq<Secret>, ops: seq<Op>, op: Op)
    ensures Stream(secrets, ops + [op]) == Step(secrets, Stream(secrets, ops), op)
  {
    assert (ops + [op])[..|ops|] == ops;
  }

  /** The object the session uses. `ops` records the calls made on it. */
  class Redactor {
    const secrets: seq<Secret>
    const hold: nat
    var held: Bytes
    ghost var ops: seq<Op>

    ghost predicate Valid()
      reads this
    {
      hold == HoldFor(secrets) && held == Stream(secrets, ops).held
    }

    constructor (values: seq<Bytes>)
      ensures Valid() && secrets == Kept(values) && held == [] && ops == []
    {
      secrets := Kept(values);
      hold := HoldFor(Kept(values));
      held := [];
      ops := [];
    }

    predicate Active() {
      |secrets| > 0
    }

    method Scrub(start: Bytes) returns (buf: Bytes)
      ensures buf == ScrubAll(start, secrets)
    {
      buf := start;
      for k := 0 to |secrets|
        invariant ScrubAll(start, secrets) == ScrubAll(buf, secrets[k..])
      {
        var s := secrets[k];
        ghost var before := buf;
        var i := IndexOf(buf, s, 0);
        ghost var from: nat := 0;
        while i != -1
          invariant i == IndexOf(buf, s, from)
          invariant ScrubFrom(before, s, 0) == ScrubFrom(buf, s, from)
          decreases if i == -1 then 0 else 1 + |buf| - i
        {
          assert OccursAt(buf, s, i);
          buf := buf[..i] + REDACTED + buf[i + |s|..];
          from := i + |REDACTED|;
          i := IndexOf(buf, s, i + |REDACTED|);
        }
        assert secrets[k..][1..] == secrets[k + 1..];
      }
    }

    /** Returns what can be shown now; keeps back a possible partial secret. */
    method Push(chunk: Bytes) returns (out: Bytes)
      requires Valid()
      modifies this
      ensures Valid() && ops == old(ops) + [Op.Push(chunk)]
      ensures Stream(secrets, ops).shown == Stream(secrets, old(ops)).shown + out
    {
      hide ScrubAll;
      ops := ops + [Op.Push(chunk)];
      assert ops[..|ops| - 1] == old(ops);
      if !Active() {
        return chunk;
      }
      var all := Scrub(held + chunk);
      var keep := if hold <= |all| then hold else |all|;
      held := all[|all| - keep..];
      out := all[..|all| - keep];
    }

    /** Releases what was held back. */
    method Flush() returns (out: Bytes)
      requires Valid()
      modifies this
      ensures Valid() && ops == old(ops) + [Op.Flush] && held == []
      ensures Stream(secrets, ops).shown == Stream(secrets, old(ops)).shown + out
    {
      ops := ops + [Op.Flush];
      assert ops[..|ops| - 1] == old(ops);
      out := held;
      held := [];
    }

    function Pending(): nat
      reads this
    {
      |held|
    }
  }
}

/** What a viewer of the redacted stream can and cannot see. */
module RedactorStream {
  import opened Scrub
  import opened ScrubLaws
  import opened Redactor

  /** The text since the last flush, and whether the window in front of it is long enough to
      complete any secret that has begun to be shown, or a wall separates them. */
  ghost predicate Guarded(secrets: seq<Secret>, seg: Bytes, held: Bytes) {
    seg == [] || |held| == HoldFor(secrets) || exists p :: HasWall(held, p)
  }

  ghost predicate Straddles(s: Bytes, i: int, cuts: set<nat>) {
    exists p :: p in cuts && i < p < i + |s|
  }

  /** Every occurrence of a secret in what was shown or is about to be shown crosses a flush. */
  ghost predicate Inv(secrets: seq<Secret>, r: Run) {
    && r.last <= |r.shown|
    && |r.held| <= HoldFor(secrets)
    && (r.last == 0 || r.last in r.cuts)
    && Clean(r.shown[r.last..] + r.held, secrets)
    && Guarded(secrets, r.shown[r.last..], r.held)
    && (forall s, i | s in secrets && OccursAt(r.shown + r.held, s, i) :: Straddles(s, i, r.cuts))
  }

  /** A push changes the window only behind a wall, so it cannot complete a secret with shown text. */
  lemma PushKeepsClean(secrets: seq<Secret>, seg: Bytes, held: Bytes, chunk: Bytes)
    requires AllSafe(secrets) && Clean(seg + held, secrets) && Guarded(secrets, seg, held)
    ensures Clean(seg + ScrubAll(held + chunk, secrets), secrets)
  {
    hide ScrubAll, OccursAt, Guarded, StarSafe;
    var all := ScrubAll(held + chunk, secrets);
    ScrubAllCleans(held + chunk, secrets);
    forall s, i | s in secrets ensures !OccursAt(seg + all, s, i) {
      if i >= |seg| {
        OccursShift(seg, all, s, i - |seg|);
      } else if OccursAt(seg + all, s, i) {
        NoEarlyOccurrence(secrets, seg, held, chunk, s, i);
      }
    }
  }

  lemma NoEarlyOccurrence(secrets: seq<Secret>, seg: Bytes, held: Bytes, chunk: Bytes, s: Secret, i: int)
    requires AllSafe(secrets) && Clean(seg + held, secrets) && Guarded(secrets, seg, held) && s in secrets
    requires i < |seg|
    ensures !OccursAt(seg + ScrubAll(held + chunk, secrets), s, i)
  {
    hide ScrubAll, Guarded;
    var all := ScrubAll(held + chunk, secrets);
    ScrubAllFirstChange(held + chunk, secrets);
    if OccursAt(seg + all, s, i) {
      if i + |s| <= |seg| {
        assert (seg + all)[..|seg|] == seg == (seg + held)[..|seg|];
        OccursPrefix(seg + all, seg + held, s, i, |seg|);
      } else {
        NoCompletion(secrets, seg, held, chunk, s, i);
      }
    }
  }

  /** An occurrence that starts before a changed text was there before the change. */
  lemma StartsBeforeChange(seg: Bytes, x: Bytes, all: Bytes, s: Bytes, i: int)
    requires StarSafe(s) && FirstChange(x, all) && i < |seg| && OccursAt(seg + all, s, i)
    ensures OccursAt(seg + x, s, i)
  {
    if all != x {
      var p :| WallAfter(x, all, p);
      assert (seg + all)[|seg| + p..|seg| + p + |REDACTED|] == all[p..p + |REDACTED|];
      Wall(seg + all, s, i, |seg| + p);
      assert (seg + all)[..|seg| + p] == seg + all[..p] == seg + x[..p] == (seg + x)[..|seg| + p];
      OccursPrefix(seg + all, seg + x, s, i, |seg| + p);
    }
  }

  lemma NoCompletion(secrets: seq<Secret>, seg: Bytes, held: Bytes, chunk: Bytes, s: Secret, i: int)
    requires AllSafe(secrets) && Clean(seg + held, secrets) && Guarded(secrets, seg, held)
    requires s in secrets && 0 <= i < |seg| < i + |s|
    ensures !OccursAt(seg + ScrubAll(held + chunk, secrets), s, i)
  {
    ScrubAllFirstChange(held + chunk, secrets);
    CompletionInWindow(secrets, seg, held, chunk, s, i);
    if OccursAt(seg + ScrubAll(held + chunk, secrets), s, i) {
      StartsBeforeChange(seg, held + chunk, ScrubAll(held + chunk, secrets), s, i);
    }
  }

  lemma CompletionInWindow(secrets: seq<Secret>, seg: Bytes, held: Bytes, chunk: Bytes, s: Secret, i: int)
    requires AllSafe(secrets) && Clean(seg + held, secrets) && Guarded(secrets, seg, held)
    requires s in secrets && 0 <= i < |seg| < i + |s|
    ensures !OccursAt(seg + (held + chunk), s, i)
  {
    var x := seg + (held + chunk);
    if OccursAt(x, s, i) {
      if |held| != HoldFor(secrets) {
        var p :| HasWall(held, p);
        assert x[|seg| + p..|seg| + p + |REDACTED|] == held[p..p + |REDACTED|];
        Wall(x, s, i, |seg| + p);
      }
      assert i + |s| <= |seg + held|;
      assert x[..|seg + held|] == seg + held;
      OccursPrefix(x, seg + held, s, i, |seg + held|);
    }
  }

  lemma PushKeepsGuard(secrets: seq<Secret>, seg: Bytes, held: Bytes, chunk: Bytes)
    requires Guarded(secrets, seg, held)
    ensures var all := ScrubAll(held + chunk, secrets);
            |all| < HoldFor(secrets) ==> Guarded(secrets, seg, all)
  {
    var x, all := held + chunk, ScrubAll(held + chunk, secrets);
    ScrubAllFirstChange(x, secrets);
    if |all| < HoldFor(secrets) && seg != [] {
      if all == x {
        assert |held| != HoldFor(secrets);
        var p :| HasWall(held, p);
        assert all[p..p + |REDACTED|] == held[p..p + |REDACTED|];
        assert HasWall(all, p);
      } else {
        var p :| WallAfter(x, all, p);
        assert HasWall(all, p);
      }
    }
  }

  lemma CutBehind(a: Bytes, y: Bytes, k: nat)
    requires k <= |y|
    ensures (a + y[..k]) + y[k..] == a + y && (k == 0 ==> a + y[..k] == a && y[k..] == y)
  {
  }

  lemma DropFront(a: Bytes, b: Bytes, n: nat)
    requires n <= |a|
    ensures (a + b)[n..] == a[n..] + b
  {
  }

  /** A push shows the front of the scrubbed window and holds a window of full length, or all of it. */
  lemma PushParts(secrets: seq<Secret>, r: Run, chunk: Bytes)
    requires secrets != []
    ensures var r' := Step(secrets, r, Op.Push(chunk));
            var all := ScrubAll(r.held + chunk, secrets);
            && r'.cuts == r.cuts && r'.last == r.last && |r.shown| <= |r'.shown|
            && r'.shown + r'.held == r.shown + all
            && (if |all| < HoldFor(secrets) then r'.shown == r.shown && r'.held == all
                else |r'.held| == HoldFor(secrets))
  {
    hide ScrubAll, HoldFor;
    var all, hold := ScrubAll(r.held + chunk, secrets), HoldFor(secrets);
    CutBehind(r.shown, all, |all| - (if hold <= |all| then hold else |all|));
  }

  lemma PushSplits(secrets: seq<Secret>, r: Run, chunk: Bytes)
    requires secrets != [] && r.last <= |r.shown|
    ensures var r' := Step(secrets, r, Op.Push(chunk));
            var all := ScrubAll(r.held + chunk, secrets);
            && r'.cuts == r.cuts && r'.last == r.last && r.last <= |r'.shown|
            && r'.shown + r'.held == r.shown + all
            && r'.shown[r.last..] + r'.held == r.shown[r.last..] + all
            && (if |all| < HoldFor(secrets) then r'.shown == r.shown && r'.held == all
                else |r'.held| == HoldFor(secrets))
  {
    hide ScrubAll, HoldFor, Step;
    PushParts(secrets, r, chunk);
    var r' := Step(secrets, r, Op.Push(chunk));
    DropFront(r.shown, ScrubAll(r.held + chunk, secrets), r.last);
    DropFront(r'.shown, r'.held, r.last);
  }

  lemma PushKeepsInv(secrets: seq<Secret>, r: Run, chunk: Bytes)
    requires AllSafe(secrets) && Inv(secrets, r) && secrets != []
    ensures Inv(secrets, Step(secrets, r, Op.Push(chunk)))
  {
    hide ScrubAll;
    var all := ScrubAll(r.held + chunk, secrets);
    PushKeepsClean(secrets, r.shown[r.last..], r.held, chunk);
    PushKeepsGuard(secrets, r.shown[r.last..], r.held, chunk);
    PushSplits(secrets, r, chunk);
    forall s, i | s in secrets && OccursAt(r.shown + all, s, i) ensures Straddles(s, i, r.cuts) {
      OldOccurrence(secrets, r, all, s, i);
    }
    hide Step, Clean, OccursAt;
  }

  lemma StepKeepsInv(secrets: seq<Secret>, r: Run, op: Op)
    requires AllSafe(secrets) && Inv(secrets, r)
    ensures Inv(secrets, Step(secrets, r, op))
  {
    match op
    case Flush =>
      var r' := Step(secrets, r, op);
      assert r'.shown + r'.held == r.shown + r.held;
      assert r'.shown[r'.last..] + r'.held == [];
      forall s, i | s in secrets && OccursAt(r'.shown + r'.held, s, i) ensures Straddles(s, i, r'.cuts) {
        assert Straddles(s, i, r.cuts);
      }
    case Push(chunk) =>
      if secrets != [] {
        PushKeepsInv(secrets, r, chunk);
      } else {
        assert forall s :: s !in secrets;
      }
  }

  lemma OldOccurrence(secrets: seq<Secret>, r: Run, all: Bytes, s: Secret, i: int)
    requires r.last <= |r.shown| && (r.last == 0 || r.last in r.cuts)
    requires forall s, i | s in secrets && OccursAt(r.shown + r.held, s, i) :: Straddles(s, i, r.cuts)
    requires s in secrets && OccursAt(r.shown + all, s, i)
    requires Clean(r.shown[r.last..] + all, secrets)
    ensures Straddles(s, i, r.cuts)
  {
    var pre, seg := r.shown[..r.last], r.shown[r.last..];
    assert r.shown + all == pre + (seg + all);
    if i >= r.last {
      OccursShift(pre, seg + all, s, i - r.last);
    } else if i + |s| <= r.last {
      OccursPrefix(r.shown + all, r.shown + r.held, s, i, r.last);
    }
  }

  lemma {:induction false} StreamKeepsInv(secrets: seq<Secret>, ops: seq<Op>)
    requires AllSafe(secrets)
    ensures Inv(secrets, Stream(secrets, ops))
  {
    if ops != [] {
      StreamKeepsInv(secrets, ops[..|ops| - 1]);
      StepKeepsInv(secrets, Stream(secrets, ops[..|ops| - 1]), ops[|ops| - 1]);
    } else {
      forall s, i | s in secrets ensures !OccursAt([], s, i) {}
    }
  }

  /** For every set of star-safe secrets and every interleaving of pushes and flushes, a secret can
      be seen only across a point where the window was flushed early. */
  lemma SecretsShowOnlyAcrossFlushes(values: seq<Bytes>, ops: seq<Op>, s: Secret, i: int)
    requires AllSafe(Kept(values)) && s in values
    requires OccursAt(Stream(Kept(values), ops).shown, s, i)
    ensures Straddles(s, i, Stream(Kept(values), ops).cuts)
  {
    var r := Stream(Kept(values), ops);
    StreamKeepsInv(Kept(values), ops);
    OccursPrefix(r.shown, r.shown + r.held, s, i, |r.shown|);
  }

  lemma {:induction false} NoFlushNoCuts(secrets: seq<Secret>, ops: seq<Op>)
    requires Op.Flush !in ops
    ensures Stream(secrets, ops).cuts == {} && Stream(secrets, ops).last == 0
  {
    if ops != [] {
      NoFlushNoCuts(secrets, ops[..|ops| - 1]);
      assert ops[|ops| - 1] in ops;
    }
  }

  /** Without a flush in between, no secret is ever shown, not even by the final release of the window. */
  lemma UnflushedRunShowsNoSecret(values: seq<Bytes>, ops: seq<Op>)
    requires AllSafe(Kept(values)) && Op.Flush !in ops
    ensures Clean(Stream(Kept(values), ops).shown, Kept(values))
    ensures Clean(Stream(Kept(values), ops + [Op.Flush]).shown, Kept(values))
  {
    var r := Stream(Kept(values), ops);
    StreamKeepsInv(Kept(values), ops);
    NoFlushNoCuts(Kept(values), ops);
    assert (ops + [Op.Flush])[..|ops|] == ops;
    assert r.shown[0..] + r.held == r.shown + r.held;
    forall s, i | s in Kept(values) ensures !OccursAt(r.shown, s, i) {
      if OccursAt(r.shown, s, i) {
        OccursPrefix(r.shown, r.shown + r.held, s, i, |r.shown|);
      }
    }
  }
}
