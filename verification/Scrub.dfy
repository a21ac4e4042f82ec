/** Byte strings and the replacement the redactor performs on them
    (services/prgd-gateway/src/secrets.ts). `Redact` is the reference definition of "leftmost,
    non-overlapping replacement"; `ScrubFrom` is the search-and-splice the source runs. */
module Scrub {
  type Byte = b: nat | b < 256

  type Bytes = seq<Byte>

  const STAR: Byte := 42

  const REDACTED: Bytes := [STAR, STAR, STAR, STAR, STAR, STAR, STAR, STAR]

  const MIN_REDACT_LENGTH := 4

  /** A value the constructor keeps: shorter ones are filtered out and never redacted. */
  type Secret = s: Bytes | |s| >= MIN_REDACT_LENGTH witness [0, 0, 0, 0]

  ghost predicate OccursAt(x: Bytes, s: Bytes, i: int) {
    0 <= i && i + |s| <= |x| && x[i..i + |s|] == s
  }

  /** No occurrence of `s` anywhere in `x`. */
  ghost predicate Free(x: Bytes, s: Bytes) {
    forall i :: !OccursAt(x, s, i)
  }

  /** The secrets a replacement text of eight stars can neither complete nor contain. */
  ghost predicate StarSafe(s: Bytes) {
    s != [] && s[0] != STAR && s[|s| - 1] != STAR && Free(s, REDACTED)
  }

  /** Node's Buffer.indexOf: the least occurrence at or after `from`, or -1. */
  function IndexOf(x: Bytes, s: Bytes, from: nat): (i: int)
    ensures i == -1 || (from <= i && OccursAt(x, s, i))
    ensures forall j :: from <= j < (if i == -1 then |x| else i) ==> !OccursAt(x, s, j)
    ensures i == -1 ==> forall j :: from <= j ==> !OccursAt(x, s, j) || s == []
    decreases |x| - from
  {
    if from + |s| > |x| then -1
    else if x[from..from + |s|] == s then from
    else IndexOf(x, s, from + 1)
  }

  /** `buf` with the `n` bytes at `i` replaced by stars. */
  function Splice(x: Bytes, i: nat, n: nat): Bytes
    requires i + n <= |x|
  {
    x[..i] + REDACTED + x[i + n..]
  }

  /** The inner loop of `scrub` for one secret, from search position `from`. */
  function ScrubFrom(x: Bytes, s: Secret, from: nat): Bytes
    decreases |x| - from
  {
    var i := IndexOf(x, s, from);
    if i == -1 then x
    else ScrubFrom(Splice(x, i, |s|), s, i + |REDACTED|)
  }

  /** Reference: read left to right, replace each secret met, copy every other byte. */
  function Redact(x: Bytes, s: Secret): Bytes {
    if s <= x then REDACTED + Redact(x[|s|..], s)
    else if x == [] then []
    else [x[0]] + Redact(x[1..], s)
  }

  /** All secrets in list order, as the outer loop of `scrub`. */
  function ScrubAll(x: Bytes, secrets: seq<Secret>): Bytes
    decreases |secrets|
  {
    if secrets == [] then x
    else ScrubAll(ScrubFrom(x, secrets[0], 0), secrets[1..])
  }

  // ---- occurrences in pieces of a text ----

  lemma OccursShift(a: Bytes, b: Bytes, s: Bytes, i: int)
    requires 0 <= i
    ensures OccursAt(a + b, s, |a| + i) <==> OccursAt(b, s, i)
  {
    if i + |s| <= |b| {
      assert (a + b)[|a| + i..|a| + i + |s|] == b[i..i + |s|];
    }
  }

  lemma OccursPrefix(x: Bytes, y: Bytes, s: Bytes, i: int, n: nat)
    requires n <= |x| && n <= |y| && x[..n] == y[..n]
    requires OccursAt(x, s, i) && i + |s| <= n
    ensures OccursAt(y, s, i)
  {
    assert x[i..i + |s|] == x[..n][i..i + |s|];
    assert y[i..i + |s|] == y[..n][i..i + |s|];
  }

  /** A run of eight stars is a wall: an occurrence of a star-safe text lies before or after it. */
  lemma Wall(x: Bytes, s: Bytes, i: int, p: nat)
    requires StarSafe(s) && OccursAt(x, s, i) && HasWall(x, p)
    ensures i + |s| <= p || p + |REDACTED| <= i
  {
    if p < i + |s| && i < p + |REDACTED| {
      forall k | p <= k < p + |REDACTED| ensures x[k] == STAR {
        assert x[k] == x[p..p + |REDACTED|][k - p];
      }
      assert s[0] == x[i..i + |s|][0] == x[i];
      assert s[|s| - 1] == x[i..i + |s|][|s| - 1] == x[i + |s| - 1];
      assert i < p && p + |REDACTED| < i + |s|;
      forall k | 0 <= k < |REDACTED| ensures s[p - i..p - i + |REDACTED|][k] == REDACTED[k] {
        assert x[i..i + |s|][p - i + k] == x[p + k];
      }
      assert OccursAt(s, REDACTED, p - i);
    }
  }

  // ---- the loop computes the reference ----

  lemma OccursAtStart(x: Bytes, s: Bytes)
    ensures OccursAt(x, s, 0) <==> s <= x
  {
  }

  lemma RedactHead(a: Byte, x: Bytes, s: Secret)
    requires !OccursAt([a] + x, s, 0)
    ensures Redact([a] + x, s) == [a] + Redact(x, s)
  {
    OccursAtStart([a] + x, s);
    assert ([a] + x)[1..] == x;
  }

  /** Text without an occurrence starting in it is copied. */
  lemma {:induction false} RedactCopies(a: Bytes, b: Bytes, s: Secret)
    requires forall i :: 0 <= i < |a| ==> !OccursAt(a + b, s, i)
    ensures Redact(a + b, s) == a + Redact(b, s)
  {
    hide Redact;
    if a == [] {
      assert a + b == b;
      assert [] + Redact(b, s) == Redact(b, s);
    } else {
      var rest := a[1..] + b;
      assert a + b == [a[0]] + rest;
      assert !OccursAt(a + b, s, 0);
      RedactHead(a[0], rest, s);
      forall i | 0 <= i < |a[1..]| ensures !OccursAt(rest, s, i) {
        OccursShift([a[0]], rest, s, i);
        assert !OccursAt(a + b, s, 1 + i);
      }
      RedactCopies(a[1..], b, s);
      assert a + Redact(b, s) == [a[0]] + (a[1..] + Redact(b, s));
    }
  }

  lemma SecretFirst(x: Bytes, s: Secret, rest: Bytes)
    requires x == s + rest
    ensures Redact(x, s) == REDACTED + Redact(rest, s)
  {
    assert s <= x && x[|s|..] == rest;
  }

  lemma SpliceParts(x: Bytes, i: nat, n: nat)
    requires i + n <= |x|
    ensures var y := Splice(x, i, n);
            i + |REDACTED| <= |y| && y[..i + |REDACTED|] == x[..i] + REDACTED && y[i + |REDACTED|..] == x[i + n..]
    ensures x[i..] == x[i..i + n] + x[i + n..]
  {
  }

  /** One splice moves the scan over one secret. */
  lemma SpliceStep(x: Bytes, s: Secret, i: nat)
    requires OccursAt(x, s, i)
    ensures var y := Splice(x, i, |s|);
            i + |REDACTED| <= |y| &&
            x[..i] + Redact(x[i..], s) == y[..i + |REDACTED|] + Redact(y[i + |REDACTED|..], s)
  {
    var rest := x[i + |s|..];
    SpliceParts(x, i, |s|);
    SecretFirst(x[i..], s, rest);
    assert x[..i] + (REDACTED + Redact(rest, s)) == (x[..i] + REDACTED) + Redact(rest, s);
  }

  lemma {:induction false} ScrubFromIsRedact(x: Bytes, s: Secret, from: nat)
    requires from <= |x|
    ensures ScrubFrom(x, s, from) == x[..from] + Redact(x[from..], s)
    decreases |x| - from
  {
    var i := IndexOf(x, s, from);
    if i == -1 {
      CopiedUpTo(x, s, from, |x|);
    } else {
      CopiedUpTo(x, s, from, i);
      SpliceStep(x, s, i);
      ScrubFromIsRedact(Splice(x, i, |s|), s, i + |REDACTED|);
    }
  }

  lemma CopiedUpTo(x: Bytes, s: Secret, from: nat, stop: nat)
    requires from <= stop <= |x|
    requires forall j :: from <= j < stop ==> !OccursAt(x, s, j)
    ensures x[..from] + Redact(x[from..], s) == x[..stop] + Redact(x[stop..], s)
  {
    var a, b := x[from..stop], x[stop..];
    assert x[from..] == a + b && x == x[..from] + (a + b);
    forall j | 0 <= j < |a| ensures !OccursAt(a + b, s, j) {
      OccursShift(x[..from], a + b, s, j);
      assert !OccursAt(x, s, from + j);
    }
    RedactCopies(a, b, s);
    assert x[..stop] == x[..from] + a;
  }

  /** Scrubbing one secret is the leftmost non-overlapping replacement, for every secret. */
  lemma ScrubIsRedact(x: Bytes, s: Secret)
    ensures ScrubFrom(x, s, 0) == Redact(x, s)
    ensures ScrubAll(x, [s]) == Redact(x, s)
  {
    ScrubFromIsRedact(x, s, 0);
    assert x[0..] == x;
    assert ScrubAll(x, [s]) == ScrubAll(ScrubFrom(x, s, 0), [s][1..]);
  }

  // ---- what a replacement leaves behind ----

  ghost predicate HasWall(x: Bytes, p: int) {
    0 <= p && p + |REDACTED| <= |x| && x[p..p + |REDACTED|] == REDACTED
  }

  /** `y` agrees with `x` up to a wall at `p`. */
  ghost predicate WallAfter(x: Bytes, y: Bytes, p: int) {
    0 <= p <= |x| && HasWall(y, p) && y[..p] == x[..p]
  }

  /** Either nothing changed, or the text agrees with the original up to a wall. */
  ghost predicate FirstChange(x: Bytes, y: Bytes) {
    y == x || exists p :: WallAfter(x, y, p)
  }

  lemma WallShift(a: Byte, x: Bytes, y: Bytes, p: int)
    requires WallAfter(x, y, p)
    ensures WallAfter([a] + x, [a] + y, 1 + p)
  {
    assert ([a] + y)[1 + p..1 + p + |REDACTED|] == y[p..p + |REDACTED|];
    assert ([a] + y)[..1 + p] == [a] + y[..p] == [a] + x[..p] == ([a] + x)[..1 + p];
  }

  lemma WallAtFront(x: Bytes, y: Bytes)
    ensures WallAfter(x, REDACTED + y, 0)
  {
  }

  lemma {:induction false} RedactFirstChange(x: Bytes, s: Secret)
    ensures FirstChange(x, Redact(x, s))
  {
    if s <= x {
      WallAtFront(x, Redact(x[|s|..], s));
    } else if x != [] {
      RedactFirstChange(x[1..], s);
      var y := Redact(x[1..], s);
      assert x == [x[0]] + x[1..];
      hide Redact;
      if p :| WallAfter(x[1..], y, p) {
        WallShift(x[0], x[1..], y, p);
      }
    }
  }

  /** A wall that later stars run into is still a wall. */
  lemma WallSurvives(y: Bytes, z: Bytes, p: int, q: int)
    requires HasWall(y, p) && WallAfter(y, z, q) && p < q
    ensures HasWall(z, p) && z[..p] == y[..p]
  {
    assert z[..p] == z[..q][..p] == y[..q][..p];
    assert |z| >= p + |REDACTED|;
    forall k | p <= k < p + |REDACTED| ensures z[k] == STAR {
      if k < q {
        assert y[p..p + |REDACTED|][k - p] == STAR;
        assert z[..q][k] == y[..q][k];
      } else {
        assert z[q..q + |REDACTED|][k - q] == STAR;
      }
    }
    forall k | 0 <= k < |REDACTED| ensures z[p..p + |REDACTED|][k] == REDACTED[k] {}
  }

  lemma FirstChangeTransitive(x: Bytes, y: Bytes, z: Bytes)
    requires FirstChange(x, y) && FirstChange(y, z)
    ensures FirstChange(x, z)
  {
    if x != y && y != z {
      var p :| WallAfter(x, y, p);
      var q :| WallAfter(y, z, q);
      if q <= p {
        assert z[..q] == y[..p][..q] == x[..p][..q];
        assert WallAfter(x, z, q);
      } else {
        WallSurvives(y, z, p, q);
        assert WallAfter(x, z, p);
      }
    }
  }
}
