/** What scrubbing guarantees: no secret survives it, exactly for the secrets that stars cannot
    rebuild, and a scrubbed prefix can be scrubbed again without changing the result. */
module ScrubLaws {
  import opened Scrub

  ghost predicate AllSafe(secrets: seq<Secret>) {
    forall s | s in secrets :: StarSafe(s)
  }

  /** No secret of the list occurs in `x`. */
  ghost predicate Clean(x: Bytes, secrets: seq<Secret>) {
    forall s | s in secrets :: Free(x, s)
  }

  lemma AbsentAtStart(x: Bytes, y: Bytes, t: Bytes)
    requires StarSafe(t) && FirstChange(x, y) && OccursAt(y, t, 0)
    ensures OccursAt(x, t, 0)
  {
    if y != x {
      var p :| WallAfter(x, y, p);
      Wall(y, t, 0, p);
      OccursPrefix(y, x, t, 0, p);
    }
  }

  lemma FreeTail(a: Bytes, b: Bytes, t: Bytes)
    requires Free(a + b, t)
    ensures Free(b, t)
  {
    forall i ensures !OccursAt(b, t, i) {
      if i >= 0 { OccursShift(a, b, t, i); }
    }
  }

  lemma FreeBehindWall(y: Bytes, t: Bytes)
    requires StarSafe(t) && Free(y, t)
    ensures Free(REDACTED + y, t)
  {
    forall i ensures !OccursAt(REDACTED + y, t, i) {
      if OccursAt(REDACTED + y, t, i) {
        assert HasWall(REDACTED + y, 0);
        Wall(REDACTED + y, t, i, 0);
        OccursShift(REDACTED, y, t, i - |REDACTED|);
      }
    }
  }

  lemma FreeBehindByte(a: Byte, y: Bytes, t: Bytes)
    requires Free(y, t) && !OccursAt([a] + y, t, 0)
    ensures Free([a] + y, t)
  {
    forall i ensures !OccursAt([a] + y, t, i) {
      if i > 0 { OccursShift([a], y, t, i - 1); }
    }
  }

  /** Replacing `s` removes `s` and creates no other star-safe text. */
  lemma {:induction false} RedactFree(x: Bytes, s: Secret, t: Bytes)
    requires StarSafe(t) && (t == s || Free(x, t))
    ensures Free(Redact(x, s), t)
  {
    hide Redact, StarSafe;
    if s <= x {
      var rest := x[|s|..];
      assert x == s + rest;
      if t != s { FreeTail(s, rest, t); }
      RedactFree(rest, s, t);
      SecretFirst(x, s, rest);
      FreeBehindWall(Redact(rest, s), t);
    } else if x != [] {
      var rest := x[1..];
      assert x == [x[0]] + rest;
      if t != s { FreeTail([x[0]], rest, t); }
      RedactFree(rest, s, t);
      OccursAtStart(x, s);
      RedactHead(x[0], rest, s);
      if OccursAt(Redact(x, s), t, 0) {
        RedactFirstChange(x, s);
        AbsentAtStart(x, Redact(x, s), t);
      }
      FreeBehindByte(x[0], Redact(rest, s), t);
    } else {
      RedactEmpty(s);
    }
  }

  lemma RedactEmpty(s: Secret)
    ensures Redact([], s) == []
  {
  }

  lemma {:induction false} ScrubAllKeepsFree(x: Bytes, secrets: seq<Secret>, t: Bytes)
    requires StarSafe(t) && (t in secrets || Free(x, t))
    ensures Free(ScrubAll(x, secrets), t)
    decreases |secrets|
  {
    if secrets != [] {
      ScrubIsRedact(x, secrets[0]);
      if t == secrets[0] || Free(x, t) {
        RedactFree(x, secrets[0], t);
      }
      ScrubAllKeepsFree(ScrubFrom(x, secrets[0], 0), secrets[1..], t);
    }
  }

  /** After scrubbing with star-safe secrets, none of them is left, whatever the order of the list. */
  lemma ScrubAllCleans(x: Bytes, secrets: seq<Secret>)
    requires AllSafe(secrets)
    ensures Clean(ScrubAll(x, secrets), secrets)
  {
    forall t | t in secrets ensures Free(ScrubAll(x, secrets), t) {
      ScrubAllKeepsFree(x, secrets, t);
    }
  }

  lemma {:induction false} ScrubAllFirstChange(x: Bytes, secrets: seq<Secret>)
    ensures FirstChange(x, ScrubAll(x, secrets))
    decreases |secrets|
  {
    if secrets != [] {
      var y := ScrubFrom(x, secrets[0], 0);
      ScrubIsRedact(x, secrets[0]);
      RedactFirstChange(x, secrets[0]);
      ScrubAllFirstChange(y, secrets[1..]);
      FirstChangeTransitive(x, y, ScrubAll(x, secrets));
    }
  }

  // ---- exactly which secrets a replacement by stars can hide ----

  lemma ShortIsCopied(x: Bytes, s: Secret)
    requires |x| < |s|
    ensures Redact(x, s) == x
  {
    assert x + [] == x;
    RedactCopies(x, [], s);
  }

  /** Text up to the only place the secret can start, the secret, then a text too short to hold it. */
  lemma RedactOnce(a: Bytes, s: Secret, b: Bytes)
    requires forall i :: 0 <= i < |a| ==> !OccursAt(a + (s + b), s, i)
    requires |b| < |s|
    ensures Redact(a + (s + b), s) == a + (REDACTED + b)
  {
    RedactCopies(a, s + b, s);
    SecretFirst(s + b, s, b);
    ShortIsCopied(b, s);
  }

  lemma OccursByte(x: Bytes, s: Bytes, j: int, k: nat)
    requires k < |s|
    ensures OccursAt(x, s, j) ==> x[j + k] == s[k]
  {
    if OccursAt(x, s, j) {
      assert x[j..j + |s|][k] == x[j + k];
    }
  }

  /** An input whose scrubbed form still shows the secret. */
  ghost predicate Leaks(x: Bytes, s: Secret) {
    !Free(Redact(x, s), s)
  }

  lemma LeadingStarLeaks(s: Secret)
    requires s[0] == STAR
    ensures Leaks(s + s[1..], s)
  {
    hide Redact;
    var t := s[1..];
    assert [] + (s + t) == s + t;
    RedactOnce([], s, t);
    assert [] + (REDACTED + t) == REDACTED + t;
    SpliceStar(t);
    assert [STAR] + t == s;
    assert OccursAt(Redact(s + t, s), s, 7);
  }

  lemma SpliceStar(t: Bytes)
    ensures (REDACTED + t)[7..8 + |t|] == [STAR] + t
  {
  }

  lemma TrailingStarLeaks(s: Secret)
    requires s[0] != STAR && s[|s| - 1] == STAR
    ensures Leaks(s[..|s| - 1] + s, s)
  {
    var t := s[..|s| - 1];
    var x := t + (s + []);
    assert s + [] == s;
    forall j | 0 <= j < |t| ensures !OccursAt(x, s, j) {
      OccursByte(x, s, j, 0);
      OccursByte(x, s, j, |t|);
    }
    RedactOnce(t, s, []);
    var y := Redact(x, s);
    assert REDACTED + [] == REDACTED;
    assert y == t + REDACTED;
    assert y[0..0 + |s|] == t + [STAR] == s;
    assert OccursAt(y, s, 0);
  }

  lemma LeastWall(s: Bytes, p: int) returns (q: int)
    requires OccursAt(s, REDACTED, p)
    ensures OccursAt(s, REDACTED, q) && forall j :: j < q ==> !OccursAt(s, REDACTED, j)
  {
    q := IndexOf(s, REDACTED, 0);
  }

  /** A secret starting earlier would show its stars earlier too. */
  lemma EarlyStartMovesWall(s: Secret, p: int, j: int)
    requires OccursAt(s, REDACTED, p) && 0 <= j < p
    requires OccursAt(s[..p] + (s + s[p + |REDACTED|..]), s, j)
    ensures OccursAt(s, REDACTED, j)
  {
    var x := s[..p] + (s + s[p + |REDACTED|..]);
    forall k | j <= k < j + |REDACTED| ensures s[k] == STAR {
      assert s[p..p + |REDACTED|][k - j] == STAR;
      OccursByte(x, s, j, p + k - j);
      assert x[p + k] == s[k];
    }
    assert s[j..j + |REDACTED|] == REDACTED;
  }

  lemma InnerStarsLeak(s: Secret, p: int)
    requires OccursAt(s, REDACTED, p) && forall j :: j < p ==> !OccursAt(s, REDACTED, j)
    ensures Leaks(s[..p] + (s + s[p + |REDACTED|..]), s)
  {
    hide Redact;
    var u, w := s[..p], s[p + |REDACTED|..];
    forall j | 0 <= j < |u| ensures !OccursAt(u + (s + w), s, j) {
      if OccursAt(u + (s + w), s, j) { EarlyStartMovesWall(s, p, j); }
    }
    RedactOnce(u, s, w);
    assert s == u + (REDACTED + w);
    assert OccursAt(s, s, 0);
  }

  /** The promise "any occurrence of a secret is replaced" holds of a secret on every input exactly
      when the secret neither starts nor ends with a star nor contains eight stars in a row. */
  lemma HiddenIffStarSafe(s: Secret)
    ensures (forall x :: !Leaks(x, s)) <==> StarSafe(s)
  {
    if StarSafe(s) {
      forall x ensures !Leaks(x, s) { RedactFree(x, s, s); }
    } else if s[0] == STAR {
      LeadingStarLeaks(s);
    } else if s[|s| - 1] == STAR {
      TrailingStarLeaks(s);
    } else {
      var p :| OccursAt(s, REDACTED, p);
      var q := LeastWall(s, p);
      InnerStarsLeak(s, q);
    }
  }

  // ---- scrubbing a scrubbed prefix again ----

  /** A wall at the front is copied. */
  lemma WallFirst(z: Bytes, s: Secret)
    requires StarSafe(s)
    ensures Redact(REDACTED + z, s) == REDACTED + Redact(z, s)
  {
    hide Redact;
    assert HasWall(REDACTED + z, 0);
    forall i | 0 <= i < |REDACTED| ensures !OccursAt(REDACTED + z, s, i) {
      if OccursAt(REDACTED + z, s, i) { Wall(REDACTED + z, s, i, 0); }
    }
    RedactCopies(REDACTED, z, s);
  }

  lemma RedactTwiceSecret(rest: Bytes, s: Secret, c: Bytes)
    requires StarSafe(s) && Redact(Redact(rest, s) + c, s) == Redact(rest + c, s)
    ensures Redact(Redact(s + rest, s) + c, s) == Redact((s + rest) + c, s)
  {
    hide Redact, StarSafe;
    var y := Redact(rest, s);
    SecretFirst(s + rest, s, rest);
    assert (s + rest) + c == s + (rest + c);
    SecretFirst(s + (rest + c), s, rest + c);
    assert (REDACTED + y) + c == REDACTED + (y + c);
    WallFirst(y + c, s);
  }

  lemma FirstChangeExtends(x: Bytes, y: Bytes, c: Bytes)
    requires FirstChange(x, y)
    ensures FirstChange(x + c, y + c)
  {
    if x != y {
      var p :| WallAfter(x, y, p);
      assert (y + c)[..p] == y[..p] && (x + c)[..p] == x[..p];
      assert (y + c)[p..p + |REDACTED|] == y[p..p + |REDACTED|];
      assert WallAfter(x + c, y + c, p);
    }
  }

  lemma NotAtStart(x: Bytes, s: Secret, c: Bytes)
    requires StarSafe(s) && |s| <= |x| && !OccursAt(x, s, 0)
    ensures !OccursAt(x + c, s, 0)
    ensures !OccursAt(Redact(x, s) + c, s, 0)
  {
    hide Redact;
    assert (x + c)[..|s|] == x[..|s|];
    if OccursAt(Redact(x, s) + c, s, 0) {
      RedactFirstChange(x, s);
      FirstChangeExtends(x, Redact(x, s), c);
      AbsentAtStart(x + c, Redact(x, s) + c, s);
    }
  }

  lemma ByteThen(a: Byte, x: Bytes, c: Bytes)
    ensures ([a] + x) + c == [a] + (x + c)
  {
  }

  lemma RedactTwiceByte(a: Byte, rest: Bytes, s: Secret, c: Bytes)
    requires StarSafe(s) && |s| <= 1 + |rest| && !OccursAt([a] + rest, s, 0)
    requires Redact(Redact(rest, s) + c, s) == Redact(rest + c, s)
    ensures Redact(Redact([a] + rest, s) + c, s) == Redact(([a] + rest) + c, s)
  {
    hide Redact, StarSafe, OccursAt;
    NotAtStart([a] + rest, s, c);
    ByteThen(a, rest, c);
    ByteThen(a, Redact(rest, s), c);
    RedactHead(a, rest, s);
    RedactHead(a, rest + c, s);
    RedactHead(a, Redact(rest, s) + c, s);
  }

  /** Scrubbing what was already scrubbed, followed by new text, is scrubbing the whole text. */
  lemma {:induction false} RedactTwice(x: Bytes, s: Secret, c: Bytes)
    requires StarSafe(s)
    ensures Redact(Redact(x, s) + c, s) == Redact(x + c, s)
  {
    hide Redact, StarSafe;
    if |x| < |s| {
      ShortIsCopied(x, s);
    } else if s <= x {
      assert x == s + x[|s|..];
      RedactTwice(x[|s|..], s, c);
      RedactTwiceSecret(x[|s|..], s, c);
    } else {
      assert x == [x[0]] + x[1..];
      OccursAtStart(x, s);
      RedactTwice(x[1..], s, c);
      RedactTwiceByte(x[0], x[1..], s, c);
    }
  }
}
