/** The stream against the batch: for one secret, exactly when every way of cutting an input shows the
    scrub of the whole input, and exactly when none ever shows the secret. */
module RedactorBatch {
  import opened Scrub
  import opened ScrubLaws
  import opened Redactor
  import opened RedactorStream

  function Concat(chunks: seq<Bytes>): Bytes {
    if chunks == [] then [] else Concat(chunks[..|chunks| - 1]) + chunks[|chunks| - 1]
  }

  function Pushes(chunks: seq<Bytes>): (ops: seq<Op>)
    ensures |ops| == |chunks| && Op.Flush !in ops
  {
    seq(|chunks|, i requires 0 <= i < |chunks| => Op.Push(chunks[i]))
  }

  /** Everything shown once the chunks were pushed and the window was released. */
  function Shown(s: Secret, chunks: seq<Bytes>): Bytes {
    Stream([s], Pushes(chunks) + [Op.Flush]).shown
  }

  /** The secrets that a wall of eight stars cannot begin, and that do not run through one. */
  ghost predicate HeadSafe(s: Secret) {
    s[0] != STAR && Free(s[..|s| - 1], REDACTED)
  }

  ghost predicate BatchSafe(s: Secret) {
    HeadSafe(s) || s == REDACTED
  }

  // ---- how far a scan has settled ----

  ghost predicate EndsInWall(p: Bytes) {
    |p| >= |REDACTED| && p[|p| - |REDACTED|..] == REDACTED
  }

  /** The scrubbed text up to the last replacement, which no later input changes. */
  function Fixed(x: Bytes, s: Secret): Bytes
    decreases |x|
  {
    var i := IndexOf(x, s, 0);
    if i == -1 then [] else x[..i] + REDACTED + Fixed(x[i + |s|..], s)
  }

  /** The text behind the last replacement. */
  function Open(x: Bytes, s: Secret): Bytes
    decreases |x|
  {
    var i := IndexOf(x, s, 0);
    if i == -1 then x else Open(x[i + |s|..], s)
  }

  ghost predicate NoStartBefore(x: Bytes, s: Secret, k: int) {
    k <= |x| && forall j | 0 <= j < k :: !OccursAt(x, s, j)
  }

  lemma WallBehind(p: Bytes, f: Bytes)
    requires (p == [] || EndsInWall(p)) && (f == [] || EndsInWall(f))
    ensures p + f == [] || EndsInWall(p + f)
  {
    if f == [] {
      assert p + f == p;
    } else {
      assert (p + f)[|p + f| - |REDACTED|..] == f[|f| - |REDACTED|..];
    }
  }

  lemma {:induction false} FixedEndsInWall(x: Bytes, s: Secret)
    ensures Free(Open(x, s), s) && (Fixed(x, s) == [] || EndsInWall(Fixed(x, s)))
    decreases |x|
  {
    hide EndsInWall;
    var i := IndexOf(x, s, 0);
    if i != -1 {
      FixedEndsInWall(x[i + |s|..], s);
      EndsInOwnWall(x[..i]);
      WallBehind(x[..i] + REDACTED, Fixed(x[i + |s|..], s));
    }
  }

  lemma NothingFixed(x: Bytes, s: Secret)
    ensures Fixed(x, s) == [] ==> Open(x, s) == x
  {
  }

  lemma EndsInOwnWall(a: Bytes)
    ensures EndsInWall(a + REDACTED)
  {
  }

  lemma FixedIsBehindStarts(x: Bytes, s: Secret, k: int)
    requires NoStartBefore(x, s, k) && Fixed(x, s) != []
    ensures k <= |Fixed(x, s)|
  {
  }

  lemma FirstSplits(x: Bytes, s: Secret, i: nat)
    requires i + |s| <= |x| && OccursAt(x, s, i)
    ensures x == x[..i] + (s + x[i + |s|..])
  {
  }

  /** Whatever follows, the settled part stays and the scan goes on in the rest. */
  lemma {:induction false} ScanGoesOn(x: Bytes, s: Secret, y: Bytes)
    ensures Redact(x + y, s) == Fixed(x, s) + Redact(Open(x, s) + y, s)
    decreases |x|
  {
    hide Redact, Fixed, Open;
    var i := IndexOf(x, s, 0);
    FixedAndOpenAt(x, s);
    if i == -1 {
      assert [] + Redact(x + y, s) == Redact(x + y, s);
    } else {
      var rest := x[i + |s|..];
      ScanGoesOn(rest, s, y);
      ScanToFirst(x, s, y, i);
      Regroup(x[..i], REDACTED, Fixed(rest, s) + Redact(Open(rest, s) + y, s));
      Regroup(x[..i] + REDACTED, Fixed(rest, s), Redact(Open(rest, s) + y, s));
      Regroup(REDACTED, Fixed(rest, s), Redact(Open(rest, s) + y, s));
    }
  }

  lemma FixedAndOpenAt(x: Bytes, s: Secret)
    ensures var i := IndexOf(x, s, 0);
            if i == -1 then Fixed(x, s) == [] && Open(x, s) == x
            else Fixed(x, s) == x[..i] + REDACTED + Fixed(x[i + |s|..], s) && Open(x, s) == Open(x[i + |s|..], s)
  {
    hide OccursAt, IndexOf;
  }

  lemma ScanToFirst(x: Bytes, s: Secret, y: Bytes, i: nat)
    requires OccursAt(x, s, i) && forall j | 0 <= j < i :: !OccursAt(x, s, j)
    ensures Redact(x + y, s) == x[..i] + (REDACTED + Redact(x[i + |s|..] + y, s))
  {
    hide Redact;
    var a, rest := x[..i], x[i + |s|..];
    FirstSplits(x, s, i);
    assert x + y == a + (s + (rest + y));
    forall j | 0 <= j < |a| ensures !OccursAt(x + y, s, j) { BeforeFirst(x, s, y, i, j); }
    RedactCopies(a, s + (rest + y), s);
    SecretFirst(s + (rest + y), s, rest + y);
  }

  lemma BeforeFirst(x: Bytes, s: Secret, y: Bytes, i: nat, j: nat)
    requires OccursAt(x, s, i) && j < i && !OccursAt(x, s, j)
    ensures !OccursAt(x + y, s, j)
  {
    if OccursAt(x + y, s, j) { OccursPrefix(x + y, x, s, j, |x|); }
  }

  /** Input `x` is settled up to `p`, and `q` is still open. */
  ghost predicate SettledTo(x: Bytes, s: Secret, p: Bytes, q: Bytes) {
    && (forall y :: Redact(x + y, s) == p + Redact(q + y, s))
    && Free(q, s) && (p == [] || EndsInWall(p))
  }

  lemma SettledStart(s: Secret)
    ensures SettledTo([], s, [], [])
  {
    hide Redact;
    forall y ensures Redact([] + y, s) == [] + Redact([] + y, s) {}
    forall j ensures !OccursAt([], s, j) {}
  }

  lemma SettledFurther(x: Bytes, s: Secret, p: Bytes, q: Bytes, c: Bytes)
    requires SettledTo(x, s, p, q)
    ensures SettledTo(x + c, s, p + Fixed(q + c, s), Open(q + c, s))
  {
    hide Redact, Fixed, Open;
    FixedEndsInWall(q + c, s);
    forall y ensures Redact((x + c) + y, s) == (p + Fixed(q + c, s)) + Redact(Open(q + c, s) + y, s) {
      ScanFurther(x, s, p, q, c, y);
    }
    WallBehind(p, Fixed(q + c, s));
  }

  lemma ScanFurther(x: Bytes, s: Secret, p: Bytes, q: Bytes, c: Bytes, y: Bytes)
    requires Redact(x + (c + y), s) == p + Redact(q + (c + y), s)
    ensures Redact((x + c) + y, s) == (p + Fixed(q + c, s)) + Redact(Open(q + c, s) + y, s)
  {
    hide Redact, Fixed, Open;
    assert (x + c) + y == x + (c + y);
    assert (q + c) + y == q + (c + y);
    ScanGoesOn(q + c, s, y);
    Regroup(p, Fixed(q + c, s), Redact(Open(q + c, s) + y, s));
  }

  lemma Regroup(a: Bytes, b: Bytes, c: Bytes)
    ensures a + (b + c) == (a + b) + c
  {
  }

  lemma SettledIsRedact(x: Bytes, s: Secret, p: Bytes, q: Bytes)
    requires SettledTo(x, s, p, q)
    ensures Redact(x, s) == p + q
  {
    hide Redact;
    assert x + [] == x && q + [] == q;
    RedactCopies(q, [], s);
    RedactNothing(s);
    assert Redact(x + [], s) == p + Redact(q + [], s);
  }

  lemma RedactNothing(s: Secret)
    ensures Redact([], s) == []
  {
  }

  // ---- a push behind a settled part ----

  /** What was shown ends in the settled part, or the window is full. */
  ghost predicate WindowHolds(s: Secret, shown: Bytes, held: Bytes, p: Bytes, q: Bytes) {
    && shown + held == p + q && |held| <= |s| - 1
    && (|held| == |s| - 1 || |shown| <= |p|)
  }

  /** No occurrence starts in stars that are held in front of the open text. */
  lemma NoStartInWall(s: Secret, w: Bytes, z: Bytes, q: Bytes, j: int)
    requires HeadSafe(s) && 0 <= j < |w| && |w + q| < |s| && q <= z
    requires |w| >= |REDACTED| ==> EndsInWall(w)
    requires |w| < |REDACTED| ==> forall k | 0 <= k < |w| :: w[k] == STAR
    ensures !OccursAt(w + z, s, j)
  {
    OccursByte(w + z, s, j, 0);
    if |w| < |REDACTED| || |w| - |REDACTED| <= j {
      assert |w| >= |REDACTED| ==> w[j] == w[|w| - |REDACTED|..][j - (|w| - |REDACTED|)];
      assert (w + z)[j] == w[j] == STAR;
    } else if OccursAt(w + z, s, j) {
      WallInSecret(s, w, z, j);
    }
  }

  lemma WallInSecret(s: Secret, w: Bytes, z: Bytes, j: int)
    requires EndsInWall(w) && 0 <= j < |w| - |REDACTED| && |w| < |s| && OccursAt(w + z, s, j)
    ensures OccursAt(s[..|s| - 1], REDACTED, |w| - |REDACTED| - j)
  {
    var at := |w| - |REDACTED| - j;
    var wall := s[..|s| - 1][at..at + |REDACTED|];
    forall k | 0 <= k < |REDACTED| ensures wall[k] == STAR {
      OccursByte(w + z, s, j, at + k);
      assert w[|w| - |REDACTED|..][k] == w[|w| - |REDACTED| + k];
    }
    assert wall == REDACTED;
  }

  lemma TailOfWall(p: Bytes, k: nat)
    requires k <= |p| && (p == [] || EndsInWall(p))
    ensures var w := p[k..];
            && (|w| >= |REDACTED| ==> EndsInWall(w))
            && (|w| < |REDACTED| ==> forall j | 0 <= j < |w| :: w[j] == STAR)
  {
    var w := p[k..];
    if p != [] {
      var wall := p[|p| - |REDACTED|..];
      if |w| >= |REDACTED| {
        assert w[|w| - |REDACTED|..] == wall;
      } else {
        forall j | 0 <= j < |w| ensures w[j] == STAR {
          assert w[j] == p[k + j] == wall[k + j - (|p| - |REDACTED|)];
        }
      }
    }
  }

  /** Scrubbing the window with the next chunk continues the scan of the whole input. */
  lemma WindowScansOn(s: Secret, shown: Bytes, held: Bytes, p: Bytes, q: Bytes, c: Bytes)
    requires HeadSafe(s) && WindowHolds(s, shown, held, p, q)
    requires Free(q, s) && (p == [] || EndsInWall(p))
    ensures shown + Redact(held + c, s) == p + Redact(q + c, s)
  {
    hide Redact;
    if |shown| <= |p| {
      var w := p[|shown|..];
      assert p == (p + q)[..|p|] && p[..|shown|] == (p + q)[..|shown|] == shown;
      assert held == (shown + held)[|shown|..] == (p + q)[|shown|..] == w + q;
      TailOfWall(p, |shown|);
      forall j | 0 <= j < |w| ensures !OccursAt(w + (q + c), s, j) { NoStartInWall(s, w, q + c, q, j); }
      RedactCopies(w, q + c, s);
      assert held + c == w + (q + c);
      assert shown + (w + Redact(q + c, s)) == (shown + w) + Redact(q + c, s) && shown + w == p;
    } else {
      var front := shown[|p|..];
      assert p == (p + q)[..|p|] == (shown + held)[..|p|] == shown[..|p|];
      assert q == (p + q)[|p|..] == (shown + held)[|p|..] == front + held;
      forall j | 0 <= j < |front| ensures !OccursAt(front + (held + c), s, j) {
        assert front + (held + c) == q + c;
        FreeStart(q, c, s, j);
      }
      RedactCopies(front, held + c, s);
      assert q + c == front + (held + c);
      assert p + (front + Redact(held + c, s)) == (p + front) + Redact(held + c, s) && p + front == shown;
    }
  }

  /** A window that a replacement made shorter than its full length has settled text in front. */
  lemma ShortWindowIsSettled(s: Secret, shown: Bytes, held: Bytes, p: Bytes, q: Bytes, c: Bytes)
    requires HeadSafe(s) && WindowHolds(s, shown, held, p, q)
    requires Free(q, s) && (p == [] || EndsInWall(p))
    requires |Redact(held + c, s)| < |s| - 1
    ensures |shown| <= |p| + |Fixed(q + c, s)|
  {
    hide Redact, Fixed, Open, HeadSafe, EndsInWall, Free, WindowHolds;
    WindowScansOn(s, shown, held, p, q, c);
    WindowLengths(s, shown, held, p, q);
    SameLength(shown, Redact(held + c, s), p, Redact(q + c, s));
    if |shown| > |p| {
      FixedCovers(s, q, c, |shown| - |p|);
    }
  }

  lemma WindowLengths(s: Secret, shown: Bytes, held: Bytes, p: Bytes, q: Bytes)
    requires WindowHolds(s, shown, held, p, q)
    ensures |shown| + |held| == |p| + |q| && (|held| == |s| - 1 || |shown| <= |p|)
  {
    SameLength(shown, held, p, q);
  }

  lemma SameLength(a: Bytes, b: Bytes, c: Bytes, d: Bytes)
    requires a + b == c + d
    ensures |a| + |b| == |c| + |d|
  {
    assert |a + b| == |c + d|;
  }

  lemma FixedCovers(s: Secret, q: Bytes, c: Bytes, k: nat)
    requires Free(q, s) && k + |s| - 1 == |q|
    ensures Fixed(q + c, s) == [] ==> |Redact(q + c, s)| >= |q|
    ensures Fixed(q + c, s) != [] ==> k <= |Fixed(q + c, s)|
  {
    hide Redact, Fixed, Open, OccursAt;
    NothingFixed(q + c, s);
    FixedAndOpen([], q + c, s);
    SameLength([], Redact(q + c, s), [] + Fixed(q + c, s), Open(q + c, s));
    forall j | 0 <= j < k ensures !OccursAt(q + c, s, j) { FreeStart(q, c, s, j); }
    if Fixed(q + c, s) != [] { FixedIsBehindStarts(q + c, s, k); }
  }

  /** An occurrence that starts in text without one runs past its end. */
  lemma FreeStart(q: Bytes, c: Bytes, s: Secret, j: int)
    requires Free(q, s) && j + |s| <= |q|
    ensures !OccursAt(q + c, s, j)
  {
    if OccursAt(q + c, s, j) { OccursPrefix(q + c, q, s, j, |q|); }
  }

  lemma PushShows(s: Secret, r: Run, c: Bytes)
    ensures var t := Step([s], r, Op.Push(c)); var all := Redact(r.held + c, s);
            && t.shown + t.held == r.shown + all
            && (if |all| < |s| - 1 then t.shown == r.shown && t.held == all else |t.held| == |s| - 1)
  {
    hide Redact, ScrubAll, HoldFor, Step;
    ScrubOne(r.held + c, s);
    HoldForOne(s);
    PushParts([s], r, c);
  }

  lemma ScrubOne(x: Bytes, s: Secret)
    ensures ScrubAll(x, [s]) == Redact(x, s)
  {
    ScrubIsRedact(x, s);
  }

  lemma HoldForOne(s: Secret)
    ensures HoldFor([s]) == |s| - 1
  {
    assert s in [s];
  }

  lemma {:induction false} StreamIsSettled(s: Secret, chunks: seq<Bytes>) returns (p: Bytes, q: Bytes)
    requires HeadSafe(s)
    ensures var r := Stream([s], Pushes(chunks)); WindowHolds(s, r.shown, r.held, p, q)
    ensures SettledTo(Concat(chunks), s, p, q)
  {
    hide HeadSafe, SettledTo, Redact, Fixed, Open, Step;
    if chunks == [] {
      p, q := [], [];
      SettledStart(s);
    } else {
      var before, c := chunks[..|chunks| - 1], chunks[|chunks| - 1];
      assert Pushes(chunks)[..|chunks| - 1] == Pushes(before);
      var f, o := StreamIsSettled(s, before);
      var r := Stream([s], Pushes(before));
      SettledParts(Concat(before), s, f, o);
      WindowScansOn(s, r.shown, r.held, f, o, c);
      PushShows(s, r, c);
      SettledFurther(Concat(before), s, f, o, c);
      p, q := f + Fixed(o + c, s), Open(o + c, s);
      FixedAndOpen(f, o + c, s);
      if |Redact(r.held + c, s)| < |s| - 1 { ShortWindowIsSettled(s, r.shown, r.held, f, o, c); }
    }
  }

  lemma SettledParts(x: Bytes, s: Secret, p: Bytes, q: Bytes)
    requires SettledTo(x, s, p, q)
    ensures Free(q, s) && (p == [] || EndsInWall(p))
  {
  }

  lemma FixedAndOpen(p: Bytes, z: Bytes, s: Secret)
    ensures p + Redact(z, s) == (p + Fixed(z, s)) + Open(z, s)
  {
    hide Redact, Fixed, Open;
    FixedEndsInWall(z, s);
    ScanGoesOn(z, s, []);
    assert z + [] == z && Open(z, s) + [] == Open(z, s);
    RedactCopies(Open(z, s), [], s);
    RedactNothing(s);
  }

  /** For one such secret, what was shown plus what is held is the scrubbed input so far, however the
      input was cut, even when replacements shrink the held tail. */
  lemma StreamIsBatch(s: Secret, chunks: seq<Bytes>)
    requires BatchSafe(s)
    ensures var r := Stream([s], Pushes(chunks)); r.shown + r.held == Redact(Concat(chunks), s)
  {
    hide Redact, HeadSafe;
    if HeadSafe(s) {
      var p, q := StreamIsSettled(s, chunks);
      SettledIsRedact(Concat(chunks), s, p, q);
    } else {
      StarsAreIdentity(chunks);
      RedactStars(Concat(chunks));
    }
  }

  /** Replacing eight stars by eight stars changes nothing. */
  lemma {:induction false} RedactStars(x: Bytes)
    ensures Redact(x, REDACTED) == x
    decreases |x|
  {
    if REDACTED <= x {
      RedactStars(x[|REDACTED|..]);
      assert x == REDACTED + x[|REDACTED|..];
    } else if x != [] {
      RedactStars(x[1..]);
      assert x == [x[0]] + x[1..];
    }
  }

  lemma {:induction false} StarsAreIdentity(chunks: seq<Bytes>)
    ensures var r := Stream([REDACTED], Pushes(chunks)); r.shown + r.held == Concat(chunks)
  {
    hide Redact, Step;
    if chunks != [] {
      var before, c := chunks[..|chunks| - 1], chunks[|chunks| - 1];
      assert Pushes(chunks)[..|chunks| - 1] == Pushes(before);
      StarsAreIdentity(before);
      var r := Stream([REDACTED], Pushes(before));
      PushShows(REDACTED, r, c);
      RedactStars(r.held + c);
      assert r.shown + (r.held + c) == (r.shown + r.held) + c;
    }
  }

  lemma FlushShowsAll(s: Secret, chunks: seq<Bytes>)
    ensures var r := Stream([s], Pushes(chunks)); Shown(s, chunks) == r.shown + r.held
  {
    assert (Pushes(chunks) + [Op.Flush])[..|chunks|] == Pushes(chunks);
  }

  /** Chunking is invisible: pushes followed by one flush show the scrub of the whole input. */
  lemma ChunkingIsInvisible(s: Secret, chunks: seq<Bytes>)
    requires BatchSafe(s)
    ensures Shown(s, chunks) == ScrubAll(Concat(chunks), [s])
  {
    FlushShowsAll(s, chunks);
    StreamIsBatch(s, chunks);
    ScrubOne(Concat(chunks), s);
  }

  // ---- the secrets for which it is not ----

  function Cut(y: Bytes, s: Secret): (k: nat)
    ensures k <= |y|
  {
    if |y| < |s| then 0 else |y| - (|s| - 1)
  }

  lemma FirstChunk(s: Secret, a: Bytes)
    ensures var r, y := Stream([s], Pushes([a])), Redact(a, s);
            r.shown == y[..Cut(y, s)] && r.held == y[Cut(y, s)..]
  {
    hide Redact, Step;
    assert [a][..0] == [] && Pushes([a])[..0] == [];
    PushShows(s, Run([], [], {}, 0), a);
    assert [] + a == a && [] + Redact(a, s) == Redact(a, s);
    assert Stream([s], []) == Run([], [], {}, 0);
    var r := Stream([s], Pushes([a]));
    assert r == Step([s], Run([], [], {}, 0), Op.Push(a));
    CutAt(r.shown, r.held, Redact(a, s));
  }

  lemma TwoChunks(s: Secret, a: Bytes, b: Bytes)
    ensures ScrubAll(Concat([a, b]), [s]) == Redact(a + b, s)
    ensures var y := Redact(a, s); Shown(s, [a, b]) == y[..Cut(y, s)] + Redact(y[Cut(y, s)..] + b, s)
  {
    hide Redact, Step, ScrubAll, Shown, Cut;
    assert [a, b][..1] == [a] && [a][..0] == [];
    assert Concat([a]) == [] + a == a;
    ScrubOne(a + b, s);
    assert Pushes([a, b])[..1] == Pushes([a]);
    FirstChunk(s, a);
    PushShows(s, Stream([s], Pushes([a])), b);
    FlushShowsAll(s, [a, b]);
  }

  lemma CutAt(a: Bytes, b: Bytes, y: Bytes)
    requires a + b == y
    ensures |a| + |b| == |y| && a == y[..|a|] && b == y[|a|..]
  {
    assert (a + b)[..|a|] == a && (a + b)[|a|..] == b;
  }

  /** All stars. */
  function Stars(n: nat): Bytes {
    seq(n, _ => STAR)
  }

  lemma AllStars(s: Bytes)
    ensures (forall j | 0 <= j < |s| :: s[j] == STAR) ==> s == Stars(|s|)
  {
  }

  lemma FirstPlain(s: Secret) returns (k: nat)
    requires s != Stars(|s|)
    ensures k < |s| && s[k] != STAR && forall j | 0 <= j < k :: s[j] == STAR
  {
    AllStars(s);
    k := 0;
    while k < |s| && s[k] == STAR
      invariant k <= |s| && forall j | 0 <= j < k :: s[j] == STAR
    {
      k := k + 1;
    }
  }

  lemma StarAt(s: Secret, n: nat, i: nat, k: nat)
    requires i < n + k && k < |s| && forall j | 0 <= j < k :: s[j] == STAR
    ensures (Stars(n) + (s + []))[i] == STAR
  {
  }

  lemma NoStartInStars(s: Secret, n: nat, j: nat)
    requires j < n && s != Stars(|s|)
    ensures !OccursAt(Stars(n) + (s + []), s, j)
  {
    var k := FirstPlain(s);
    OccursByte(Stars(n) + (s + []), s, j, k);
    StarAt(s, n, j + k, k);
  }

  /** A secret that is not all stars can start in a row of stars only where its own stars fit. */
  lemma StarsThenSecret(s: Secret, n: nat)
    requires s[0] == STAR && 0 < n && s != Stars(|s|)
    ensures Redact(Stars(n) + s[1..], s) == Stars(n - 1) + REDACTED
  {
    hide Redact, OccursAt;
    var a := Stars(n - 1);
    assert Stars(n) == a + [STAR] && [STAR] + s[1..] == s;
    assert Stars(n) + s[1..] == a + (s + []);
    forall j | 0 <= j < |a| ensures !OccursAt(a + (s + []), s, j) { NoStartInStars(s, n - 1, j); }
    RedactOnce(a, s, []);
    assert REDACTED + [] == REDACTED;
  }

  lemma OnlyStars(s: Secret, n: nat)
    requires s == Stars(|s|) && 0 < n < |s|
    ensures Redact(Stars(n) + s[1..], s) == Stars(n + 7)
  {
    hide Redact;
    assert Stars(n) + s[1..] == [] + (s + Stars(n - 1));
    RedactOnce([], s, Stars(n - 1));
    assert [] + (REDACTED + Stars(n - 1)) == Stars(n + 7);
  }

  /** The secret, then the secret without its leading star: the batch replaces once. */
  lemma LeadingStarBatch(s: Secret)
    ensures Redact(s, s) == REDACTED && Redact(s + s[1..], s) == REDACTED + s[1..]
  {
    hide Redact;
    SecretFirst(s, s, []);
    RedactEmpty(s);
    assert s + [] == s && REDACTED + [] == REDACTED;
    SecretFirst(s + s[1..], s, s[1..]);
    ShortIsCopied(s[1..], s);
  }

  lemma LeadingStarStream(s: Secret) returns (n: nat)
    requires s[0] == STAR
    ensures 0 < n <= 8 && n < |s| && Shown(s, [s, s[1..]]) == Stars(8 - n) + Redact(Stars(n) + s[1..], s)
  {
    hide Redact, Shown, Concat, ScrubAll;
    n := if |s| < 9 then |s| - 1 else 8;
    LeadingStarBatch(s);
    TwoChunks(s, s, s[1..]);
    assert REDACTED[..8 - n] == Stars(8 - n) && REDACTED[8 - n..] == Stars(n);
  }

  lemma LeadingStarDiffers(s: Secret)
    requires s[0] == STAR && s != REDACTED
    ensures Shown(s, [s, s[1..]]) != ScrubAll(Concat([s, s[1..]]), [s])
  {
    hide Redact, Shown, Concat, ScrubAll;
    TwoChunks(s, s, s[1..]);
    LeadingStarBatch(s);
    var n := LeadingStarStream(s);
    assert REDACTED == Stars(8);
    assert |REDACTED + s[1..]| == |s| + 7;
    if s == Stars(|s|) {
      OnlyStars(s, n);
      assert |Stars(8 - n) + Stars(n + 7)| == 15;
    } else {
      StarsThenSecret(s, n);
      var k := FirstPlain(s);
      var shown := Stars(8 - n) + (Stars(n - 1) + REDACTED);
      assert |shown| == 15;
      if |s| == 8 {
        assert shown[7 + k] == STAR;
        assert (REDACTED + s[1..])[7 + k] == s[k];
      }
    }
  }

  /** With `s` = `u`, eight stars, `w`: the batch turns `u`, `s`, `w` into `s` again. */
  lemma InnerStarsBatch(s: Secret, q: nat)
    requires OccursAt(s, REDACTED, q) && forall j :: j < q ==> !OccursAt(s, REDACTED, j)
    ensures var u, w := s[..q], s[q + |REDACTED|..];
            && (u + REDACTED) + w == s && Redact((u + s) + w, s) == s && Redact(u + s, s) == u + REDACTED
  {
    hide Redact;
    var u, w := s[..q], s[q + |REDACTED|..];
    assert s == u + (REDACTED + w);
    Regroup(u, REDACTED, w);
    Regroup(u, s, w);
    forall j | 0 <= j < |u| ensures !OccursAt(u + (s + w), s, j) {
      if OccursAt(u + (s + w), s, j) { EarlyStartMovesWall(s, q, j); }
    }
    RedactOnce(u, s, w);
    forall j | 0 <= j < |u| ensures !OccursAt(u + (s + []), s, j) {
      assert u + (s + []) == u + s;
      if OccursAt(u + s, s, j) { OccursPrefix(u + s, u + (s + w), s, j, |u + s|); }
    }
    RedactOnce(u, s, []);
    assert u + (s + []) == u + s && REDACTED + [] == REDACTED;
  }

  lemma InnerStarsDiffer(s: Secret, p: int)
    requires s[0] != STAR && OccursAt(s[..|s| - 1], REDACTED, p)
    ensures exists a, b :: Shown(s, [a, b]) != ScrubAll(Concat([a, b]), [s])
  {
    hide Redact, Shown, Concat, ScrubAll;
    OccursPrefix(s[..|s| - 1], s, REDACTED, p, |s| - 1);
    var q := LeastWall(s, p);
    var u, w := s[..q], s[q + |REDACTED|..];
    InnerStarsBatch(s, q);
    TwoChunks(s, u + s, w);
    LeadingStarBatch(s);
    var y := u + REDACTED;
    assert y[0..] == y && y[..0] == [] && [] + REDACTED == REDACTED;
    assert |y| < |s|;
    assert Shown(s, [u + s, w]) == REDACTED;
  }

  /** Exactly when chunking is invisible for a secret: no wall of eight stars can begin it or lies in it
      before its last byte, or it is the wall itself. */
  lemma StreamIsBatchIff(s: Secret)
    ensures (forall chunks :: Shown(s, chunks) == ScrubAll(Concat(chunks), [s])) <==> BatchSafe(s)
  {
    hide Shown, Concat, ScrubAll;
    if BatchSafe(s) {
      forall chunks: seq<Bytes> ensures Shown(s, chunks) == ScrubAll(Concat(chunks), [s]) {
        ChunkingIsInvisible(s, chunks);
      }
    } else if s[0] == STAR {
      LeadingStarDiffers(s);
    } else {
      var p :| OccursAt(s[..|s| - 1], REDACTED, p);
      InnerStarsDiffer(s, p);
    }
  }

  /** Exactly when no chunking of any input ever shows the secret: stars cannot rebuild it. */
  lemma StreamHidesIffStarSafe(s: Secret)
    ensures (forall chunks :: Free(Shown(s, chunks), s)) <==> StarSafe(s)
  {
    hide Shown;
    HiddenIffStarSafe(s);
    if StarSafe(s) {
      StarSafeIsHeadSafe(s);
      forall chunks ensures Free(Shown(s, chunks), s) {
        ChunkingIsInvisible(s, chunks);
        ScrubOne(Concat(chunks), s);
        assert !Leaks(Concat(chunks), s);
      }
    } else {
      var x :| Leaks(x, s);
      OneChunk(s, x);
      assert !Free(Shown(s, [x]), s);
    }
  }

  lemma StarSafeIsHeadSafe(s: Secret)
    requires StarSafe(s)
    ensures HeadSafe(s)
  {
    var t := s[..|s| - 1];
    forall p ensures !OccursAt(t, REDACTED, p) {
      if OccursAt(t, REDACTED, p) { OccursPrefix(t, s, REDACTED, p, |t|); }
    }
  }

  /** With a single chunk the stream is the batch for every secret. */
  lemma OneChunk(s: Secret, x: Bytes)
    ensures Shown(s, [x]) == Redact(x, s)
  {
    hide Redact, Step;
    FlushShowsAll(s, [x]);
    PushShows(s, Run([], [], {}, 0), x);
    assert Pushes([x])[..0] == [] && [] + x == x && [] + Redact(x, s) == Redact(x, s);
  }
}
