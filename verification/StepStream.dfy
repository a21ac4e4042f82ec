/** The live step stream of a run (apps/console/src/lib/connect.ts): text that arrives in pieces is cut
    into frames at blank lines, frames become updates, and updates are merged into the list. */
module StepStreamModel {
  import opened Options

  // ---- frames ----

  /** Where the delimiter that starts at `i` ends: two line ends, each with or without a return. */
  function DelimiterAt(s: string, i: nat): Option<nat> {
    var j := if i < |s| && s[i] == '\r' then i + 1 else i;
    if j >= |s| || s[j] != '\n' then None
    else
      var k := if j + 1 < |s| && s[j + 1] == '\r' then j + 2 else j + 1;
      if k >= |s| || s[k] != '\n' then None else Some(k + 1)
  }

  /** The leftmost delimiter at or after `from`. */
  function Search(s: string, from: nat): (i: Option<nat>)
    ensures i != None ==> from <= i.value && DelimiterAt(s, i.value) != None
    ensures forall j: nat :: from <= j < (if i == None then |s| else i.value) ==> DelimiterAt(s, j) == None
    decreases |s| - from
  {
    if from >= |s| then None
    else if DelimiterAt(s, from) != None then Some(from)
    else Search(s, from + 1)
  }

  /** The complete frames of a text, and what is left over. */
  function Split(s: string): (seq<string>, string)
    decreases |s|
  {
    match Search(s, 0)
    case None => ([], s)
    case Some(i) =>
      var rest := Split(s[DelimiterAt(s, i).value..]);
      ([s[..i]] + rest.0, rest.1)
  }

  lemma DelimiterIsLocal(a: string, b: string, i: nat)
    ensures DelimiterAt(a, i) != None ==>
              DelimiterAt(a + b, i) == DelimiterAt(a, i) && i + 2 <= DelimiterAt(a, i).value <= |a|
    ensures DelimiterAt(a + b, i) != None && DelimiterAt(a + b, i).value <= |a| ==>
              DelimiterAt(a, i) == DelimiterAt(a + b, i)
  {
  }

  /** More text cannot reveal a delimiter to the left of one that is complete already. */
  lemma NoEarlierDelimiter(a: string, b: string, i: nat, j: nat)
    requires DelimiterAt(a, i) != None && j < i && DelimiterAt(a, j) == None
    ensures DelimiterAt(a + b, j) == None
  {
    DelimiterIsLocal(a, b, i);
    DelimiterIsLocal(a, b, j);
  }

  lemma SearchIsLocal(a: string, b: string)
    requires Search(a, 0) != None
    ensures Search(a + b, 0) == Search(a, 0)
  {
    hide DelimiterAt;
    var i := Search(a, 0).value;
    DelimiterIsLocal(a, b, i);
    forall j: nat | j < i ensures DelimiterAt(a + b, j) == None {
      NoEarlierDelimiter(a, b, i, j);
    }
  }

  /** Cutting a text in two changes nothing: the frames of the first part, then those of what was left
      over with the second part. */
  lemma {:induction false} SplitInTwo(a: string, b: string)
    ensures var x := Split(a); var y := Split(x.1 + b); Split(a + b) == (x.0 + y.0, y.1)
    decreases |a|
  {
    hide DelimiterAt;
    match Search(a, 0)
    case None => assert [] + Split(a + b).0 == Split(a + b).0;
    case Some(i) =>
      SearchIsLocal(a, b);
      DelimiterIsLocal(a, b, i);
      var e := DelimiterAt(a, i).value;
      SplitInTwo(a[e..], b);
      assert (a + b)[..i] == a[..i] && (a + b)[e..] == a[e..] + b;
      var x, y := Split(a[e..]), Split(Split(a[e..]).1 + b);
      assert ([a[..i]] + x.0) + y.0 == [a[..i]] + (x.0 + y.0);
  }

  // ---- what a frame says ----

  predicate IsSpace(c: char) {
    c == ' ' || c == '\t' || c == '\n' || c == '\r'
  }

  function Trim(s: string): string
    decreases |s|
  {
    if s == [] then s
    else if IsSpace(s[0]) then Trim(s[1..])
    else if IsSpace(s[|s| - 1]) then Trim(s[..|s| - 1])
    else s
  }

  /** The lines of a frame, each with or without a return at its end. */
  function Lines(s: string): (ls: seq<string>)
    ensures ls != []
  {
    if s == [] then [[]]
    else if s[0] == '\n' then [[]] + Lines(s[1..])
    else if s[0] == '\r' && |s| > 1 && s[1] == '\n' then [[]] + Lines(s[2..])
    else
      var ls := Lines(s[1..]);
      [[s[0]] + ls[0]] + ls[1..]
  }

  datatype Frame = Frame(event: string, data: seq<string>)

  function ReadLine(f: Frame, line: string): Frame {
    if "event:" <= line then f.(event := Trim(line[6..]))
    else if "data:" <= line then
      f.(data := f.data + [if |line| > 5 && line[5] == ' ' then line[6..] else line[5..]])
    else f
  }

  function ReadLines(f: Frame, lines: seq<string>): Frame
    decreases |lines|
  {
    if lines == [] then f else ReadLines(ReadLine(f, lines[0]), lines[1..])
  }

  function Joined(lines: seq<string>): string {
    if lines == [] then "" else if |lines| == 1 then lines[0] else lines[0] + "\n" + Joined(lines[1..])
  }

  /** What the parsed data looks like. */
  datatype Json = NoObject | Object(index: bool, runId: bool, agentId: bool)

  datatype Update = Step(data: string) | Run(data: string) | End | Skip

  /** `parse` stands for the JSON parser. */
  function Interpret(parse: string -> Json, text: string): Update {
    var f := ReadLines(Frame("message", []), Lines(text));
    var data := Joined(f.data);
    if f.event == "end" || f.event == "done" then End
    else
      match parse(data)
      case NoObject => Skip
      case Object(index, runId, agentId) =>
        if f.event == "step" || (index && runId) then Step(data)
        else if f.event == "run" || agentId then Run(data)
        else Skip
  }

  // ---- the stream ----

  /** `dispatched`: the updates handed on so far. After an end frame nothing more is read. */
  datatype Stream = Stream(buf: string, dispatched: seq<Update>, ended: bool)

  const Start := Stream("", [], false)

  function Dispatch(parse: string -> Json, s: Stream, frames: seq<string>): Stream
    decreases |frames|
  {
    if s.ended || frames == [] then s
    else
      var u := Interpret(parse, frames[0]);
      var t := if u == End then s.(ended := true) else if u == Skip then s else s.(dispatched := s.dispatched + [u]);
      Dispatch(parse, t, frames[1..])
  }

  /** One piece of text arrives. */
  function Push(parse: string -> Json, s: Stream, piece: string): Stream {
    if s.ended then s
    else
      var x := Split(s.buf + piece);
      Dispatch(parse, s, x.0).(buf := x.1)
  }

  function PushAll(parse: string -> Json, s: Stream, pieces: seq<string>): Stream
    decreases |pieces|
  {
    if pieces == [] then s else PushAll(parse, Push(parse, s, pieces[0]), pieces[1..])
  }

  function Text(pieces: seq<string>): string {
    if pieces == [] then "" else pieces[0] + Text(pieces[1..])
  }

  lemma {:induction false} DispatchInTwo(parse: string -> Json, s: Stream, a: seq<string>, b: seq<string>)
    ensures Dispatch(parse, s, a + b) == Dispatch(parse, Dispatch(parse, s, a), b)
    decreases |a|
  {
    hide Interpret;
    if a == [] || s.ended {
      assert a == [] ==> a + b == b;
    } else {
      var u := Interpret(parse, a[0]);
      var t := if u == End then s.(ended := true) else if u == Skip then s else s.(dispatched := s.dispatched + [u]);
      assert (a + b)[0] == a[0] && (a + b)[1..] == a[1..] + b;
      DispatchInTwo(parse, t, a[1..], b);
    }
  }

  lemma {:induction false} DispatchIgnoresBuf(parse: string -> Json, s: Stream, frames: seq<string>, buf: string)
    ensures Dispatch(parse, s.(buf := buf), frames) == Dispatch(parse, s, frames).(buf := buf)
    decreases |frames|
  {
    hide Interpret;
    if !s.ended && frames != [] {
      var u := Interpret(parse, frames[0]);
      var t := if u == End then s.(ended := true) else if u == Skip then s else s.(dispatched := s.dispatched + [u]);
      DispatchIgnoresBuf(parse, t, frames[1..], buf);
    }
  }

  /** The updates of two streams agree, whatever else is left in their buffers once both have ended. */
  predicate SameUpdates(s: Stream, t: Stream) {
    s.dispatched == t.dispatched && s.ended == t.ended && (!s.ended ==> s.buf == t.buf)
  }

  lemma PushInTwo(parse: string -> Json, s: Stream, a: string, b: string)
    ensures SameUpdates(Push(parse, s, a + b), Push(parse, Push(parse, s, a), b))
  {
    hide Split, Interpret;
    if !s.ended {
      var x := Split(s.buf + a);
      SplitInTwo(s.buf + a, b);
      assert s.buf + (a + b) == (s.buf + a) + b;
      var y := Split(x.1 + b);
      DispatchInTwo(parse, s, x.0, y.0);
      DispatchIgnoresBuf(parse, Dispatch(parse, s, x.0), y.0, x.1);
    }
  }

  lemma {:induction false} PushAllIsPushText(parse: string -> Json, s: Stream, pieces: seq<string>)
    requires pieces != []
    ensures SameUpdates(PushAll(parse, s, pieces), Push(parse, s, Text(pieces)))
    decreases |pieces|
  {
    hide Push;
    if |pieces| == 1 {
      assert PushAll(parse, Push(parse, s, pieces[0]), pieces[1..]) == Push(parse, s, pieces[0]);
      assert Text(pieces) == pieces[0] + Text([]) == pieces[0];
    } else {
      PushAllIsPushText(parse, Push(parse, s, pieces[0]), pieces[1..]);
      PushInTwo(parse, s, pieces[0], Text(pieces[1..]));
    }
  }

  /** The updates depend on the text alone: any two ways of cutting the same text into pieces, with the
      cuts anywhere, even inside a delimiter, hand on the same updates in the same order. */
  lemma ChunksDoNotMatter(parse: string -> Json, pieces: seq<string>, others: seq<string>)
    requires pieces != [] && others != [] && Text(pieces) == Text(others)
    ensures SameUpdates(PushAll(parse, Start, pieces), PushAll(parse, Start, others))
  {
    hide Push, PushAll;
    PushAllIsPushText(parse, Start, pieces);
    PushAllIsPushText(parse, Start, others);
  }
}

/** The list of steps that the updates are merged into. */
module StepList {
  datatype RunStep = RunStep(id: string, index: int, detail: string)

  ghost predicate Sorted(steps: seq<RunStep>) {
    forall i, j | 0 <= i < j < |steps| :: steps[i].index <= steps[j].index
  }

  ghost predicate UniqueIds(steps: seq<RunStep>) {
    forall i, j | 0 <= i < j < |steps| :: steps[i].id != steps[j].id
  }

  function Without(steps: seq<RunStep>, id: string): seq<RunStep> {
    if steps == [] then []
    else if steps[0].id == id then Without(steps[1..], id)
    else [steps[0]] + Without(steps[1..], id)
  }

  /** A stable sort by index: a step goes behind every one that does not come after it. */
  function Place(sorted: seq<RunStep>, s: RunStep): seq<RunStep> {
    if sorted == [] then [s]
    else if sorted[|sorted| - 1].index <= s.index then sorted + [s]
    else Place(sorted[..|sorted| - 1], s) + [sorted[|sorted| - 1]]
  }

  function SortByIndex(steps: seq<RunStep>): seq<RunStep> {
    if steps == [] then [] else Place(SortByIndex(steps[..|steps| - 1]), steps[|steps| - 1])
  }

  function UpsertStep(steps: seq<RunStep>, s: RunStep): seq<RunStep> {
    SortByIndex(Without(steps, s.id) + [s])
  }

  lemma {:induction false} WithoutHas(steps: seq<RunStep>, id: string)
    ensures forall x :: x in Without(steps, id) <==> x in steps && x.id != id
    ensures UniqueIds(steps) ==> UniqueIds(Without(steps, id))
  {
    if steps != [] {
      WithoutHas(steps[1..], id);
      assert steps == [steps[0]] + steps[1..];
      if UniqueIds(steps) && steps[0].id != id {
        var rest := Without(steps[1..], id);
        forall i | 0 <= i < |rest| ensures rest[i].id != steps[0].id {
          assert rest[i] in steps[1..];
        }
      }
    }
  }

  lemma {:induction false} PlaceHas(sorted: seq<RunStep>, s: RunStep)
    ensures multiset(Place(sorted, s)) == multiset(sorted) + multiset{s}
  {
    if sorted != [] {
      var n := |sorted| - 1;
      PlaceHas(sorted[..n], s);
      assert sorted == sorted[..n] + [sorted[n]];
    }
  }

  lemma AppendSorts(front: seq<RunStep>, last: RunStep)
    requires Sorted(front) && forall i | 0 <= i < |front| :: front[i].index <= last.index
    ensures Sorted(front + [last])
  {
  }

  lemma EmptySorts()
    ensures Sorted([])
  {
  }

  lemma SortedFront(steps: seq<RunStep>, n: nat)
    requires Sorted(steps) && n < |steps|
    ensures Sorted(steps[..n]) && forall i | 0 <= i < n :: steps[i].index <= steps[n].index
  {
  }

  lemma {:induction false} PlaceSorts(sorted: seq<RunStep>, s: RunStep)
    requires Sorted(sorted)
    ensures Sorted(Place(sorted, s))
  {
    hide Sorted;
    if sorted == [] {
      EmptySorts();
      AppendSorts([], s);
      assert [] + [s] == [s];
    } else {
      var n := |sorted| - 1;
      SortedFront(sorted, n);
      if sorted[n].index > s.index {
        PlaceSorts(sorted[..n], s);
        PlaceHas(sorted[..n], s);
        assert sorted == sorted[..n] + [sorted[n]];
        PlaceBelow(sorted[..n], s, sorted[n]);
        AppendSorts(Place(sorted[..n], s), sorted[n]);
      } else {
        AppendSorts(sorted, s);
      }
    }
  }

  lemma PlaceBelow(front: seq<RunStep>, s: RunStep, last: RunStep)
    requires multiset(Place(front, s)) == multiset(front) + multiset{s}
    requires Sorted(front + [last]) && s.index <= last.index
    ensures forall i | 0 <= i < |Place(front, s)| :: Place(front, s)[i].index <= last.index
  {
    var p := Place(front, s);
    forall i | 0 <= i < |p| ensures p[i].index <= last.index {
      assert p[i] in multiset(front) + multiset{s};
      if p[i] in front {
        var j :| 0 <= j < |front| && front[j] == p[i];
        assert (front + [last])[j] == p[i] && (front + [last])[|front|] == last;
      }
    }
  }

  lemma {:induction false} SortHas(steps: seq<RunStep>)
    ensures multiset(SortByIndex(steps)) == multiset(steps) && Sorted(SortByIndex(steps))
  {
    if steps != [] {
      var n := |steps| - 1;
      SortHas(steps[..n]);
      PlaceHas(SortByIndex(steps[..n]), steps[n]);
      PlaceSorts(SortByIndex(steps[..n]), steps[n]);
      assert steps == steps[..n] + [steps[n]];
    }
  }

  lemma UniqueIsMultiset(a: seq<RunStep>, b: seq<RunStep>)
    requires multiset(a) == multiset(b) && UniqueIds(a)
    ensures UniqueIds(b)
  {
    forall i, j | 0 <= i < j < |b| ensures b[i].id != b[j].id {
      if b[i].id == b[j].id {
        TwoInMultiset(b, i, j);
        assert b[i] in multiset(a) && b[j] in multiset(a);
        var k :| 0 <= k < |a| && a[k] == b[i];
        var l :| 0 <= l < |a| && a[l] == b[j];
        assert k == l;
        OnceInUnique(a, k);
      }
    }
  }

  lemma TwoInMultiset(b: seq<RunStep>, i: nat, j: nat)
    requires i < j < |b|
    ensures b[i] == b[j] ==> multiset(b)[b[i]] >= 2
  {
    assert b == b[..i] + [b[i]] + b[i + 1..j] + [b[j]] + b[j + 1..];
  }

  lemma OnceInUnique(a: seq<RunStep>, k: nat)
    requires k < |a| && UniqueIds(a)
    ensures multiset(a)[a[k]] == 1
  {
    assert a == a[..k] + [a[k]] + a[k + 1..];
    assert a[k] !in a[..k] && a[k] !in a[k + 1..];
  }

  /** After a merge the list is in index order with every id once, it has the new version of the step,
      and of the others exactly what it had. */
  lemma UpsertKeepsTheList(steps: seq<RunStep>, s: RunStep)
    requires UniqueIds(steps)
    ensures Sorted(UpsertStep(steps, s)) && UniqueIds(UpsertStep(steps, s))
    ensures forall x :: x in UpsertStep(steps, s) <==> x == s || (x in steps && x.id != s.id)
  {
    var out := Without(steps, s.id) + [s];
    WithoutHas(steps, s.id);
    assert UniqueIds(out) by {
      forall i | 0 <= i < |Without(steps, s.id)| ensures Without(steps, s.id)[i].id != s.id {
        assert Without(steps, s.id)[i] in Without(steps, s.id);
      }
    }
    SortHas(out);
    UniqueIsMultiset(out, SortByIndex(out));
    forall x ensures x in SortByIndex(out) <==> x in out {
      assert x in SortByIndex(out) <==> x in multiset(SortByIndex(out));
      assert x in out <==> x in multiset(out);
    }
  }

  function UpsertAll(updates: seq<RunStep>): seq<RunStep> {
    if updates == [] then [] else UpsertStep(UpsertAll(updates[..|updates| - 1]), updates[|updates| - 1])
  }

  /** `x` is the last update for its id. */
  ghost predicate Latest(updates: seq<RunStep>, x: RunStep) {
    exists i :: 0 <= i < |updates| && updates[i] == x && forall j | i < j < |updates| :: updates[j].id != x.id
  }

  /** After any updates the list holds exactly the latest version of every step, each once, in order. */
  lemma {:induction false} ListHoldsTheLatest(updates: seq<RunStep>)
    ensures Sorted(UpsertAll(updates)) && UniqueIds(UpsertAll(updates))
    ensures forall x :: x in UpsertAll(updates) <==> Latest(updates, x)
  {
    if updates != [] {
      var n := |updates| - 1;
      ListHoldsTheLatest(updates[..n]);
      UpsertKeepsTheList(UpsertAll(updates[..n]), updates[n]);
      forall x ensures x in UpsertAll(updates) <==> Latest(updates, x) {
        LatestNext(updates, x);
      }
    }
  }

  lemma LatestNext(updates: seq<RunStep>, x: RunStep)
    requires updates != []
    ensures var n := |updates| - 1;
              Latest(updates, x) <==> x == updates[n] || (Latest(updates[..n], x) && x.id != updates[n].id)
  {
    var n := |updates| - 1;
    if Latest(updates[..n], x) && x.id != updates[n].id {
      var i :| 0 <= i < n && updates[..n][i] == x && forall j | i < j < n :: updates[..n][j].id != x.id;
      assert updates[i] == x && forall j | i < j < |updates| :: updates[j].id != x.id;
    }
    if Latest(updates, x) && x != updates[n] {
      var i :| 0 <= i < |updates| && updates[i] == x && forall j | i < j < |updates| :: updates[j].id != x.id;
      assert updates[..n][i] == x && forall j | i < j < n :: updates[..n][j].id != x.id;
    }
  }
}

module StepStreams {
  import opened Options
  import opened StepStreamModel

  class StepStream {
    const parse: string -> Json
    var buf: string
    var dispatched: seq<Update>
    var ended: bool

    ghost function Snap(): Stream
      reads this
    {
      Stream(buf, dispatched, ended)
    }

    constructor (parse: string -> Json)
      ensures this.parse == parse && Snap() == Start
    {
      this.parse, buf, dispatched, ended := parse, "", [], false;
    }

    /** Appends a piece of text and hands on the updates of every frame it completes. */
    method Push(piece: string)
      modifies this
      ensures SameUpdates(Snap(), StepStreamModel.Push(parse, old(Snap()), piece))
    {
      hide Interpret, DelimiterAt;
      if ended { return; }
      buf := buf + piece;
      ghost var all := buf;
      DispatchIgnoresBuf(parse, old(Snap()), Split(all).0, all);
      var i := Search(buf, 0);
      while i != None
        invariant !ended && i == Search(buf, 0)
        invariant var x, y := Split(all), Split(buf);
                  x.1 == y.1
                  && Dispatch(parse, Stream(buf, dispatched, ended), y.0).(buf := x.1)
                     == Dispatch(parse, old(Snap()), x.0).(buf := x.1)
        decreases |buf|
      {
        DelimiterIsLocal(buf, "", i.value);
        var frame := buf[..i.value];
        ghost var was := Snap();
        buf := buf[DelimiterAt(buf, i.value).value..];
        var u := Interpret(parse, frame);
        assert Split(was.buf).0 == [frame] + Split(buf).0;
        DispatchIgnoresBuf(parse, Snap(), Split(buf).0, was.buf);
        if u == End {
          ended := true;
          return;
        }
        if u != Skip { dispatched := dispatched + [u]; }
        DispatchIgnoresBuf(parse, Snap(), Split(buf).0, was.buf);
        i := Search(buf, 0);
      }
    }
  }
}
