/** The two ends of a run's event stream: what the server writes
    (apps/api/src/modules/connect/connect.controller.ts) against what the console reads of it
    (apps/console/src/lib/connect.ts). */
module StepWire {
  import opened Options
  import opened StepStreamModel

  /** What the server sends; the data is one line of JSON. */
  datatype Message = StepMessage(json: string) | RunMessage(json: string) | EndMessage(json: string) | Beat

  predicate Plain(s: string) {
    '\n' !in s && '\r' !in s
  }

  predicate Writable(m: Message) {
    m.Beat? || Plain(m.json)
  }

  function Named(event: string, json: string): string {
    "event: " + event + "\n" + ("data: " + json)
  }

  /** A message without the blank line behind it. */
  function Body(m: Message): string {
    match m
    case StepMessage(json) => Named("step", json)
    case RunMessage(json) => Named("run", json)
    case EndMessage(json) => Named("end", json)
    case Beat => ": heartbeat"
  }

  /** What the server writes for the messages, one after the other. */
  function Written(ms: seq<Message>): string {
    if ms == [] then "" else Body(ms[0]) + "\n\n" + Written(ms[1..])
  }

  /** What the console has to make of a message: a step or a run whose data is an object. Data that looks
      like a step is taken for one. */
  function Means(parse: string -> Json, m: Message): Update {
    match m
    case Beat => Skip
    case EndMessage(_) => End
    case StepMessage(json) => if parse(json) == NoObject then Skip else Update.Step(json)
    case RunMessage(json) =>
      match parse(json)
      case NoObject => Skip
      case Object(index, runId, _) => if index && runId then Update.Step(json) else Update.Run(json)
  }

  /** The updates of the messages before the first end. */
  function MeantBy(parse: string -> Json, ms: seq<Message>): seq<Update> {
    if ms == [] || ms[0].EndMessage? then []
    else (if Means(parse, ms[0]) == Skip then [] else [Means(parse, ms[0])]) + MeantBy(parse, ms[1..])
  }

  predicate HasEnd(ms: seq<Message>) {
    exists m | m in ms :: m.EndMessage?
  }

  // ---- cutting the text into frames ----

  /** No blank line ends in the text or at its end. */
  predicate NoBlank(s: string) {
    && '\r' !in s
    && forall j | 0 <= j < |s| && s[j] == '\n' :: j + 1 < |s| && s[j + 1] != '\n'
  }

  lemma FrameEnds(body: string, rest: string)
    requires NoBlank(body)
    ensures Split(body + "\n\n" + rest) == ([body] + Split(rest).0, Split(rest).1)
  {
    var s := body + "\n\n" + rest;
    forall j: nat | j < |body| ensures DelimiterAt(s, j) == None { InsideFrame(body, rest, j); }
    assert s[|body|] == '\n' && s[|body| + 1] == '\n';
    assert DelimiterAt(s, |body|) == Some(|body| + 2);
    assert Search(s, 0) == Some(|body|);
    assert s[..|body|] == body && s[|body| + 2..] == rest;
  }

  lemma InsideFrame(body: string, rest: string, j: nat)
    requires NoBlank(body) && j < |body|
    ensures DelimiterAt(body + "\n\n" + rest, j) == None
  {
    var s := body + "\n\n" + rest;
    assert s[j] == body[j];
    if j + 1 < |body| { assert s[j + 1] == body[j + 1]; }
    assert forall k | 0 <= k < |body| :: body[k] in body;
  }

  lemma PlainHasNoEnds(s: string)
    requires Plain(s)
    ensures forall j | 0 <= j < |s| :: s[j] != '\n' && s[j] != '\r'
  {
    forall j | 0 <= j < |s| ensures s[j] != '\n' && s[j] != '\r' { assert s[j] in s; }
  }

  lemma NamedHasNoBlank(event: string, json: string)
    requires Plain(event) && Plain(json)
    ensures NoBlank(Named(event, json))
  {
    var first, second := "event: " + event, "data: " + json;
    PlainHasNoEnds(first);
    PlainHasNoEnds(second);
    var s := first + "\n" + second;
    forall j | 0 <= j < |s| ensures s[j] != '\r' && (s[j] == '\n' <==> j == |first|) {
      assert s[j] == if j < |first| then first[j] else if j == |first| then '\n' else second[j - |first| - 1];
    }
    assert s[|first| + 1] == second[0] == 'd';
  }

  lemma BodyHasNoBlank(m: Message)
    requires Writable(m)
    ensures NoBlank(Body(m))
  {
    hide Named, NoBlank;
    match m
    case StepMessage(json) => NamedHasNoBlank("step", json);
    case RunMessage(json) => NamedHasNoBlank("run", json);
    case EndMessage(json) => NamedHasNoBlank("end", json);
    case Beat => BeatHasNoBlank();
  }

  lemma BeatHasNoBlank()
    ensures NoBlank(": heartbeat")
  {
  }

  function Bodies(ms: seq<Message>): seq<string> {
    seq(|ms|, i requires 0 <= i < |ms| => Body(ms[i]))
  }

  lemma {:induction false} WrittenSplits(ms: seq<Message>)
    requires forall m | m in ms :: Writable(m)
    ensures Split(Written(ms)) == (Bodies(ms), "")
  {
    hide Body;
    if ms != [] {
      BodyHasNoBlank(ms[0]);
      FrameEnds(Body(ms[0]), Written(ms[1..]));
      WrittenSplits(ms[1..]);
      assert Bodies(ms) == [Body(ms[0])] + Bodies(ms[1..]);
    }
  }

  // ---- reading one frame ----

  lemma {:induction false} LinePlain(a: string, rest: string)
    requires Plain(a)
    ensures Lines(a + "\n" + rest) == [a] + Lines(rest)
  {
    var s := a + "\n" + rest;
    if a == "" {
      assert s == "\n" + rest;
    } else {
      assert s[0] == a[0] && a[0] in a && s[1..] == a[1..] + "\n" + rest;
      LinePlain(a[1..], rest);
      assert [a[0]] + a[1..] == a;
    }
  }

  lemma {:induction false} OneLine(a: string)
    requires Plain(a)
    ensures Lines(a) == [a]
  {
    if a != "" {
      assert a[0] in a;
      OneLine(a[1..]);
      assert [a[0]] + a[1..] == a;
    }
  }

  lemma EventLine(f: Frame, event: string)
    requires event != "" && !IsSpace(event[0]) && !IsSpace(event[|event| - 1])
    ensures ReadLine(f, "event: " + event) == f.(event := event)
  {
    var line := "event: " + event;
    assert line[6..] == " " + event && (" " + event)[1..] == event;
    assert Trim(event) == event;
  }

  lemma DataLine(f: Frame, json: string)
    ensures ReadLine(f, "data: " + json) == f.(data := f.data + [json])
  {
    var line := "data: " + json;
    assert line[5] == ' ' && line[6..] == json && !("event:" <= line) by { assert line[0] == 'd'; }
  }

  lemma NamedReads(event: string, json: string)
    requires Plain(event) && Plain(json) && event != "" && !IsSpace(event[0]) && !IsSpace(event[|event| - 1])
    ensures ReadLines(Frame.Frame("message", []), Lines(Named(event, json))) == Frame.Frame(event, [json])
  {
    hide ReadLine, Lines, Trim;
    var f := Frame.Frame("message", []);
    LinePlain("event: " + event, "data: " + json);
    OneLine("data: " + json);
    assert ["event: " + event] + ["data: " + json] == ["event: " + event, "data: " + json];
    EventLine(f, event);
    DataLine(f.(event := event), json);
    ReadTwo(f, "event: " + event, "data: " + json);
  }

  lemma ReadTwo(f: Frame, a: string, b: string)
    ensures ReadLines(f, [a, b]) == ReadLine(ReadLine(f, a), b)
  {
    hide ReadLine;
    assert [a, b][1..] == [b] && [b][1..] == [];
    assert ReadLines(ReadLine(f, a), [b]) == ReadLine(ReadLine(f, a), b);
  }

  lemma BeatReads()
    ensures ReadLines(Frame.Frame("message", []), Lines(": heartbeat")) == Frame.Frame("message", [])
  {
    hide Lines, Trim;
    OneLine(": heartbeat");
    var f, line: string := Frame.Frame("message", []), ": heartbeat";
    assert line[0] == ':' && !("event:" <= line) && !("data:" <= line);
    assert [line][1..] == [] && ReadLines(f, [line]) == ReadLine(f, line);
  }

  /** The console reads a message as what it means. */
  lemma BodyMeans(parse: string -> Json, m: Message)
    requires Writable(m) && parse("") == NoObject
    ensures Interpret(parse, Body(m)) == Means(parse, m)
  {
    hide ReadLines, Lines, Named;
    match m
    case StepMessage(json) => NamedReads("step", json);
    case RunMessage(json) => NamedReads("run", json);
    case EndMessage(json) => NamedReads("end", json);
    case Beat => BeatReads();
  }

  lemma {:induction false} BodiesDispatch(parse: string -> Json, s: Stream, ms: seq<Message>)
    requires !s.ended && parse("") == NoObject && forall m | m in ms :: Writable(m)
    ensures var t := Dispatch(parse, s, Bodies(ms));
            t.dispatched == s.dispatched + MeantBy(parse, ms) && (t.ended <==> HasEnd(ms))
    decreases |ms|
  {
    hide Interpret, Body, Means;
    if ms == [] {
      assert s.dispatched + [] == s.dispatched;
    } else {
      var m := ms[0];
      BodyMeans(parse, m);
      EndsMean(parse, m);
      assert Bodies(ms)[0] == Body(m) && Bodies(ms)[1..] == Bodies(ms[1..]);
      if m.EndMessage? {
        assert s.dispatched + [] == s.dispatched;
      } else {
        var u := Means(parse, m);
        var t := if u == Skip then s else s.(dispatched := s.dispatched + [u]);
        BodiesDispatch(parse, t, ms[1..]);
        assert s.dispatched + ((if u == Skip then [] else [u]) + MeantBy(parse, ms[1..]))
            == t.dispatched + MeantBy(parse, ms[1..]);
        assert HasEnd(ms) <==> HasEnd(ms[1..]);
      }
    }
  }

  lemma EndsMean(parse: string -> Json, m: Message)
    ensures Means(parse, m) == End <==> m.EndMessage?
  {
  }

  /** End to end: in whatever pieces the text of the messages arrives, the console hands on exactly the steps
      and runs sent before the end, in order, whose data it can read; heartbeats are nothing; and it stops
      exactly when the server said so. */
  lemma ConsoleReadsServer(parse: string -> Json, ms: seq<Message>, pieces: seq<string>)
    requires parse("") == NoObject && (forall m | m in ms :: Writable(m))
    requires pieces != [] && Text(pieces) == Written(ms)
    ensures var t := PushAll(parse, Start, pieces);
            t.dispatched == MeantBy(parse, ms) && (t.ended <==> HasEnd(ms))
  {
    hide PushAll, Split, Interpret, Dispatch;
    PushAllIsPushText(parse, Start, pieces);
    WrittenSplits(ms);
    BodiesDispatch(parse, Start, ms);
    assert Start.buf + Text(pieces) == Written(ms);
    assert [] + MeantBy(parse, ms) == MeantBy(parse, ms);
  }
}
