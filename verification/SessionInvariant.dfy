/** The invariant of a terminal session, part by part. */
module SessionInvariant {
  import opened Options
  import opened Scrub
  import Redactor
  import opened SessionModel

  // ---- control: the phase agrees with where `authenticate` and `finish` are suspended ----

  ghost predicate Ctl(l: Life) {
    && (l.authPc.AwaitSecret? ==> l.authPc.left > 0)
    && match l.phase
       case Auth => l.authPc == NotStarted && l.sessionId == None && l.finishPc == Idle && l.endReason == None
           && l.finished == 0
       case Connecting =>
         && l.finishPc == Idle && l.endReason == None && l.finished == 0
         && l.authPc != NotStarted && l.authPc != Returned && (l.authPc == AwaitCheck <==> l.sessionId == None)
       case Live => l.authPc == Returned && l.sessionId != None && l.finishPc == Idle && l.endReason == None
           && l.finished == 0
       case Closing =>
         && l.endReason != None && l.finished == 0
         && if l.sessionId == None then l.authPc == AwaitCheck && l.finishPc == Idle
            else l.authPc != NotStarted && l.authPc != AwaitCheck && l.finishPc != Idle
       case Closed =>
         && l.finishPc == Idle && l.finished == 1 && l.authPc != AwaitCheck
         && (l.sessionId != None ==> l.authPc != NotStarted && l.endReason != None)
  }

  // ---- the event log ----

  ghost predicate Body(es: seq<Event>) {
    forall e | e in es :: e == Started || e == Heartbeat
  }

  /** `es` is live-time events followed by exactly `tail`. */
  ghost predicate LogIs(es: seq<Event>, tail: seq<Event>) {
    && |tail| <= |es|
    && (forall i | 0 <= i < |tail| :: es[|es| - |tail| + i] == tail[i])
    && (forall i | 0 <= i < |es| - |tail| :: es[i] == Started || es[i] == Heartbeat)
  }

  function EndedPart(r: EndReason): seq<Event> {
    if r == Error then [ErrorReport, Ended(r)] else [Ended(r)]
  }

  /** What was queued since the session began to end. */
  function Tail(r: EndReason, pc: FinishPc): seq<Event> {
    match pc
    case Idle => []
    case AwaitEvent(_, AfterError) => [ErrorReport]
    case AwaitEvent(_, AfterStored) => EndedPart(r) + [RecordingStored]
    case AwaitEvent(_, AfterUploadFailed) => EndedPart(r) + [UploadFailed]
    case _ => EndedPart(r)
  }

  /** The complete report of an identified session. */
  ghost predicate Complete(es: seq<Event>, r: EndReason) {
    || LogIs(es, EndedPart(r))
    || LogIs(es, EndedPart(r) + [RecordingStored])
    || LogIs(es, EndedPart(r) + [UploadFailed])
  }

  ghost predicate Waiting(pc: FinishPc, r: EndReason, ev: Events) {
    match pc
    case Idle => true
    case AwaitEvent(k, next) => k == |ev.issued| - 1 && (next == AfterError ==> r == Error)
    case _ => ev.settled == |ev.issued|
  }

  ghost predicate Log(l: Life, ev: Events) {
    && ev.settled <= |ev.issued|
    && (l.sessionId == None ==> ev.issued == [])
    && match l.phase
       case Auth => ev.issued == [] && ev.failures == 0
       case Connecting => ev.issued == [] && ev.failures == 0
       case Live => Body(ev.issued) && Started in ev.issued && ev.failures < MAX_EVENT_FAILURES
       case Closing =>
         l.sessionId != None ==>
           LogIs(ev.issued, Tail(FinishReason(l), l.finishPc)) && Waiting(l.finishPc, FinishReason(l), ev)
       case Closed => l.sessionId != None ==> Complete(ev.issued, FinishReason(l)) && ev.settled == |ev.issued|
  }

  // ---- timers ----

  /** The last expiry timer ends the session at the current expiry; the others are notices. */
  ghost predicate OneEndTimer(now: int, expiresAt: int, ts: seq<ExpiryTimer>) {
    && |ts| > 0
    && ts[|ts| - 1].EndTimer?
    && ts[|ts| - 1].setAt <= now
    && ts[|ts| - 1].deadline == ts[|ts| - 1].setAt + Delay(expiresAt, ts[|ts| - 1].setAt)
    && forall i | 0 <= i < |ts| - 1 :: ts[i].NoticeTimer?
  }

  ghost predicate Clock(p: Phase, now: int, expiresAt: int, t: Timers) {
    && ClockMayReach(now, t, now)
    && match p
       case Auth => t.expiry == [] && t.flush == None && !t.intervals && t.auth != None
       case Connecting => t.expiry == [] && t.flush == None && !t.intervals
       case Live => OneEndTimer(now, expiresAt, t.expiry) && t.intervals
       case _ => t == NoTimers
  }

  // ---- frames ----

  ghost predicate FrameOrder(fs: seq<Frame>) {
    && (forall i | 0 <= i < |fs| - 1 :: fs[i] != ClosedFrame)
    && (forall i, j | 0 <= i < j < |fs| :: !(fs[i].Ready? && fs[j].Ready?))
    && (forall j | 0 <= j < |fs| && fs[j].Output? :: exists i :: 0 <= i < j && fs[i].Ready?)
  }

  ghost predicate Quiet(fs: seq<Frame>) {
    forall f | f in fs :: !f.Ready? && !f.Output?
  }

  ghost predicate HasReady(fs: seq<Frame>) {
    exists i :: 0 <= i < |fs| && fs[i].Ready?
  }

  /** The bytes the browser received. */
  function Sent(fs: seq<Frame>): Bytes {
    if fs == [] then []
    else
      var f := fs[|fs| - 1];
      Sent(fs[..|fs| - 1]) + if f.Output? then f.data else []
  }

  /** The socket's frames are in order, and while it is open the browser has all that was shown. */
  ghost predicate Screen(b: Browser, shown: Bytes) {
    && FrameOrder(b.frames)
    && (b.open ==> ClosedFrame !in b.frames && Sent(b.frames) == shown)
    && Sent(b.frames) <= shown
  }

  ghost predicate Frames(p: Phase, b: Browser, shown: Bytes) {
    && Screen(b, shown)
    && (p == Auth || p == Connecting ==> Quiet(b.frames))
    && (p == Live && b.open ==> HasReady(b.frames))
    && (p == Closing || p == Closed ==> !b.open)
  }

  // ---- the redactor and the asset ----

  ghost predicate Streamed(secrets: seq<Secret>, red: Redactor.Run) {
    exists ops :: red == Redactor.Stream(secrets, ops)
  }

  ghost predicate Rel(p: Phase, pc: AuthPc, values: seq<Bytes>, secrets: seq<Secret>, red: Redactor.Run) {
    && Streamed(secrets, red)
    && (p == Auth || p == Connecting || pc != Returned ==> red.shown == [] && red.held == [])
    && (p == Live || red.shown != [] || pc == AwaitSsh || pc == AwaitShell ==> secrets == Redactor.Kept(values))
  }

  ghost predicate Ast(p: Phase, pc: AuthPc, a: Asset) {
    match p
    case Auth => a.ssh == NoConn && a.stream == NoConn && !a.listening
    case Connecting => (a.ssh == Open <==> pc == AwaitShell) && a.ssh != Shut && a.stream == NoConn && !a.listening
    case Live => a.ssh == Open && a.stream == Open && a.listening
    case _ => a.ssh != Open && !a.listening
  }

  ghost predicate Inv(s: S) {
    && Ctl(s.life)
    && Log(s.life, s.events)
    && Clock(s.life.phase, s.now, s.expiresAt, s.timers)
    && Frames(s.life.phase, s.browser, s.red.shown)
    && Rel(s.life.phase, s.life.authPc, s.values, s.secrets, s.red)
    && Ast(s.life.phase, s.life.authPc, s.asset)
  }

  // ---- frames ----

  lemma SentAppend(fs: seq<Frame>, f: Frame)
    ensures Sent(fs + [f]) == Sent(fs) + if f.Output? then f.data else []
  {
    assert (fs + [f])[..|fs|] == fs;
  }

  lemma OrderAppend(fs: seq<Frame>, f: Frame)
    requires FrameOrder(fs) && ClosedFrame !in fs
    requires f.Ready? ==> Quiet(fs)
    requires f.Output? ==> HasReady(fs)
    ensures FrameOrder(fs + [f])
    ensures HasReady(fs) || f.Ready? ==> HasReady(fs + [f])
  {
    var gs := fs + [f];
    forall j | 0 <= j < |gs| && gs[j].Output? ensures exists i :: 0 <= i < j && gs[i].Ready? {
      if j < |fs| {
        var i :| 0 <= i < j && fs[i].Ready?;
        assert gs[i].Ready?;
      } else {
        var i :| 0 <= i < |fs| && fs[i].Ready?;
        assert gs[i].Ready?;
      }
    }
    forall i, j | 0 <= i < j < |gs| ensures !(gs[i].Ready? && gs[j].Ready?) {
      assert gs[i] == fs[i] && gs[i] in fs;
    }
    if f.Ready? {
      assert gs[|fs|].Ready?;
    } else if HasReady(fs) {
      var i :| 0 <= i < |fs| && fs[i].Ready?;
      assert gs[i].Ready?;
    }
  }

  /** Any frame but `closed` may be sent when its turn has come. */
  lemma SendKeepsScreen(b: Browser, shown: Bytes, f: Frame)
    requires Screen(b, shown) && f != ClosedFrame
    requires b.open && f.Ready? ==> Quiet(b.frames)
    requires b.open && f.Output? ==> HasReady(b.frames)
    ensures Screen(SendTo(b, f), shown + if f.Output? then f.data else [])
    ensures !f.Ready? && !f.Output? && Quiet(b.frames) ==> Quiet(SendTo(b, f).frames)
    ensures HasReady(b.frames) || (b.open && f.Ready?) ==> HasReady(SendTo(b, f).frames)
  {
    if b.open {
      SentAppend(b.frames, f);
      OrderAppend(b.frames, f);
    }
    assert shown + [] == shown;
  }

  lemma CloseKeepsScreen(b: Browser, shown: Bytes)
    requires Screen(b, shown)
    ensures Screen(SendTo(b, ClosedFrame).(open := false), shown)
  {
    if b.open {
      SentAppend(b.frames, ClosedFrame);
      OrderAppend(b.frames, ClosedFrame);
    }
  }

  /** Frames other than `ready`, output and `closed` may be sent at any time. */
  lemma PlainFrame(p: Phase, b: Browser, shown: Bytes, f: Frame)
    requires Frames(p, b, shown) && (f == Notice || f == Pong)
    ensures Frames(p, SendTo(b, f), shown)
  {
    SendKeepsScreen(b, shown, f);
    assert shown + [] == shown;
  }

  lemma ReadyFrame(b: Browser, shown: Bytes, exp: int)
    requires Frames(Connecting, b, shown)
    ensures Frames(Live, SendTo(b, Ready(exp)), shown)
  {
    SendKeepsScreen(b, shown, Ready(exp));
    assert shown + [] == shown;
  }

  lemma OutputFrame(b: Browser, shown: Bytes, out: Bytes)
    requires Screen(b, shown) && (b.open ==> HasReady(b.frames) || out == [])
    ensures Screen(if out == [] then b else SendTo(b, Output(out)), shown + out)
    ensures HasReady(b.frames) ==> HasReady(SendTo(b, Output(out)).frames)
  {
    if out == [] {
      assert shown + out == shown;
      if HasReady(b.frames) && b.open { SendKeepsScreen(b, shown, Output(out)); }
    } else {
      SendKeepsScreen(b, shown, Output(out));
    }
  }

  lemma StreamedStep(secrets: seq<Secret>, red: Redactor.Run, op: Redactor.Op)
    requires Streamed(secrets, red)
    ensures Streamed(secrets, Redactor.Step(secrets, red, op))
  {
    var ops :| red == Redactor.Stream(secrets, ops);
    assert (ops + [op])[..|ops|] == ops;
    assert Redactor.Step(secrets, red, op) == Redactor.Stream(secrets, ops + [op]);
  }

  /** A redactor call emits exactly the bytes it adds to what was shown. */
  lemma RelayKeeps(s: S, op: Redactor.Op)
    requires Screen(s.browser, s.red.shown)
    requires s.browser.open ==> HasReady(s.browser.frames) || (op.Flush? && s.red.held == [])
    ensures var t := Relay(s, op);
            && Screen(t.browser, t.red.shown)
            && t == s.(red := Redactor.Step(s.secrets, s.red, op), browser := t.browser)
            && t.browser.open == s.browser.open
            && (HasReady(s.browser.frames) ==> HasReady(t.browser.frames))
  {
    Redactor.StepAppends(s.secrets, s.red, op);
    var r := Redactor.Step(s.secrets, s.red, op);
    hide Redactor.Step, Screen, HasReady;
    var out := r.shown[|s.red.shown|..];
    assert r.shown == s.red.shown + out;
    OutputFrame(s.browser, s.red.shown, out);
  }

  // ---- the event log ----

  lemma LogAppend(es: seq<Event>, tail: seq<Event>, e: Event)
    requires LogIs(es, tail)
    ensures LogIs(es + [e], tail + [e])
  {
    assert (es + [e])[|es| - |tail|..] == es[|es| - |tail|..] + [e];
    assert (es + [e])[..|es| - |tail|] == es[..|es| - |tail|];
  }

  lemma BodyLog(es: seq<Event>)
    requires Body(es)
    ensures LogIs(es, [])
    ensures forall e :: LogIs(es + [e], [e])
  {
    forall i | 0 <= i < |es| ensures es[i] == Started || es[i] == Heartbeat { assert es[i] in es; }
    forall e ensures LogIs(es + [e], [e]) {
      LogAppend(es, [], e);
      assert [] + [e] == [e];
    }
  }

  /** `finish` of a closing session with an id queues the first closing report. */
  lemma FinishReports(s: S)
    requires s.life.phase == Closing && s.life.endReason != None && s.life.sessionId != None
    requires Body(s.events.issued) && s.events.settled <= |s.events.issued|
    ensures var t := Finish(s);
            && Log(t.life, t.events)
            && t == s.(life := s.life.(finishPc := t.life.finishPc), events := t.events)
            && t.life.finishPc != Idle
  {
    hide LogIs, Body;
    BodyLog(s.events.issued);
    ReportWaits(s, ErrorReport, AfterError);
    ReportWaits(s, Ended(FinishReason(s.life)), AfterEnded);
  }

  lemma ReportWaits(s: S, e: Event, next: After)
    requires s.life.sessionId != None && s.events.settled <= |s.events.issued|
    ensures var t := IssueAndWait(s, e, next);
            && t == s.(life := s.life.(finishPc := AwaitEvent(|s.events.issued|, next)),
                       events := s.events.(issued := s.events.issued + [e]))
            && t.events.settled <= |t.events.issued| == |s.events.issued| + 1
  {
  }

  // ---- ending a session that is not yet closing ----

  /** What `end` needs of its caller; the running states of `Inv` have it, and so do the states in
      the middle of a step from which the source calls `end`. */
  ghost predicate Running(s: S) {
    && RunningLife(s.life)
    && (s.life.sessionId == None ==> s.events.issued == [])
    && Body(s.events.issued) && s.events.settled <= |s.events.issued|
    && Frames(s.life.phase, s.browser, s.red.shown)
    && Streamed(s.secrets, s.red)
    && (s.life.phase != Live || s.life.authPc != Returned ==> s.red.shown == [] && s.red.held == [])
    && (s.life.phase == Live ==> s.secrets == Redactor.Kept(s.values))
    && (s.life.authPc == AwaitSsh || s.life.authPc == AwaitShell ==> s.secrets == Redactor.Kept(s.values))
  }

  ghost predicate RunningLife(l: Life) {
    && (l.phase == Auth || l.phase == Connecting || l.phase == Live)
    && l.finished == 0 && l.finishPc == Idle
    && (l.authPc.AwaitSecret? ==> l.authPc.left > 0)
    && (l.sessionId == None ==>
          if l.phase == Auth then l.authPc == NotStarted else l.phase == Connecting && l.authPc == AwaitCheck)
    && (l.sessionId != None ==> l.authPc != NotStarted && l.authPc != AwaitCheck)
  }

  lemma InvIsRunning(s: S)
    requires Inv(s) && s.life.phase != Closing && s.life.phase != Closed
    ensures Running(s)
  {
    hide Screen, Streamed, Redactor.Kept, Complete, LogIs, HasReady, Quiet;
  }

  lemma NoTimersTick(now: int, expiresAt: int)
    ensures Clock(Closing, now, expiresAt, NoTimers)
  {
  }

  lemma EndLocallyKeeps(s: S, reason: EndReason)
    requires Running(s)
    ensures var e := EndLocally(s, reason);
            && Frames(Closing, e.browser, e.red.shown)
            && Rel(Closing, e.life.authPc, e.values, e.secrets, e.red)
            && Ast(Closing, e.life.authPc, e.asset)
            && e.life == s.life.(phase := Closing, endReason := Some(reason))
            && e.events == s.events && Clock(Closing, e.now, e.expiresAt, e.timers)
  {
    hide Screen, Streamed, HasReady, Quiet, Body, Redactor.Kept, Relay, Redactor.Step, Clock, RunningLife;
    NoTimersTick(s.now, s.expiresAt);
    var c := s.(life := s.life.(phase := Closing, endReason := Some(reason)), timers := NoTimers);
    RelayKeeps(c, Redactor.Flush);
    Redactor.StepAppends(s.secrets, s.red, Redactor.Flush);
    StreamedStep(s.secrets, s.red, Redactor.Flush);
    var d := Relay(c, Redactor.Flush);
    CloseKeepsScreen(d.browser, d.red.shown);
    if s.life.phase != Live { assert s.red.shown + s.red.held == s.red.shown; }
  }

  lemma EndIdentified(s: S, reason: EndReason)
    requires Running(s) && s.life.sessionId != None
    ensures Inv(End(s, reason)) && End(s, reason).life.phase == Closing
    ensures End(s, reason).life.endReason == Some(reason)
  {
    hide EndLocally, Finish, Log, Frames, Rel, Ast, Redactor.Step, Streamed, Redactor.Kept;
    EndLocallyKeeps(s, reason);
    FinishReports(EndLocally(s, reason));
    assert End(s, reason) == Finish(EndLocally(s, reason));
  }

  /** The parts of a closing session's state that do not speak of events hold of a closed one. */
  lemma ClosedParts(s: S)
    requires Clock(Closing, s.now, s.expiresAt, s.timers) && Frames(Closing, s.browser, s.red.shown)
    requires Ast(Closing, s.life.authPc, s.asset) && Rel(Closing, s.life.authPc, s.values, s.secrets, s.red)
    ensures Clock(Closed, s.now, s.expiresAt, s.timers) && Frames(Closed, s.browser, s.red.shown)
    ensures Ast(Closed, s.life.authPc, s.asset) && Rel(Closed, s.life.authPc, s.values, s.secrets, s.red)
  {
    hide Screen, Streamed, Redactor.Kept, HasReady, Quiet;
  }

  lemma NothingReported(l: Life, n: nat)
    requires l.sessionId == None && l.finishPc == Idle && (l.phase == Closing || l.phase == Closed)
    ensures Log(l, Events([], 0, n))
  {
    BodyLog([]);
  }

  lemma MarkClosedInv(s: S)
    requires s.life.phase == Closing && s.life.endReason != None && s.life.finished == 0 && s.life.authPc != AwaitCheck
    requires s.life.authPc.AwaitSecret? ==> s.life.authPc.left > 0
    requires s.life.sessionId != None ==> s.life.authPc != NotStarted
    requires Clock(Closing, s.now, s.expiresAt, s.timers) && Frames(Closing, s.browser, s.red.shown)
    requires Ast(Closing, s.life.authPc, s.asset) && Rel(Closing, s.life.authPc, s.values, s.secrets, s.red)
    requires Log(MarkClosed(s).life, s.events)
    ensures Inv(MarkClosed(s)) && MarkClosed(s) == s.(life := MarkClosed(s).life) && MarkClosed(s).life.phase == Closed
  {
    hide Clock, Frames, Ast, Rel, Log;
    ClosedParts(s);
  }

  lemma EndUnidentified(s: S, reason: EndReason)
    requires Running(s) && s.life.sessionId == None
    ensures Inv(End(s, reason))
    ensures End(s, reason).life.phase == if s.life.phase == Connecting then Closing else Closed
    ensures End(s, reason).life.endReason == Some(reason)
  {
    hide EndLocally, Clock, Log, Frames, Rel, Ast, Streamed, Redactor.Kept, Body, Redactor.Step;
    var e := EndLocally(s, reason);
    EndLocallyKeeps(s, reason);
    assert e.events == Events([], 0, e.events.failures);
    if s.life.phase == Connecting {
      NothingReported(e.life, e.events.failures);
    } else {
      NothingReported(MarkClosed(e).life, e.events.failures);
      MarkClosedInv(e);
    }
  }

  /** `end` brings every running session into the invariant, closing or closed. */
  lemma EndInv(s: S, reason: EndReason)
    requires Running(s)
    ensures Inv(End(s, reason))
    ensures End(s, reason).life.phase == Closing || End(s, reason).life.phase == Closed
    ensures End(s, reason).life.endReason == Some(reason)
  {
    hide Running, Inv, End;
    if s.life.sessionId == None { EndUnidentified(s, reason); } else { EndIdentified(s, reason); }
  }

  lemma EndFromAnywhere(s: S, reason: EndReason)
    requires Inv(s)
    ensures Inv(End(s, reason))
  {
    hide Inv, Running, EndLocally, Finish;
    if s.life.phase != Closing && s.life.phase != Closed {
      InvIsRunning(s);
      EndInv(s, reason);
    }
  }
}
