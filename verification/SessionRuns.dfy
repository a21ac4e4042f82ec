/** What every run of a terminal session guarantees, whatever the order in which the browser, the
    API, the asset, the timers and the operators act. */
module SessionRuns {
  import opened Options
  import opened Scrub
  import opened ScrubLaws
  import Redactor
  import RedactorStream
  import opened SessionModel
  import opened SessionInvariant
  import opened SessionSteps

  /** `run` starts with a new session and takes one enabled input per step. */
  ghost predicate IsRun(cfg: Config, run: seq<S>, ins: seq<Input>) {
    && |run| == |ins| + 1
    && (exists t :: run[0] == Init(cfg, t))
    && forall k | 0 <= k < |ins| :: Enabled(run[k], ins[k]) && run[k + 1] == Step(cfg, run[k], ins[k])
  }

  lemma RunStep(cfg: Config, run: seq<S>, ins: seq<Input>, k: nat)
    requires IsRun(cfg, run, ins) && k < |ins|
    ensures Enabled(run[k], ins[k]) && run[k + 1] == Step(cfg, run[k], ins[k])
  {
    hide Enabled, Step, Init;
  }

  lemma RunLength(cfg: Config, run: seq<S>, ins: seq<Input>)
    requires IsRun(cfg, run, ins)
    ensures |run| == |ins| + 1
  {
    hide Enabled, Step, Init;
  }

  lemma {:induction false} RunInv(cfg: Config, run: seq<S>, ins: seq<Input>, k: nat)
    requires IsRun(cfg, run, ins) && k < |run|
    ensures Inv(run[k])
  {
    if k == 0 {
      var t :| run[0] == Init(cfg, t);
      InitInv(cfg, t);
    } else {
      hide Inv, Step, Enabled;
      RunInv(cfg, run, ins, k - 1);
      RunStep(cfg, run, ins, k - 1);
      StepInv(cfg, run[k - 1], ins[k - 1]);
    }
  }

  // ---- the life only moves forward ----

  function Rank(p: Phase): nat {
    match p
    case Auth => 0
    case Connecting => 1
    case Live => 2
    case Closing => 3
    case Closed => 4
  }

  /** Phases never go back, an id never changes, and nothing reported or sent is taken back. */
  ghost predicate Forward(s: S, t: S) {
    && Rank(s.life.phase) <= Rank(t.life.phase)
    && (s.life.sessionId != None ==> t.life.sessionId == s.life.sessionId)
    && (s.life.endReason != None ==> t.life.endReason == s.life.endReason)
    && s.life.finished <= t.life.finished
    && s.events.issued <= t.events.issued
    && s.events.settled <= t.events.settled
    && s.browser.frames <= t.browser.frames
    && (t.browser.open ==> s.browser.open)
    && s.asset.written <= t.asset.written
  }

  lemma ForwardTransitive(s: S, t: S, u: S)
    requires Forward(s, t) && Forward(t, u)
    ensures Forward(s, u)
  {
  }

  lemma RelayForward(s: S, op: Redactor.Op)
    ensures Forward(s, Relay(s, op)) && Relay(s, op) == s.(red := Relay(s, op).red, browser := Relay(s, op).browser)
  {
    hide Redactor.Step;
    Redactor.StepAppends(s.secrets, s.red, op);
  }

  lemma EndLocallyForward(s: S, reason: EndReason)
    requires s.life.phase == Auth || s.life.phase == Connecting || s.life.phase == Live
    requires s.life.endReason == None
    ensures Forward(s, EndLocally(s, reason))
    ensures EndLocally(s, reason).life == s.life.(phase := Closing, endReason := Some(reason))
  {
    hide Relay, Redactor.Step;
    var c := s.(life := s.life.(phase := Closing, endReason := Some(reason)), timers := NoTimers);
    RelayForward(c, Redactor.Flush);
  }

  lemma FinishIsForward(s: S)
    requires s.life.phase == Closing
    ensures Forward(s, Finish(s))
  {
    hide IssueAndWait;
    IssueForward(s, ErrorReport, AfterError);
    IssueForward(s, Ended(FinishReason(s.life)), AfterEnded);
  }

  lemma EndForward(s: S, reason: EndReason)
    requires s.life.phase == Auth || s.life.phase == Connecting || s.life.phase == Live ==> s.life.endReason == None
    ensures Forward(s, End(s, reason))
  {
    hide EndLocally, Finish, Forward;
    if s.life.phase == Closing || s.life.phase == Closed {
      ForwardReflexive(s);
    } else {
      EndLocallyForward(s, reason);
      FinishIsForward(EndLocally(s, reason));
      ForwardTransitive(s, EndLocally(s, reason), Finish(EndLocally(s, reason)));
    }
  }

  lemma ForwardReflexive(s: S)
    ensures Forward(s, s)
  {
  }

  lemma RefuseForward(s: S)
    requires s.life.sessionId == None
    ensures Forward(s, Refuse(s))
  {
    hide End;
  }

  lemma NextSecretForward(s: S, left: nat)
    ensures Forward(s, NextSecret(s, left))
  {
    hide Redactor.Kept;
  }

  lemma CheckForward(s: S, a: CheckAnswer)
    requires Inv(s) && s.life.authPc == AwaitCheck
    ensures Forward(s, OnCheck(s, a))
  {
    hide Inv, Screen, Streamed, End, Finish, Refuse, NextSecret;
    CheckPhase(s);
    if a.Granted? {
      var t := s.(life := s.life.(sessionId := Some(a.id), authPc := Returned), recording := a.recording);
      if s.life.phase == Connecting { NotEndedYet(s); }
      EndForward(t.(expiresAt := a.expiresAt), GrantExpired);
      NextSecretForward(t.(expiresAt := a.expiresAt), a.secretRefs);
      if t.life.phase == Closing { FinishIsForward(t); }
    } else {
      RefuseForward(AuthAt(s, Returned));
    }
  }

  lemma NotEndedYet(s: S)
    requires Inv(s) && s.life.phase != Closing && s.life.phase != Closed
    ensures s.life.endReason == None
  {
    hide Log, Clock, Frames, Rel, Ast;
  }

  lemma SecretForward(s: S, a: Option<seq<Bytes>>)
    requires s.life.authPc.AwaitSecret? && s.life.authPc.left > 0
    ensures Forward(s, OnSecret(s, a))
  {
    hide Redactor.Kept;
  }

  lemma GoLiveForward(cfg: Config, s: S)
    requires s.life.phase == Connecting
    ensures Forward(s, GoLive(cfg, s))
  {
    hide NoticeTimers;
  }

  lemma SshForward(s: S, c: bool)
    requires Inv(s)
    ensures Forward(s, OnSsh(s, c))
  {
    hide Inv, End;
    if s.life.phase != Closing && s.life.phase != Closed { NotEndedYet(s); }
    EndForward(AuthAt(s, Returned), Error);
  }

  lemma ShellForward(cfg: Config, s: S, a: ShellAnswer)
    requires Inv(s)
    ensures Forward(s, OnShell(cfg, s, a))
  {
    hide Inv, End, GoLive;
    if s.life.phase != Closing && s.life.phase != Closed { NotEndedYet(s); }
    var r := AuthAt(s, Returned);
    var u := r.(asset := r.asset.(stream := Open, listening := true));
    EndForward(r, Error);
    EndForward(u, Error);
    if s.life.phase == Connecting { GoLiveForward(cfg, u.(recorder := u.recording)); }
  }

  lemma OutputForward(s: S, chunk: Bytes, d: Sudo)
    ensures Forward(s, OnOutput(s, chunk, d))
    ensures Forward(s, OnFlushTimer(s))
  {
    hide Relay, Redactor.Step;
    RelayForward(s, Redactor.Push(chunk));
    RelayForward(s.(timers := s.timers.(flush := None)), Redactor.Flush);
  }

  lemma SettledForward(cfg: Config, s: S, a: EventAnswer)
    requires Inv(s) && s.events.settled < |s.events.issued|
    ensures Forward(s, OnSettled(cfg, s, a))
  {
    hide Screen, Streamed, End, Redactor.Kept, Log, Clock, Ast, Rel, Frames, NoticeTimers;
    EndForward(Settle(s, 0), Killed);
    EndForward(Settle(s, s.events.failures + 1), Error);
  }

  lemma TimersForward(s: S)
    requires Inv(s)
    ensures Forward(s, OnAuthTimer(s))
    ensures forall m :: Forward(s, OnMessage(s, m))
    ensures forall i: nat | i < |s.timers.expiry| :: Forward(s, OnExpiryTimer(s, i))
  {
    hide Screen, Streamed, End, Redactor.Kept, Log, Clock, Ast, Rel, Frames;
    forall i: nat | i < |s.timers.expiry| ensures Forward(s, OnExpiryTimer(s, i)) {
      EndForward(s.(timers := s.timers.(expiry := s.timers.expiry[..i] + s.timers.expiry[i + 1..])), GrantExpired);
    }
  }

  lemma IssueForward(s: S, e: Event, next: After)
    ensures Forward(s, IssueAndWait(s, e, next)) && Forward(s, Issue(s, e))
  {
  }

  lemma FinishForward(s: S, ok: bool, urlExpired: bool)
    requires s.life.finishPc != Idle ==> s.life.phase == Closing
    ensures Forward(s, OnFinishResumes(s, ok, urlExpired))
  {
    hide IssueAndWait;
    IssueForward(s, Ended(FinishReason(s.life)), AfterEnded);
    IssueForward(s, RecordingStored, AfterStored);
    IssueForward(s, UploadFailed, AfterUploadFailed);
  }

  lemma StepForward(cfg: Config, s: S, i: Input)
    requires Inv(s) && Enabled(s, i)
    ensures Forward(s, Step(cfg, s, i))
  {
    hide OnAuthTimer, OnExpiryTimer, OnFlushTimer, OnMessage, OnCheck, OnSecret, OnSsh, OnShell, OnOutput;
    hide OnSettled, OnFinishResumes, End, Log, Clock, Ast, Rel, Frames;
    match i
    case AuthTimerFires => TimersForward(s);
    case ExpiryFires(k) => TimersForward(s);
    case FlushFires => OutputForward(s, [], Pass);
    case ClientGone => EndForward(s, ClientClosed);
    case KillRequest => EndForward(s, Killed);
    case Shutdown => EndForward(s, Error);
    case MessageArrives(m) => TimersForward(s);
    case CheckAnswers(a) => CheckForward(s, a);
    case SecretAnswers(a) => SecretForward(s, a);
    case SshAnswers(c) => SshForward(s, c);
    case ShellAnswers(a) => ShellForward(cfg, s, a);
    case SshFails => EndForward(s, Error);
    case SshCloses => EndForward(s, SshClosed);
    case AssetOutput(chunk, d) => OutputForward(s, chunk, d);
    case EventSettles(a) => SettledForward(cfg, s, a);
    case FinishResumes(ok, e) => FinishForward(s, ok, e);
    case HeartbeatFires => IssueForward(s, Heartbeat, AfterError);
    case _ =>
  }

  /** A session's state only moves forward, over any stretch of any run. */
  lemma {:induction false} RunForward(cfg: Config, run: seq<S>, ins: seq<Input>, j: nat, k: nat)
    requires IsRun(cfg, run, ins) && j <= k < |run|
    ensures Forward(run[j], run[k])
    decreases k
  {
    if j < k {
      hide Inv, Step, Forward, IsRun, Enabled;
      RunLength(cfg, run, ins);
      RunForward(cfg, run, ins, j, k - 1);
      RunInv(cfg, run, ins, k - 1);
      RunStep(cfg, run, ins, k - 1);
      StepForward(cfg, run[k - 1], ins[k - 1]);
      ForwardTransitive(run[j], run[k - 1], run[k]);
    } else {
      hide Inv, Step, IsRun;
    }
  }

  // ---- what is reported ----

  function EndedCount(es: seq<Event>): nat {
    if es == [] then 0 else EndedCount(es[..|es| - 1]) + if es[|es| - 1].Ended? then 1 else 0
  }

  lemma {:induction false} EndedCountConcat(a: seq<Event>, b: seq<Event>)
    ensures EndedCount(a + b) == EndedCount(a) + EndedCount(b)
  {
    if b == [] {
      assert a + b == a;
    } else {
      assert (a + b)[..|a + b| - 1] == a + b[..|b| - 1];
      EndedCountConcat(a, b[..|b| - 1]);
    }
  }

  lemma {:induction false} BodyHasNoEnd(es: seq<Event>)
    requires Body(es)
    ensures EndedCount(es) == 0
  {
    if es != [] {
      assert es[|es| - 1] in es;
      var front := es[..|es| - 1];
      forall e | e in front ensures e in es {
        var i :| 0 <= i < |front| && front[i] == e;
        assert es[i] == e;
      }
      BodyHasNoEnd(es[..|es| - 1]);
    }
  }

  /** The two outcomes a recording can have after the session ended. */
  ghost predicate Outcome(tail: seq<Event>) {
    tail == [] || tail == [RecordingStored] || tail == [UploadFailed]
  }

  lemma LogSplits(es: seq<Event>, r: EndReason, out: seq<Event>)
    requires LogIs(es, EndedPart(r) + out) && Outcome(out)
    ensures EndedCount(es) == 1
    ensures exists body :: Body(body) && es == body + (EndedPart(r) + out)
  {
    var tail := EndedPart(r) + out;
    var body := es[..|es| - |tail|];
    assert es == body + tail;
    EndedCountConcat(body, tail);
    BodyHasNoEnd(body);
    TailCount(r, out);
  }

  lemma CompleteMeans(es: seq<Event>, r: EndReason)
    requires Complete(es, r)
    ensures EndedCount(es) == 1
    ensures exists body, out :: Body(body) && Outcome(out) && es == body + (EndedPart(r) + out)
  {
    hide LogIs, Body, EndedPart, EndedCount;
    assert EndedPart(r) + [] == EndedPart(r);
    if LogIs(es, EndedPart(r)) { LogSplits(es, r, []); }
    else if LogIs(es, EndedPart(r) + [RecordingStored]) { LogSplits(es, r, [RecordingStored]); }
    else { LogSplits(es, r, [UploadFailed]); }
  }

  lemma TailCount(r: EndReason, out: seq<Event>)
    requires Outcome(out)
    ensures EndedCount(EndedPart(r) + out) == 1
  {
    EndedCountConcat(EndedPart(r), out);
    if r == Error {
      assert [ErrorReport, Ended(r)][..1] == [ErrorReport];
    }
  }

  /** A finished session called `onFinished` exactly once; if it was identified it issued exactly one
      `ended`, after everything reported while it lived and followed only by the recording's
      outcome, and every event had settled; if it was not identified it reported nothing. */
  lemma FinishedOnceReportedOnce(cfg: Config, run: seq<S>, ins: seq<Input>, k: nat)
    requires IsRun(cfg, run, ins) && k < |run|
    ensures var s := run[k];
            && s.life.finished == (if s.life.phase == Closed then 1 else 0)
            && (s.life.sessionId == None ==> s.events.issued == [])
            && (s.life.phase != Closing && s.life.phase != Closed ==> EndedCount(s.events.issued) == 0)
            && (s.life.phase == Closed && s.life.sessionId != None ==>
                  && s.life.endReason != None
                  && EndedCount(s.events.issued) == 1
                  && s.events.settled == |s.events.issued|
                  && exists body, out :: Body(body) && Outcome(out)
                       && s.events.issued == body + (EndedPart(s.life.endReason.value) + out))
  {
    RunInv(cfg, run, ins, k);
    var s := run[k];
    hide Clock, Frames, Rel, Ast, IsRun, LogIs, EndedPart;
    if s.life.phase == Closed && s.life.sessionId != None {
      CompleteMeans(s.events.issued, FinishReason(s.life));
    } else if s.life.phase != Closing && s.life.phase != Closed {
      BodyHasNoEnd(s.events.issued);
    }
  }

  // ---- what the browser and the shell see ----

  /** In every reachable state: at most one `ready`, no output before it, at most one `closed` and
      nothing after it; and what the browser received is a prefix of what the redactor released. */
  lemma FramesInOrder(cfg: Config, run: seq<S>, ins: seq<Input>, k: nat)
    requires IsRun(cfg, run, ins) && k < |run|
    ensures var fs := run[k].browser.frames;
            && (forall i, j | 0 <= i < j < |fs| :: !(fs[i].Ready? && fs[j].Ready?))
            && (forall i | 0 <= i < |fs| - 1 :: fs[i] != ClosedFrame)
            && (forall j | 0 <= j < |fs| && fs[j].Output? :: exists i :: 0 <= i < j && fs[i].Ready?)
            && Sent(fs) <= run[k].red.shown
            && (run[k].browser.open ==> Sent(fs) == run[k].red.shown)
  {
    RunInv(cfg, run, ins, k);
    hide Ctl, Log, Clock, Rel, Ast, IsRun;
  }

  /** For star-safe secrets, a secret appears in what the browser received only across the edge of
      an early release of the held window. */
  lemma BrowserSeesNoSecret(cfg: Config, run: seq<S>, ins: seq<Input>, k: nat, secret: Secret, i: int)
    requires IsRun(cfg, run, ins) && k < |run|
    requires AllSafe(Redactor.Kept(run[k].values)) && secret in run[k].values
    requires OccursAt(Sent(run[k].browser.frames), secret, i)
    ensures RedactorStream.Straddles(secret, i, run[k].red.cuts)
  {
    RunInv(cfg, run, ins, k);
    hide Ctl, Log, Clock, Ast, IsRun;
    var s := run[k];
    OccursPrefix(Sent(s.browser.frames), s.red.shown, secret, i, |Sent(s.browser.frames)|);
    var ops :| s.red == Redactor.Stream(s.secrets, ops);
    RedactorStream.SecretsShowOnlyAcrossFlushes(s.values, ops, secret, i);
  }

  // ---- the grant's expiry ----

  /** When the armed end timer was set; meaningful in a live session. */
  function SetAt(s: S): int {
    if s.timers.expiry != [] && s.timers.expiry[|s.timers.expiry| - 1].EndTimer?
    then s.timers.expiry[|s.timers.expiry| - 1].setAt else s.now
  }

  /** The time that is left, but never more than about 24.8 days. */
  function Longest(left: int): int {
    if left <= 0 then 0 else if left >= 2_147_483_647 then 2_147_483_647 else left
  }

  /** A live session has exactly one end timer, for the current expiry capped at the longest
      timeout, it is not overdue, and the API was not lost three times in a row. */
  lemma LiveIsGuarded(cfg: Config, run: seq<S>, ins: seq<Input>, k: nat)
    requires IsRun(cfg, run, ins) && k < |run| && run[k].life.phase == Live
    ensures var s := run[k]; var ts := s.timers.expiry;
            && (exists i :: 0 <= i < |ts| && ts[i] == EndTimer(SetAt(s) + Delay(s.expiresAt, SetAt(s)), SetAt(s)))
            && (forall i, j | 0 <= i < j < |ts| :: !(ts[i].EndTimer? && ts[j].EndTimer?))
            && SetAt(s) <= s.now <= SetAt(s) + Delay(s.expiresAt, SetAt(s))
            && Delay(s.expiresAt, SetAt(s)) == Longest(s.expiresAt - SetAt(s))
            && s.events.failures < MAX_EVENT_FAILURES
  {
    RunInv(cfg, run, ins, k);
    hide Ctl, Rel, Ast, Frames, IsRun;
    var ts := run[k].timers.expiry;
    assert ts[|ts| - 1] == EndTimer(SetAt(run[k]) + Delay(run[k].expiresAt, SetAt(run[k])), SetAt(run[k]));
  }

  /** The step passes bytes between the browser and the asset. */
  ghost predicate Relays(s: S, t: S) {
    || t.asset.written != s.asset.written
    || Sent(t.browser.frames) != Sent(s.browser.frames)
  }

  ghost predicate SameTraffic(s: S, t: S) {
    t.asset.written == s.asset.written && Sent(t.browser.frames) == Sent(s.browser.frames)
  }

  lemma PlainTraffic(b: Browser, f: Frame)
    requires !f.Output?
    ensures Sent(SendTo(b, f).frames) == Sent(b.frames)
  {
    SentAppend(b.frames, f);
  }

  lemma EndTraffic(s: S, reason: EndReason)
    requires s.red.held == [] && s.red.shown == []
    ensures SameTraffic(s, End(s, reason))
  {
    hide Redactor.Step, Sent;
    Redactor.StepAppends(s.secrets, s.red, Redactor.Flush);
    PlainTraffic(s.browser, ClosedFrame);
  }

  lemma NotLiveIsSilent(s: S)
    requires Inv(s) && (s.life.phase == Auth || s.life.phase == Connecting)
    ensures s.red.held == [] && s.red.shown == [] && s.asset.stream == NoConn && !s.asset.listening
    ensures s.timers.flush == None && s.timers.expiry == []
  {
    hide Frames, Log, Streamed, Redactor.Kept;
  }

  lemma NotLiveIsOver(s: S)
    requires Inv(s) && (s.life.phase == Closing || s.life.phase == Closed)
    ensures s.timers == NoTimers && !s.asset.listening
  {
    hide Frames, Log, Rel;
  }

  lemma IssueTraffic(s: S)
    ensures SameTraffic(s, Finish(s))
  {
    hide Sent;
  }

  lemma CheckTraffic(s: S, a: CheckAnswer)
    requires Inv(s) && s.life.authPc == AwaitCheck
    ensures SameTraffic(s, OnCheck(s, a))
  {
    hide Inv, End, Finish, Redactor.Kept, Sent, Screen, Streamed, Refuse;
    CheckPhase(s);
    if a.Granted? {
      var t := s.(life := s.life.(sessionId := Some(a.id), authPc := Returned), recording := a.recording);
      EndTraffic(t.(expiresAt := a.expiresAt), GrantExpired);
      IssueTraffic(t);
    } else {
      RefuseTraffic(AuthAt(s, Returned));
    }
  }

  lemma SecretTraffic(s: S, a: Option<seq<Bytes>>)
    requires s.life.authPc.AwaitSecret? && s.life.authPc.left > 0
    ensures SameTraffic(s, OnSecret(s, a))
  {
    hide Redactor.Kept, Sent;
    PlainTraffic(s.browser, Notice);
  }

  lemma SshTraffic(s: S, c: bool)
    requires Inv(s) && s.life.authPc == AwaitSsh
    ensures SameTraffic(s, OnSsh(s, c))
  {
    SilentUnlessReturned(s);
    hide Inv, End, Sent;
    EndTraffic(AuthAt(s, Returned), Error);
  }

  lemma SilentUnlessReturned(s: S)
    requires Inv(s) && s.life.authPc != Returned
    ensures s.red.shown == [] && s.red.held == []
  {
    hide Frames, Log, Streamed, Redactor.Kept, Clock, Ast;
  }

  lemma GoLiveTraffic(cfg: Config, s: S)
    ensures SameTraffic(s, GoLive(cfg, s))
  {
    hide Sent, NoticeTimers;
    PlainTraffic(s.browser, Ready(s.expiresAt));
  }

  lemma ShellTraffic(cfg: Config, s: S, a: ShellAnswer)
    requires Inv(s) && s.life.authPc == AwaitShell
    ensures SameTraffic(s, OnShell(cfg, s, a))
  {
    SilentUnlessReturned(s);
    hide Inv, End, Sent, GoLive;
    var r := AuthAt(s, Returned);
    var u := r.(asset := r.asset.(stream := Open, listening := true));
    EndTraffic(r, Error);
    EndTraffic(u, Error);
    GoLiveTraffic(cfg, u.(recorder := u.recording));
  }

  lemma RefuseTraffic(s: S)
    requires s.life.sessionId == None
    ensures SameTraffic(s, Refuse(s))
  {
    hide Sent, End;
    PlainTraffic(s.browser, ClosedFrame);
  }

  lemma MessageTraffic(s: S, m: Message)
    requires Inv(s) && s.life.phase != Live
    ensures SameTraffic(s, OnMessage(s, m))
  {
    hide Inv, Sent, Screen, Streamed, Refuse;
    if s.life.phase == Auth {
      AuthPhase(s);
      RefuseTraffic(s);
    }
    PlainTraffic(s.browser, Pong);
  }

  /** What is disabled before a session is live. */
  lemma ConnectingDisables(s: S, i: Input)
    requires Inv(s) && Enabled(s, i) && (s.life.phase == Auth || s.life.phase == Connecting)
    ensures !i.FlushFires? && !i.ExpiryFires? && !i.AssetOutput? && !i.EventSettles? && !i.FinishResumes?
              && !i.HeartbeatFires?
  {
    hide Frames, Rel;
  }

  lemma ConnectingStepTraffic(cfg: Config, s: S, i: Input)
    requires Inv(s) && Enabled(s, i) && (s.life.phase == Auth || s.life.phase == Connecting)
    ensures SameTraffic(s, Step(cfg, s, i))
  {
    hide Inv, End, Sent, OnMessage, OnCheck, OnSsh, OnSecret, OnShell, OnSettled, OnFlushTimer, OnExpiryTimer,
        OnOutput, OnFinishResumes, OnAuthTimer;
    NotLiveIsSilent(s);
    ConnectingDisables(s, i);
    match i
    case MessageArrives(m) => MessageTraffic(s, m);
    case CheckAnswers(a) => CheckTraffic(s, a);
    case SecretAnswers(a) => SecretTraffic(s, a);
    case SshAnswers(c) => SshTraffic(s, c);
    case ShellAnswers(a) => ShellTraffic(cfg, s, a);
    case AuthTimerFires => AuthTimerTraffic(s);
    case ClientGone => EndTraffic(s, ClientClosed);
    case KillRequest => EndTraffic(s, Killed);
    case Shutdown => EndTraffic(s, Error);
    case SshFails => EndTraffic(s, Error);
    case SshCloses => EndTraffic(s, SshClosed);
    case _ =>
  }

  lemma AuthTimerTraffic(s: S)
    requires Inv(s)
    ensures SameTraffic(s, OnAuthTimer(s))
  {
    hide Inv, Sent, Screen, Streamed, Refuse;
    if s.life.phase == Auth {
      AuthPhase(s);
      RefuseTraffic(s.(timers := s.timers.(auth := None)));
    }
  }

  lemma EndIsOver(s: S, reason: EndReason)
    requires s.life.phase == Closing || s.life.phase == Closed
    ensures End(s, reason) == s
  {
  }

  lemma FinishTraffic(s: S, ok: bool, urlExpired: bool)
    ensures SameTraffic(s, OnFinishResumes(s, ok, urlExpired))
  {
    hide Sent;
  }

  lemma SettledOver(cfg: Config, s: S, a: EventAnswer)
    requires s.events.settled < |s.events.issued| && (s.life.phase == Closing || s.life.phase == Closed)
    ensures exists f :: OnSettled(cfg, s, a) == Settle(s, f)
  {
    hide ScheduleExpiry;
    EndIsOver(Settle(s, s.events.failures + 1), Error);
    hide End;
  }

  lemma OverStepTraffic(cfg: Config, s: S, i: Input)
    requires Inv(s) && Enabled(s, i) && (s.life.phase == Closing || s.life.phase == Closed)
    ensures SameTraffic(s, Step(cfg, s, i))
  {
    hide Inv, End, Sent, OnMessage, OnCheck, OnSsh, OnSecret, OnShell, OnSettled, OnFinishResumes, OnAuthTimer;
    NotLiveIsOver(s);
    match i
    case MessageArrives(m) => MessageTraffic(s, m);
    case CheckAnswers(a) => CheckTraffic(s, a);
    case SecretAnswers(a) => SecretTraffic(s, a);
    case SshAnswers(c) => SshTraffic(s, c);
    case ShellAnswers(a) => ShellTraffic(cfg, s, a);
    case EventSettles(a) => SettledOver(cfg, s, a);
    case FinishResumes(ok, e) => FinishTraffic(s, ok, e);
    case ClientGone => EndIsOver(s, ClientClosed);
    case KillRequest => EndIsOver(s, Killed);
    case Shutdown => EndIsOver(s, Error);
    case SshFails => EndIsOver(s, Error);
    case SshCloses => EndIsOver(s, SshClosed);
    case _ =>
  }

  /** Bytes pass only while the session is live; and before the grant's current expiry exactly when the
      end timer was armed before it. Otherwise they pass in the very millisecond of the arming only. */
  lemma NoRelayAfterExpiry(cfg: Config, run: seq<S>, ins: seq<Input>, k: nat)
    requires IsRun(cfg, run, ins) && k < |ins|
    requires Relays(run[k], run[k + 1])
    ensures run[k].life.phase == Live
    ensures run[k].now <= run[k].expiresAt <==> SetAt(run[k]) <= run[k].expiresAt
    ensures run[k].now <= run[k].expiresAt || run[k].now == SetAt(run[k])
  {
    RunInv(cfg, run, ins, k);
    hide Inv, Step, Sent, Enabled, IsRun;
    RunStep(cfg, run, ins, k);
    var s := run[k];
    if s.life.phase == Auth || s.life.phase == Connecting {
      ConnectingStepTraffic(cfg, s, ins[k]);
    } else if s.life.phase != Live {
      OverStepTraffic(cfg, s, ins[k]);
    } else {
      LiveIsGuarded(cfg, run, ins, k);
    }
  }

  /** The input arms the end timer: the shell opens, or the API answers another expiry to a live session. */
  predicate Arms(s: S, i: Input) {
    || (i.ShellAnswers? && i.shell.Shell? && s.life.phase == Connecting && (s.recording ==> i.shell.recorderOpens))
    || (i.EventSettles? && i.answer.Answer? && !i.answer.kill && s.life.phase == Live
        && i.answer.expiresAt != None && i.answer.expiresAt.value != s.expiresAt)
  }

  /** The expiry that the timer is armed for: the one learned last before the shell opened, or the one
      just answered. */
  function ArmedFor(s: S, i: Input): int
    requires Arms(s, i)
  {
    if i.ShellAnswers? then s.expiresAt else i.answer.expiresAt.value
  }

  /** The shell opened after the expiry, or the answered expiry was over already. */
  predicate ArmedLate(s: S, i: Input)
    requires Arms(s, i)
  {
    ArmedFor(s, i) < s.now
  }

  lemma BecomesLive(cfg: Config, s: S, i: Input)
    requires Enabled(s, i) && s.life.phase != Live && Step(cfg, s, i).life.phase == Live
    ensures Arms(s, i) && i.ShellAnswers?
  {
    hide NoticeTimers, Redactor.Step, Redactor.Kept, End, Finish, Sent, OnFinishResumes, ScheduleExpiry, OnSettled,
        OnAnswer;
    EndsNotLive(s);
    if i.EventSettles? { SettlingIsNotLive(cfg, s, i.answer); }
  }

  lemma SettlingIsNotLive(cfg: Config, s: S, a: EventAnswer)
    requires s.life.phase != Live && s.events.settled < |s.events.issued|
    ensures OnSettled(cfg, s, a).life.phase != Live
  {
    hide End, ScheduleExpiry;
    EndsNotLive(s);
  }

  lemma EndsNotLive(s: S)
    ensures forall x: S, reason: EndReason :: x.life.phase != Live ==> End(x, reason).life.phase != Live
    ensures forall x: S :: x.life.phase != Live ==> Finish(x).life.phase != Live
    ensures forall ok, expired :: s.life.phase != Live ==> OnFinishResumes(s, ok, expired).life.phase != Live
  {
    hide End, Finish, OnFinishResumes;
    forall x: S ensures x.life.phase != Live ==> Finish(x).life.phase != Live { FinishingIsNotLive(x); }
    forall x: S, reason: EndReason
      ensures x.life.phase != Live ==> End(x, reason).life.phase != Live
    {
      EndIsNotLive(x, reason);
    }
    forall ok, expired
      ensures s.life.phase != Live ==> OnFinishResumes(s, ok, expired).life.phase != Live
    {
      ResumingIsNotLive(s, ok, expired);
    }
  }

  lemma FinishingIsNotLive(s: S)
    ensures Finish(s).life.phase != Live
  {
  }

  lemma ResumingIsNotLive(s: S, ok: bool, urlExpired: bool)
    ensures s.life.phase != Live ==> OnFinishResumes(s, ok, urlExpired).life.phase != Live
  {
  }

  lemma EndIsNotLive(s: S, reason: EndReason)
    ensures End(s, reason).life.phase == Closing || End(s, reason).life.phase == Closed
  {
    hide EndLocally, Finish;
    EndLocallyCloses(s, reason);
    ClosingFinishStays(EndLocally(s, reason));
  }

  lemma EndLocallyCloses(s: S, reason: EndReason)
    ensures EndLocally(s, reason).life.phase == Closing
  {
    hide Redactor.Step;
  }

  lemma ClosingFinishStays(s: S)
    ensures s.life.phase == Closing ==> Finish(s).life.phase == Closing || Finish(s).life.phase == Closed
  {
  }

  lemma OpeningArms(cfg: Config, s: S, i: Input)
    requires Inv(s) && Enabled(s, i) && i.ShellAnswers? && s.life.phase != Live && Step(cfg, s, i).life.phase == Live
    ensures SetAt(Step(cfg, s, i)) == s.now && Step(cfg, s, i).expiresAt == s.expiresAt
  {
    hide Inv, NoticeTimers, End, Sent;
    EndIsNotLive(AuthAt(s, Returned), Error);
    EndIsNotLive(OpenedShell(s), Error);
  }

  function OpenedShell(s: S): S {
    AuthAt(s, Returned).(asset := s.asset.(stream := Open, listening := true))
  }

  lemma AnswerArms(cfg: Config, s: S, kill: bool, exp: Option<int>)
    requires s.life.phase == Live && OnAnswer(cfg, s, kill, exp).life.phase == Live
    ensures var t := OnAnswer(cfg, s, kill, exp);
            !kill && (if exp != None && exp.value != s.expiresAt then SetAt(t) == s.now && t.expiresAt == exp.value
                      else t.timers == s.timers && t.expiresAt == s.expiresAt)
  {
    hide NoticeTimers, End, Sent;
    EndIsNotLive(s, Killed);
  }

  lemma SettledArms(cfg: Config, s: S, i: Input)
    requires Inv(s) && Enabled(s, i) && i.EventSettles? && s.life.phase == Live && Step(cfg, s, i).life.phase == Live
    ensures var t := Step(cfg, s, i);
            if Arms(s, i) then SetAt(t) == s.now && t.expiresAt == ArmedFor(s, i)
            else t.timers == s.timers && t.expiresAt == s.expiresAt
  {
    hide Inv, OnAnswer, End, SetAt;
    match i.answer
    case Answer(kill, exp) => AnswerArms(cfg, Settle(s, 0), kill, exp);
    case Lost => EndIsNotLive(Settle(s, s.events.failures + 1), Error);
  }

  lemma FiringKeepsSetAt(s: S, k: nat)
    requires Inv(s) && k < |s.timers.expiry| && s.life.phase == Live && OnExpiryTimer(s, k).life.phase == Live
    ensures SetAt(OnExpiryTimer(s, k)) == SetAt(s) && OnExpiryTimer(s, k).expiresAt == s.expiresAt
  {
    hide Ctl, Log, Frames, Rel, Ast, End;
    var ts := s.timers.expiry;
    EndIsNotLive(s.(timers := s.timers.(expiry := ts[..k] + ts[k + 1..])), GrantExpired);
    assert k < |ts| - 1;
    assert (ts[..k] + ts[k + 1..])[|ts| - 2] == ts[|ts| - 1];
  }

  lemma TrafficKeepsTimers(cfg: Config, s: S, i: Input)
    requires Enabled(s, i) && s.life.phase == Live
    requires i.MessageArrives? || i.AssetOutput? || i.FlushFires? || i.AuthTimerFires?
    ensures var t := Step(cfg, s, i); t.timers.expiry == s.timers.expiry && t.expiresAt == s.expiresAt
  {
    hide End, Refuse, Relay, OnCheck, OnSecret, OnSsh, OnShell, OnSettled, OnFinishResumes, OnExpiryTimer;
    RelayForward(s.(timers := s.timers.(flush := None)), Redactor.Flush);
    if i.AssetOutput? { RelayForward(s, Redactor.Push(i.chunk)); }
  }

  lemma QuietKeepsSetAt(cfg: Config, s: S, i: Input)
    requires Enabled(s, i) && s.life.phase == Live && Step(cfg, s, i).life.phase == Live
    requires !i.EventSettles? && !i.ExpiryFires? && !i.ShellAnswers? && !i.CheckAnswers? && !i.SecretAnswers?
              && !i.SshAnswers? && !i.FinishResumes?
    ensures var t := Step(cfg, s, i); t.timers.expiry == s.timers.expiry && t.expiresAt == s.expiresAt
  {
    hide End, OnMessage, OnOutput, OnFlushTimer, OnAuthTimer, OnCheck, OnSecret, OnSsh, OnShell, OnSettled,
        OnFinishResumes, OnExpiryTimer;
    if i.MessageArrives? || i.AssetOutput? || i.FlushFires? || i.AuthTimerFires? {
      TrafficKeepsTimers(cfg, s, i);
    } else {
      EndIsNotLive(s, ClientClosed);
      EndIsNotLive(s, Killed);
      EndIsNotLive(s, Error);
      EndIsNotLive(s, SshClosed);
    }
  }

  lemma LiveDisables(s: S, i: Input)
    requires Inv(s) && Enabled(s, i) && s.life.phase == Live
    ensures !i.ShellAnswers? && !i.CheckAnswers? && !i.SecretAnswers? && !i.SshAnswers? && !i.FinishResumes?
  {
    hide Log, Clock, Frames, Rel;
  }

  /** What a step into or within the live state does to the end timer. */
  lemma LiveStep(cfg: Config, s: S, i: Input)
    requires Inv(s) && Enabled(s, i) && Step(cfg, s, i).life.phase == Live
    ensures var t := Step(cfg, s, i);
            if Arms(s, i) then SetAt(t) == s.now && t.expiresAt == ArmedFor(s, i)
            else s.life.phase == Live && SetAt(t) == SetAt(s) && t.expiresAt == s.expiresAt
  {
    hide Inv, Step, Enabled;
    if s.life.phase != Live {
      BecomesLive(cfg, s, i);
      OpeningArms(cfg, s, i);
    } else {
      LiveDisables(s, i);
      InvHasTimer(s);
      if i.EventSettles? {
        SettledArms(cfg, s, i);
        SameSetAt(s, Step(cfg, s, i));
      } else if i.ExpiryFires? {
        StepFires(cfg, s, i);
        FiringKeepsSetAt(s, i.i);
      } else {
        QuietKeepsSetAt(cfg, s, i);
        SameSetAt(s, Step(cfg, s, i));
      }
    }
  }

  lemma StepFires(cfg: Config, s: S, i: Input)
    requires Enabled(s, i) && i.ExpiryFires?
    ensures i.i < |s.timers.expiry| && Step(cfg, s, i) == OnExpiryTimer(s, i.i)
  {
    hide OnExpiryTimer;
  }

  lemma InvHasTimer(s: S)
    requires Inv(s) && s.life.phase == Live
    ensures s.timers.expiry != [] && s.timers.expiry[|s.timers.expiry| - 1].EndTimer?
  {
    hide Ctl, Log, Frames, Rel, Ast;
  }

  lemma SameSetAt(s: S, t: S)
    ensures (t.timers.expiry == s.timers.expiry && s.timers.expiry != []
             && s.timers.expiry[|s.timers.expiry| - 1].EndTimer?) ==> SetAt(t) == SetAt(s)
  {
  }

  /** The end timer was armed last at step `j`. */
  ghost predicate LastArming(run: seq<S>, ins: seq<Input>, j: nat, k: nat)
    requires k <= |ins| <= |run|
  {
    j < k && Arms(run[j], ins[j]) && forall m | j < m < k :: !Arms(run[m], ins[m])
  }

  /** A live session's end timer and expiry are those of the last arming. */
  lemma {:induction false} LiveSinceArming(cfg: Config, run: seq<S>, ins: seq<Input>, k: nat) returns (j: nat)
    requires IsRun(cfg, run, ins) && k < |run| && run[k].life.phase == Live
    ensures |run| == |ins| + 1 && LastArming(run, ins, j, k)
    ensures SetAt(run[k]) == run[j].now && run[k].expiresAt == ArmedFor(run[j], ins[j])
    decreases k
  {
    hide IsRun, Step, Enabled, Inv, Arms, SetAt, ArmedFor, LastArming;
    RunLength(cfg, run, ins);
    FirstIsNotLive(cfg, run, ins);
    RunStep(cfg, run, ins, k - 1);
    RunInv(cfg, run, ins, k - 1);
    LiveStep(cfg, run[k - 1], ins[k - 1]);
    if Arms(run[k - 1], ins[k - 1]) {
      j := k - 1;
    } else {
      j := LiveSinceArming(cfg, run, ins, k - 1);
    }
    ArmingStays(run, ins, j, k - 1);
  }

  lemma ArmingStays(run: seq<S>, ins: seq<Input>, j: nat, k: nat)
    requires k < |ins| <= |run|
    ensures (if Arms(run[k], ins[k]) then j == k else LastArming(run, ins, j, k)) ==> LastArming(run, ins, j, k + 1)
  {
    hide Arms;
  }

  lemma FirstIsNotLive(cfg: Config, run: seq<S>, ins: seq<Input>)
    requires IsRun(cfg, run, ins)
    ensures run[0].life.phase != Live
  {
    hide Step, Enabled;
  }

  /** When a byte passes after the current expiry, exactly: the shell opened after the expiry, or the
      expiry answered last was over already. It then passes in that very millisecond. So nothing passes
      late in a session whose shell opens in time and that is never answered a past expiry. */
  lemma ByteIsLateIff(cfg: Config, run: seq<S>, ins: seq<Input>, k: nat)
    requires IsRun(cfg, run, ins) && k < |ins| && Relays(run[k], run[k + 1])
    ensures |run| == |ins| + 1 && exists j: nat :: LastArming(run, ins, j, k)
    ensures forall j: nat | LastArming(run, ins, j, k) ::
              && (run[k].now > run[k].expiresAt <==> ArmedLate(run[j], ins[j]))
              && (run[k].now > run[k].expiresAt ==> run[k].now == run[j].now)
    ensures (forall j: nat | j < k && Arms(run[j], ins[j]) :: !ArmedLate(run[j], ins[j])) ==>
              run[k].now <= run[k].expiresAt
  {
    hide IsRun, Relays, Arms, SetAt;
    RunLength(cfg, run, ins);
    NoRelayAfterExpiry(cfg, run, ins, k);
    var l := LiveSinceArming(cfg, run, ins, k);
    forall j: nat | LastArming(run, ins, j, k) ensures j == l {
      assert !(j < l) && !(l < j);
    }
  }

  /** Six inputs that take a session live, let it learn of an expiry in the past, and type a byte. */
  function LateInputs(): seq<Input> {
    [MessageArrives(AuthFrame), CheckAnswers(Granted("s", 1000, 0, false)), SshAnswers(true),
     ShellAnswers(Shell(true)), EventSettles(Answer(false, Some(-1))), MessageArrives(InputFrame([7]))]
  }

  function LateRun(cfg: Config): seq<S> {
    var s0 := Init(cfg, 0);
    var s1 := s0.(life := s0.life.(phase := Connecting, authPc := AwaitCheck));
    var s2 := s1.(life := s1.life.(sessionId := Some("s"), authPc := AwaitSsh), expiresAt := 1000,
        secrets := Redactor.Kept([]));
    var s3 := s2.(life := s2.life.(authPc := AwaitShell), asset := Asset(Open, NoConn, false, []));
    var s4 := s3.(life := s3.life.(phase := Live, authPc := Returned), asset := Asset(Open, Open, true, []),
                  timers := s3.timers.(expiry := [EndTimer(1000, 0)], intervals := true),
                  events := Events([Started], 0, 0), browser := Browser(true, [Ready(1000)]));
    var s5 := s4.(expiresAt := -1, timers := s4.timers.(expiry := [EndTimer(0, 0)]),
                  events := Events([Started], 1, 0), browser := Browser(true, [Ready(1000), Notice]));
    [s0, s1, s2, s3, s4, s5, s5.(asset := Asset(Open, Open, true, [Typed([7])]))]
  }

  lemma LateAuth(cfg: Config)
    ensures Enabled(LateRun(cfg)[0], LateInputs()[0])
    ensures Step(cfg, LateRun(cfg)[0], LateInputs()[0]) == LateRun(cfg)[1]
  {
    hide Redactor.Kept, Redactor.Step, End, Refuse, Finish, OnCheck, OnShell, OnSettled;
    assert LateInputs()[0] == MessageArrives(AuthFrame);
  }

  lemma LateCheck(cfg: Config)
    ensures Enabled(LateRun(cfg)[1], LateInputs()[1])
    ensures Step(cfg, LateRun(cfg)[1], LateInputs()[1]) == LateRun(cfg)[2]
  {
    hide Redactor.Kept, Redactor.Step, End, Refuse, Finish, OnMessage, OnShell, OnSettled;
    assert LateInputs()[1] == CheckAnswers(Granted("s", 1000, 0, false));
  }

  lemma LateSsh(cfg: Config)
    ensures Enabled(LateRun(cfg)[2], LateInputs()[2])
    ensures Step(cfg, LateRun(cfg)[2], LateInputs()[2]) == LateRun(cfg)[3]
  {
    hide Redactor.Kept, Redactor.Step, End, Refuse, Finish, OnCheck, OnShell, OnSettled, OnMessage;
    assert LateInputs()[2] == SshAnswers(true);
  }

  lemma LateLive(cfg: Config)
    requires cfg.noticeSeconds == []
    ensures Enabled(LateRun(cfg)[3], LateInputs()[3])
    ensures Step(cfg, LateRun(cfg)[3], LateInputs()[3]) == LateRun(cfg)[4]
  {
    hide Redactor.Kept, Redactor.Step, End, Refuse, Finish, OnCheck, OnMessage, OnSettled;
    assert LateInputs()[3] == ShellAnswers(Shell(true));
  }

  lemma LateNotice(cfg: Config)
    requires cfg.noticeSeconds == []
    ensures Enabled(LateRun(cfg)[4], LateInputs()[4])
    ensures Step(cfg, LateRun(cfg)[4], LateInputs()[4]) == LateRun(cfg)[5]
  {
    hide Redactor.Kept, Redactor.Step, End, Refuse, Finish, OnCheck, OnMessage, OnShell;
    assert LateInputs()[4] == EventSettles(Answer(false, Some(-1)));
  }

  lemma LateInput(cfg: Config)
    requires cfg.noticeSeconds == []
    ensures Enabled(LateRun(cfg)[5], LateInputs()[5])
    ensures Step(cfg, LateRun(cfg)[5], LateInputs()[5]) == LateRun(cfg)[6]
  {
    hide Redactor.Kept, Redactor.Step, End, Refuse, Finish, OnCheck, OnSettled, OnShell;
    assert LateInputs()[5] == MessageArrives(InputFrame([7]));
  }

  /** One way a byte gets through late: the byte 7 reaches the shell at time 0 although
      the grant expired at -1, because the end timer for a past expiry fires only afterwards. */
  lemma ALateByteGetsThrough(cfg: Config)
    requires cfg.noticeSeconds == []
    ensures var run := LateRun(cfg);
            && IsRun(cfg, run, LateInputs()) && Relays(run[5], run[6])
            && run[5].now > run[5].expiresAt && run[6].asset.written == [Typed([7])]
  {
    hide Step, Enabled;
    LateAuth(cfg);
    LateCheck(cfg);
    LateSsh(cfg);
    LateLive(cfg);
    LateNotice(cfg);
    LateInput(cfg);
  }

  /** Six inputs: the expiry is learned in time, but the shell opens after it. */
  function SlowInputs(): seq<Input> {
    [MessageArrives(AuthFrame), CheckAnswers(Granted("s", 1000, 0, false)), SshAnswers(true), Tick(2000),
     ShellAnswers(Shell(true)), MessageArrives(InputFrame([7]))]
  }

  function SlowRun(cfg: Config): seq<S> {
    var s3 := LateRun(cfg)[3];
    var s4 := s3.(now := 2000);
    var s5 := s4.(life := s4.life.(phase := Live, authPc := Returned), asset := Asset(Open, Open, true, []),
                  timers := s4.timers.(expiry := [EndTimer(2000, 2000)], intervals := true),
                  events := Events([Started], 0, 0), browser := Browser(true, [Ready(1000)]));
    LateRun(cfg)[..4] + [s4, s5, s5.(asset := Asset(Open, Open, true, [Typed([7])]))]
  }

  lemma SlowTick(cfg: Config)
    requires cfg.authTimeoutMs >= 2000
    ensures Enabled(SlowRun(cfg)[3], SlowInputs()[3]) && Step(cfg, SlowRun(cfg)[3], SlowInputs()[3]) == SlowRun(cfg)[4]
  {
    hide Redactor.Kept;
    assert SlowInputs()[3] == Tick(2000);
  }

  lemma SlowLive(cfg: Config)
    requires cfg.noticeSeconds == []
    ensures Enabled(SlowRun(cfg)[4], SlowInputs()[4]) && Step(cfg, SlowRun(cfg)[4], SlowInputs()[4]) == SlowRun(cfg)[5]
  {
    hide Redactor.Kept, Redactor.Step, End, Refuse, Finish, OnCheck, OnMessage, OnSettled;
    assert SlowInputs()[4] == ShellAnswers(Shell(true));
  }

  lemma SlowInput(cfg: Config)
    ensures Enabled(SlowRun(cfg)[5], SlowInputs()[5]) && Step(cfg, SlowRun(cfg)[5], SlowInputs()[5]) == SlowRun(cfg)[6]
  {
    hide Redactor.Kept, Redactor.Step, End, Refuse, Finish, OnCheck, OnSettled, OnShell, Init;
    assert SlowInputs()[5] == MessageArrives(InputFrame([7]));
  }

  lemma SlowStart(cfg: Config)
    ensures forall k | 0 <= k < 3 :: SlowInputs()[k] == LateInputs()[k]
    ensures forall k | 0 <= k < 4 :: SlowRun(cfg)[k] == LateRun(cfg)[k]
  {
    hide Init;
  }

  /** The other way a byte gets through late: the grant is checked when the API answers, at 0, and not
      again when the shell opens, at 2000; the byte 7 reaches the shell then, long after 1000. */
  lemma ASlowShellGetsAByteThrough(cfg: Config)
    requires cfg.noticeSeconds == [] && cfg.authTimeoutMs >= 2000
    ensures var run := SlowRun(cfg);
            && IsRun(cfg, run, SlowInputs()) && Relays(run[5], run[6])
            && run[5].now > run[5].expiresAt && run[6].asset.written == [Typed([7])]
            && LastArming(run, SlowInputs(), 4, 5) && ArmedLate(run[4], SlowInputs()[4])
  {
    hide Step, Enabled;
    SlowStart(cfg);
    LateAuth(cfg);
    LateCheck(cfg);
    LateSsh(cfg);
    SlowTick(cfg);
    SlowLive(cfg);
    SlowInput(cfg);
    assert SlowInputs()[4] == ShellAnswers(Shell(true));
  }

  // ---- once closing, the session does finish ----

  /** How many completions are still needed: pending events plus what `finish` has left to do. */
  function Work(pc: FinishPc): nat {
    match pc
    case Idle => 21
    case AwaitEvent(_, AfterError) => 19
    case AwaitEvent(_, AfterEnded) => 17
    case AwaitFileClose => 16
    case AwaitUrl(n) => if n < UPLOAD_ATTEMPTS then 5 + 3 * (UPLOAD_ATTEMPTS - 1 - n) else 5
    case AwaitPut(n) => if n < UPLOAD_ATTEMPTS then 4 + 3 * (UPLOAD_ATTEMPTS - 1 - n) else 4
    case AwaitSleep(n) => if n < UPLOAD_ATTEMPTS then 3 + 3 * (UPLOAD_ATTEMPTS - 1 - n) else 3
    case AwaitEvent(_, _) => 1
  }

  lemma WorkIsLeft(pc: FinishPc)
    ensures Work(pc) >= 1
  {
  }

  function Remaining(s: S): nat
    requires s.events.settled <= |s.events.issued|
  {
    if s.life.phase == Closed then 0 else Work(s.life.finishPc) + |s.events.issued| - s.events.settled
  }

  /** The completions an ending session waits for. */
  predicate IsCompletion(s: S, i: Input) {
    i.EventSettles? || i.FinishResumes? || (i.CheckAnswers? && s.life.sessionId == None)
  }

  /** Never stuck: a closing session always waits for something that can complete. */
  lemma ClosingIsNeverStuck(s: S)
    requires Inv(s) && s.life.phase == Closing
    ensures exists i :: IsCompletion(s, i) && Enabled(s, i)
  {
    hide Frames, Clock, Rel, Ast, LogIs;
    if s.life.sessionId == None {
      assert IsCompletion(s, CheckAnswers(Refused)) && Enabled(s, CheckAnswers(Refused));
    } else if FinishReady(s) {
      assert IsCompletion(s, FinishResumes(true, false)) && Enabled(s, FinishResumes(true, false));
    } else {
      assert IsCompletion(s, EventSettles(Lost)) && Enabled(s, EventSettles(Lost));
    }
  }

  lemma InvSettled(s: S)
    requires Inv(s)
    ensures s.events.settled <= |s.events.issued|
    ensures s.life.phase == Closing && s.life.sessionId == None ==> s.events.issued == [] && s.life.finishPc == Idle
    ensures s.life.phase == Closing ==> s.life.finished == 0 && s.life.endReason != None
    ensures s.life.phase == Closing && s.life.finishPc == Idle ==>
              s.life.sessionId == None && s.life.authPc == AwaitCheck
    ensures s.life.authPc == AwaitCheck ==> s.life.sessionId == None
    ensures s.life.phase == Closing ==> s.timers == NoTimers && !s.asset.listening
  {
    hide Frames, Rel, LogIs;
  }

  lemma LateAnswersKeepWork(cfg: Config, s: S, i: Input)
    requires s.life.phase == Closing && Enabled(s, i) && (i.SecretAnswers? || i.SshAnswers? || i.ShellAnswers?)
    ensures var t := Step(cfg, s, i);
            t.life.phase == Closing && t.life.finishPc == s.life.finishPc && t.events == s.events
  {
    hide End, Redactor.Kept, GoLive, OnCheck, OnMessage, OnOutput, OnSettled, OnFinishResumes, OnExpiryTimer,
        OnFlushTimer, OnAuthTimer;
    EndIsOver(AuthAt(s, Returned), Error);
  }

  /** Inputs that complete nothing leave an ending session's remaining work as it is. */
  lemma OthersKeepWork(cfg: Config, s: S, i: Input)
    requires Inv(s) && s.life.phase == Closing && Enabled(s, i) && !IsCompletion(s, i)
    ensures var t := Step(cfg, s, i);
            t.life.phase == Closing && t.life.finishPc == s.life.finishPc && t.events == s.events
  {
    hide Inv, End, OnSecret, OnSsh, OnShell, OnCheck, OnSettled, OnFinishResumes, Sent;
    InvSettled(s);
    if i.SecretAnswers? || i.SshAnswers? || i.ShellAnswers? {
      LateAnswersKeepWork(cfg, s, i);
    } else {
      EndIsOver(s, ClientClosed);
      EndIsOver(s, Killed);
      EndIsOver(s, Error);
      EndIsOver(s, SshClosed);
    }
  }

  lemma FirstReportWork(s: S)
    requires s.life.phase == Closing && s.life.sessionId != None
    ensures var t := Finish(s);
            && t.life.phase == Closing && t.events.settled == s.events.settled
            && |t.events.issued| == |s.events.issued| + 1 && Work(t.life.finishPc) + 2 <= Work(Idle)
  {
  }

  lemma CheckWork(s: S, a: CheckAnswer)
    requires Inv(s) && s.life.phase == Closing && s.life.authPc == AwaitCheck
    ensures var t := OnCheck(s, a);
            || t.life.phase == Closed
            || (t.life.phase == Closing && |t.events.issued| == 1 && t.events.settled == 0
                && Work(t.life.finishPc) + 2 <= Work(s.life.finishPc))
  {
    hide Inv, End, Screen, Streamed, Redactor.Kept, Sent, NextSecret, Finish, Work;
    CheckPhase(s);
    if a.Granted? {
      FirstReportWork(s.(life := s.life.(sessionId := Some(a.id), authPc := Returned), recording := a.recording));
    }
  }

  lemma FinishWork(s: S, ok: bool, urlExpired: bool)
    requires s.life.phase == Closing && s.life.sessionId != None && s.life.finishPc != Idle
    ensures var t := OnFinishResumes(s, ok, urlExpired);
            && t.events.settled == s.events.settled
            && (t.life.phase == Closed ||
                 Work(t.life.finishPc) + |t.events.issued| < Work(s.life.finishPc) + |s.events.issued|)
  {
  }

  /** Every completion of a closing session brings it closer to `closed`; nothing else sets it back. */
  lemma CompletionsConverge(cfg: Config, s: S, i: Input)
    requires Inv(s) && s.life.phase == Closing && Enabled(s, i)
    ensures Inv(Step(cfg, s, i))
    ensures var t := Step(cfg, s, i);
            && s.events.settled <= |s.events.issued| && t.events.settled <= |t.events.issued|
            && Remaining(t) + (if IsCompletion(s, i) then 1 else 0) <= Remaining(s)
  {
    hide Inv, OnCheck, OnSettled, OnFinishResumes, OnMessage, OnAuthTimer, OnSsh, OnShell, OnSecret, OnOutput, End,
        Work;
    StepInv(cfg, s, i);
    InvSettled(s);
    InvSettled(Step(cfg, s, i));
    WorkIsLeft(s.life.finishPc);
    if !IsCompletion(s, i) {
      OthersKeepWork(cfg, s, i);
    } else {
      match i
      case CheckAnswers(a) =>
        CheckPhase(s);
        CheckWork(s, a);
      case EventSettles(a) => SettledOver(cfg, s, a);
      case FinishResumes(ok, e) => FinishWork(s, ok, e);
    }
  }

  /** Completions in a stretch of a run. */
  ghost function Completions(run: seq<S>, ins: seq<Input>): nat
    requires |run| == |ins| + 1
  {
    if ins == [] then 0
    else Completions(run[..|run| - 1], ins[..|ins| - 1]) + if IsCompletion(run[|ins| - 1], ins[|ins| - 1]) then 1 else 0
  }

  ghost predicate Stretch(cfg: Config, run: seq<S>, ins: seq<Input>) {
    && |run| == |ins| + 1
    && forall k | 0 <= k < |ins| :: Enabled(run[k], ins[k]) && run[k + 1] == Step(cfg, run[k], ins[k])
  }

  /** From any closing state, however the other inputs interleave, the session is closed after at
      most `Remaining` completions: `done` resolves whenever every awaited call settles. */
  lemma {:induction false} ClosingFinishes(cfg: Config, run: seq<S>, ins: seq<Input>)
    requires Stretch(cfg, run, ins) && Inv(run[0]) && run[0].life.phase == Closing
    ensures Inv(run[|ins|])
    ensures run[|ins|].life.phase == Closed ||
            (run[|ins|].life.phase == Closing && Remaining(run[|ins|]) + Completions(run, ins) <= Remaining(run[0]))
    decreases |ins|
  {
    InvSettled(run[0]);
    if ins != [] {
      hide Inv, Step, Enabled, Remaining, IsCompletion, Forward;
      var n := |ins| - 1;
      var shorter := run[..n + 1];
      assert Stretch(cfg, shorter, ins[..n]);
      ClosingFinishes(cfg, shorter, ins[..n]);
      ClosingStep(cfg, run[n], ins[n]);
    }
  }

  lemma ClosingStep(cfg: Config, s: S, i: Input)
    requires Inv(s) && Enabled(s, i) && (s.life.phase == Closing || s.life.phase == Closed)
    ensures var t := Step(cfg, s, i);
            && Inv(t) && (t.life.phase == Closing || t.life.phase == Closed)
            && (s.life.phase == Closed ==> t.life.phase == Closed)
            && s.events.settled <= |s.events.issued| && t.events.settled <= |t.events.issued|
            && (s.life.phase == Closing ==> Remaining(t) + (if IsCompletion(s, i) then 1 else 0) <= Remaining(s))
  {
    hide Inv, Step, Enabled, Remaining, IsCompletion;
    StepInv(cfg, s, i);
    StepForward(cfg, s, i);
    InvSettled(s);
    InvSettled(Step(cfg, s, i));
    if s.life.phase == Closing {
      CompletionsConverge(cfg, s, i);
    }
  }

  /** A finished session holds nothing: no timer is armed, no SSH client is open, no data listener is attached. */
  lemma ClosedHoldsNothing(cfg: Config, run: seq<S>, ins: seq<Input>, k: nat)
    requires IsRun(cfg, run, ins) && k < |run| && run[k].life.phase == Closed
    ensures run[k].timers == NoTimers && run[k].asset.ssh != Open && !run[k].asset.listening
    ensures run[k].life.authPc != AwaitCheck && run[k].life.finishPc == Idle
  {
    RunInv(cfg, run, ins, k);
    hide IsRun, Log, Frames, Rel;
  }
}
