/** What a terminal session tells the browser besides output, against the history of its inputs. */
module SessionFrames {
  import opened Options
  import opened Scrub
  import Redactor
  import opened SessionModel
  import opened SessionInvariant
  import opened SessionSteps
  import opened SessionRuns
  import opened SessionTraces
  import opened SessionReports

  /** The frames other than output, in order. */
  function Told(fs: seq<Frame>): seq<Frame> {
    if fs == [] then []
    else
      var f := fs[|fs| - 1];
      Told(fs[..|fs| - 1]) + if f.Output? then [] else [f]
  }

  lemma ToldAppend(fs: seq<Frame>, f: Frame)
    ensures Told(fs + [f]) == Told(fs) + if f.Output? then [] else [f]
  {
    assert (fs + [f])[..|fs|] == fs;
  }

  /** The input is refused before there is a session. */
  predicate IsRefused(s: S, i: Input) {
    || (s.life.phase == Auth && i.MessageArrives? && i.m != AuthFrame)
    || (s.life.phase == Auth && i.AuthTimerFires?)
    || (s.life.phase == Connecting && i.CheckAnswers? && i.check.Refused?)
  }

  /** What one input has the browser told, if the socket is open: that the session ends, a `pong` for a
      `ping`, that it is ready and until when, or a notice. */
  function Tells(s: S, i: Input): seq<Frame> {
    if EndsWith(s, i) != None || IsRefused(s, i) then [ClosedFrame]
    else match i
      case MessageArrives(m) => if m == PingFrame && s.life.phase != Auth then [Pong] else []
      case SecretAnswers(a) => if a == None then [Notice] else []
      case ShellAnswers(_) => if s.life.phase == Connecting then [Ready(s.expiresAt)] else []
      case AssetOutput(_, d) => if s.life.phase == Live && d != Pass then [Notice] else []
      case EventSettles(Answer(_, exp)) =>
        if s.life.phase == Live && exp != None && exp.value != s.expiresAt then [Notice] else []
      case ExpiryFires(_) => [Notice]
      case _ => []
  }

  /** The browser is told `fs`, unless the socket is down; and it stays open unless it is told the end. */
  ghost predicate Heard(s: S, t: S, fs: seq<Frame>) {
    && Told(t.browser.frames) == Told(s.browser.frames) + (if s.browser.open then fs else [])
    && (t.browser.open <==> s.browser.open && ClosedFrame !in fs)
  }

  lemma SendHeard(s: S, f: Frame)
    requires !f.Output? && f != ClosedFrame
    ensures Heard(s, Send(s, f), [f])
  {
    hide Told;
    ToldAppend(s.browser.frames, f);
  }

  lemma NothingHeard(s: S, t: S)
    requires t.browser == s.browser
    ensures Heard(s, t, [])
  {
    hide Told;
    assert Told(s.browser.frames) + [] == Told(s.browser.frames);
  }

  lemma SameBrowser(s: S, t: S, s': S, t': S, fs: seq<Frame>)
    requires Heard(s, t, fs) && s'.browser == s.browser && t'.browser == t.browser
    ensures Heard(s', t', fs)
  {
  }

  lemma RelayHeard(s: S, op: Redactor.Op)
    ensures Heard(s, Relay(s, op), [])
  {
    hide Told, Redactor.Step;
    Redactor.StepAppends(s.secrets, s.red, op);
    var out := Redactor.Step(s.secrets, s.red, op).shown[|s.red.shown|..];
    ToldAppend(s.browser.frames, Output(out));
    assert Told(s.browser.frames) + [] == Told(s.browser.frames);
  }

  lemma CloseHeard(s: S)
    ensures Heard(s, CloseClient(s), [ClosedFrame])
  {
    hide Told;
    ToldAppend(s.browser.frames, ClosedFrame);
    if !s.browser.open { assert Told(s.browser.frames) + [] == Told(s.browser.frames); }
  }

  lemma EndLocallyHeard(s: S, reason: EndReason)
    ensures Heard(s, EndLocally(s, reason), [ClosedFrame])
  {
    hide Relay, CloseClient, Told;
    var c := s.(life := s.life.(phase := Closing, endReason := Some(reason)), timers := NoTimers);
    RelayHeard(c, Redactor.Flush);
    CloseHeard(Relay(c, Redactor.Flush));
    assert Told(s.browser.frames) + [] == Told(s.browser.frames);
  }

  lemma FinishIsSilent(s: S)
    ensures Finish(s).browser == s.browser
  {
  }

  lemma EndHeard(s: S, reason: EndReason)
    requires !Over(s)
    ensures Heard(s, End(s, reason), [ClosedFrame])
  {
    hide EndLocally, Finish, Told;
    EndLocallyHeard(s, reason);
    FinishIsSilent(EndLocally(s, reason));
  }

  lemma RefuseHeard(s: S)
    requires s.life.phase != Closed && s.life.sessionId == None
    ensures Heard(s, Refuse(s), [ClosedFrame])
  {
    hide End, Told, CloseClient;
    var c := s.(timers := NoTimers.(flush := s.timers.flush));
    CloseHeard(c);
  }

  // ---- one step ----

  lemma MessageHeard(s: S, m: Message)
    requires Inv(s)
    ensures Heard(s, OnMessage(s, m), Tells(s, MessageArrives(m)))
  {
    hide Inv, Refuse, Heard, Screen, Streamed;
    if s.life.phase == Auth {
      AuthPhase(s);
      RefuseHeard(s);
      NothingHeard(s, s.(life := s.life.(phase := Connecting, authPc := AwaitCheck)));
    } else {
      SendHeard(s, Pong);
      NothingHeard(s, s);
      NothingHeard(s, OnMessage(s, AuthFrame));
      if m.InputFrame? { NothingHeard(s, OnMessage(s, m)); }
    }
  }

  lemma AuthTimerHeard(s: S)
    requires Inv(s)
    ensures Heard(s, OnAuthTimer(s), Tells(s, AuthTimerFires))
  {
    hide Inv, Refuse, Told, Screen, Streamed;
    var t := s.(timers := s.timers.(auth := None));
    if s.life.phase == Auth {
      AuthPhase(s);
      RefuseHeard(t);
    } else {
      NothingHeard(s, t);
    }
  }

  lemma CheckHeard(s: S, a: CheckAnswer)
    requires Inv(s) && s.life.authPc == AwaitCheck
    ensures !Over(s) ==> Heard(s, OnCheck(s, a), Tells(s, CheckAnswers(a)))
    ensures Over(s) && a.Granted? ==> OnCheck(s, a).browser == s.browser
  {
    hide Inv, Refuse, End, Finish, Told, Redactor.Kept;
    CheckPhase(s);
    RefuseHeard(AuthAt(s, Returned));
    if a.Granted? {
      var t := s.(life := s.life.(sessionId := Some(a.id), authPc := Returned), recording := a.recording);
      var u := t.(expiresAt := a.expiresAt);
      if !Over(s) { EndHeard(u, GrantExpired); }
      FinishIsSilent(t);
      NothingHeard(s, NextSecret(u, a.secretRefs));
    }
  }

  lemma SecretHeard(s: S, a: Option<seq<Bytes>>)
    requires s.life.authPc.AwaitSecret? && s.life.authPc.left > 0
    ensures Heard(s, OnSecret(s, a), Tells(s, SecretAnswers(a)))
  {
    hide Told, Redactor.Kept;
    SendHeard(s, Notice);
    NothingHeard(s, s);
  }

  lemma SshHeard(s: S, c: bool)
    ensures !Over(s) ==> Heard(s, OnSsh(s, c), Tells(s, SshAnswers(c)))
    ensures Over(s) ==> OnSsh(s, c).browser == s.browser
  {
    hide Told, End;
    var r := AuthAt(s, Returned);
    if Over(s) {
      EndIsOver(r, Error);
    } else {
      EndHeard(r, Error);
      NothingHeard(s, s);
    }
  }

  lemma ShellHeard(cfg: Config, s: S, a: ShellAnswer)
    requires s.life.phase == Connecting || Over(s)
    ensures !Over(s) ==> Heard(s, OnShell(cfg, s, a), Tells(s, ShellAnswers(a)))
    ensures Over(s) ==> OnShell(cfg, s, a).browser == s.browser
  {
    hide Told, End, NoticeTimers;
    var r := AuthAt(s, Returned);
    if Over(s) {
      EndIsOver(r, Error);
    } else {
      EndHeard(r, Error);
      EndHeard(OpenedShell(s), Error);
      SendHeard(s, Ready(s.expiresAt));
    }
  }

  lemma OutputHeard(s: S, chunk: Bytes, d: Sudo)
    requires s.life.phase == Live ==> s.asset.stream != NoConn
    ensures Heard(s, OnOutput(s, chunk, d), Tells(s, AssetOutput(chunk, d)))
    ensures Heard(s, OnFlushTimer(s), [])
  {
    hide Told, Relay;
    RelayHeard(s.(timers := s.timers.(flush := None)), Redactor.Flush);
    RelayHeard(s, Redactor.Push(chunk));
    RelayKept(s, Redactor.Push(chunk));
    assert Told(s.browser.frames) + [] == Told(s.browser.frames);
    var r := ArmFlush(Relay(s, Redactor.Push(chunk)));
    SendHeard(r, Notice);
    NothingHeard(s, s);
  }

  lemma SettledHeard(cfg: Config, s: S, a: EventAnswer)
    requires s.events.settled < |s.events.issued| && s.life.phase == Live
    ensures Heard(s, OnSettled(cfg, s, a), Tells(s, EventSettles(a)))
  {
    hide Told, End, NoticeTimers;
    EndHeard(Settle(s, 0), Killed);
    EndHeard(Settle(s, s.events.failures + 1), Error);
    NothingHeard(s, s);
    SendHeard(s, Notice);
  }

  lemma ExpiryHeard(s: S, k: nat)
    requires k < |s.timers.expiry| && !Over(s)
    ensures Heard(s, OnExpiryTimer(s, k), Tells(s, ExpiryFires(k)))
  {
    hide Told, End;
    var t := s.(timers := s.timers.(expiry := s.timers.expiry[..k] + s.timers.expiry[k + 1..]));
    EndHeard(t, GrantExpired);
    SendHeard(t, Notice);
  }

  lemma OverIsClosedToBrowser(s: S)
    requires Inv(s) && Over(s)
    ensures !s.browser.open
  {
    hide Ctl, Log, Clock, Rel, Ast, Screen;
  }

  lemma ClosedSocketHears(cfg: Config, s: S, i: Input)
    requires Inv(s) && Enabled(s, i) && Over(s)
    ensures Told(Step(cfg, s, i).browser.frames) == Told(s.browser.frames) && !Step(cfg, s, i).browser.open
  {
    hide Inv, Told, Step, Enabled, Forward;
    OverIsClosedToBrowser(s);
    StepInv(cfg, s, i);
    OverKeepsReason(cfg, s, i);
    OverIsClosedToBrowser(Step(cfg, s, i));
    OverSaysNothing(cfg, s, i);
  }

  lemma OverSaysNothing(cfg: Config, s: S, i: Input)
    requires Inv(s) && Enabled(s, i) && Over(s) && !s.browser.open
    ensures Step(cfg, s, i).browser.frames == s.browser.frames
  {
    hide Inv, OnFlushTimer, OnCheck, OnSecret, OnSsh, OnShell, OnSettled, OnFinishResumes, End;
    NotLiveIsOver(s);
    EndIsOver(s, ClientClosed);
    EndIsOver(s, Killed);
    EndIsOver(s, Error);
    EndIsOver(s, SshClosed);
    match i
    case CheckAnswers(a) => OverCheckSaysNothing(s, a);
    case SecretAnswers(a) => OverSecretSaysNothing(s, a);
    case SshAnswers(c) => SshHeard(s, c);
    case ShellAnswers(a) => ShellHeard(cfg, s, a);
    case EventSettles(a) => SettledOver(cfg, s, a);
    case FinishResumes(ok, e) => ResumingSaysNothing(s, ok, e);
    case _ =>
  }

  lemma OverCheckSaysNothing(s: S, a: CheckAnswer)
    requires Inv(s) && s.life.authPc == AwaitCheck && Over(s) && !s.browser.open
    ensures OnCheck(s, a).browser.frames == s.browser.frames
  {
    hide Inv, End, Finish, Redactor.Kept;
    CheckPhase(s);
    CheckHeard(s, a);
  }

  lemma OverSecretSaysNothing(s: S, a: Option<seq<Bytes>>)
    requires s.life.authPc.AwaitSecret? && s.life.authPc.left > 0 && !s.browser.open
    ensures OnSecret(s, a).browser.frames == s.browser.frames
  {
    hide Redactor.Kept;
  }

  lemma ResumingSaysNothing(s: S, ok: bool, urlExpired: bool)
    ensures OnFinishResumes(s, ok, urlExpired).browser == s.browser
  {
  }

  lemma AnswersHeard(cfg: Config, s: S, i: Input)
    requires Inv(s) && Enabled(s, i) && !Over(s)
    requires i.CheckAnswers? || i.SecretAnswers? || i.SshAnswers? || i.ShellAnswers? || i.EventSettles?
    ensures Heard(s, Step(cfg, s, i), Tells(s, i))
  {
    hide Inv, OnCheck, OnSecret, OnSsh, OnShell, OnSettled, Heard, Tells;
    if i.ShellAnswers? { PcMeansConnecting(s); }
    if i.EventSettles? { ReportsMeanLive(s); }
    match i
    case CheckAnswers(a) => CheckHeard(s, a);
    case SecretAnswers(a) => SecretHeard(s, a);
    case SshAnswers(c) => SshHeard(s, c);
    case ShellAnswers(a) => ShellHeard(cfg, s, a);
    case EventSettles(a) => SettledHeard(cfg, s, a);
  }

  lemma TimersHeard(cfg: Config, s: S, i: Input)
    requires Inv(s) && Enabled(s, i) && !Over(s)
    requires i.MessageArrives? || i.AuthTimerFires? || i.FlushFires? || i.AssetOutput? || i.ExpiryFires?
    ensures Heard(s, Step(cfg, s, i), Tells(s, i))
  {
    hide Inv, OnMessage, OnAuthTimer, OnOutput, OnFlushTimer, OnExpiryTimer, Heard;
    if s.life.phase == Live { LiveHasStream(s); }
    match i
    case MessageArrives(m) => MessageHeard(s, m);
    case AuthTimerFires => AuthTimerHeard(s);
    case FlushFires => OutputHeard(s, [], Pass);
    case AssetOutput(chunk, d) => OutputHeard(s, chunk, d);
    case ExpiryFires(k) => ExpiryHeard(s, k);
  }

  lemma EndingsHeard(cfg: Config, s: S, i: Input)
    requires Inv(s) && Enabled(s, i) && !Over(s)
    requires i.ClientGone? || i.KillRequest? || i.Shutdown? || i.SshFails? || i.SshCloses?
    ensures Heard(s, Step(cfg, s, i), Tells(s, i))
  {
    hide Inv, End, Heard;
    EndHeard(s, ClientClosed);
    EndHeard(s, Killed);
    EndHeard(s, Error);
    EndHeard(s, SshClosed);
  }

  lemma QuietHeard(cfg: Config, s: S, i: Input)
    requires Inv(s) && Enabled(s, i) && !Over(s)
    requires i.Tick? || i.HeartbeatFires? || i.FinishResumes?
    ensures Heard(s, Step(cfg, s, i), Tells(s, i))
  {
    hide Inv, Heard, OnFinishResumes;
    RunningHasNoFinish(s);
    NothingHeard(s, Step(cfg, s, i));
  }

  lemma StepTells(cfg: Config, s: S, i: Input)
    requires Inv(s) && Enabled(s, i) && !Over(s) && !i.SocketDown?
    ensures Heard(s, Step(cfg, s, i), Tells(s, i))
  {
    hide Inv, Heard, Tells, Step, Enabled;
    if i.CheckAnswers? || i.SecretAnswers? || i.SshAnswers? || i.ShellAnswers? || i.EventSettles? {
      AnswersHeard(cfg, s, i);
    } else if i.MessageArrives? || i.AuthTimerFires? || i.FlushFires? || i.AssetOutput? || i.ExpiryFires? {
      TimersHeard(cfg, s, i);
    } else if i.Tick? || i.HeartbeatFires? || i.FinishResumes? {
      QuietHeard(cfg, s, i);
    } else {
      EndingsHeard(cfg, s, i);
    }
  }

  // ---- whole runs ----

  /** The socket did not go down, and the browser was not told the end. */
  function StillOpen(run: seq<S>, ins: seq<Input>, k: nat): bool
    requires k <= |ins| <= |run|
  {
    k == 0
    || (StillOpen(run, ins, k - 1) && ins[k - 1] != SocketDown && ClosedFrame !in Tells(run[k - 1], ins[k - 1]))
  }

  /** What the inputs had the browser told while it was there. */
  function ToldBy(run: seq<S>, ins: seq<Input>, k: nat): seq<Frame>
    requires k <= |ins| <= |run|
  {
    if k == 0 then []
    else ToldBy(run, ins, k - 1) + if StillOpen(run, ins, k - 1) then Tells(run[k - 1], ins[k - 1]) else []
  }

  /** Output apart, the browser receives exactly what the inputs call for, in order and nothing else, as
      long as its socket is open; and the gateway closes it exactly when it tells it the end. */
  lemma {:induction false} BrowserIsToldExactly(cfg: Config, run: seq<S>, ins: seq<Input>, k: nat)
    requires IsRun(cfg, run, ins) && k < |run|
    ensures |run| == |ins| + 1 && Told(run[k].browser.frames) == ToldBy(run, ins, k)
    ensures run[k].browser.open <==> StillOpen(run, ins, k)
    decreases k
  {
    hide IsRun, Inv, Enabled, Step, Tells, Told;
    RunLength(cfg, run, ins);
    if k == 0 {
      StartsUntold(cfg, run, ins);
    } else {
      var s, i := run[k - 1], ins[k - 1];
      BrowserIsToldExactly(cfg, run, ins, k - 1);
      RunStep(cfg, run, ins, k - 1);
      RunInv(cfg, run, ins, k - 1);
      if Over(s) {
        OverIsClosedToBrowser(s);
        ClosedSocketHears(cfg, s, i);
      } else if i.SocketDown? {
        SocketGoes(cfg, s);
      } else {
        StepTells(cfg, s, i);
      }
    }
  }

  lemma SocketGoes(cfg: Config, s: S)
    requires !Over(s)
    ensures Step(cfg, s, SocketDown).browser == s.browser.(open := false) && Tells(s, SocketDown) == []
  {
  }

  lemma StartsUntold(cfg: Config, run: seq<S>, ins: seq<Input>)
    requires IsRun(cfg, run, ins)
    ensures run[0].browser == Browser(true, []) && Told(run[0].browser.frames) == []
  {
    hide Enabled, Step;
  }
}
