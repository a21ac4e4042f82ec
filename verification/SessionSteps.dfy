/** Every step of a terminal session keeps its invariant. */
module SessionSteps {
  import opened Options
  import opened Scrub
  import Redactor
  import opened SessionModel
  import opened SessionInvariant

  lemma InitInv(cfg: Config, t: int)
    ensures Inv(Init(cfg, t))
  {
    assert FreshRun == Redactor.Stream([], []);
    assert Redactor.Kept([]) == [];
  }

  lemma RefuseInv(s: S)
    requires s.life.sessionId == None && s.life.finished == 0 && s.life.finishPc == Idle && s.life.phase != Closed
    requires s.life.authPc == NotStarted || s.life.authPc == Returned
    requires Screen(s.browser, s.red.shown) && Streamed(s.secrets, s.red)
    requires s.red.shown == [] && s.red.held == []
    requires s.events.issued == [] && s.events.settled == 0 && s.timers.flush == None
    requires s.asset.ssh != Open && !s.asset.listening
    ensures Inv(Refuse(s)) && Refuse(s).life.phase == Closed
  {
    hide Screen, Streamed, Redactor.Kept, Log, End, FrameOrder;
    CloseKeepsScreen(s.browser, s.red.shown);
    NothingReported(Refuse(s).life, s.events.failures);
    assert s.events == Events([], 0, s.events.failures);
  }

  lemma NoticesAhead(seconds: seq<nat>, exp: int, now: int)
    ensures forall x | x in NoticeTimers(seconds, exp, now) :: x.NoticeTimer? && x.deadline > now
  {
  }

  /** Scheduling leaves exactly one end timer, for the current expiry, and nothing overdue. */
  lemma ScheduleKeeps(cfg: Config, s: S)
    requires s.timers.auth == None || s.now <= s.timers.auth.value
    requires s.timers.flush == None || s.now <= s.timers.flush.value
    ensures OneEndTimer(s.now, s.expiresAt, ScheduleExpiry(cfg, s).timers.expiry)
    ensures ClockMayReach(s.now, ScheduleExpiry(cfg, s).timers, s.now)
  {
    NoticesAhead(cfg.noticeSeconds, s.expiresAt, s.now);
    var ts := ScheduleExpiry(cfg, s).timers.expiry;
    assert forall i | 0 <= i < |ts| - 1 :: ts[i] in NoticeTimers(cfg.noticeSeconds, s.expiresAt, s.now);
  }

  /** What an unauthenticated session's refusal needs. */
  lemma AuthPhase(s: S)
    requires Inv(s) && s.life.phase == Auth
    ensures s.life == Life(Auth, None, None, NotStarted, Idle, 0)
    ensures Screen(s.browser, s.red.shown) && Streamed(s.secrets, s.red)
    ensures s.red.shown == [] && s.red.held == []
    ensures s.events.issued == [] && s.events.settled == 0 && s.timers.flush == None
    ensures s.asset.ssh != Open && !s.asset.listening
  {
    hide Screen, Streamed, Redactor.Kept;
  }

  lemma AuthTimerInv(s: S)
    requires Inv(s) && Enabled(s, AuthTimerFires)
    ensures Inv(OnAuthTimer(s))
  {
    if s.life.phase == Auth {
      hide Inv, Screen, Streamed, Refuse;
      AuthPhase(s);
      RefuseInv(s.(timers := s.timers.(auth := None)));
    } else {
      AuthTimerLate(s);
    }
  }

  lemma AuthTimerLate(s: S)
    requires Inv(s) && s.life.phase != Auth
    ensures Inv(s.(timers := s.timers.(auth := None)))
  {
    hide Ctl, Log, Frames, Rel, Ast, OneEndTimer;
  }

  lemma TimerRemoved(s: S, i: nat)
    requires s.life.phase == Live && Clock(Live, s.now, s.expiresAt, s.timers)
    requires i < |s.timers.expiry| && s.timers.expiry[i].NoticeTimer?
    ensures Clock(Live, s.now, s.expiresAt, s.timers.(expiry := s.timers.expiry[..i] + s.timers.expiry[i + 1..]))
  {
    var ts := s.timers.expiry;
    var us := ts[..i] + ts[i + 1..];
    assert us[|us| - 1] == ts[|ts| - 1];
    assert forall k | 0 <= k < |us| :: us[k] == ts[if k < i then k else k + 1];
  }

  lemma ExpiryTimerInv(s: S, i: nat)
    requires Inv(s) && i < |s.timers.expiry|
    ensures Inv(OnExpiryTimer(s, i))
  {
    hide End, Frames, Log, Ctl, Rel, Ast;
    var ts := s.timers.expiry;
    assert s.life.phase == Live;
    var t := s.(timers := s.timers.(expiry := ts[..i] + ts[i + 1..]));
    if ts[i].EndTimer? {
      RunningIgnoresTimers(s, t.timers);
      EndInv(t, GrantExpired);
    } else {
      TimerRemoved(s, i);
      PlainFrame(Live, s.browser, s.red.shown, Notice);
    }
  }

  lemma RunningIgnoresTimers(s: S, timers: Timers)
    requires Inv(s) && s.life.phase == Live
    ensures Running(s.(timers := timers))
  {
    hide Screen, Streamed, Redactor.Kept, Clock, HasReady, Quiet;
  }

  lemma FlushTimerInv(s: S)
    requires Inv(s) && Enabled(s, FlushFires)
    ensures Inv(OnFlushTimer(s))
  {
    hide Screen, Streamed, Redactor.Kept, HasReady, Quiet, Log, Ctl, Ast, OneEndTimer;
    var t := s.(timers := s.timers.(flush := None));
    RelayKeeps(t, Redactor.Flush);
    StreamedStep(s.secrets, s.red, Redactor.Flush);
    hide Relay, Redactor.Step;
  }

  lemma MessageInv(s: S, m: Message)
    requires Inv(s)
    ensures Inv(OnMessage(s, m))
  {
    if s.life.phase == Auth && m != AuthFrame {
      hide Inv, Screen, Streamed, Refuse;
      AuthPhase(s);
      RefuseInv(s);
    } else if s.life.phase == Auth {
      AuthFrameInv(s);
    } else {
      LateMessageInv(s, m);
    }
  }

  lemma AuthFrameInv(s: S)
    requires Inv(s) && s.life.phase == Auth
    ensures Inv(s.(life := s.life.(phase := Connecting, authPc := AwaitCheck)))
  {
    hide Screen, Streamed, Redactor.Kept, Quiet, HasReady, Body;
  }

  lemma LateMessageInv(s: S, m: Message)
    requires Inv(s) && s.life.phase != Auth
    ensures Inv(OnMessage(s, m))
  {
    hide Frames, Log, Rel, Ctl, Clock, Refuse;
    PlainFrame(s.life.phase, s.browser, s.red.shown, Pong);
  }

  /** The loop over secret references keeps the invariant, whatever `authPc` says meanwhile. */
  lemma NextSecretInv(s: S, left: nat)
    requires Inv(AuthAt(s, AwaitSecret(1)))
    ensures Inv(NextSecret(s, left))
  {
    hide Log, Clock, Streamed, Redactor.Kept, Redactor.Stream, Screen, Quiet, HasReady;
    LogIgnoresAuth(s, AwaitSecret(1), NextSecret(s, left).life.authPc);
    FreshStreamed(Redactor.Kept(s.values));
    assert s.red.shown == [] == FreshRun.shown;
  }

  lemma FreshStreamed(secrets: seq<Secret>)
    ensures Streamed(secrets, FreshRun)
  {
    assert FreshRun == Redactor.Stream(secrets, []);
  }

  lemma LogIgnoresAuth(s: S, a: AuthPc, b: AuthPc)
    ensures Log(s.life.(authPc := a), s.events) == Log(s.life.(authPc := b), s.events)
  {
  }

  lemma SecretInv(s: S, answer: Option<seq<Bytes>>)
    requires Inv(s) && s.life.authPc.AwaitSecret? && s.life.authPc.left > 0
    ensures Inv(OnSecret(s, answer))
  {
    hide NextSecret, Inv;
    var t := if answer == None then Send(s, Notice) else s.(values := s.values + answer.value);
    SecretStored(s, if answer == None then [] else answer.value);
    NextSecretInv(t, s.life.authPc.left - 1);
  }

  lemma SecretStored(s: S, values: seq<Bytes>)
    requires Inv(s) && s.life.authPc.AwaitSecret? && s.life.authPc.left > 0
    ensures Inv(AuthAt(Send(s, Notice), AwaitSecret(1)))
    ensures Inv(AuthAt(s.(values := s.values + values), AwaitSecret(1)))
  {
    hide Log, Frames, Clock, Streamed, Redactor.Kept;
    LogIgnoresAuth(s, s.life.authPc, AwaitSecret(1));
    assert s.life.(authPc := s.life.authPc) == s.life;
    PlainFrame(s.life.phase, s.browser, s.red.shown, Notice);
  }

  /** The answer identifies a session that is already being ended: it is reported and finished. */
  lemma IdentifiedWhileClosing(s: S, id: SessionId, rec: bool)
    requires Inv(s) && s.life.authPc == AwaitCheck && s.life.phase == Closing
    ensures Inv(Finish(s.(life := s.life.(sessionId := Some(id), authPc := Returned), recording := rec)))
  {
    hide Log, Frames, Clock, Streamed, Redactor.Kept, Ast;
    var t := s.(life := s.life.(sessionId := Some(id), authPc := Returned), recording := rec);
    CheckPhase(s);
    FinishReports(t);
    AstIgnoresAuth(Closing, s.life.authPc, Returned, s.asset);
  }

  lemma AstIgnoresAuth(p: Phase, a: AuthPc, b: AuthPc, asset: Asset)
    requires p == Closing || p == Closed
    ensures Ast(p, a, asset) == Ast(p, b, asset)
  {
  }

  lemma CheckPhase(s: S)
    requires Inv(s) && s.life.authPc == AwaitCheck
    ensures s.life.sessionId == None && s.life.finished == 0 && s.life.finishPc == Idle
    ensures s.life.phase == Connecting || (s.life.phase == Closing && s.life.endReason != None)
    ensures Screen(s.browser, s.red.shown) && Streamed(s.secrets, s.red) && s.red.shown == [] && s.red.held == []
    ensures s.events.issued == [] && s.events.settled == 0 && s.timers.flush == None && Body(s.events.issued)
    ensures s.asset.ssh != Open && !s.asset.listening
  {
    hide Screen, Streamed, Redactor.Kept, LogIs;
  }

  lemma GrantedWhileConnecting(s: S, id: SessionId, exp: int, rec: bool)
    requires Inv(s) && s.life.authPc == AwaitCheck && s.life.phase == Connecting
    ensures var u := s.(life := s.life.(sessionId := Some(id), authPc := Returned), recording := rec, expiresAt := exp);
            Running(u) && Inv(AuthAt(u, AwaitSecret(1)))
  {
    hide Screen, Streamed, Redactor.Kept, Quiet, HasReady;
  }

  lemma CheckInv(s: S, a: CheckAnswer)
    requires Inv(s) && s.life.authPc == AwaitCheck
    ensures Inv(OnCheck(s, a))
  {
    hide Inv, Screen, Streamed, Running, NextSecret, End, Finish, Refuse, Body;
    CheckPhase(s);
    match a
    case Refused => RefuseInv(AuthAt(s, Returned));
    case Granted(id, exp, refs, rec) =>
      if s.life.phase != Connecting {
        IdentifiedWhileClosing(s, id, rec);
      } else {
        GrantedWhileConnecting(s, id, exp, rec);
        var u := s.(life := s.life.(sessionId := Some(id), authPc := Returned), recording := rec, expiresAt := exp);
        NextSecretInv(u, refs);
        EndInv(u, GrantExpired);
      }
  }

  /** While SSH or the shell is awaited, a failure ends the session. */
  lemma ConnectingCanEnd(s: S, asset: Asset)
    requires Inv(s) && s.life.phase == Connecting && (s.life.authPc == AwaitSsh || s.life.authPc == AwaitShell)
    ensures Running(AuthAt(s, Returned).(asset := asset))
  {
    hide Screen, Streamed, Redactor.Kept, Quiet, HasReady, Clock;
  }

  lemma SshInv(s: S, connected: bool)
    requires Inv(s) && s.life.authPc == AwaitSsh
    ensures Inv(OnSsh(s, connected))
  {
    if !connected && s.life.phase == Connecting {
      hide Inv, Running, End;
      ConnectingCanEnd(s, s.asset);
      EndInv(AuthAt(s, Returned), Error);
      assert AuthAt(s, Returned).(asset := s.asset) == AuthAt(s, Returned);
    } else {
      SshQuiet(s, connected);
    }
  }

  lemma SshQuiet(s: S, connected: bool)
    requires Inv(s) && s.life.authPc == AwaitSsh && (connected || s.life.phase != Connecting)
    ensures Inv(OnSsh(s, connected))
  {
    hide Log, Frames, Clock, Streamed, Redactor.Kept, Finish, EndLocally;
    LogIgnoresAuth(s, s.life.authPc, Returned);
    LogIgnoresAuth(s, s.life.authPc, AwaitShell);
    assert s.life.(authPc := s.life.authPc) == s.life;
  }

  lemma GoLiveInv(cfg: Config, s: S)
    requires s.life.phase == Connecting && s.life.authPc == Returned && s.life.sessionId != None
    requires s.asset.ssh == Open && s.asset.stream == Open && s.asset.listening
    requires s.life.finished == 0 && s.life.finishPc == Idle && s.life.endReason == None
    requires s.events == Events([], 0, 0)
    requires Clock(Connecting, s.now, s.expiresAt, s.timers) && Frames(Connecting, s.browser, s.red.shown)
    requires Streamed(s.secrets, s.red) && s.secrets == Redactor.Kept(s.values)
    ensures Inv(GoLive(cfg, s))
  {
    hide Frames, Redactor.Kept, Streamed, OneEndTimer;
    ReadyFrame(s.browser, s.red.shown, s.expiresAt);
    ScheduleKeeps(cfg, Send(s.(life := s.life.(phase := Live)), Ready(s.expiresAt)));
    assert GoLive(cfg, s).events.issued == [Started];
  }

  lemma ShellPhase(s: S)
    requires Inv(s) && s.life.phase == Connecting && s.life.authPc == AwaitShell
    ensures s.life.sessionId != None && s.life.finished == 0 && s.life.finishPc == Idle && s.life.endReason == None
    ensures s.asset.ssh == Open && s.events == Events([], 0, 0)
    ensures Clock(Connecting, s.now, s.expiresAt, s.timers) && Frames(Connecting, s.browser, s.red.shown)
    ensures Streamed(s.secrets, s.red) && s.secrets == Redactor.Kept(s.values)
  {
    hide Frames, Clock, Streamed, Redactor.Kept;
  }

  lemma ShellInv(cfg: Config, s: S, a: ShellAnswer)
    requires Inv(s) && s.life.authPc == AwaitShell
    ensures Inv(OnShell(cfg, s, a))
  {
    hide Inv, Running, End, GoLive, Clock, Frames, Streamed, Redactor.Kept;
    if s.life.phase == Connecting {
      var r := AuthAt(s, Returned);
      var u := r.(asset := r.asset.(stream := Open, listening := true));
      ShellPhase(s);
      ConnectingCanEnd(s, s.asset);
      ConnectingCanEnd(s, u.asset);
      assert r.(asset := s.asset) == r;
      EndInv(r, Error);
      EndInv(u, Error);
      GoLiveInv(cfg, u.(recorder := u.recording));
    } else {
      ShellLate(cfg, s, a);
    }
  }

  lemma ShellLate(cfg: Config, s: S, a: ShellAnswer)
    requires Inv(s) && s.life.authPc == AwaitShell && s.life.phase != Connecting
    ensures Inv(OnShell(cfg, s, a))
  {
    hide Log, Frames, Clock, Streamed, Redactor.Kept, EndLocally, Finish, GoLive;
    LogIgnoresAuth(s, s.life.authPc, Returned);
    assert s.life.(authPc := s.life.authPc) == s.life;
  }

  lemma OutputInv(s: S, chunk: Bytes, d: Sudo)
    requires Inv(s)
    ensures Inv(OnOutput(s, chunk, d))
  {
    hide Inv, Relay, ArmFlush, AnswerSudo;
    if s.life.phase == Live {
      RelayInv(s, chunk);
      ArmFlushInv(Relay(s, Redactor.Push(chunk)));
      AnswerSudoInv(ArmFlush(Relay(s, Redactor.Push(chunk))), d);
    }
  }

  lemma RelayInv(s: S, chunk: Bytes)
    requires Inv(s) && s.life.phase == Live
    ensures Inv(Relay(s, Redactor.Push(chunk))) && Relay(s, Redactor.Push(chunk)).life == s.life
  {
    hide Frames, Log, Ctl, Ast, Clock, Rel, Relay, Redactor.Step;
    OutputRelay(s, chunk);
  }

  lemma ArmFlushInv(s: S)
    requires Inv(s) && s.life.phase == Live
    ensures Inv(ArmFlush(s)) && ArmFlush(s).life == s.life
  {
    hide Frames, Log, Ctl, Ast, Rel, OneEndTimer;
  }

  lemma AnswerSudoInv(s: S, d: Sudo)
    requires Inv(s) && s.life.phase == Live
    ensures Inv(AnswerSudo(s, d))
  {
    hide Frames, Log, Ctl, Clock, Rel;
    PlainFrame(Live, s.browser, s.red.shown, Notice);
  }

  lemma OutputRelay(s: S, chunk: Bytes)
    requires Inv(s) && s.life.phase == Live
    ensures var t := Relay(s, Redactor.Push(chunk));
            && t == s.(red := t.red, browser := t.browser)
            && Frames(Live, t.browser, t.red.shown)
            && Rel(Live, s.life.authPc, s.values, s.secrets, t.red)
  {
    hide Screen, Streamed, Redactor.Kept, HasReady, Quiet, Log, Clock, Ast, Redactor.Step, Relay;
    RelayKeeps(s, Redactor.Push(chunk));
    StreamedStep(s.secrets, s.red, Redactor.Push(chunk));
  }

  lemma AnswerInv(cfg: Config, s: S, kill: bool, exp: Option<int>)
    requires Inv(s)
    ensures Inv(OnAnswer(cfg, s, kill, exp))
  {
    hide End, Log, Ctl, Ast, Rel, Frames, OneEndTimer;
    if kill {
      EndFromAnywhere(s, Killed);
    } else if exp != None {
      var t := s.(expiresAt := exp.value);
      if t.life.phase == Live {
        ScheduleKeeps(cfg, t);
        PlainFrame(Live, t.browser, t.red.shown, Notice);
      }
    }
  }

  lemma SettleInv(s: S, failures: nat)
    requires Inv(s) && s.events.settled < |s.events.issued|
    ensures s.life.phase != Live || failures < MAX_EVENT_FAILURES ==> Inv(Settle(s, failures))
    ensures s.life.phase == Live ==> Running(Settle(s, failures)) && s.events.failures < MAX_EVENT_FAILURES
  {
    hide Frames, Clock, Streamed, Ast, LogIs, Redactor.Kept;
  }

  lemma SettledInv(cfg: Config, s: S, a: EventAnswer)
    requires Inv(s) && s.events.settled < |s.events.issued|
    ensures Inv(OnSettled(cfg, s, a))
  {
    hide Inv, Running, End, OnAnswer;
    SettleInv(s, 0);
    SettleInv(s, s.events.failures);
    SettleInv(s, s.events.failures + 1);
    match a
    case Answer(kill, exp) =>
      AnswerInv(cfg, Settle(s, 0), kill, exp);
    case Lost =>
      if s.life.phase == Live {
        EndInv(Settle(s, s.events.failures + 1), Error);
      } else {
        EndFromAnywhere(Settle(s, s.events.failures + 1), Error);
      }
  }

  lemma FinishResumesInv(s: S, ok: bool, urlExpired: bool)
    requires Inv(s) && FinishReady(s)
    ensures Inv(OnFinishResumes(s, ok, urlExpired))
  {
    hide LogIs, Frames, Clock, Rel, Ast;
    var es, r := s.events.issued, FinishReason(s.life);
    assert s.life.phase == Closing;
    LogAppend(es, Tail(r, s.life.finishPc), Ended(r));
    LogAppend(es, Tail(r, s.life.finishPc), RecordingStored);
    LogAppend(es, Tail(r, s.life.finishPc), UploadFailed);
    ClosedParts(s);
    assert [ErrorReport] + [Ended(r)] == [ErrorReport, Ended(r)];
  }

  lemma HeartbeatInv(s: S)
    requires Inv(s) && s.timers.intervals
    ensures Inv(Issue(s, Heartbeat))
  {
    hide Frames, Rel, Ast, LogIs, OneEndTimer;
  }

  lemma TickInv(cfg: Config, s: S, t: int)
    requires Inv(s) && Enabled(s, Tick(t))
    ensures Inv(s.(now := t))
  {
    hide Frames, Rel, Ast, Log, Ctl;
  }

  lemma SocketDownInv(s: S)
    requires Inv(s)
    ensures Inv(s.(browser := s.browser.(open := false)))
  {
    hide Rel, Ast, Log, Ctl, Clock, FrameOrder, Quiet, HasReady;
  }

  /** Every step of every kind keeps the invariant. */
  lemma StepInv(cfg: Config, s: S, i: Input)
    requires Inv(s) && Enabled(s, i)
    ensures Inv(Step(cfg, s, i))
  {
    hide Inv, OnAuthTimer, OnExpiryTimer, OnFlushTimer, OnMessage, OnCheck, OnSecret, OnSsh, OnShell, OnOutput;
    hide OnSettled, OnFinishResumes, End, Issue;
    match i
    case Tick(t) => TickInv(cfg, s, t);
    case AuthTimerFires => AuthTimerInv(s);
    case ExpiryFires(k) => ExpiryTimerInv(s, k);
    case FlushFires => FlushTimerInv(s);
    case HeartbeatFires => HeartbeatInv(s);
    case SocketDown => SocketDownInv(s);
    case ClientGone => EndFromAnywhere(s, ClientClosed);
    case KillRequest => EndFromAnywhere(s, Killed);
    case Shutdown => EndFromAnywhere(s, Error);
    case MessageArrives(m) => MessageInv(s, m);
    case CheckAnswers(a) => CheckInv(s, a);
    case SecretAnswers(a) => SecretInv(s, a);
    case SshAnswers(c) => SshInv(s, c);
    case ShellAnswers(a) => ShellInv(cfg, s, a);
    case SshFails => EndFromAnywhere(s, Error);
    case SshCloses => EndFromAnywhere(s, SshClosed);
    case AssetOutput(chunk, d) => OutputInv(s, chunk, d);
    case EventSettles(a) => SettledInv(cfg, s, a);
    case FinishResumes(ok, e) => FinishResumesInv(s, ok, e);
  }
}
