/** The session object (services/prgd-gateway/src/session.ts): its fields, grouped as in
    `SessionModel`, and its handlers, each proved to take the step that `SessionModel` specifies. A
    continuation after an `await` is a method of its own; the clock is read into `now` before each
    handler runs. */
module TerminalSessions {
  import opened Options
  import opened Scrub
  import Redactor
  import opened SessionModel
  import opened SessionInvariant
  import opened SessionSteps

  class TerminalSession {
    const cfg: Config
    var now: int
    /** state, sessionId, endReason and the suspension points. */
    var life: Life
    var recording: bool
    var recorder: bool
    var values: seq<Bytes>
    var redactor: Redactor.Redactor
    var expiresAt: int
    /** timers, expiryTimers and flushTimer. */
    var timers: Timers
    /** The `events` promise chain and eventFailures. */
    var events: Events
    var ws: Browser
    /** ssh and stream. */
    var asset: Asset

    /** The session as a value. */
    ghost function Snap(): S
      reads this, redactor
    {
      S(now, life, recording, recorder, values,
        redactor.secrets, Redactor.Stream(redactor.secrets, redactor.ops), expiresAt, timers, events, ws, asset)
    }

    constructor (cfg: Config, t: int)
      ensures redactor.Valid() && fresh(redactor)
      ensures this.cfg == cfg && Snap() == Init(cfg, t) && Inv(Snap())
    {
      hide Inv, Redactor.Kept;
      this.cfg := cfg;
      now := t;
      life := Life(Auth, None, None, NotStarted, Idle, 0);
      recording, recorder, values, expiresAt := false, false, [], 0;
      redactor := new Redactor.Redactor([]);
      timers := Timers(Some(t + cfg.authTimeoutMs), [], None, false);
      events := Events([], 0, 0);
      ws := Browser(true, []);
      asset := Asset(NoConn, NoConn, false, []);
      new;
      InitInv(cfg, t);
    }

    // ---- helpers ----

    method Send(f: Frame)
      modifies this`ws
      ensures Snap() == SessionModel.Send(old(Snap()), f)
    {
      if ws.open { ws := ws.(frames := ws.frames + [f]); }
    }

    method CloseClient()
      modifies this`ws
      ensures Snap() == SessionModel.CloseClient(old(Snap()))
    {
      if !ws.open { return; }
      Send(ClosedFrame);
      ws := ws.(open := false);
    }

    method ClearTimers()
      modifies this`timers
      ensures timers == NoTimers.(flush := old(timers).flush)
    {
      timers := Timers(None, [], timers.flush, false);
    }

    method MarkClosed()
      modifies this`life
      ensures Snap() == SessionModel.MarkClosed(old(Snap()))
    {
      if life.phase == Closed { return; }
      life := life.(phase := Closed, finishPc := Idle, finished := life.finished + 1);
    }

    /** Queues an event behind the ones already on the chain. */
    method Event(e: Event)
      modifies this`events
      ensures Snap() == Issue(old(Snap()), e)
    {
      if life.sessionId == None { return; }
      events := events.(issued := events.issued + [e]);
    }

    method EventThen(e: Event, next: After)
      modifies this`events, this`life
      ensures Snap() == IssueAndWait(old(Snap()), e, next)
    {
      var k := |events.issued|;
      Event(e);
      life := life.(finishPc := AwaitEvent(k, next));
    }

    method Emit(buf: Bytes)
      modifies this`ws
      ensures Snap() == SessionModel.Emit(old(Snap()), buf)
    {
      if buf == [] { return; }
      Send(Output(buf));
    }

    /** Pushes or flushes the redactor and emits what it releases. */
    method Relay(op: Redactor.Op)
      requires redactor.Valid()
      modifies this`ws, redactor
      ensures redactor.Valid() && Snap() == SessionModel.Relay(old(Snap()), op)
    {
      hide Redactor.Stream, Redactor.Step;
      ghost var s, ops := Snap(), redactor.ops;
      ghost var r := Redactor.Step(s.secrets, s.red, op);
      Redactor.StreamSnoc(s.secrets, ops, op);
      var out: Bytes;
      match op {
        case Push(chunk) => out := redactor.Push(chunk);
        case Flush => out := redactor.Flush();
      }
      assert redactor.ops == ops + [op];
      assert r.shown == s.red.shown + out && r.shown[|s.red.shown|..] == out;
      Emit(out);
    }

    /** Replaces every expiry timer: a notice per configured lead time still ahead, then the end. */
    method ScheduleExpiry()
      modifies this`timers
      ensures Snap() == SessionModel.ScheduleExpiry(cfg, old(Snap()))
    {
      hide Redactor.Stream;
      var exp := expiresAt;
      var armed: seq<ExpiryTimer> := [];
      for k := 0 to |cfg.noticeSeconds|
        invariant armed == NoticeTimers(cfg.noticeSeconds[..k], exp, now)
      {
        var when := exp - cfg.noticeSeconds[k] * 1000;
        assert cfg.noticeSeconds[..k + 1][..k] == cfg.noticeSeconds[..k];
        if when > now { armed := armed + [NoticeTimer(when)]; }
      }
      assert cfg.noticeSeconds[..|cfg.noticeSeconds|] == cfg.noticeSeconds;
      var left := if exp - now < 0 then 0 else exp - now;
      armed := armed + [EndTimer(now + if left < MAX_TIMEOUT then left else MAX_TIMEOUT, now)];
      timers := timers.(expiry := armed);
    }

    // ---- ending ----

    method Finish()
      modifies this`life, this`timers, this`asset, this`events
      ensures Snap() == SessionModel.Finish(old(Snap()))
    {
      hide Redactor.Stream;
      if life.phase == Closed { return; }
      if life.phase != Closing {
        life := life.(phase := Closing, endReason := Some(FinishReason(life)));
        ClearTimers();
        asset := asset.(ssh := Hangup(asset.ssh));
      }
      var reason := FinishReason(life);
      if life.sessionId == None {
        MarkClosed();
      } else if reason == Error {
        EventThen(ErrorReport, AfterError);
      } else {
        EventThen(Ended(reason), AfterEnded);
      }
    }

    /** Tells the browser and the asset that the session ends. */
    method Disconnect(reason: EndReason)
      requires redactor.Valid()
      modifies this`life, this`timers, this`ws, this`asset, redactor
      ensures redactor.Valid() && Snap() == EndLocally(old(Snap()), reason)
    {
      hide Redactor.Stream, Redactor.Step, SessionModel.Relay;
      life := life.(phase := Closing, endReason := Some(reason));
      ClearTimers();
      timers := timers.(flush := None);
      assert Snap() == old(Snap()).(life := life, timers := NoTimers);
      Relay(Redactor.Flush);
      CloseClient();
      asset := Asset(Hangup(asset.ssh), Hangup(asset.stream), false, asset.written);
    }

    /** Ends the session once: tells the browser, closes SSH, reports, uploads the recording. */
    method End(reason: EndReason)
      requires redactor.Valid()
      modifies this`life, this`timers, this`ws, this`asset, this`events, redactor
      ensures redactor.Valid() && Snap() == SessionModel.End(old(Snap()), reason)
    {
      hide Redactor.Stream, EndLocally, SessionModel.Finish;
      if life.phase == Closing || life.phase == Closed { return; }
      var wasConnecting := life.phase == Connecting && life.sessionId == None;
      Disconnect(reason);
      if wasConnecting { return; }
      Finish();
    }

    method Refuse()
      requires redactor.Valid()
      modifies this`life, this`timers, this`ws, this`asset, this`events, redactor
      ensures redactor.Valid() && Snap() == SessionModel.Refuse(old(Snap()))
    {
      hide Redactor.Stream, SessionModel.End;
      if life.phase == Closed { return; }
      if life.sessionId != None {
        End(Error);
        return;
      }
      ClearTimers();
      CloseClient();
      MarkClosed();
    }

    // ---- client frames ----

    method OnMessage(m: Message)
      requires redactor.Valid()
      modifies this`life, this`timers, this`ws, this`asset, this`events, redactor
      ensures redactor.Valid() && Snap() == SessionModel.OnMessage(old(Snap()), m)
    {
      hide Redactor.Stream, SessionModel.Refuse;
      if life.phase == Auth {
        if m != AuthFrame {
          Refuse();
          return;
        }
        life := life.(phase := Connecting, authPc := AwaitCheck);
        return;
      }
      match m {
        case InputFrame(data) =>
          if life.phase != Live || asset.stream == NoConn || data == [] { return; }
          asset := asset.(written := asset.written + [Typed(data)]);
        case PingFrame => Send(Pong);
        case _ =>
      }
    }

    // ---- authenticate ----

    method OnCheck(a: CheckAnswer)
      requires redactor.Valid()
      modifies this, redactor
      ensures redactor.Valid() && (redactor == old(redactor) || fresh(redactor))
      ensures Snap() == SessionModel.OnCheck(old(Snap()), a)
    {
      hide Redactor.Stream, SessionModel.Refuse, SessionModel.End, SessionModel.Finish, SessionModel.NextSecret;
      life := life.(authPc := Returned);
      if a.Refused? {
        assert Snap() == AuthAt(old(Snap()), Returned);
        Refuse();
        return;
      }
      life := life.(sessionId := Some(a.id));
      recording := a.recording;
      if life.phase != Connecting {
        Finish();
        return;
      }
      expiresAt := a.expiresAt;
      if !(expiresAt > now) {
        End(GrantExpired);
        return;
      }
      NextSecret(a.secretRefs);
    }

    method NextSecret(left: nat)
      requires redactor.Valid()
      modifies this`life, this`redactor
      ensures redactor.Valid() && (redactor == old(redactor) || fresh(redactor))
      ensures Snap() == SessionModel.NextSecret(old(Snap()), left)
      ensures left == 0 ==> forall v :: v in redactor.secrets <==> v in values && |v| >= 4
    {
      hide Redactor.Kept;
      if left > 0 {
        life := life.(authPc := AwaitSecret(left));
        return;
      }
      redactor := new Redactor.Redactor(values);
      assert Redactor.Stream(redactor.secrets, []) == FreshRun;
      life := life.(authPc := if life.phase != Connecting then Returned else AwaitSsh);
    }

    method OnSecret(answer: Option<seq<Bytes>>)
      requires redactor.Valid() && life.authPc.AwaitSecret? && life.authPc.left > 0
      modifies this`life, this`redactor, this`values, this`ws
      ensures redactor.Valid() && (redactor == old(redactor) || fresh(redactor))
      ensures Snap() == SessionModel.OnSecret(old(Snap()), answer)
      ensures values == old(values) + if answer.Some? then answer.value else []
      ensures old(life).authPc.left == 1 ==> forall v :: v in redactor.secrets <==> v in values && |v| >= 4
    {
      hide Redactor.Stream, SessionModel.NextSecret;
      var left := life.authPc.left - 1;
      match answer {
        case Some(vs) => values := values + vs;
        case None => Send(Notice);
      }
      NextSecret(left);
    }

    method OnSsh(connected: bool)
      requires redactor.Valid()
      modifies this`life, this`timers, this`ws, this`asset, this`events, redactor
      ensures redactor.Valid() && Snap() == SessionModel.OnSsh(old(Snap()), connected)
    {
      hide Redactor.Stream, SessionModel.End;
      life := life.(authPc := Returned);
      if !connected {
        assert Snap() == AuthAt(old(Snap()), Returned);
        End(Error);
        return;
      }
      if life.phase != Connecting {
        asset := asset.(ssh := Shut);
        return;
      }
      asset := asset.(ssh := Open);
      life := life.(authPc := AwaitShell);
    }

    method OnShell(a: ShellAnswer)
      requires redactor.Valid()
      modifies this`life, this`timers, this`ws, this`asset, this`events, this`recorder, redactor
      ensures redactor.Valid() && Snap() == SessionModel.OnShell(cfg, old(Snap()), a)
    {
      hide Redactor.Stream, SessionModel.End, SessionModel.GoLive;
      life := life.(authPc := Returned);
      if a.NoShell? {
        assert Snap() == AuthAt(old(Snap()), Returned);
        End(Error);
        return;
      }
      asset := asset.(stream := Open);
      if life.phase != Connecting { return; }
      asset := asset.(listening := true);
      if recording && !a.recorderOpens {
        End(Error);
        return;
      }
      recorder := recording;
      GoLive();
    }

    method GoLive()
      modifies this`life, this`ws, this`timers, this`events
      ensures Snap() == SessionModel.GoLive(cfg, old(Snap()))
    {
      hide Redactor.Stream, SessionModel.ScheduleExpiry;
      life := life.(phase := Live);
      Send(Ready(expiresAt));
      ScheduleExpiry();
      timers := timers.(intervals := true);
      Event(Started);
    }

    // ---- output ----

    /** Types the stored password, if the responder says so. */
    method AnswerSudo(d: Sudo)
      modifies this`ws, this`asset
      ensures Snap() == SessionModel.AnswerSudo(old(Snap()), d)
    {
      hide Redactor.Stream;
      match d {
        case Pass =>
        case GiveUp => Send(Notice);
        case Inject =>
          if asset.stream == NoConn { return; }
          asset := asset.(written := asset.written + [Injected]);
          Send(Notice);
      }
    }

    method OnOutput(chunk: Bytes, d: Sudo)
      requires redactor.Valid()
      modifies this`ws, this`timers, this`asset, redactor
      ensures redactor.Valid() && Snap() == SessionModel.OnOutput(old(Snap()), chunk, d)
    {
      hide Redactor.Stream, SessionModel.Relay, SessionModel.AnswerSudo, Redactor.Step;
      if life.phase != Live { return; }
      Relay(Redactor.Push(chunk));
      if redactor.Pending() > 0 && timers.flush == None {
        timers := timers.(flush := Some(now + FLUSH_MS));
      }
      AnswerSudo(d);
    }

    method OnFlushTimer()
      requires redactor.Valid()
      modifies this`ws, this`timers, redactor
      ensures redactor.Valid() && Snap() == SessionModel.OnFlushTimer(old(Snap()))
    {
      hide Redactor.Stream, SessionModel.Relay, Redactor.Step;
      timers := timers.(flush := None);
      Relay(Redactor.Flush);
    }

    // ---- enforcement ----

    method OnAnswer(kill: bool, exp: Option<int>)
      requires redactor.Valid()
      modifies this`life, this`timers, this`ws, this`asset, this`events, this`expiresAt, redactor
      ensures redactor.Valid() && Snap() == SessionModel.OnAnswer(cfg, old(Snap()), kill, exp)
    {
      hide Redactor.Stream, SessionModel.End, SessionModel.ScheduleExpiry;
      if life.phase != Live && life.phase != Connecting { return; }
      if kill {
        End(Killed);
        return;
      }
      if exp != None && exp.value != expiresAt {
        expiresAt := exp.value;
        if life.phase == Live {
          ScheduleExpiry();
          Send(Notice);
        }
      }
    }

    method OnSettled(a: EventAnswer)
      requires redactor.Valid() && events.settled < |events.issued|
      modifies this`life, this`timers, this`ws, this`asset, this`events, this`expiresAt, redactor
      ensures redactor.Valid() && Snap() == SessionModel.OnSettled(cfg, old(Snap()), a)
    {
      hide Redactor.Stream, SessionModel.End, SessionModel.OnAnswer;
      var e := events.issued[events.settled];
      events := events.(settled := events.settled + 1);
      match a {
        case Answer(kill, exp) =>
          events := events.(failures := 0);
          OnAnswer(kill, exp);
        case Lost =>
          if e == Heartbeat || e == Started {
            events := events.(failures := events.failures + 1);
            if events.failures >= MAX_EVENT_FAILURES { End(Error); }
          }
      }
    }

    method OnExpiryTimer(i: nat)
      requires redactor.Valid() && i < |timers.expiry|
      modifies this`life, this`timers, this`ws, this`asset, this`events, redactor
      ensures redactor.Valid() && Snap() == SessionModel.OnExpiryTimer(old(Snap()), i)
    {
      hide Redactor.Stream, SessionModel.End;
      var timer := timers.expiry[i];
      timers := timers.(expiry := timers.expiry[..i] + timers.expiry[i + 1..]);
      if timer.EndTimer? { End(GrantExpired); } else { Send(Notice); }
    }

    method OnAuthTimer()
      requires redactor.Valid()
      modifies this`life, this`timers, this`ws, this`asset, this`events, redactor
      ensures redactor.Valid() && Snap() == SessionModel.OnAuthTimer(old(Snap()))
    {
      hide Redactor.Stream, SessionModel.Refuse;
      timers := timers.(auth := None);
      if life.phase == Auth { Refuse(); }
    }

    // ---- finish and storeRecording ----

    method NextAttempt(attempt: nat, urlExpired: bool)
      modifies this`events, this`life
      ensures Snap() == SessionModel.NextAttempt(old(Snap()), attempt, urlExpired)
    {
      hide Redactor.Stream;
      if attempt >= UPLOAD_ATTEMPTS {
        EventThen(UploadFailed, AfterUploadFailed);
      } else if attempt > 0 || urlExpired {
        life := life.(finishPc := AwaitUrl(attempt));
      } else {
        life := life.(finishPc := AwaitPut(attempt));
      }
    }

    method OnFinishResumes(ok: bool, urlExpired: bool)
      modifies this`events, this`life
      ensures Snap() == SessionModel.OnFinishResumes(old(Snap()), ok, urlExpired)
    {
      hide Redactor.Stream, SessionModel.NextAttempt, IssueAndWait;
      match life.finishPc {
        case Idle =>
        case AwaitEvent(_, next) =>
          if next == AfterError {
            EventThen(Ended(FinishReason(life)), AfterEnded);
          } else if next == AfterEnded && recorder && recording {
            life := life.(finishPc := AwaitFileClose);
          } else {
            MarkClosed();
          }
        case AwaitFileClose =>
          if ok { NextAttempt(0, urlExpired); } else { MarkClosed(); }
        case AwaitUrl(n) =>
          life := life.(finishPc := if ok then AwaitPut(n) else AwaitSleep(n));
        case AwaitPut(n) =>
          if ok { EventThen(RecordingStored, AfterStored); } else { life := life.(finishPc := AwaitSleep(n)); }
        case AwaitSleep(n) => NextAttempt(n + 1, urlExpired);
      }
    }

    // ---- the event loop ----

    /** Whatever the environment does next, the object takes the specified step and stays valid. */
    method Handle(i: Input)
      requires redactor.Valid() && Inv(Snap()) && Enabled(Snap(), i)
      modifies this, redactor
      ensures redactor.Valid() && (redactor == old(redactor) || fresh(redactor))
      ensures Snap() == Step(cfg, old(Snap()), i) && Inv(Snap())
    {
      hide Inv, SessionModel.OnAuthTimer, SessionModel.OnExpiryTimer, SessionModel.OnFlushTimer, SessionModel.OnMessage;
      hide SessionModel.OnCheck, SessionModel.OnSecret, SessionModel.OnSsh, SessionModel.OnShell, SessionModel.OnOutput;
      hide SessionModel.OnSettled, SessionModel.OnFinishResumes, SessionModel.End, Issue, Redactor.Stream;
      StepInv(cfg, Snap(), i);
      match i {
        case Tick(t) => now := t;
        case AuthTimerFires => OnAuthTimer();
        case ExpiryFires(k) => OnExpiryTimer(k);
        case FlushFires => OnFlushTimer();
        case HeartbeatFires => Event(Heartbeat);
        case SocketDown => ws := ws.(open := false);
        case ClientGone => End(ClientClosed);
        case KillRequest => End(Killed);
        case Shutdown => End(Error);
        case MessageArrives(m) => OnMessage(m);
        case CheckAnswers(a) => OnCheck(a);
        case SecretAnswers(a) => OnSecret(a);
        case SshAnswers(c) => OnSsh(c);
        case ShellAnswers(a) => OnShell(a);
        case SshFails => End(Error);
        case SshCloses => End(SshClosed);
        case AssetOutput(chunk, d) => OnOutput(chunk, d);
        case EventSettles(a) => OnSettled(a);
        case FinishResumes(ok, e) => OnFinishResumes(ok, e);
      }
    }
  }
}
