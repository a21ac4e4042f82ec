/** One terminal session (services/prgd-gateway/src/session.ts) as a state and a step function.
    Each `await` of the source ends a step: the place where a suspended function continues is part
    of the state (`AuthPc`, `FinishPc`), and everything the environment may do in between is an
    `Input`. */
module SessionModel {
  import opened Options
  import opened Scrub
  import Redactor

  datatype Phase = Auth | Connecting | Live | Closing | Closed

  datatype EndReason = ClientClosed | GrantExpired | Killed | SshClosed | Error

  datatype Frame =
    | Ready(expiresAt: int)
    | Output(data: Bytes)
    | Notice
    | Pong
    | ClosedFrame

  datatype Event =
    | Started
    | Heartbeat
    | ErrorReport
    | Ended(reason: EndReason)
    | RecordingStored
    | UploadFailed

  /** Where `authenticate` is suspended. */
  datatype AuthPc = NotStarted | AwaitCheck | AwaitSecret(left: nat) | AwaitSsh | AwaitShell | Returned

  /** What `finish` does after the event it waits for. */
  datatype After = AfterError | AfterEnded | AfterStored | AfterUploadFailed

  /** Where `finish` and `storeRecording` are suspended. `AwaitEvent(k, _)` waits for event `k`. */
  datatype FinishPc =
    | Idle
    | AwaitEvent(k: nat, next: After)
    | AwaitFileClose
    | AwaitUrl(attempt: nat)
    | AwaitPut(attempt: nat)
    | AwaitSleep(attempt: nat)

  datatype ExpiryTimer =
    | NoticeTimer(deadline: int)
    | EndTimer(deadline: int, setAt: int)

  /** Armed timers. `intervals` stands for the heartbeat and keepalive intervals. */
  datatype Timers = Timers(auth: Option<int>, expiry: seq<ExpiryTimer>, flush: Option<int>, intervals: bool)

  /** The event chain: what was queued, how many of those have settled, consecutive failures. */
  datatype Events = Events(issued: seq<Event>, settled: nat, failures: nat)

  /** The browser side: is the socket open, and every frame sent on it. */
  datatype Browser = Browser(open: bool, frames: seq<Frame>)

  datatype Conn = NoConn | Open | Shut

  datatype ShellWrite = Typed(data: Bytes) | Injected

  /** The asset side: SSH client, shell channel, are data listeners attached, what was written. */
  datatype Asset = Asset(ssh: Conn, stream: Conn, listening: bool, written: seq<ShellWrite>)

  type SessionId = string

  /** Which part of its life the session is in. `finished` counts the calls of `onFinished`. */
  datatype Life = Life(
    phase: Phase,
    sessionId: Option<SessionId>,
    endReason: Option<EndReason>,
    authPc: AuthPc,
    finishPc: FinishPc,
    finished: nat)

  datatype S = S(
    now: int,
    life: Life,
    recording: bool,
    recorder: bool,
    values: seq<Bytes>,
    secrets: seq<Secret>,
    red: Redactor.Run,
    expiresAt: int,
    timers: Timers,
    events: Events,
    browser: Browser,
    asset: Asset)

  datatype Config = Config(authTimeoutMs: nat, noticeSeconds: seq<nat>)

  const MAX_EVENT_FAILURES := 3
  const FLUSH_MS := 40
  const MAX_TIMEOUT := 0x7fff_ffff
  const UPLOAD_ATTEMPTS := 4

  const NoTimers := Timers(None, [], None, false)

  const FreshRun := Redactor.Run([], [], {}, 0)

  /** Constructed and started at time `t`. */
  function Init(cfg: Config, t: int): S {
    S(t, Life(Auth, None, None, NotStarted, Idle, 0), false, false, [], [], FreshRun, 0,
      Timers(Some(t + cfg.authTimeoutMs), [], None, false), Events([], 0, 0),
      Browser(true, []), Asset(NoConn, NoConn, false, []))
  }

  // ---- helpers, named as in the source ----

  function SendTo(b: Browser, f: Frame): Browser {
    if b.open then b.(frames := b.frames + [f]) else b
  }

  function Send(s: S, f: Frame): S {
    s.(browser := SendTo(s.browser, f))
  }

  function CloseClient(s: S): S {
    s.(browser := SendTo(s.browser, ClosedFrame).(open := false))
  }

  function MarkClosed(s: S): S {
    if s.life.phase == Closed then s
    else s.(life := s.life.(phase := Closed, finishPc := Idle, finished := s.life.finished + 1))
  }

  /** Queues an event; without a session id there is nothing to report. */
  function Issue(s: S, e: Event): S {
    if s.life.sessionId == None then s
    else s.(events := s.events.(issued := s.events.issued + [e]))
  }

  /** Queues an event and suspends `finish` until it settles. */
  function IssueAndWait(s: S, e: Event, next: After): S {
    Issue(s, e).(life := s.life.(finishPc := AwaitEvent(|s.events.issued|, next)))
  }

  function At(s: S, pc: FinishPc): S {
    s.(life := s.life.(finishPc := pc))
  }

  function AuthAt(s: S, pc: AuthPc): S {
    s.(life := s.life.(authPc := pc))
  }

  function Emit(s: S, buf: Bytes): S {
    if buf == [] then s else Send(s, Output(buf))
  }

  /** One redactor call and the emission of what it returns. */
  function Relay(s: S, op: Redactor.Op): S {
    var r := Redactor.Step(s.secrets, s.red, op);
    Emit(s.(red := r), r.shown[|s.red.shown|..])
  }

  function NoticeTimers(seconds: seq<nat>, exp: int, now: int): seq<ExpiryTimer> {
    if seconds == [] then []
    else
      var rest := NoticeTimers(seconds[..|seconds| - 1], exp, now);
      var when := exp - seconds[|seconds| - 1] * 1000;
      if when > now then rest + [NoticeTimer(when)] else rest
  }

  function Delay(exp: int, now: int): (d: int)
    ensures 0 <= d <= MAX_TIMEOUT && (0 <= exp - now ==> now + d <= exp)
  {
    var left := if exp - now < 0 then 0 else exp - now;
    if left < MAX_TIMEOUT then left else MAX_TIMEOUT
  }

  function ScheduleExpiry(cfg: Config, s: S): S {
    s.(timers := s.timers.(expiry :=
        NoticeTimers(cfg.noticeSeconds, s.expiresAt, s.now)
        + [EndTimer(s.now + Delay(s.expiresAt, s.now), s.now)]))
  }

  function FinishReason(life: Life): EndReason {
    if life.endReason == None then ClientClosed else life.endReason.value
  }

  function Finish(s: S): S {
    if s.life.phase == Closed then s
    else
      var c := if s.life.phase == Closing then s
               else s.(life := s.life.(phase := Closing, endReason := Some(FinishReason(s.life))),
                       timers := NoTimers.(flush := s.timers.flush),
                       asset := s.asset.(ssh := Hangup(s.asset.ssh)));
      if c.life.sessionId == None then MarkClosed(c)
      else if FinishReason(c.life) == Error then IssueAndWait(c, ErrorReport, AfterError)
      else IssueAndWait(c, Ended(FinishReason(c.life)), AfterEnded)
  }

  function Hangup(c: Conn): Conn {
    if c == Open then Shut else c
  }

  function HangupAll(a: Asset): Asset {
    a.(listening := false, stream := Hangup(a.stream), ssh := Hangup(a.ssh))
  }

  /** `end` up to the point where the browser and the asset were told. */
  function EndLocally(s: S, reason: EndReason): S {
    var c := s.(life := s.life.(phase := Closing, endReason := Some(reason)), timers := NoTimers);
    var d := CloseClient(Relay(c, Redactor.Flush));
    d.(asset := HangupAll(d.asset))
  }

  function End(s: S, reason: EndReason): S {
    if s.life.phase == Closing || s.life.phase == Closed then s
    else if s.life.phase == Connecting && s.life.sessionId == None then EndLocally(s, reason)
    else Finish(EndLocally(s, reason))
  }

  /** Refuses before the session exists. */
  function Refuse(s: S): S {
    if s.life.phase == Closed then s
    else if s.life.sessionId != None then End(s, Error)
    else MarkClosed(CloseClient(s.(timers := NoTimers.(flush := s.timers.flush))))
  }

  // ---- client frames ----

  datatype Message =
    | Malformed
    | AuthFrame
    | InputFrame(data: Bytes)
    | PingFrame
    | OtherFrame

  function OnMessage(s: S, m: Message): S {
    if s.life.phase == Auth then
      if m == AuthFrame then s.(life := s.life.(phase := Connecting, authPc := AwaitCheck)) else Refuse(s)
    else match m
      case InputFrame(data) =>
        if s.life.phase == Live && s.asset.stream != NoConn && data != [] then
          s.(asset := s.asset.(written := s.asset.written + [Typed(data)]))
        else s
      case PingFrame => Send(s, Pong)
      case _ => s
  }

  // ---- authenticate, from one await to the next ----

  datatype CheckAnswer =
    | Refused
    | Granted(id: SessionId, expiresAt: int, secretRefs: nat, recording: bool)

  function OnCheck(s: S, a: CheckAnswer): S {
    match a
    case Refused => Refuse(AuthAt(s, Returned))
    case Granted(id, exp, refs, rec) =>
      var t := s.(life := s.life.(sessionId := Some(id), authPc := Returned), recording := rec);
      if t.life.phase != Connecting then Finish(t)
      else
        var u := t.(expiresAt := exp);
        if exp > u.now then NextSecret(u, refs) else End(u, GrantExpired)
  }

  /** The head of the loop over secret references; after the last one the redactor is built. */
  function NextSecret(s: S, left: nat): S {
    if left > 0 then AuthAt(s, AwaitSecret(left))
    else
      var t := s.(secrets := Redactor.Kept(s.values), red := FreshRun);
      if t.life.phase != Connecting then AuthAt(t, Returned) else AuthAt(t, AwaitSsh)
  }

  function OnSecret(s: S, answer: Option<seq<Bytes>>): S
    requires s.life.authPc.AwaitSecret? && s.life.authPc.left > 0
  {
    var left := s.life.authPc.left - 1;
    match answer
    case Some(vs) => NextSecret(s.(values := s.values + vs), left)
    case None => NextSecret(Send(s, Notice), left)
  }

  function OnSsh(s: S, connected: bool): S {
    if !connected then End(AuthAt(s, Returned), Error)
    else if s.life.phase != Connecting then AuthAt(s.(asset := s.asset.(ssh := Shut)), Returned)
    else AuthAt(s.(asset := s.asset.(ssh := Open)), AwaitShell)
  }

  datatype ShellAnswer = NoShell | Shell(recorderOpens: bool)

  function OnShell(cfg: Config, s: S, a: ShellAnswer): S {
    var r := AuthAt(s, Returned);
    match a
    case NoShell => End(r, Error)
    case Shell(recorderOpens) =>
      if r.life.phase != Connecting then r.(asset := r.asset.(stream := Open))
      else
        var u := r.(asset := r.asset.(stream := Open, listening := true));
        if u.recording && !recorderOpens then End(u, Error)
        else GoLive(cfg, u.(recorder := u.recording))
  }

  function GoLive(cfg: Config, s: S): S {
    var t := ScheduleExpiry(cfg, Send(s.(life := s.life.(phase := Live)), Ready(s.expiresAt)));
    Issue(t.(timers := t.timers.(intervals := true)), Started)
  }

  // ---- output ----

  /** What the sudo responder decides about a chunk is left to the environment. */
  datatype Sudo = Pass | Inject | GiveUp

  function ArmFlush(s: S): S {
    if s.red.held != [] && s.timers.flush == None then
      s.(timers := s.timers.(flush := Some(s.now + FLUSH_MS)))
    else s
  }

  function AnswerSudo(s: S, d: Sudo): S {
    match d
    case Pass => s
    case GiveUp => Send(s, Notice)
    case Inject =>
      if s.asset.stream == NoConn then s
      else Send(s.(asset := s.asset.(written := s.asset.written + [Injected])), Notice)
  }

  function OnOutput(s: S, chunk: Bytes, d: Sudo): S {
    if s.life.phase != Live then s
    else AnswerSudo(ArmFlush(Relay(s, Redactor.Push(chunk))), d)
  }

  function OnFlushTimer(s: S): S {
    Relay(s.(timers := s.timers.(flush := None)), Redactor.Flush)
  }

  // ---- events and enforcement ----

  datatype EventAnswer = Lost | Answer(kill: bool, expiresAt: Option<int>)

  function OnAnswer(cfg: Config, s: S, kill: bool, exp: Option<int>): S {
    if s.life.phase != Live && s.life.phase != Connecting then s
    else if kill then End(s, Killed)
    else if exp == None || exp.value == s.expiresAt then s
    else
      var t := s.(expiresAt := exp.value);
      if t.life.phase == Live then Send(ScheduleExpiry(cfg, t), Notice) else t
  }

  function Settle(s: S, failures: nat): S {
    s.(events := Events(s.events.issued, s.events.settled + 1, failures))
  }

  /** The oldest queued event settles. */
  function OnSettled(cfg: Config, s: S, a: EventAnswer): S
    requires s.events.settled < |s.events.issued|
  {
    var e := s.events.issued[s.events.settled];
    match a
    case Answer(kill, exp) => OnAnswer(cfg, Settle(s, 0), kill, exp)
    case Lost =>
      if e == Heartbeat || e == Started then
        var u := Settle(s, s.events.failures + 1);
        if u.events.failures >= MAX_EVENT_FAILURES then End(u, Error) else u
      else Settle(s, s.events.failures)
  }

  /** Expiry timer `i` fires: a notice, or the end of the grant. */
  function OnExpiryTimer(s: S, i: nat): S
    requires i < |s.timers.expiry|
  {
    var timer := s.timers.expiry[i];
    var t := s.(timers := s.timers.(expiry := s.timers.expiry[..i] + s.timers.expiry[i + 1..]));
    if timer.EndTimer? then End(t, GrantExpired) else Send(t, Notice)
  }

  function OnAuthTimer(s: S): S {
    var t := s.(timers := s.timers.(auth := None));
    if t.life.phase == Auth then Refuse(t) else t
  }

  // ---- finish and storeRecording, from one await to the next ----

  function NextAttempt(s: S, attempt: nat, urlExpired: bool): S {
    if attempt >= UPLOAD_ATTEMPTS then IssueAndWait(s, UploadFailed, AfterUploadFailed)
    else if attempt > 0 || urlExpired then At(s, AwaitUrl(attempt))
    else At(s, AwaitPut(attempt))
  }

  /** `ok` is the outcome of the awaited file, URL or upload operation. */
  function OnFinishResumes(s: S, ok: bool, urlExpired: bool): S {
    match s.life.finishPc
    case Idle => s
    case AwaitEvent(_, AfterError) => IssueAndWait(s, Ended(FinishReason(s.life)), AfterEnded)
    case AwaitEvent(_, AfterEnded) =>
      if s.recorder && s.recording then At(s, AwaitFileClose) else MarkClosed(s)
    case AwaitEvent(_, _) => MarkClosed(s)
    case AwaitFileClose => if ok then NextAttempt(s, 0, urlExpired) else MarkClosed(s)
    case AwaitUrl(n) => if ok then At(s, AwaitPut(n)) else At(s, AwaitSleep(n))
    case AwaitPut(n) => if ok then IssueAndWait(s, RecordingStored, AfterStored) else At(s, AwaitSleep(n))
    case AwaitSleep(n) => NextAttempt(s, n + 1, urlExpired)
  }

  // ---- everything that can happen next ----

  datatype Input =
    | Tick(t: int)
    | AuthTimerFires
    | ExpiryFires(i: nat)
    | FlushFires
    | HeartbeatFires
    | SocketDown
    | ClientGone
    | KillRequest
    | Shutdown
    | MessageArrives(m: Message)
    | CheckAnswers(check: CheckAnswer)
    | SecretAnswers(secret: Option<seq<Bytes>>)
    | SshAnswers(connected: bool)
    | ShellAnswers(shell: ShellAnswer)
    | SshFails
    | SshCloses
    | AssetOutput(chunk: Bytes, sudo: Sudo)
    | EventSettles(answer: EventAnswer)
    | FinishResumes(ok: bool, urlExpired: bool)

  predicate Due(d: Option<int>, now: int) {
    d != None && d.value <= now
  }

  /** Timers fire when due: the clock never passes the deadline of an armed timer. */
  predicate ClockMayReach(now: int, timers: Timers, t: int) {
    && now <= t
    && (timers.auth == None || t <= timers.auth.value)
    && (timers.flush == None || t <= timers.flush.value)
    && forall i | 0 <= i < |timers.expiry| :: t <= timers.expiry[i].deadline
  }

  predicate FinishReady(s: S) {
    s.life.finishPc != Idle && (s.life.finishPc.AwaitEvent? ==> s.life.finishPc.k < s.events.settled)
  }

  predicate Enabled(s: S, i: Input) {
    match i
    case Tick(t) => ClockMayReach(s.now, s.timers, t)
    case AuthTimerFires => Due(s.timers.auth, s.now)
    case ExpiryFires(k) => k < |s.timers.expiry| && s.timers.expiry[k].deadline <= s.now
    case FlushFires => Due(s.timers.flush, s.now)
    case HeartbeatFires => s.timers.intervals
    case CheckAnswers(_) => s.life.authPc == AwaitCheck
    case SecretAnswers(_) => s.life.authPc.AwaitSecret? && s.life.authPc.left > 0
    case SshAnswers(_) => s.life.authPc == AwaitSsh
    case ShellAnswers(_) => s.life.authPc == AwaitShell
    case SshFails => s.asset.ssh != NoConn
    case SshCloses => s.asset.ssh != NoConn
    case AssetOutput(_, _) => s.asset.listening
    case EventSettles(_) => s.events.settled < |s.events.issued|
    case FinishResumes(_, _) => FinishReady(s)
    case _ => true
  }

  function Step(cfg: Config, s: S, i: Input): S
    requires Enabled(s, i)
  {
    match i
    case Tick(t) => s.(now := t)
    case AuthTimerFires => OnAuthTimer(s)
    case ExpiryFires(k) => OnExpiryTimer(s, k)
    case FlushFires => OnFlushTimer(s)
    case HeartbeatFires => Issue(s, Heartbeat)
    case SocketDown => s.(browser := s.browser.(open := false))
    case ClientGone => End(s, ClientClosed)
    case KillRequest => End(s, Killed)
    case Shutdown => End(s, Error)
    case MessageArrives(m) => OnMessage(s, m)
    case CheckAnswers(a) => OnCheck(s, a)
    case SecretAnswers(a) => OnSecret(s, a)
    case SshAnswers(c) => OnSsh(s, c)
    case ShellAnswers(a) => OnShell(cfg, s, a)
    case SshFails => End(s, Error)
    case SshCloses => End(s, SshClosed)
    case AssetOutput(chunk, d) => OnOutput(s, chunk, d)
    case EventSettles(a) => OnSettled(cfg, s, a)
    case FinishResumes(ok, e) => OnFinishResumes(s, ok, e)
  }
}
