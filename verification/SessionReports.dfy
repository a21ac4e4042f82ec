/** Why a terminal session ended, how long output is held, and what was reported, against the history of
    its inputs. */
module SessionReports {
  import opened Options
  import opened Scrub
  import Redactor
  import opened SessionModel
  import opened SessionInvariant
  import opened SessionSteps
  import opened SessionRuns
  import opened SessionTraces

  // ---- lost contact ----

  /** A heartbeat, or the report that the session started, is lost. */
  predicate LosesContact(s: S, i: Input) {
    && i.EventSettles? && i.answer.Lost? && s.events.settled < |s.events.issued|
    && (s.events.issued[s.events.settled] == Heartbeat || s.events.issued[s.events.settled] == Started)
  }

  function LostAfter(before: nat, s: S, i: Input): nat {
    if i.EventSettles? && i.answer.Answer? then 0 else if LosesContact(s, i) then before + 1 else before
  }

  lemma SettledCounts(cfg: Config, s: S, a: EventAnswer)
    requires s.events.settled < |s.events.issued|
    ensures OnSettled(cfg, s, a).events.failures == LostAfter(s.events.failures, s, EventSettles(a))
  {
    hide End, NoticeTimers;
    EndsKept();
  }

  lemma AnswersCountNothing(cfg: Config, s: S, i: Input)
    requires Enabled(s, i) && (i.CheckAnswers? || i.SecretAnswers? || i.SshAnswers? || i.ShellAnswers?)
    ensures Step(cfg, s, i).events.failures == s.events.failures
  {
    hide End, Refuse, Finish, Redactor.Kept, NoticeTimers;
    EndsKept();
    match i
    case CheckAnswers(a) =>
      RefuseKept(AuthAt(s, Returned));
      if a.Granted? {
        FinishKept(s.(life := s.life.(sessionId := Some(a.id), authPc := Returned), recording := a.recording));
      }
    case _ =>
  }

  lemma OthersCountNothing(cfg: Config, s: S, i: Input)
    requires Enabled(s, i) && !i.EventSettles?
    requires !i.CheckAnswers? && !i.SecretAnswers? && !i.SshAnswers? && !i.ShellAnswers?
    ensures Step(cfg, s, i).events.failures == s.events.failures
  {
    hide End, Refuse, Relay, NoticeTimers, OnCheck, OnSecret, OnSsh, OnShell, OnSettled, OnFinishResumes;
    EndsKept();
    match i
    case MessageArrives(_) => RefuseKept(s);
    case AuthTimerFires => RefuseKept(s.(timers := s.timers.(auth := None)));
    case FlushFires => RelayKept(s.(timers := s.timers.(flush := None)), Redactor.Flush);
    case AssetOutput(chunk, _) => RelayKept(s, Redactor.Push(chunk));
    case FinishResumes(_, _) => ResumingKept(s, i);
    case _ =>
  }

  lemma StepCounts(cfg: Config, s: S, i: Input)
    requires Enabled(s, i)
    ensures Step(cfg, s, i).events.failures == LostAfter(s.events.failures, s, i)
  {
    hide OnAuthTimer, OnExpiryTimer, OnFlushTimer, OnMessage, OnCheck, OnSecret, OnSsh, OnShell;
    hide OnOutput, OnSettled, OnFinishResumes, End;
    match i
    case EventSettles(a) => SettledCounts(cfg, s, a);
    case _ =>
      if i.CheckAnswers? || i.SecretAnswers? || i.SshAnswers? || i.ShellAnswers? { AnswersCountNothing(cfg, s, i); }
      else { OthersCountNothing(cfg, s, i); }
  }

  function LostInARow(run: seq<S>, ins: seq<Input>, k: nat): nat
    requires k <= |ins| <= |run|
  {
    if k == 0 then 0 else LostAfter(LostInARow(run, ins, k - 1), run[k - 1], ins[k - 1])
  }

  /** A session is live only while fewer than three reports in a row were lost. */
  lemma {:induction false} LiveIsInContact(cfg: Config, run: seq<S>, ins: seq<Input>, k: nat)
    requires IsRun(cfg, run, ins) && k < |run|
    ensures |run| == |ins| + 1 && run[k].events.failures == LostInARow(run, ins, k)
    ensures run[k].life.phase == Live ==> LostInARow(run, ins, k) < 3
    decreases k
  {
    hide IsRun, Inv, Enabled, Step, LostAfter;
    RunLength(cfg, run, ins);
    RunInv(cfg, run, ins, k);
    LiveHasFewFailures(run[k]);
    if k == 0 {
      StartsInContact(cfg, run, ins);
    } else {
      LiveIsInContact(cfg, run, ins, k - 1);
      RunStep(cfg, run, ins, k - 1);
      StepCounts(cfg, run[k - 1], ins[k - 1]);
    }
  }

  lemma LiveHasFewFailures(s: S)
    requires Inv(s)
    ensures s.life.phase == Live ==> s.events.failures < 3
  {
    hide Ctl, Clock, Frames, Rel, Ast;
  }

  lemma StartsInContact(cfg: Config, run: seq<S>, ins: seq<Input>)
    requires IsRun(cfg, run, ins)
    ensures run[0].events.failures == 0 && run[0].life.endReason == None
  {
    hide Enabled, Step;
  }

  // ---- why it ended ----

  predicate Over(s: S) {
    s.life.phase == Closing || s.life.phase == Closed
  }

  /** The input ends the session, and this is the reason reported. */
  function EndsWith(s: S, i: Input): Option<EndReason> {
    if Over(s) then None
    else match i
      case ClientGone => Some(ClientClosed)
      case KillRequest => Some(Killed)
      case Shutdown => Some(Error)
      case SshFails => Some(Error)
      case SshCloses => Some(SshClosed)
      case ExpiryFires(k) => if k < |s.timers.expiry| && s.timers.expiry[k].EndTimer? then Some(GrantExpired) else None
      case CheckAnswers(Granted(_, exp, _, _)) => if exp <= s.now then Some(GrantExpired) else None
      case SshAnswers(connected) => if connected then None else Some(Error)
      case ShellAnswers(NoShell) => Some(Error)
      case ShellAnswers(Shell(opens)) => if s.recording && !opens then Some(Error) else None
      case EventSettles(Answer(kill, _)) => if kill then Some(Killed) else None
      case EventSettles(Lost) => if LosesContact(s, i) && s.events.failures >= 2 then Some(Error) else None
      case _ => None
  }

  lemma EndGivesReason(s: S, reason: EndReason)
    requires !Over(s)
    ensures Over(End(s, reason)) && End(s, reason).life.endReason == Some(reason)
  {
    hide EndLocally, Finish;
    EndLocallyGives(s, reason);
    FinishKeepsReason(EndLocally(s, reason));
  }

  lemma EndLocallyGives(s: S, reason: EndReason)
    ensures EndLocally(s, reason).life == s.life.(phase := Closing, endReason := Some(reason))
  {
    hide Relay;
    RelayKept(s.(life := s.life.(phase := Closing, endReason := Some(reason)), timers := NoTimers), Redactor.Flush);
  }

  lemma FinishKeepsReason(s: S)
    requires s.life.phase == Closing
    ensures Over(Finish(s)) && Finish(s).life.endReason == s.life.endReason
  {
  }

  /** What one step does to a session that is not ending yet. */
  ghost predicate EndsAs(s: S, t: S, r: Option<EndReason>) {
    t.life.endReason == r && (r != None ==> Over(t)) && (r == None ==> t.life.phase != Closing)
  }

  lemma RefusalHasNoReason(s: S)
    requires !Over(s) && s.life.sessionId == None && s.life.endReason == None
    ensures EndsAs(s, Refuse(s), None)
  {
    hide End;
  }

  lemma CheckEnds(s: S, a: CheckAnswer)
    requires Inv(s) && s.life.authPc == AwaitCheck && !Over(s)
    ensures EndsAs(s, OnCheck(s, a), EndsWith(s, CheckAnswers(a)))
  {
    hide Inv, End, Refuse, Finish, Redactor.Kept;
    CheckPhase(s);
    NotEndedYet(s);
    if a.Granted? {
      var t := s.(life := s.life.(sessionId := Some(a.id), authPc := Returned), recording := a.recording);
      EndGivesReason(t.(expiresAt := a.expiresAt), GrantExpired);
    } else {
      RefusalHasNoReason(AuthAt(s, Returned));
    }
  }

  lemma SecretEnds(s: S, a: Option<seq<Bytes>>)
    requires s.life.authPc.AwaitSecret? && s.life.authPc.left > 0 && !Over(s) && s.life.endReason == None
    ensures EndsAs(s, OnSecret(s, a), None)
  {
    hide Redactor.Kept;
  }

  lemma SshEnds(s: S, c: bool)
    requires s.life.phase == Connecting && s.life.endReason == None
    ensures EndsAs(s, OnSsh(s, c), EndsWith(s, SshAnswers(c)))
  {
    hide End;
    EndGivesReason(AuthAt(s, Returned), Error);
  }

  lemma ShellEnds(cfg: Config, s: S, a: ShellAnswer)
    requires s.life.phase == Connecting && s.life.endReason == None
    ensures EndsAs(s, OnShell(cfg, s, a), EndsWith(s, ShellAnswers(a)))
  {
    hide End, NoticeTimers;
    EndGivesReason(AuthAt(s, Returned), Error);
    EndGivesReason(OpenedShell(s), Error);
  }

  lemma ConnectEnds(cfg: Config, s: S, i: Input)
    requires Inv(s) && Enabled(s, i) && !Over(s) && (i.SecretAnswers? || i.SshAnswers? || i.ShellAnswers?)
    ensures EndsAs(s, Step(cfg, s, i), EndsWith(s, i))
  {
    hide Inv, OnSecret, OnSsh, OnShell, EndsAs;
    NotEndedYet(s);
    PcMeansConnecting(s);
    match i
    case SecretAnswers(a) => SecretEnds(s, a);
    case SshAnswers(c) => SshEnds(s, c);
    case ShellAnswers(a) => ShellEnds(cfg, s, a);
  }

  lemma PcMeansConnecting(s: S)
    requires Inv(s) && !Over(s) && s.life.authPc != Returned && s.life.authPc != NotStarted
    ensures s.life.phase == Connecting
  {
    hide Log, Clock, Frames, Rel, Ast;
  }

  lemma SettledEnds(cfg: Config, s: S, a: EventAnswer)
    requires Inv(s) && s.events.settled < |s.events.issued| && !Over(s)
    ensures EndsAs(s, OnSettled(cfg, s, a), EndsWith(s, EventSettles(a)))
  {
    hide Inv, End, NoticeTimers;
    NotEndedYet(s);
    ReportsMeanLive(s);
    EndGivesReason(Settle(s, 0), Killed);
    EndGivesReason(Settle(s, s.events.failures + 1), Error);
  }

  lemma ReportsMeanLive(s: S)
    requires Inv(s) && !Over(s) && s.events.settled < |s.events.issued|
    ensures s.life.phase == Live
  {
    hide Ctl, Clock, Frames, Rel, Ast;
  }

  lemma OthersEnd(cfg: Config, s: S, i: Input)
    requires Inv(s) && Enabled(s, i) && !Over(s) && !i.EventSettles? && !i.CheckAnswers?
    requires !i.SecretAnswers? && !i.SshAnswers? && !i.ShellAnswers?
    ensures EndsAs(s, Step(cfg, s, i), EndsWith(s, i))
  {
    hide Inv, EndsAs, EndsWith, Step, Enabled;
    NotEndedYet(s);
    if i.ClientGone? || i.KillRequest? || i.Shutdown? || i.SshFails? || i.SshCloses? {
      EndingInputEnds(cfg, s, i);
    } else if i.MessageArrives? || i.AuthTimerFires? {
      BrowserInputEnds(cfg, s, i);
    } else if i.FlushFires? || i.AssetOutput? || i.ExpiryFires? {
      TimedInputEnds(cfg, s, i);
    } else {
      QuietInputEnds(cfg, s, i);
    }
  }

  lemma EndingInputEnds(cfg: Config, s: S, i: Input)
    requires Enabled(s, i) && !Over(s)
    requires i.ClientGone? || i.KillRequest? || i.Shutdown? || i.SshFails? || i.SshCloses?
    ensures EndsAs(s, Step(cfg, s, i), EndsWith(s, i))
  {
    hide End, Over;
    EndGivesReason(s, ClientClosed);
    EndGivesReason(s, Killed);
    EndGivesReason(s, Error);
    EndGivesReason(s, SshClosed);
  }

  lemma BrowserInputEnds(cfg: Config, s: S, i: Input)
    requires Inv(s) && Enabled(s, i) && !Over(s) && s.life.endReason == None
    requires i.MessageArrives? || i.AuthTimerFires?
    ensures EndsAs(s, Step(cfg, s, i), EndsWith(s, i))
  {
    hide Inv, OnMessage, OnAuthTimer, EndsAs, Over;
    if i.MessageArrives? { MessageEnds(s, i.m); } else { AuthTimerEnds(s); }
  }

  lemma TimedInputEnds(cfg: Config, s: S, i: Input)
    requires Enabled(s, i) && !Over(s) && s.life.endReason == None
    requires i.FlushFires? || i.AssetOutput? || i.ExpiryFires?
    ensures EndsAs(s, Step(cfg, s, i), EndsWith(s, i))
  {
    hide OnOutput, OnFlushTimer, OnExpiryTimer, EndsAs;
    if i.ExpiryFires? {
      ExpiryEnds(s, i.i);
    } else {
      OutputEnds(s, if i.AssetOutput? then i.chunk else [], if i.AssetOutput? then i.sudo else Pass);
    }
  }

  lemma QuietInputEnds(cfg: Config, s: S, i: Input)
    requires Inv(s) && Enabled(s, i) && !Over(s) && s.life.endReason == None
    requires i.HeartbeatFires? || i.SocketDown? || i.Tick? || i.FinishResumes?
    ensures EndsAs(s, Step(cfg, s, i), EndsWith(s, i))
  {
    hide Inv, OnFinishResumes;
    RunningHasNoFinish(s);
  }

  lemma MessageEnds(s: S, m: Message)
    requires Inv(s) && !Over(s) && s.life.endReason == None
    ensures EndsAs(s, OnMessage(s, m), None)
  {
    hide Inv, Refuse, Screen, Streamed;
    if s.life.phase == Auth {
      AuthPhase(s);
      RefusalHasNoReason(s);
    }
  }

  lemma AuthTimerEnds(s: S)
    requires Inv(s) && !Over(s) && s.life.endReason == None
    ensures EndsAs(s, OnAuthTimer(s), None)
  {
    hide Inv, Refuse, Screen, Streamed;
    if s.life.phase == Auth {
      AuthPhase(s);
      RefusalHasNoReason(s.(timers := s.timers.(auth := None)));
    }
  }

  lemma OutputEnds(s: S, chunk: Bytes, d: Sudo)
    requires !Over(s) && s.life.endReason == None
    ensures EndsAs(s, OnOutput(s, chunk, d), None) && EndsAs(s, OnFlushTimer(s), None)
  {
    hide Relay;
    RelayKept(s.(timers := s.timers.(flush := None)), Redactor.Flush);
    RelayKept(s, Redactor.Push(chunk));
  }

  lemma ExpiryEnds(s: S, k: nat)
    requires k < |s.timers.expiry| && !Over(s) && s.life.endReason == None
    ensures EndsAs(s, OnExpiryTimer(s, k), EndsWith(s, ExpiryFires(k)))
  {
    hide End;
    EndGivesReason(s.(timers := s.timers.(expiry := s.timers.expiry[..k] + s.timers.expiry[k + 1..])), GrantExpired);
  }

  lemma RunningHasNoFinish(s: S)
    requires Inv(s) && !Over(s)
    ensures s.life.finishPc == Idle
  {
    hide Log, Clock, Frames, Rel, Ast;
  }

  lemma StepEnds(cfg: Config, s: S, i: Input)
    requires Inv(s) && Enabled(s, i) && !Over(s)
    ensures EndsAs(s, Step(cfg, s, i), EndsWith(s, i))
  {
    hide Inv, OnAuthTimer, OnExpiryTimer, OnFlushTimer, OnMessage, OnCheck, OnSecret, OnSsh, OnShell, EndsWith;
    hide OnOutput, OnSettled, OnFinishResumes, End, EndsAs;
    match i
    case CheckAnswers(a) => CheckEnds(s, a);
    case EventSettles(a) => SettledEnds(cfg, s, a);
    case _ =>
      if i.SecretAnswers? || i.SshAnswers? || i.ShellAnswers? { ConnectEnds(cfg, s, i); } else { OthersEnd(cfg, s, i); }
  }

  /** Over is over: nothing gives another reason, or a reason to a session that was refused. */
  lemma OverKeepsReason(cfg: Config, s: S, i: Input)
    requires Inv(s) && Enabled(s, i) && Over(s)
    ensures Step(cfg, s, i).life.endReason == s.life.endReason && Over(Step(cfg, s, i))
  {
    hide Inv, OnExpiryTimer, OnFlushTimer, OnCheck, OnSecret, OnSsh, OnShell, OnOutput, OnSettled;
    hide OnFinishResumes, End;
    NotLiveIsOver(s);
    match i
    case CheckAnswers(a) => CheckKeepsReason(s, a);
    case SecretAnswers(a) => SecretKeepsReason(s, a);
    case SshAnswers(c) => ConnectKeepsReason(cfg, s);
    case ShellAnswers(a) => ConnectKeepsReason(cfg, s);
    case EventSettles(a) => SettledOver(cfg, s, a);
    case FinishResumes(ok, e) => ResumingKeepsReason(s, ok, e);
    case AssetOutput(_, _) =>
    case _ =>
      EndIsOver(s, ClientClosed);
      EndIsOver(s, Killed);
      EndIsOver(s, Error);
      EndIsOver(s, SshClosed);
  }

  lemma CheckKeepsReason(s: S, a: CheckAnswer)
    requires Inv(s) && s.life.authPc == AwaitCheck && Over(s)
    ensures OnCheck(s, a).life.endReason == s.life.endReason && Over(OnCheck(s, a))
  {
    hide Inv, End;
    CheckPhase(s);
  }

  lemma SecretKeepsReason(s: S, a: Option<seq<Bytes>>)
    requires s.life.authPc.AwaitSecret? && s.life.authPc.left > 0 && Over(s)
    ensures OnSecret(s, a).life.endReason == s.life.endReason && Over(OnSecret(s, a))
  {
    hide Redactor.Kept;
  }

  lemma ConnectKeepsReason(cfg: Config, s: S)
    requires Over(s)
    ensures forall c :: OnSsh(s, c).life.endReason == s.life.endReason && Over(OnSsh(s, c))
    ensures forall a :: OnShell(cfg, s, a).life.endReason == s.life.endReason && Over(OnShell(cfg, s, a))
  {
    EndIsOver(AuthAt(s, Returned), Error);
    hide End, NoticeTimers;
  }

  lemma ResumingKeepsReason(s: S, ok: bool, urlExpired: bool)
    requires Over(s)
    ensures OnFinishResumes(s, ok, urlExpired).life.endReason == s.life.endReason
    ensures Over(OnFinishResumes(s, ok, urlExpired))
  {
  }

  /** The reason given by the first input that ended the session. */
  function FirstEnd(run: seq<S>, ins: seq<Input>, k: nat): Option<EndReason>
    requires k <= |ins| <= |run|
  {
    if k == 0 then None
    else
      var before := FirstEnd(run, ins, k - 1);
      if before != None then before else EndsWith(run[k - 1], ins[k - 1])
  }

  /** The end reason is that of the first input that ends the session: the browser leaving, a kill, the
      grant running out, SSH closing, or a fault; and until such an input arrives a session is not closing. */
  lemma {:induction false} EndReasonIsFirst(cfg: Config, run: seq<S>, ins: seq<Input>, k: nat)
    requires IsRun(cfg, run, ins) && k < |run|
    ensures |run| == |ins| + 1 && run[k].life.endReason == FirstEnd(run, ins, k)
    ensures FirstEnd(run, ins, k) == None ==> run[k].life.phase != Closing
    ensures FirstEnd(run, ins, k) != None ==> Over(run[k])
    decreases k
  {
    hide IsRun, Inv, Enabled, Step, EndsWith;
    RunLength(cfg, run, ins);
    if k == 0 {
      StartsInContact(cfg, run, ins);
      StartsRunning(cfg, run, ins);
    } else {
      var s, i := run[k - 1], ins[k - 1];
      EndReasonIsFirst(cfg, run, ins, k - 1);
      RunStep(cfg, run, ins, k - 1);
      RunInv(cfg, run, ins, k - 1);
      if Over(s) {
        OverKeepsReason(cfg, s, i);
        OverEndsWithNothing(s, i);
        ClosingHasReason(cfg, run, ins, k);
      } else {
        NotEndedYet(s);
        StepEnds(cfg, s, i);
      }
    }
  }

  lemma StartsRunning(cfg: Config, run: seq<S>, ins: seq<Input>)
    requires IsRun(cfg, run, ins)
    ensures !Over(run[0])
  {
    hide Enabled, Step;
  }

  lemma OverEndsWithNothing(s: S, i: Input)
    requires Over(s)
    ensures EndsWith(s, i) == None
  {
  }

  lemma ClosingHasReason(cfg: Config, run: seq<S>, ins: seq<Input>, k: nat)
    requires IsRun(cfg, run, ins) && k < |run|
    ensures run[k].life.phase == Closing ==> run[k].life.endReason != None
  {
    hide IsRun, Log, Clock, Frames, Rel, Ast;
    RunInv(cfg, run, ins, k);
  }

  // ---- how long output is held ----

  /** What a live session holds back is released within 40 milliseconds. */
  ghost predicate HeldIsDue(s: S) {
    s.life.phase == Live ==>
      && (s.red.held != [] ==> s.timers.flush != None)
      && (s.timers.flush != None ==> s.timers.flush.value <= s.now + 40)
  }

  lemma OutputIsDue(s: S, chunk: Bytes, d: Sudo)
    requires HeldIsDue(s)
    ensures HeldIsDue(OnOutput(s, chunk, d))
  {
    hide Relay;
    RelayKept(s, Redactor.Push(chunk));
  }

  lemma FlushReleases(s: S)
    ensures HeldIsDue(OnFlushTimer(s))
  {
    Redactor.StepAppends(s.secrets, s.red, Redactor.Flush);
  }

  lemma TimersKeepDue(cfg: Config, s: S, i: Input)
    requires Inv(s) && Enabled(s, i) && HeldIsDue(s)
    requires i.Tick? || i.EventSettles? || i.ExpiryFires? || i.AuthTimerFires? || i.MessageArrives?
    ensures HeldIsDue(Step(cfg, s, i))
  {
    hide Inv, End, Refuse, NoticeTimers, OnOutput, OnFlushTimer, OnCheck, OnSecret, OnSsh, OnShell, OnFinishResumes;
    EndsAreNotLive();
    RefusedIsNotLive(s);
    RefusedIsNotLive(s.(timers := s.timers.(auth := None)));
  }

  lemma RefusedIsNotLive(s: S)
    ensures Refuse(s).life.phase != Live
  {
    hide End;
    EndIsNotLive(s, Error);
  }

  lemma EndsAreNotLive()
    ensures forall s: S, reason: EndReason :: End(s, reason).life.phase != Live
  {
    hide End;
    forall s: S, reason: EndReason ensures End(s, reason).life.phase != Live { EndIsNotLive(s, reason); }
  }

  lemma OpeningHoldsNothing(cfg: Config, s: S, i: Input)
    requires Inv(s) && Enabled(s, i) && i.ShellAnswers? && Step(cfg, s, i).life.phase == Live
    ensures Step(cfg, s, i).red.held == [] && Step(cfg, s, i).timers.flush == None
  {
    hide Inv, End, NoticeTimers;
    SilentUnlessReturned(s);
    ShellMeansNoFlush(s);
    EndIsNotLive(AuthAt(s, Returned), Error);
    EndIsNotLive(OpenedShell(s), Error);
  }

  lemma ShellMeansNoFlush(s: S)
    requires Inv(s) && s.life.authPc == AwaitShell
    ensures s.timers.flush == None
  {
    hide Log, Frames, Rel, Ast;
  }

  lemma OthersAreNotLive(cfg: Config, s: S, i: Input)
    requires Inv(s) && Enabled(s, i)
    requires !i.Tick? && !i.EventSettles? && !i.ExpiryFires? && !i.AuthTimerFires? && !i.MessageArrives?
    requires !i.AssetOutput? && !i.FlushFires? && !i.ShellAnswers? && !i.HeartbeatFires? && !i.SocketDown?
    ensures Step(cfg, s, i).life.phase != Live
  {
    hide Inv, End, NoticeTimers, Refuse, Finish, OnFinishResumes, Redactor.Kept, OnCheck, OnSecret, OnSsh, Step;
    if Step(cfg, s, i).life.phase == Live {
      if s.life.phase == Live {
        LiveDisables(s, i);
        EndingInputs(cfg, s, i);
      } else {
        BecomesLive(cfg, s, i);
      }
    }
  }

  lemma EndingInputs(cfg: Config, s: S, i: Input)
    requires Enabled(s, i)
    requires i.ClientGone? || i.KillRequest? || i.Shutdown? || i.SshFails? || i.SshCloses?
    ensures Step(cfg, s, i).life.phase != Live
  {
    hide End;
    EndsAreNotLive();
  }

  lemma StepKeepsDue(cfg: Config, s: S, i: Input)
    requires Inv(s) && Enabled(s, i) && HeldIsDue(s)
    ensures HeldIsDue(Step(cfg, s, i))
  {
    hide Inv, OnAuthTimer, OnExpiryTimer, OnFlushTimer, OnMessage, OnCheck, OnSecret, OnSsh, OnShell;
    hide OnOutput, OnSettled, OnFinishResumes, End;
    if i.Tick? || i.EventSettles? || i.ExpiryFires? || i.AuthTimerFires? || i.MessageArrives? {
      TimersKeepDue(cfg, s, i);
    } else if i.ShellAnswers? {
      if Step(cfg, s, i).life.phase == Live { OpeningHoldsNothing(cfg, s, i); }
    } else if i.AssetOutput? {
      OutputIsDue(s, i.chunk, i.sudo);
    } else if i.FlushFires? {
      FlushReleases(s);
    } else if !i.HeartbeatFires? && !i.SocketDown? {
      OthersAreNotLive(cfg, s, i);
    }
  }

  /** In every reachable state, output that a live session holds back is due for release. */
  lemma {:induction false} HeldOutputIsDue(cfg: Config, run: seq<S>, ins: seq<Input>, k: nat)
    requires IsRun(cfg, run, ins) && k < |run|
    ensures HeldIsDue(run[k])
    decreases k
  {
    hide IsRun, Inv, Enabled, Step, HeldIsDue;
    RunLength(cfg, run, ins);
    if k == 0 {
      StartsHoldingNothing(cfg, run, ins);
    } else {
      HeldOutputIsDue(cfg, run, ins, k - 1);
      RunStep(cfg, run, ins, k - 1);
      RunInv(cfg, run, ins, k - 1);
      StepKeepsDue(cfg, run[k - 1], ins[k - 1]);
    }
  }

  lemma StartsHoldingNothing(cfg: Config, run: seq<S>, ins: seq<Input>)
    requires IsRun(cfg, run, ins)
    ensures HeldIsDue(run[0])
  {
    hide Enabled, Step;
  }

  // ---- notices before the end ----

  lemma {:induction false} NoticesAreAhead(seconds: seq<nat>, exp: int, now: int, deadline: int)
    ensures NoticeTimer(deadline) in NoticeTimers(seconds, exp, now)
            <==> deadline > now && exists k :: 0 <= k < |seconds| && deadline == exp - seconds[k] * 1000
  {
    if seconds != [] {
      var n := |seconds| - 1;
      var front := seconds[..n];
      NoticesAreAhead(front, exp, now, deadline);
      if k :| 0 <= k < n && deadline == exp - seconds[k] * 1000 { assert front[k] == seconds[k]; }
      if k :| 0 <= k < n && deadline == exp - front[k] * 1000 { assert seconds[k] == front[k]; }
    }
  }

  /** Arming sets a notice for each configured lead time that is still ahead, and no other, and one end. */
  lemma ArmingSetsNotices(cfg: Config, s: S, x: ExpiryTimer)
    ensures x in ScheduleExpiry(cfg, s).timers.expiry
            <==> if x.NoticeTimer?
                 then x.deadline > s.now
                      && exists k ::
                           0 <= k < |cfg.noticeSeconds| && x.deadline == s.expiresAt - cfg.noticeSeconds[k] * 1000
                 else x == EndTimer(s.now + Longest(s.expiresAt - s.now), s.now)
  {
    hide NoticeTimers;
    NoticesAhead(cfg.noticeSeconds, s.expiresAt, s.now);
    if x.NoticeTimer? { NoticesAreAhead(cfg.noticeSeconds, s.expiresAt, s.now, x.deadline); }
  }

  // ---- the expiry that is learned ----

  /** The expiry that the input tells a session that is not over. */
  function Learns(s: S, i: Input): Option<int> {
    if Over(s) then None
    else match i
      case CheckAnswers(Granted(_, exp, _, _)) => Some(exp)
      case EventSettles(Answer(kill, exp)) => if kill then None else exp
      case _ => None
  }

  predicate SameExpiry(s: S, t: S) {
    t.expiresAt == s.expiresAt
  }

  lemma EndsKeepExpiry()
    ensures forall s: S, reason: EndReason :: SameExpiry(s, End(s, reason))
  {
    hide End;
    forall s: S, reason: EndReason ensures SameExpiry(s, End(s, reason)) { EndKeepsExpiry(s, reason); }
  }

  lemma EndKeepsExpiry(s: S, reason: EndReason)
    ensures SameExpiry(s, End(s, reason))
  {
    hide Relay, IssueAndWait;
    var c := s.(life := s.life.(phase := Closing, endReason := Some(reason)), timers := NoTimers);
    RelayKept(c, Redactor.Flush);
    FinishKeepsExpiry(EndLocally(s, reason));
  }

  lemma FinishKeepsExpiry(s: S)
    ensures SameExpiry(s, Finish(s))
  {
  }

  lemma CheckLearns(s: S, a: CheckAnswer)
    requires Inv(s) && s.life.authPc == AwaitCheck
    ensures OnCheck(s, a).expiresAt
            == if Learns(s, CheckAnswers(a)) == None then s.expiresAt else Learns(s, CheckAnswers(a)).value
  {
    hide Inv, End, Finish, Redactor.Kept;
    CheckPhase(s);
    EndsKeepExpiry();
    if a.Granted? {
      FinishKeepsExpiry(s.(life := s.life.(sessionId := Some(a.id), authPc := Returned), recording := a.recording));
    }
  }

  lemma SettledLearns(cfg: Config, s: S, a: EventAnswer)
    requires s.events.settled < |s.events.issued| && (s.life.phase == Live || Over(s))
    ensures OnSettled(cfg, s, a).expiresAt
            == if Learns(s, EventSettles(a)) == None then s.expiresAt else Learns(s, EventSettles(a)).value
  {
    hide End, NoticeTimers;
    EndsKeepExpiry();
  }

  lemma OthersLearnNothing(cfg: Config, s: S, i: Input)
    requires Enabled(s, i) && !i.CheckAnswers? && !i.EventSettles?
    ensures Step(cfg, s, i).expiresAt == s.expiresAt
  {
    hide End, Relay, Redactor.Kept, NoticeTimers, OnCheck, OnSettled, IssueAndWait;
    EndsKeepExpiry();
    match i
    case FlushFires => RelayKept(s.(timers := s.timers.(flush := None)), Redactor.Flush);
    case AssetOutput(chunk, _) => RelayKept(s, Redactor.Push(chunk));
    case FinishResumes(_, _) => ResumingKeepsExpiry(s, i);
    case _ =>
  }

  lemma ResumingKeepsExpiry(s: S, i: Input)
    requires i.FinishResumes?
    ensures OnFinishResumes(s, i.ok, i.urlExpired).expiresAt == s.expiresAt
  {
  }

  lemma StepLearns(cfg: Config, s: S, i: Input)
    requires Inv(s) && Enabled(s, i)
    ensures Step(cfg, s, i).expiresAt == if Learns(s, i) == None then s.expiresAt else Learns(s, i).value
  {
    hide Inv, OnAuthTimer, OnExpiryTimer, OnFlushTimer, OnMessage, OnCheck, OnSecret, OnSsh, OnShell, Learns;
    hide OnOutput, OnSettled, OnFinishResumes, End;
    match i
    case CheckAnswers(a) => CheckLearns(s, a);
    case EventSettles(a) =>
      if !Over(s) { ReportsMeanLive(s); }
      SettledLearns(cfg, s, a);
    case _ =>
      OthersLearnNothing(cfg, s, i);
      OthersTellNothing(s, i);
  }

  lemma OthersTellNothing(s: S, i: Input)
    ensures !i.CheckAnswers? && !i.EventSettles? ==> Learns(s, i) == None
  {
  }

  function Learned(run: seq<S>, ins: seq<Input>, k: nat): int
    requires k <= |ins| <= |run|
  {
    if k == 0 then 0
    else
      var l := Learns(run[k - 1], ins[k - 1]);
      if l == None then Learned(run, ins, k - 1) else l.value
  }

  /** The current expiry is the one that the API told the session last while it was not over. */
  lemma {:induction false} ExpiryIsLearned(cfg: Config, run: seq<S>, ins: seq<Input>, k: nat)
    requires IsRun(cfg, run, ins) && k < |run|
    ensures |run| == |ins| + 1 && run[k].expiresAt == Learned(run, ins, k)
    decreases k
  {
    hide IsRun, Inv, Enabled, Step, Learns;
    RunLength(cfg, run, ins);
    if k == 0 {
      StartsUnlearned(cfg, run, ins);
    } else {
      ExpiryIsLearned(cfg, run, ins, k - 1);
      RunStep(cfg, run, ins, k - 1);
      RunInv(cfg, run, ins, k - 1);
      StepLearns(cfg, run[k - 1], ins[k - 1]);
    }
  }

  lemma StartsUnlearned(cfg: Config, run: seq<S>, ins: seq<Input>)
    requires IsRun(cfg, run, ins)
    ensures run[0].expiresAt == 0 && run[0].timers.auth == Some(run[0].now + cfg.authTimeoutMs)
  {
    hide Enabled, Step;
  }
}
