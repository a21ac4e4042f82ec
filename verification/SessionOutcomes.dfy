/** What a terminal session reports while it is live, and what becomes of its recording, against the
    history of its inputs. */
module SessionOutcomes {
  import opened Options
  import opened Scrub
  import Redactor
  import opened SessionModel
  import opened SessionInvariant
  import opened SessionSteps
  import opened SessionRuns
  import opened SessionTraces
  import opened SessionReports

  // ---- reports of a live session ----

  function Beats(n: nat): seq<Event> {
    seq(n, _ => Heartbeat)
  }

  function BeatsFired(ins: seq<Input>, k: nat): nat
    requires k <= |ins|
  {
    if k == 0 then 0 else BeatsFired(ins, k - 1) + if ins[k - 1].HeartbeatFires? then 1 else 0
  }

  /** Until a session is live it has reported nothing; then that it started, and a heartbeat each time. */
  ghost predicate Reported(s: S, beats: nat) {
    match s.life.phase
    case Auth => s.events.issued == [] && beats == 0
    case Connecting => s.events.issued == [] && beats == 0
    case Live => s.events.issued == [Started] + Beats(beats)
    case _ => true
  }

  lemma QuietUntilLive(s: S)
    requires Inv(s) && (s.life.phase == Auth || s.life.phase == Connecting)
    ensures s.events.issued == [] && !s.timers.intervals
  {
    hide Frames, Rel, Ast, Ctl;
  }

  lemma OpeningReports(cfg: Config, s: S, i: Input)
    requires Enabled(s, i) && i.ShellAnswers? && Step(cfg, s, i).life.phase == Live && s.life.phase == Connecting
    requires s.life.sessionId != None
    ensures Step(cfg, s, i).events.issued == s.events.issued + [Started]
  {
    hide End, NoticeTimers;
    EndsAreNotLive();
  }

  lemma LiveReports(cfg: Config, s: S, i: Input)
    requires Inv(s) && Enabled(s, i) && s.life.phase == Live && Step(cfg, s, i).life.phase == Live
    ensures i.HeartbeatFires? ==> Step(cfg, s, i).events.issued == s.events.issued + [Heartbeat]
    ensures !i.HeartbeatFires? ==> Step(cfg, s, i).events.issued == s.events.issued
  {
    hide Inv, Step, Enabled;
    LiveDisables(s, i);
    LiveHasId(s);
    if i.FlushFires? || i.AssetOutput? {
      OutputReportsNothing(cfg, s, i);
    } else if i.MessageArrives? || i.AuthTimerFires? || i.EventSettles? || i.ExpiryFires? {
      TimersReportNothing(cfg, s, i);
    } else if i.HeartbeatFires? || i.SocketDown? || i.Tick? {
      OthersReport(cfg, s, i);
    } else {
      EndingInputs(cfg, s, i);
    }
  }

  lemma OutputReportsNothing(cfg: Config, s: S, i: Input)
    requires Enabled(s, i) && (i.FlushFires? || i.AssetOutput?)
    ensures Step(cfg, s, i).events == s.events
  {
    hide Relay;
    RelayKept(s.(timers := s.timers.(flush := None)), Redactor.Flush);
    if i.AssetOutput? { RelayKept(s, Redactor.Push(i.chunk)); }
  }

  lemma TimersReportNothing(cfg: Config, s: S, i: Input)
    requires Enabled(s, i) && s.life.phase == Live && Step(cfg, s, i).life.phase == Live
    requires i.MessageArrives? || i.AuthTimerFires? || i.EventSettles? || i.ExpiryFires?
    ensures Step(cfg, s, i).events.issued == s.events.issued
  {
    hide End, Refuse, NoticeTimers;
    EndsAreNotLive();
  }

  lemma OthersReport(cfg: Config, s: S, i: Input)
    requires Enabled(s, i) && s.life.sessionId != None && (i.HeartbeatFires? || i.SocketDown? || i.Tick?)
    ensures i.HeartbeatFires? ==> Step(cfg, s, i).events.issued == s.events.issued + [Heartbeat]
    ensures !i.HeartbeatFires? ==> Step(cfg, s, i).events.issued == s.events.issued
  {
  }

  lemma LiveHasId(s: S)
    requires Inv(s) && (s.life.phase == Live || (s.life.phase == Connecting && s.life.authPc == AwaitShell))
    ensures s.life.sessionId != None
  {
    hide Log, Clock, Frames, Rel, Ast;
  }

  lemma StepReports(cfg: Config, s: S, i: Input, beats: nat)
    requires Inv(s) && Enabled(s, i) && Reported(s, beats)
    ensures Reported(Step(cfg, s, i), beats + if i.HeartbeatFires? then 1 else 0)
  {
    hide Inv, Step, Enabled;
    var t := Step(cfg, s, i);
    StepInv(cfg, s, i);
    if t.life.phase == Live {
      if s.life.phase == Live {
        LiveReports(cfg, s, i);
        assert Beats(beats + 1) == Beats(beats) + [Heartbeat];
      } else {
        BecomesLive(cfg, s, i);
        ShellNeedsId(s, i);
        OpeningReports(cfg, s, i);
        assert [] + [Started] == [Started] + Beats(0);
      }
    } else if t.life.phase == Auth || t.life.phase == Connecting {
      StepForward(cfg, s, i);
      QuietUntilLive(s);
      QuietUntilLive(t);
      BeatsNeedIntervals(s, i);
    }
  }

  lemma BeatsNeedIntervals(s: S, i: Input)
    requires Enabled(s, i)
    ensures i.HeartbeatFires? ==> s.timers.intervals
  {
  }

  lemma ShellNeedsId(s: S, i: Input)
    requires Inv(s) && Enabled(s, i) && i.ShellAnswers? && s.life.phase == Connecting
    ensures s.life.sessionId != None
  {
    LiveHasId(s);
  }

  /** While it is live a session has reported that it started, then one heartbeat for each interval. */
  lemma {:induction false} LiveReportsBeats(cfg: Config, run: seq<S>, ins: seq<Input>, k: nat)
    requires IsRun(cfg, run, ins) && k < |run|
    ensures |run| == |ins| + 1 && Reported(run[k], BeatsFired(ins, k))
    decreases k
  {
    hide IsRun, Inv, Enabled, Step, Reported;
    RunLength(cfg, run, ins);
    if k == 0 {
      StartsUnreported(cfg, run, ins);
    } else {
      LiveReportsBeats(cfg, run, ins, k - 1);
      RunStep(cfg, run, ins, k - 1);
      RunInv(cfg, run, ins, k - 1);
      StepReports(cfg, run[k - 1], ins[k - 1], BeatsFired(ins, k - 1));
    }
  }

  lemma StartsUnreported(cfg: Config, run: seq<S>, ins: seq<Input>)
    requires IsRun(cfg, run, ins)
    ensures Reported(run[0], 0)
  {
    hide Enabled, Step;
  }

  // ---- the recording ----

  /** What happened to the recording so far: how often an address or an upload failed, whether an upload
      succeeded, whether the file could not be closed. */
  datatype Upload = Upload(failed: nat, stored: bool, lost: bool)

  function Uploaded(u: Upload, s: S, i: Input): Upload {
    if !i.FinishResumes? then u
    else match s.life.finishPc
      case AwaitFileClose => if i.ok then u else u.(lost := true)
      case AwaitUrl(_) => if i.ok then u else u.(failed := u.failed + 1)
      case AwaitPut(_) => if i.ok then u.(stored := true) else u.(failed := u.failed + 1)
      case _ => u
  }

  /** `finish` is past the report of the end: it is busy with the recording. */
  predicate AfterClosing(pc: FinishPc) {
    pc != Idle && !(pc.AwaitEvent? && (pc.next == AfterError || pc.next == AfterEnded))
  }

  const Untouched := Upload(0, false, false)

  /** Four tries, and what was reported of them. A closed session with a recording stored it, or gave up
      after four failures, or could not close the file. */
  ghost predicate Accounted(s: S, u: Upload) {
    && (RecordingStored in s.events.issued <==> u.stored)
    && (UploadFailed in s.events.issued <==> u.failed == 4 && !s.life.finishPc.AwaitSleep?)
    && (AfterClosing(s.life.finishPc) ==> s.recorder && s.recording)
    && match s.life.finishPc
       case AwaitUrl(n) => n < 4 && u == Upload(n, false, false)
       case AwaitPut(n) => n < 4 && u == Upload(n, false, false)
       case AwaitSleep(n) => n < 4 && u == Upload(n + 1, false, false)
       case AwaitEvent(_, AfterStored) => u.stored && u.failed < 4 && !u.lost
       case AwaitEvent(_, AfterUploadFailed) => u == Upload(4, false, false)
       case Idle =>
         if s.life.phase != Closed || s.life.sessionId == None then u == Untouched
         else if s.recorder && s.recording then
           || (u.stored && u.failed < 4 && !u.lost) || u == Upload(4, false, false) || u == Upload(0, false, true)
         else u == Untouched
       case _ => u == Untouched
  }

  /** The step has nothing to do with the recording: it reports neither outcome and moves `finish` at most
      from idle to its first report. */
  ghost predicate Apart(s: S, t: S) {
    && (RecordingStored in t.events.issued <==> RecordingStored in s.events.issued)
    && (UploadFailed in t.events.issued <==> UploadFailed in s.events.issued)
    && (t.life.finishPc == s.life.finishPc
        || (s.life.finishPc == Idle && t.life.finishPc.AwaitEvent?
            && (t.life.finishPc.next == AfterError || t.life.finishPc.next == AfterEnded)))
    && (s.life.finishPc != Idle ==> t.recorder == s.recorder && t.recording == s.recording)
    && (t.life.phase == Closed && s.life.phase != Closed ==> t.life.sessionId == None)
    && (s.life.phase == Closed ==>
          t.life.phase == Closed && t.life.sessionId == s.life.sessionId && t.life.finishPc == s.life.finishPc
          && t.recorder == s.recorder && t.recording == s.recording)
  }

  lemma ApartKeepsAccount(s: S, t: S, u: Upload)
    requires Accounted(s, u) && Apart(s, t) && (s.life.finishPc != Idle ==> s.life.phase != Closed)
    ensures Accounted(t, u)
  {
  }

  lemma FinishIsApart(s: S)
    requires s.life.finishPc == Idle
    ensures Apart(s, Finish(s))
  {
    hide Hangup;
  }

  lemma EndIsApart(s: S, reason: EndReason)
    requires s.life.finishPc == Idle || Over(s)
    ensures Apart(s, End(s, reason))
  {
    hide EndLocally, Finish;
    if !Over(s) {
      EndLocallyGives(s, reason);
      EndLocallyReports(s, reason);
      FinishIsApart(EndLocally(s, reason));
    }
  }

  lemma EndLocallyReports(s: S, reason: EndReason)
    ensures EndLocally(s, reason).events == s.events
  {
    hide Relay;
    RelayKept(s.(life := s.life.(phase := Closing, endReason := Some(reason)), timers := NoTimers), Redactor.Flush);
  }

  lemma RefuseIsApart(s: S)
    requires s.life.sessionId == None && s.life.finishPc == Idle
    ensures Apart(s, Refuse(s))
  {
    hide End;
  }

  lemma CheckIsApart(s: S, a: CheckAnswer)
    requires Inv(s) && s.life.authPc == AwaitCheck
    ensures Apart(s, OnCheck(s, a))
  {
    hide Inv, End, Refuse, Finish, Redactor.Kept;
    CheckPhase(s);
    UncheckedIsIdle(s);
    RefuseIsApart(AuthAt(s, Returned));
    if a.Granted? {
      var t := s.(life := s.life.(sessionId := Some(a.id), authPc := Returned), recording := a.recording);
      FinishIsApart(t);
      if !Over(s) { EndIsApart(t.(expiresAt := a.expiresAt), GrantExpired); }
    }
  }

  lemma UncheckedIsIdle(s: S)
    requires Inv(s) && s.life.authPc == AwaitCheck
    ensures s.life.finishPc == Idle && s.life.phase != Closed && s.life.phase != Live
  {
    hide Log, Clock, Frames, Rel, Ast;
  }

  lemma SecretIsApart(s: S, a: Option<seq<Bytes>>)
    requires s.life.authPc.AwaitSecret? && s.life.authPc.left > 0
    ensures Apart(s, OnSecret(s, a))
  {
    hide Redactor.Kept;
  }

  lemma SshIsApart(s: S, c: bool)
    requires s.life.finishPc == Idle || Over(s)
    ensures Apart(s, OnSsh(s, c))
  {
    hide End;
    EndIsApart(AuthAt(s, Returned), Error);
  }

  lemma ShellIsApart(cfg: Config, s: S, a: ShellAnswer)
    requires s.life.finishPc == Idle || Over(s)
    ensures Apart(s, OnShell(cfg, s, a))
  {
    hide End, NoticeTimers;
    EndIsApart(AuthAt(s, Returned), Error);
    if s.life.phase == Connecting { EndIsApart(OpenedShell(s), Error); }
  }

  lemma SettledIsApart(cfg: Config, s: S, a: EventAnswer)
    requires s.events.settled < |s.events.issued| && (s.life.finishPc == Idle || Over(s))
    ensures Apart(s, OnSettled(cfg, s, a))
  {
    hide End, NoticeTimers;
    EndIsApart(Settle(s, 0), Killed);
    EndIsApart(Settle(s, s.events.failures + 1), Error);
  }

  lemma BrowserIsApart(cfg: Config, s: S, i: Input)
    requires Inv(s) && Enabled(s, i) && (i.MessageArrives? || i.AuthTimerFires?)
    ensures Apart(s, Step(cfg, s, i))
  {
    hide Inv, Refuse, Screen, Streamed;
    if s.life.phase == Auth {
      AuthPhase(s);
      RefuseIsApart(s);
      RefuseIsApart(s.(timers := s.timers.(auth := None)));
    }
  }

  lemma OutputIsApart(cfg: Config, s: S, i: Input)
    requires Enabled(s, i) && (i.FlushFires? || i.AssetOutput?)
    ensures Apart(s, Step(cfg, s, i))
  {
    hide Relay;
    RelayKept(s.(timers := s.timers.(flush := None)), Redactor.Flush);
    if i.AssetOutput? { RelayKept(s, Redactor.Push(i.chunk)); }
  }

  lemma EndingIsApart(cfg: Config, s: S, i: Input)
    requires Enabled(s, i) && (s.life.finishPc == Idle || Over(s))
    requires i.ClientGone? || i.KillRequest? || i.Shutdown? || i.SshFails? || i.SshCloses? || i.ExpiryFires?
    ensures Apart(s, Step(cfg, s, i))
  {
    hide End;
    EndIsApart(s, ClientClosed);
    EndIsApart(s, Killed);
    EndIsApart(s, Error);
    EndIsApart(s, SshClosed);
    if i.ExpiryFires? {
      var ts := s.timers.expiry;
      EndIsApart(s.(timers := s.timers.(expiry := ts[..i.i] + ts[i.i + 1..])), GrantExpired);
    }
  }

  lemma QuietIsApart(cfg: Config, s: S, i: Input)
    requires Enabled(s, i) && (i.Tick? || i.SocketDown? || i.HeartbeatFires?)
    ensures Apart(s, Step(cfg, s, i))
  {
  }

  lemma IdleOrOver(s: S)
    requires Inv(s)
    ensures s.life.finishPc == Idle || s.life.phase == Closing
  {
    hide Log, Clock, Frames, Rel, Ast;
  }

  lemma StepIsApart(cfg: Config, s: S, i: Input)
    requires Inv(s) && Enabled(s, i) && !i.FinishResumes?
    ensures Apart(s, Step(cfg, s, i))
  {
    hide Inv, Apart, OnCheck, OnSecret, OnSsh, OnShell, OnSettled;
    hide OnMessage, OnAuthTimer, OnFlushTimer, OnOutput, OnExpiryTimer, OnFinishResumes, End;
    IdleOrOver(s);
    match i
    case CheckAnswers(a) => CheckIsApart(s, a);
    case SecretAnswers(a) => SecretIsApart(s, a);
    case SshAnswers(c) => SshIsApart(s, c);
    case ShellAnswers(a) => ShellIsApart(cfg, s, a);
    case EventSettles(a) => SettledIsApart(cfg, s, a);
    case _ =>
      if i.MessageArrives? || i.AuthTimerFires? { BrowserIsApart(cfg, s, i); }
      else if i.FlushFires? || i.AssetOutput? { OutputIsApart(cfg, s, i); }
      else if i.Tick? || i.SocketDown? || i.HeartbeatFires? { QuietIsApart(cfg, s, i); }
      else { EndingIsApart(cfg, s, i); }
  }

  /** `finish` goes on, which only an identified session waits for. */
  lemma ResumingAccounts(s: S, u: Upload, ok: bool, urlExpired: bool)
    requires Accounted(s, u) && s.life.phase == Closing && s.life.sessionId != None && s.life.finishPc != Idle
    ensures Accounted(OnFinishResumes(s, ok, urlExpired), Uploaded(u, s, FinishResumes(ok, urlExpired)))
  {
  }

  lemma ResumesIdentified(s: S)
    requires Inv(s) && s.life.finishPc != Idle
    ensures s.life.phase == Closing && s.life.sessionId != None
  {
    hide Log, Clock, Frames, Rel, Ast;
  }

  lemma StepAccounts(cfg: Config, s: S, i: Input, u: Upload)
    requires Inv(s) && Enabled(s, i) && Accounted(s, u)
    ensures Accounted(Step(cfg, s, i), Uploaded(u, s, i))
  {
    hide Inv, Apart, Accounted, OnCheck, OnSecret, OnSsh, OnShell, OnSettled;
    hide OnMessage, OnAuthTimer, OnFlushTimer, OnOutput, OnExpiryTimer, OnFinishResumes, End;
    IdleOrOver(s);
    if i.FinishResumes? {
      ResumesIdentified(s);
      ResumingAccounts(s, u, i.ok, i.urlExpired);
    } else {
      StepIsApart(cfg, s, i);
      ApartKeepsAccount(s, Step(cfg, s, i), u);
    }
  }

  function UploadBy(run: seq<S>, ins: seq<Input>, k: nat): Upload
    requires k <= |ins| <= |run|
  {
    if k == 0 then Untouched else Uploaded(UploadBy(run, ins, k - 1), run[k - 1], ins[k - 1])
  }

  lemma {:induction false} RunAccounts(cfg: Config, run: seq<S>, ins: seq<Input>, k: nat)
    requires IsRun(cfg, run, ins) && k < |run|
    ensures |run| == |ins| + 1 && Accounted(run[k], UploadBy(run, ins, k))
    decreases k
  {
    hide IsRun, Inv, Enabled, Step, Accounted, Uploaded;
    RunLength(cfg, run, ins);
    if k == 0 {
      StartsUnaccounted(cfg, run, ins);
    } else {
      RunAccounts(cfg, run, ins, k - 1);
      RunStep(cfg, run, ins, k - 1);
      RunInv(cfg, run, ins, k - 1);
      StepAccounts(cfg, run[k - 1], ins[k - 1], UploadBy(run, ins, k - 1));
    }
  }

  lemma StartsUnaccounted(cfg: Config, run: seq<S>, ins: seq<Input>)
    requires IsRun(cfg, run, ins)
    ensures Accounted(run[0], Untouched)
  {
    hide Enabled, Step;
  }

  /** What became of a finished session's recording, from the outcomes of its own calls: it was stored, and
      reported so, if an upload succeeded, after at most three failures; it is reported as failed after four
      failures; otherwise the file could not be closed, and nothing is reported. */
  lemma RecordingIsAccountedFor(cfg: Config, run: seq<S>, ins: seq<Input>, k: nat)
    requires IsRun(cfg, run, ins) && k < |run| && run[k].life.phase == Closed && run[k].life.sessionId != None
    ensures |run| == |ins| + 1
    ensures var u, es := UploadBy(run, ins, k), run[k].events.issued;
            && (RecordingStored in es <==> u.stored) && (UploadFailed in es <==> u.failed == 4)
            && (u.stored ==> u.failed < 4)
            && (if run[k].recorder && run[k].recording then u.stored || u.failed == 4 || u.lost else u == Untouched)
  {
    hide IsRun;
    RunAccounts(cfg, run, ins, k);
    RunInv(cfg, run, ins, k);
    ClosedIsIdle(run[k]);
  }

  lemma ClosedIsIdle(s: S)
    requires Inv(s) && s.life.phase == Closed
    ensures s.life.finishPc == Idle
  {
    hide Log, Clock, Frames, Rel, Ast;
  }

  // ---- whether there is a recording ----

  /** The API asked for a recording when it granted the session. */
  function Asked(ins: seq<Input>, k: nat): bool
    requires k <= |ins|
  {
    if k == 0 then false
    else if ins[k - 1].CheckAnswers? && ins[k - 1].check.Granted? then ins[k - 1].check.recording
    else Asked(ins, k - 1)
  }

  lemma CheckRecords(s: S, a: CheckAnswer)
    requires Inv(s) && s.life.authPc == AwaitCheck
    ensures var t := OnCheck(s, a);
            t.recorder == s.recorder && t.recording == if a.Granted? then a.recording else s.recording
  {
    hide Inv, End, Refuse, Finish, Redactor.Kept;
    EndsKept();
    RefuseKept(AuthAt(s, Returned));
    if a.Granted? {
      FinishKept(s.(life := s.life.(sessionId := Some(a.id), authPc := Returned), recording := a.recording));
    }
  }

  lemma ShellRecords(cfg: Config, s: S, a: ShellAnswer)
    ensures var t := OnShell(cfg, s, a);
            && t.recording == s.recording && (t.life.phase == Live && s.life.phase == Connecting ==>
                t.recorder == s.recording)
            && (s.life.phase != Connecting ==> t.recorder == s.recorder)
  {
    hide End, NoticeTimers;
    EndsKept();
    EndIsNotLive(AuthAt(s, Returned), Error);
    EndIsNotLive(OpenedShell(s), Error);
  }

  lemma OthersKeepRecording(cfg: Config, s: S, i: Input)
    requires Enabled(s, i) && !i.CheckAnswers? && !i.ShellAnswers?
    ensures var t := Step(cfg, s, i); t.recorder == s.recorder && t.recording == s.recording
  {
    hide End, Refuse, Relay, Redactor.Kept, NoticeTimers, OnCheck, OnShell, OnFinishResumes;
    EndsKept();
    match i
    case MessageArrives(_) => RefuseKept(s);
    case AuthTimerFires => RefuseKept(s.(timers := s.timers.(auth := None)));
    case AssetOutput(chunk, _) => RelayKept(s, Redactor.Push(chunk));
    case FlushFires => RelayKept(s.(timers := s.timers.(flush := None)), Redactor.Flush);
    case FinishResumes(_, _) => ResumingKept(s, i);
    case _ =>
  }

  /** Live exactly with the recorder that was asked for. */
  ghost predicate RecordsAs(s: S, asked: bool) {
    s.recording == asked && (s.life.phase == Live ==> s.recorder == asked)
  }

  lemma StepRecords(cfg: Config, s: S, i: Input, asked: bool)
    requires Inv(s) && Enabled(s, i) && RecordsAs(s, asked)
    ensures RecordsAs(Step(cfg, s, i), if i.CheckAnswers? && i.check.Granted? then i.check.recording else asked)
  {
    hide Inv, Step, Enabled;
    var t := Step(cfg, s, i);
    if t.life.phase == Live {
      if s.life.phase == Live { LiveDisables(s, i); } else { BecomesLive(cfg, s, i); }
    }
    if i.CheckAnswers? {
      CheckStepRecords(cfg, s, i);
    } else if i.ShellAnswers? {
      ShellStepRecords(cfg, s, i);
    } else {
      OthersKeepRecording(cfg, s, i);
    }
  }

  lemma CheckStepRecords(cfg: Config, s: S, i: Input)
    requires Inv(s) && Enabled(s, i) && i.CheckAnswers?
    ensures var t := Step(cfg, s, i);
            t.recorder == s.recorder && t.recording == if i.check.Granted? then i.check.recording else s.recording
  {
    hide Inv, OnCheck;
    CheckRecords(s, i.check);
  }

  lemma ShellStepRecords(cfg: Config, s: S, i: Input)
    requires Enabled(s, i) && i.ShellAnswers?
    ensures var t := Step(cfg, s, i);
            && t.recording == s.recording && (t.life.phase == Live && s.life.phase == Connecting ==>
                t.recorder == s.recording)
  {
    hide OnShell;
    ShellRecords(cfg, s, i.shell);
  }

  /** A live session records exactly if the API asked for it. */
  lemma {:induction false} LiveIsRecorded(cfg: Config, run: seq<S>, ins: seq<Input>, k: nat)
    requires IsRun(cfg, run, ins) && k < |run|
    ensures |run| == |ins| + 1 && RecordsAs(run[k], Asked(ins, k))
    decreases k
  {
    hide IsRun, Inv, Enabled, Step, RecordsAs;
    RunLength(cfg, run, ins);
    if k == 0 {
      StartsUnrecorded(cfg, run, ins);
    } else {
      LiveIsRecorded(cfg, run, ins, k - 1);
      RunStep(cfg, run, ins, k - 1);
      RunInv(cfg, run, ins, k - 1);
      StepRecords(cfg, run[k - 1], ins[k - 1], Asked(ins, k - 1));
    }
  }

  lemma StartsUnrecorded(cfg: Config, run: seq<S>, ins: seq<Input>)
    requires IsRun(cfg, run, ins)
    ensures RecordsAs(run[0], false)
  {
    hide Enabled, Step;
  }

  /** Once live, the recorder stays with the session to its end. */
  lemma {:induction false} RecorderStays(cfg: Config, run: seq<S>, ins: seq<Input>, j: nat, k: nat)
    requires IsRun(cfg, run, ins) && j <= k < |run| && run[j].life.phase == Live
    ensures run[k].life.authPc == Returned && run[k].recorder == run[j].recorder && run[k].recording == run[j].recording
    decreases k
  {
    hide IsRun, Inv, Enabled, Step;
    RunLength(cfg, run, ins);
    RunInv(cfg, run, ins, j);
    LivePcIsReturned(run[j]);
    if j < k {
      RecorderStays(cfg, run, ins, j, k - 1);
      RunStep(cfg, run, ins, k - 1);
      RunForward(cfg, run, ins, j, k - 1);
      ReturnedDisables(run[k - 1], ins[k - 1]);
      OthersKeepLoad(cfg, run[k - 1], ins[k - 1]);
      OthersKeepRecording(cfg, run[k - 1], ins[k - 1]);
    }
  }

  lemma LivePcIsReturned(s: S)
    requires Inv(s)
    ensures s.life.phase == Live ==> s.life.authPc == Returned
  {
    hide Log, Clock, Frames, Rel, Ast;
  }

  lemma ReturnedDisables(s: S, i: Input)
    requires Enabled(s, i) && s.life.authPc == Returned
    ensures !i.ShellAnswers? && !i.CheckAnswers? && !i.SecretAnswers? && !i.SshAnswers?
  {
  }
}
