/** A terminal session against the history of its inputs: what it scrubs, what the shell received, why it
    ended, what it reported, and what becomes of its recording. Nothing here refers to the handlers. */
module SessionTraces {
  import opened Options
  import opened Scrub
  import opened ScrubLaws
  import Redactor
  import RedactorStream
  import opened SessionModel
  import opened SessionInvariant
  import opened SessionSteps
  import opened SessionRuns

  // ---- what ending leaves alone ----

  ghost predicate Kept(s: S, t: S) {
    && t.values == s.values && t.secrets == s.secrets && t.life.authPc == s.life.authPc
    && t.asset.written == s.asset.written && t.now == s.now
    && t.recording == s.recording && t.recorder == s.recorder
    && t.events.settled == s.events.settled && t.events.failures == s.events.failures
  }

  lemma RelayKept(s: S, op: Redactor.Op)
    ensures Kept(s, Relay(s, op)) && Relay(s, op) == s.(red := Relay(s, op).red, browser := Relay(s, op).browser)
  {
    hide Redactor.Step;
  }

  lemma FinishKept(s: S)
    ensures Kept(s, Finish(s))
  {
    hide IssueAndWait;
    var c := if s.life.phase == Closing then s
             else s.(life := s.life.(phase := Closing, endReason := Some(FinishReason(s.life))),
                     timers := NoTimers.(flush := s.timers.flush), asset := s.asset.(ssh := Hangup(s.asset.ssh)));
    IssueKept(c, ErrorReport, AfterError);
    IssueKept(c, Ended(FinishReason(c.life)), AfterEnded);
  }

  lemma EndLocallyKept(s: S, reason: EndReason)
    ensures Kept(s, EndLocally(s, reason))
  {
    hide Relay;
    var c := s.(life := s.life.(phase := Closing, endReason := Some(reason)), timers := NoTimers);
    RelayKept(c, Redactor.Flush);
  }

  lemma EndKept(s: S, reason: EndReason)
    ensures Kept(s, End(s, reason))
  {
    hide EndLocally, Finish;
    EndLocallyKept(s, reason);
    FinishKept(EndLocally(s, reason));
  }

  lemma EndsKept()
    ensures forall s: S, reason: EndReason :: Kept(s, End(s, reason))
  {
    hide Kept, End;
    forall s: S, reason: EndReason ensures Kept(s, End(s, reason)) { EndKept(s, reason); }
  }

  lemma RefuseKept(s: S)
    ensures Kept(s, Refuse(s))
  {
    hide End;
    EndKept(s, Error);
  }

  // ---- the secrets ----

  /** Until the first secret is asked for there are none; from the last answer on, the redactor has what
      was collected. */
  ghost predicate Loaded(s: S) {
    match s.life.authPc
    case NotStarted => s.values == [] && s.secrets == []
    case AwaitCheck => s.values == [] && s.secrets == []
    case AwaitSecret(_) => true
    case _ => s.secrets == Redactor.Kept(s.values)
  }

  function Answered(i: Input): seq<Bytes> {
    if i.SecretAnswers? && i.secret.Some? then i.secret.value else []
  }

  lemma CheckLoads(s: S, a: CheckAnswer)
    requires Loaded(s) && s.life.authPc == AwaitCheck
    ensures Loaded(OnCheck(s, a)) && OnCheck(s, a).values == s.values
  {
    hide End, Refuse, Finish, Redactor.Kept;
    NoneKept();
    RefuseKept(AuthAt(s, Returned));
    if a.Granted? {
      var t := s.(life := s.life.(sessionId := Some(a.id), authPc := Returned), recording := a.recording);
      FinishKept(t);
      EndKept(t.(expiresAt := a.expiresAt), GrantExpired);
    }
  }

  lemma NoneKept()
    ensures Redactor.Kept([]) == []
  {
  }

  lemma SecretLoads(s: S, a: Option<seq<Bytes>>)
    requires s.life.authPc.AwaitSecret? && s.life.authPc.left > 0
    ensures Loaded(OnSecret(s, a))
    ensures OnSecret(s, a).values == s.values + if a.Some? then a.value else []
  {
    hide Redactor.Kept;
  }

  lemma ConnectLoads(cfg: Config, s: S)
    requires Loaded(s)
    ensures s.life.authPc == AwaitSsh ==> forall c :: Loaded(OnSsh(s, c)) && OnSsh(s, c).values == s.values
    ensures s.life.authPc == AwaitShell ==>
              forall a :: Loaded(OnShell(cfg, s, a)) && OnShell(cfg, s, a).values == s.values
  {
    hide End, Redactor.Kept, NoticeTimers;
    EndsKept();
  }

  lemma OthersKeepLoad(cfg: Config, s: S, i: Input)
    requires Enabled(s, i) && !i.CheckAnswers? && !i.SecretAnswers? && !i.SshAnswers? && !i.ShellAnswers?
    ensures var t := Step(cfg, s, i);
            && t.values == s.values && t.secrets == s.secrets
            && (t.life.authPc == s.life.authPc || (t.life.authPc == AwaitCheck && s.life.phase == Auth))
  {
    hide End, Refuse, Relay, Redactor.Kept, NoticeTimers, OnCheck, OnSecret, OnSsh, OnShell;
    EndsKept();
    match i
    case MessageArrives(_) => RefuseKept(s);
    case AuthTimerFires => RefuseKept(s.(timers := s.timers.(auth := None)));
    case AssetOutput(chunk, _) => RelayKept(s, Redactor.Push(chunk));
    case FlushFires => RelayKept(s.(timers := s.timers.(flush := None)), Redactor.Flush);
    case FinishResumes(_, _) => ResumingKept(s, i);
    case _ =>
  }

  lemma ResumingKept(s: S, i: Input)
    requires i.FinishResumes?
    ensures Kept(s, OnFinishResumes(s, i.ok, i.urlExpired))
  {
    hide IssueAndWait;
    IssueKept(s, Ended(FinishReason(s.life)), AfterEnded);
    IssueKept(s, RecordingStored, AfterStored);
    IssueKept(s, UploadFailed, AfterUploadFailed);
  }

  lemma IssueKept(s: S, e: Event, next: After)
    ensures Kept(s, IssueAndWait(s, e, next))
  {
  }

  lemma AuthIsUnstarted(s: S)
    requires Inv(s) && s.life.phase == Auth
    ensures s.life.authPc == NotStarted
  {
    hide Log, Clock, Frames, Rel, Ast;
  }

  lemma StepLoads(cfg: Config, s: S, i: Input)
    requires Inv(s) && Enabled(s, i) && Loaded(s)
    ensures Loaded(Step(cfg, s, i)) && Step(cfg, s, i).values == s.values + Answered(i)
  {
    hide Inv, Redactor.Kept, OnAuthTimer, OnExpiryTimer, OnFlushTimer, OnMessage, OnCheck, OnSecret, OnSsh, OnShell;
    hide OnOutput, OnSettled, OnFinishResumes, End;
    match i
    case CheckAnswers(a) => CheckLoads(s, a);
    case SecretAnswers(a) => SecretLoads(s, a);
    case SshAnswers(_) => ConnectLoads(cfg, s);
    case ShellAnswers(_) => ConnectLoads(cfg, s);
    case _ =>
      OthersKeepLoad(cfg, s, i);
      if s.life.phase == Auth { AuthIsUnstarted(s); }
  }

  /** Everything that the API answered to requests for secrets so far, in order. */
  function Delivered(ins: seq<Input>, k: nat): seq<Bytes>
    requires k <= |ins|
  {
    if k == 0 then [] else Delivered(ins, k - 1) + Answered(ins[k - 1])
  }

  lemma {:induction false} ValuesAreDelivered(cfg: Config, run: seq<S>, ins: seq<Input>, k: nat)
    requires IsRun(cfg, run, ins) && k < |run|
    ensures |run| == |ins| + 1 && Loaded(run[k]) && run[k].values == Delivered(ins, k)
    decreases k
  {
    hide IsRun, Inv, Enabled, Step, Loaded;
    RunLength(cfg, run, ins);
    if k == 0 {
      StartsUnloaded(cfg, run, ins);
    } else {
      ValuesAreDelivered(cfg, run, ins, k - 1);
      RunStep(cfg, run, ins, k - 1);
      RunInv(cfg, run, ins, k - 1);
      StepLoads(cfg, run[k - 1], ins[k - 1]);
    }
  }

  lemma StartsUnloaded(cfg: Config, run: seq<S>, ins: seq<Input>)
    requires IsRun(cfg, run, ins)
    ensures Loaded(run[0]) && run[0].values == []
  {
    hide Enabled, Step;
  }

  /** Some answer before `k` delivered the value. */
  ghost predicate WasDelivered(ins: seq<Input>, k: nat, v: Bytes)
    requires k <= |ins|
  {
    exists j :: 0 <= j < k && v in Answered(ins[j])
  }

  lemma {:induction false} DeliveredMeans(ins: seq<Input>, k: nat, v: Bytes)
    requires k <= |ins|
    ensures v in Delivered(ins, k) <==> WasDelivered(ins, k, v)
  {
    if k > 0 {
      DeliveredMeans(ins, k - 1, v);
      if WasDelivered(ins, k, v) {
        var j :| 0 <= j < k && v in Answered(ins[j]);
        if j < k - 1 { assert WasDelivered(ins, k - 1, v); }
      }
    }
  }

  /** Past the requests for secrets: they are answered, or the session never got to ask for them. */
  predicate PastSecrets(s: S) {
    s.life.authPc == AwaitSsh || s.life.authPc == AwaitShell || s.life.authPc == Returned
  }

  /** From the last answer on, the redactor has exactly the values of at least four bytes that the API
      delivered in any answer. */
  lemma ScrubsWhatWasDelivered(cfg: Config, run: seq<S>, ins: seq<Input>, k: nat, v: Bytes)
    requires IsRun(cfg, run, ins) && k < |run| && PastSecrets(run[k])
    ensures |run| == |ins| + 1 && (v in run[k].secrets <==> |v| >= 4 && WasDelivered(ins, k, v))
  {
    hide IsRun;
    ValuesAreDelivered(cfg, run, ins, k);
    DeliveredMeans(ins, k, v);
  }

  lemma LastAnswerIsPast(cfg: Config, s: S, i: Input)
    requires Enabled(s, i) && i.SecretAnswers? && s.life.authPc == AwaitSecret(1)
    ensures PastSecrets(Step(cfg, s, i))
  {
    hide Redactor.Kept;
  }

  lemma PastStaysPast(cfg: Config, s: S, i: Input)
    requires Inv(s) && Enabled(s, i) && PastSecrets(s)
    ensures PastSecrets(Step(cfg, s, i))
  {
    hide Inv, Redactor.Kept, OnAuthTimer, OnExpiryTimer, OnFlushTimer, OnMessage, OnCheck, OnSecret, OnSsh, OnShell;
    hide OnOutput, OnSettled, OnFinishResumes, End;
    match i
    case SshAnswers(c) => SshIsPast(s, c);
    case ShellAnswers(a) => ShellIsPast(cfg, s, a);
    case CheckAnswers(_) =>
    case SecretAnswers(_) =>
    case _ =>
      OthersKeepLoad(cfg, s, i);
      if s.life.phase == Auth { AuthIsUnstarted(s); }
  }

  lemma SshIsPast(s: S, c: bool)
    requires s.life.authPc == AwaitSsh
    ensures PastSecrets(OnSsh(s, c))
  {
    hide End;
    EndKept(AuthAt(s, Returned), Error);
  }

  lemma ShellIsPast(cfg: Config, s: S, a: ShellAnswer)
    ensures PastSecrets(OnShell(cfg, s, a))
  {
    hide End, NoticeTimers;
    EndsKept();
  }

  /** Once the last answer is there, that is so for good; and a session that shows anything is past it. */
  lemma {:induction false} PastFromLastAnswer(cfg: Config, run: seq<S>, ins: seq<Input>, j: nat, k: nat)
    requires IsRun(cfg, run, ins) && j < k < |run|
    requires |run| == |ins| + 1 && ins[j].SecretAnswers? && run[j].life.authPc == AwaitSecret(1)
    ensures PastSecrets(run[k])
    decreases k
  {
    hide IsRun, Inv, Enabled, Step, PastSecrets;
    RunStep(cfg, run, ins, k - 1);
    if k == j + 1 {
      LastAnswerIsPast(cfg, run[j], ins[j]);
    } else {
      PastFromLastAnswer(cfg, run, ins, j, k - 1);
      RunInv(cfg, run, ins, k - 1);
      PastStaysPast(cfg, run[k - 1], ins[k - 1]);
    }
  }

  lemma ShownIsPast(s: S)
    requires Inv(s) && s.red.shown != []
    ensures PastSecrets(s)
  {
    hide Log, Clock, Frames, Ast, Streamed, Redactor.Kept;
  }

  /** Of the star-safe values that the API delivered, none appears in what the browser received, except
      across the edge of an early release of the held window. */
  lemma BrowserSeesNothingDelivered(cfg: Config, run: seq<S>, ins: seq<Input>, k: nat, v: Bytes, i: int)
    requires IsRun(cfg, run, ins) && k < |run| && |run| == |ins| + 1
    requires forall w | |w| >= 4 && WasDelivered(ins, k, w) :: StarSafe(w)
    requires |v| >= 4 && WasDelivered(ins, k, v)
    requires OccursAt(Sent(run[k].browser.frames), v, i)
    ensures RedactorStream.Straddles(v, i, run[k].red.cuts)
  {
    hide IsRun, Inv, Sent, WasDelivered, StarSafe;
    ValuesAreDelivered(cfg, run, ins, k);
    forall w ensures w in run[k].values <==> WasDelivered(ins, k, w) { DeliveredMeans(ins, k, w); }
    BrowserSeesNoSecret(cfg, run, ins, k, v, i);
  }

  // ---- what the shell received ----

  /** What one input types into the shell of a live session. */
  function Types(s: S, i: Input): seq<ShellWrite> {
    if s.life.phase != Live then []
    else match i
      case MessageArrives(InputFrame(data)) => if data == [] then [] else [Typed(data)]
      case AssetOutput(_, Inject) => [Injected]
      case _ => []
  }

  lemma LiveHasStream(s: S)
    requires Inv(s) && s.life.phase == Live
    ensures s.asset.stream == Open
  {
    hide Ctl, Log, Clock, Frames, Rel;
  }

  lemma MessageTypes(s: S, m: Message)
    requires Inv(s)
    ensures OnMessage(s, m).asset.written == s.asset.written + Types(s, MessageArrives(m))
  {
    hide Inv, Refuse;
    if s.life.phase == Live { LiveHasStream(s); }
    RefuseKept(s);
  }

  lemma OutputTypes(s: S, chunk: Bytes, d: Sudo)
    requires Inv(s)
    ensures OnOutput(s, chunk, d).asset.written == s.asset.written + Types(s, AssetOutput(chunk, d))
  {
    hide Inv, Relay;
    if s.life.phase == Live { LiveHasStream(s); }
    RelayKept(s, Redactor.Push(chunk));
  }

  lemma AnswersTypeNothing(cfg: Config, s: S, i: Input)
    requires Enabled(s, i) && (i.CheckAnswers? || i.SecretAnswers? || i.SshAnswers? || i.ShellAnswers?)
    ensures Step(cfg, s, i).asset.written == s.asset.written
  {
    hide End, Refuse, Finish, Redactor.Kept, NoticeTimers;
    EndsKept();
    match i
    case CheckAnswers(a) =>
      RefuseKept(AuthAt(s, Returned));
      if a.Granted? {
        FinishKept(s.(life := s.life.(sessionId := Some(a.id), authPc := Returned), recording := a.recording));
      }
    case _ =>
  }

  lemma OthersTypeNothing(cfg: Config, s: S, i: Input)
    requires Enabled(s, i) && !i.MessageArrives? && !i.AssetOutput?
    requires !i.CheckAnswers? && !i.SecretAnswers? && !i.SshAnswers? && !i.ShellAnswers?
    ensures Step(cfg, s, i).asset.written == s.asset.written
  {
    hide End, Refuse, Relay, NoticeTimers, OnCheck, OnSecret, OnSsh, OnShell, OnMessage, OnOutput, OnFinishResumes;
    EndsKept();
    match i
    case AuthTimerFires => RefuseKept(s.(timers := s.timers.(auth := None)));
    case FlushFires => RelayKept(s.(timers := s.timers.(flush := None)), Redactor.Flush);
    case FinishResumes(_, _) => ResumingKept(s, i);
    case _ =>
  }

  lemma StepTypes(cfg: Config, s: S, i: Input)
    requires Inv(s) && Enabled(s, i)
    ensures Step(cfg, s, i).asset.written == s.asset.written + Types(s, i)
  {
    hide Inv, OnAuthTimer, OnExpiryTimer, OnFlushTimer, OnMessage, OnCheck, OnSecret, OnSsh, OnShell;
    hide OnOutput, OnSettled, OnFinishResumes, End;
    match i
    case MessageArrives(m) => MessageTypes(s, m);
    case AssetOutput(chunk, d) => OutputTypes(s, chunk, d);
    case _ =>
      if i.CheckAnswers? || i.SecretAnswers? || i.SshAnswers? || i.ShellAnswers? { AnswersTypeNothing(cfg, s, i); }
      else { OthersTypeNothing(cfg, s, i); }
  }

  function TypedBy(run: seq<S>, ins: seq<Input>, k: nat): seq<ShellWrite>
    requires k <= |ins| <= |run|
  {
    if k == 0 then [] else TypedBy(run, ins, k - 1) + Types(run[k - 1], ins[k - 1])
  }

  /** The shell received exactly the input frames that arrived while the session was live, whole and in
      order, and the stored password exactly where the responder injected it. */
  lemma {:induction false} ShellGetsLiveInput(cfg: Config, run: seq<S>, ins: seq<Input>, k: nat)
    requires IsRun(cfg, run, ins) && k < |run|
    ensures |run| == |ins| + 1 && run[k].asset.written == TypedBy(run, ins, k)
    decreases k
  {
    hide IsRun, Inv, Enabled, Step, Types;
    RunLength(cfg, run, ins);
    if k == 0 {
      StartsUntyped(cfg, run, ins);
    } else {
      ShellGetsLiveInput(cfg, run, ins, k - 1);
      RunStep(cfg, run, ins, k - 1);
      RunInv(cfg, run, ins, k - 1);
      StepTypes(cfg, run[k - 1], ins[k - 1]);
    }
  }

  lemma StartsUntyped(cfg: Config, run: seq<S>, ins: seq<Input>)
    requires IsRun(cfg, run, ins)
    ensures run[0].asset.written == []
  {
    hide Enabled, Step;
  }
}
