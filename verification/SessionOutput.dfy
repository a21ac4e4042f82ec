/** What becomes of the asset's output, against the history of its inputs: the redactor is given every
    chunk that arrives while the session is live, and everything it holds is released when its timer fires
    and when the session ends. */
module SessionOutput {
  import opened Options
  import opened Scrub
  import Redactor
  import opened SessionModel
  import opened SessionInvariant
  import opened SessionSteps
  import opened SessionRuns
  import opened SessionTraces
  import opened SessionReports

  /** The redactor calls that one input makes. */
  function Relayed(s: S, i: Input): seq<Redactor.Op> {
    if s.life.phase != Live then []
    else if i.AssetOutput? then [Redactor.Push(i.chunk)]
    else if i.FlushFires? || EndsWith(s, i) != None then [Redactor.Flush]
    else []
  }

  function RelayedBy(run: seq<S>, ins: seq<Input>, k: nat): seq<Redactor.Op>
    requires k <= |ins| <= |run|
  {
    if k == 0 then [] else RelayedBy(run, ins, k - 1) + Relayed(run[k - 1], ins[k - 1])
  }

  /** The redactor is where these calls bring it; there were none before the session was live. */
  ghost predicate Streams(s: S, ops: seq<Redactor.Op>) {
    && s.red.shown == Redactor.Stream(s.secrets, ops).shown
    && s.red.held == Redactor.Stream(s.secrets, ops).held
    && (s.life.phase == Auth || s.life.phase == Connecting || s.life.authPc != Returned ==> ops == [])
  }

  lemma StepSame(secrets: seq<Secret>, r: Redactor.Run, r': Redactor.Run, op: Redactor.Op)
    requires r.shown == r'.shown && r.held == r'.held
    ensures Redactor.Step(secrets, r, op).shown == Redactor.Step(secrets, r', op).shown
    ensures Redactor.Step(secrets, r, op).held == Redactor.Step(secrets, r', op).held
  {
  }

  /** One more call in a live session. */
  lemma CallStreams(s: S, t: S, ops: seq<Redactor.Op>, op: Redactor.Op)
    requires Streams(s, ops) && t.secrets == s.secrets && t.red == Redactor.Step(s.secrets, s.red, op)
    requires t.life.phase != Auth && t.life.phase != Connecting && t.life.authPc == Returned
    ensures Streams(t, ops + [op])
  {
    hide Redactor.Step, Redactor.Stream;
    Redactor.StreamSnoc(s.secrets, ops, op);
    StepSame(s.secrets, s.red, Redactor.Stream(s.secrets, ops), op);
  }

  lemma SameStreams(s: S, t: S, ops: seq<Redactor.Op>)
    requires Streams(s, ops) && t.secrets == s.secrets && t.red == s.red
    requires t.life.phase != Auth && t.life.phase != Connecting && t.life.authPc == Returned
    ensures Streams(t, ops)
  {
  }

  lemma NothingStreams(t: S)
    requires t.red.shown == [] && t.red.held == []
    ensures Streams(t, [])
  {
  }

  // ---- a live session ----

  lemma EndReleases(s: S, reason: EndReason)
    requires !Over(s)
    ensures End(s, reason).red == Redactor.Step(s.secrets, s.red, Redactor.Flush)
  {
    hide Redactor.Step, IssueAndWait;
    FinishKeepsRed(EndLocally(s, reason));
  }

  lemma FinishKeepsRed(s: S)
    ensures Finish(s).red == s.red
  {
  }

  lemma LiveCall(cfg: Config, s: S, i: Input)
    requires Inv(s) && Enabled(s, i) && s.life.phase == Live && (i.AssetOutput? || i.FlushFires?)
    ensures var t := Step(cfg, s, i);
            && t.red == Redactor.Step(s.secrets, s.red, if i.AssetOutput? then Redactor.Push(i.chunk)
                else Redactor.Flush)
            && t.secrets == s.secrets && t.life == s.life
  {
    hide Inv, Redactor.Step;
  }

  lemma LiveReleases(cfg: Config, s: S, i: Input)
    requires Inv(s) && Enabled(s, i) && s.life.phase == Live && EndsWith(s, i) != None
    ensures var t := Step(cfg, s, i); t.red == Redactor.Step(s.secrets, s.red, Redactor.Flush) && t.secrets == s.secrets
  {
    hide Inv, Redactor.Step, End, NoticeTimers, OnCheck, OnSecret, OnSsh, OnShell;
    LiveDisables(s, i);
    EndReleases(s, ClientClosed);
    EndReleases(s, Killed);
    EndReleases(s, Error);
    EndReleases(s, SshClosed);
    EndsKept();
    if i.ExpiryFires? {
      var ts := s.timers.expiry;
      EndReleases(s.(timers := s.timers.(expiry := ts[..i.i] + ts[i.i + 1..])), GrantExpired);
    } else if i.EventSettles? {
      EndReleases(Settle(s, 0), Killed);
      EndReleases(Settle(s, s.events.failures + 1), Error);
    }
  }

  lemma LiveKeeps(cfg: Config, s: S, i: Input)
    requires Inv(s) && Enabled(s, i) && s.life.phase == Live && EndsWith(s, i) == None
    requires !i.AssetOutput? && !i.FlushFires?
    ensures var t := Step(cfg, s, i); t.red == s.red && t.secrets == s.secrets
  {
    hide Inv, Redactor.Step, End, NoticeTimers, OnCheck, OnSecret, OnSsh, OnShell, OnFinishResumes;
    LiveDisables(s, i);
  }

  lemma LiveIsReturned(s: S)
    requires Inv(s) && s.life.phase == Live
    ensures s.life.authPc == Returned
  {
    hide Log, Clock, Frames, Rel, Ast;
  }

  lemma LiveStreams(cfg: Config, s: S, i: Input, ops: seq<Redactor.Op>)
    requires Inv(s) && Enabled(s, i) && s.life.phase == Live && Streams(s, ops)
    ensures Streams(Step(cfg, s, i), ops + Relayed(s, i))
  {
    hide Inv, Streams, Step, Enabled, EndsWith, Redactor.Step;
    var t := Step(cfg, s, i);
    LiveIsReturned(s);
    StepForward(cfg, s, i);
    StepPastOfLive(cfg, s, i);
    if i.AssetOutput? {
      LiveCall(cfg, s, i);
      CallStreams(s, t, ops, Redactor.Push(i.chunk));
    } else if i.FlushFires? {
      LiveCall(cfg, s, i);
      CallStreams(s, t, ops, Redactor.Flush);
    } else if EndsWith(s, i) != None {
      LiveReleases(cfg, s, i);
      CallStreams(s, t, ops, Redactor.Flush);
    } else {
      LiveKeeps(cfg, s, i);
      SameStreams(s, t, ops);
      assert ops + [] == ops;
    }
  }

  lemma StepPastOfLive(cfg: Config, s: S, i: Input)
    requires Inv(s) && Enabled(s, i) && s.life.phase == Live
    ensures Step(cfg, s, i).life.authPc == Returned
  {
    hide Inv, Step, Enabled;
    LiveIsReturned(s);
    LiveDisables(s, i);
    OthersKeepLoad(cfg, s, i);
  }

  // ---- before and after ----

  lemma EndOfNothing(s: S, reason: EndReason)
    requires s.red.shown == [] && s.red.held == []
    ensures End(s, reason).red.shown == [] && End(s, reason).red.held == []
  {
    hide Redactor.Step;
    if !Over(s) {
      EndReleases(s, reason);
      Redactor.StepAppends(s.secrets, s.red, Redactor.Flush);
    }
  }

  lemma EndsOfNothing()
    ensures forall s: S, reason: EndReason | s.red.shown == [] && s.red.held == [] ::
              End(s, reason).red.shown == [] && End(s, reason).red.held == []
  {
    hide End;
    forall s: S, reason: EndReason | s.red.shown == [] && s.red.held == []
      ensures End(s, reason).red.shown == [] && End(s, reason).red.held == []
    {
      EndOfNothing(s, reason);
    }
  }

  lemma SilentAnswers(cfg: Config, s: S, i: Input)
    requires Inv(s) && Enabled(s, i) && s.red.shown == [] && s.red.held == []
    requires i.CheckAnswers? || i.SecretAnswers? || i.SshAnswers? || i.ShellAnswers?
    ensures Step(cfg, s, i).red.shown == [] && Step(cfg, s, i).red.held == []
  {
    hide Inv, End, Finish, Redactor.Kept, NoticeTimers;
    EndsOfNothing();
    match i
    case CheckAnswers(a) =>
      if a.Granted? {
        FinishKeepsRed(s.(life := s.life.(sessionId := Some(a.id), authPc := Returned), recording := a.recording));
      }
    case _ =>
  }

  lemma SilentOthers(cfg: Config, s: S, i: Input)
    requires Enabled(s, i) && s.red.shown == [] && s.red.held == [] && s.life.phase != Live
    requires !i.CheckAnswers? && !i.SecretAnswers? && !i.SshAnswers? && !i.ShellAnswers?
    ensures Step(cfg, s, i).red.shown == [] && Step(cfg, s, i).red.held == []
  {
    hide End, Relay, NoticeTimers, OnFinishResumes, OnCheck, OnSecret, OnSsh, OnShell;
    EndsOfNothing();
    match i
    case FlushFires => FlushOfNothing(s.(timers := s.timers.(flush := None)));
    case FinishResumes(ok, e) => ResumingKeepsRed(s, ok, e);
    case _ =>
  }

  lemma FlushOfNothing(s: S)
    requires s.red.shown == [] && s.red.held == []
    ensures Relay(s, Redactor.Flush).red.shown == [] && Relay(s, Redactor.Flush).red.held == []
  {
  }

  lemma ResumingKeepsRed(s: S, ok: bool, urlExpired: bool)
    ensures OnFinishResumes(s, ok, urlExpired).red == s.red
  {
  }

  lemma SilentStays(cfg: Config, s: S, i: Input)
    requires Inv(s) && Enabled(s, i) && s.red.shown == [] && s.red.held == [] && s.life.phase != Live
    ensures Step(cfg, s, i).red.shown == [] && Step(cfg, s, i).red.held == []
  {
    hide Inv, Step, Enabled;
    if i.CheckAnswers? || i.SecretAnswers? || i.SshAnswers? || i.ShellAnswers? {
      SilentAnswers(cfg, s, i);
    } else {
      SilentOthers(cfg, s, i);
    }
  }

  lemma OverKeepsRed(cfg: Config, s: S, i: Input)
    requires Inv(s) && Enabled(s, i) && Over(s) && s.life.authPc == Returned
    ensures Step(cfg, s, i).red == s.red && Step(cfg, s, i).secrets == s.secrets
    ensures Step(cfg, s, i).life.authPc == Returned
  {
    hide Inv, Step, Enabled;
    OthersKeepLoadWhenReturned(cfg, s, i);
    OverRelaysNothing(cfg, s, i);
  }

  lemma OthersKeepLoadWhenReturned(cfg: Config, s: S, i: Input)
    requires Enabled(s, i) && Over(s) && s.life.authPc == Returned
    ensures Step(cfg, s, i).secrets == s.secrets && Step(cfg, s, i).life.authPc == Returned
    ensures !i.CheckAnswers? && !i.SecretAnswers? && !i.SshAnswers? && !i.ShellAnswers?
  {
    hide Step;
    OthersKeepLoad(cfg, s, i);
  }

  lemma OverRelaysNothing(cfg: Config, s: S, i: Input)
    requires Inv(s) && Enabled(s, i) && Over(s)
    requires !i.CheckAnswers? && !i.SecretAnswers? && !i.SshAnswers? && !i.ShellAnswers?
    ensures Step(cfg, s, i).red == s.red
  {
    hide Inv, OnFlushTimer, OnSettled, OnFinishResumes, End;
    NotLiveIsOver(s);
    EndIsOver(s, ClientClosed);
    EndIsOver(s, Killed);
    EndIsOver(s, Error);
    EndIsOver(s, SshClosed);
    match i
    case EventSettles(a) => SettledOver(cfg, s, a);
    case FinishResumes(ok, e) => ResumingKeepsRed(s, ok, e);
    case _ =>
  }

  lemma StepStreams(cfg: Config, s: S, i: Input, ops: seq<Redactor.Op>)
    requires Inv(s) && Enabled(s, i) && Streams(s, ops)
    ensures Streams(Step(cfg, s, i), ops + Relayed(s, i))
  {
    hide Inv, Step, Enabled, EndsWith, Redactor.Step;
    var t := Step(cfg, s, i);
    assert ops + [] == ops;
    if s.life.phase == Live {
      LiveStreams(cfg, s, i, ops);
    } else if Over(s) && s.life.authPc == Returned {
      OverKeepsRed(cfg, s, i);
      OverKeepsReason(cfg, s, i);
    } else {
      SilentStays(cfg, s, i);
      NothingStreams(t);
    }
  }

  /** The redactor has been given exactly the chunks that arrived while the session was live, whole and in
      order, and was flushed exactly when its timer fired and when the session ended. */
  lemma {:induction false} OutputIsRelayed(cfg: Config, run: seq<S>, ins: seq<Input>, k: nat)
    requires IsRun(cfg, run, ins) && k < |run|
    ensures |run| == |ins| + 1 && Streams(run[k], RelayedBy(run, ins, k))
    decreases k
  {
    hide IsRun, Inv, Enabled, Step, Streams, Relayed;
    RunLength(cfg, run, ins);
    if k == 0 {
      StartsSilent(cfg, run, ins);
    } else {
      OutputIsRelayed(cfg, run, ins, k - 1);
      RunStep(cfg, run, ins, k - 1);
      RunInv(cfg, run, ins, k - 1);
      StepStreams(cfg, run[k - 1], ins[k - 1], RelayedBy(run, ins, k - 1));
    }
  }

  lemma StartsSilent(cfg: Config, run: seq<S>, ins: seq<Input>)
    requires IsRun(cfg, run, ins)
    ensures Streams(run[0], [])
  {
    hide Enabled, Step;
  }

  /** Nothing of the output is lost when a session ends: what the redactor held is released to the browser
      in that very step, while the socket is still open. */
  lemma EndLosesNothing(cfg: Config, run: seq<S>, ins: seq<Input>, k: nat)
    requires IsRun(cfg, run, ins) && k < |ins| && run[k].life.phase == Live && EndsWith(run[k], ins[k]) != None
    ensures |run| == |ins| + 1 && run[k + 1].red.held == []
    ensures run[k + 1].red.shown == run[k].red.shown + run[k].red.held
  {
    hide IsRun, Inv, Enabled, Step, EndsWith, Redactor.Step;
    RunLength(cfg, run, ins);
    RunInv(cfg, run, ins, k);
    RunStep(cfg, run, ins, k);
    LiveReleases(cfg, run[k], ins[k]);
    Redactor.StepAppends(run[k].secrets, run[k].red, Redactor.Flush);
  }
}
