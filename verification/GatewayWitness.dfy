/** A run of the gateway in which a kill reaches nobody although a session with that id is live. */
module GatewayWitness {
  import opened Options
  import opened SessionModel
  import opened SessionRuns
  import opened GatewayModel

  const Plain := Upgrade(true, true, true)

  /** Connection 0 goes live under "s"; connection 1 is identified under the same id, and then its
      browser leaves and its end is reported. */
  function Occurrences(): seq<Occurrence> {
    [UpgradeRequest(Plain, 0), UpgradeRequest(Plain, 0),
     SessionInput(0, LateInputs()[0]), SessionInput(0, LateInputs()[1]), SessionInput(0, LateInputs()[2]),
     SessionInput(0, LateInputs()[3]),
     SessionInput(1, LateInputs()[0]), SessionInput(1, LateInputs()[1]),
     SessionInput(1, ClientGone), SessionInput(1, EventSettles(Lost)), SessionInput(1, FinishResumes(true, false))]
  }

  /** Two connections, in the states `x` and `y`. */
  function Both(max: nat, x: S, y: S, open: set<nat>, sessions: map<SessionId, nat>, log: seq<(SessionId, nat)>): G {
    G(max, map[0 := x, 1 := y], open, sessions, log, 2)
  }

  function Leaving(cfg: Config): S {
    End(LateRun(cfg)[2], ClientClosed)
  }

  function Reported(cfg: Config): S {
    Settle(Leaving(cfg), Leaving(cfg).events.failures)
  }

  function Gone(cfg: Config): S {
    MarkClosed(Reported(cfg))
  }

  function OrphanRun(cfg: Config, max: nat): seq<G> {
    var x := LateRun(cfg);
    var only0 := map["s" := 0];
    var log0 := [("s", 0)];
    var log1 := [("s", 0), ("s", 1)];
    [Empty(max), G(max, map[0 := x[0]], {0}, map[], [], 1), Both(max, x[0], x[0], {0, 1}, map[], []),
     Both(max, x[1], x[0], {0, 1}, map[], []), Both(max, x[2], x[0], {0, 1}, only0, log0),
     Both(max, x[3], x[0], {0, 1}, only0, log0),
     Both(max, x[4], x[0], {0, 1}, only0, log0), Both(max, x[4], x[1], {0, 1}, only0, log0),
     Both(max, x[4], x[2], {0, 1}, map["s" := 1], log1), Both(max, x[4], Leaving(cfg), {0, 1}, map["s" := 1], log1),
     Both(max, x[4], Reported(cfg), {0, 1}, map["s" := 1], log1), Both(max, x[4], Gone(cfg), {0}, map[], log1)]
  }

  ghost predicate Takes(cfg: Config, run: seq<G>, os: seq<Occurrence>, k: nat)
    requires k < |os| < |run|
  {
    CanOccur(run[k], os[k]) && run[k + 1] == Next(cfg, run[k], os[k])
  }

  // ---- what deliveries do to the pair ----

  lemma Move0(cfg: Config, g: G, x: S, y: S, i: Input)
    requires g == Both(g.max, x, y, g.connections, g.sessions, g.log)
    requires Enabled(x, i) && Step(cfg, x, i).life.sessionId == x.life.sessionId && Step(cfg, x, i).life.phase != Closed
    ensures CanOccur(g, SessionInput(0, i))
    ensures Next(cfg, g, SessionInput(0, i)) == Both(g.max, Step(cfg, x, i), y, g.connections, g.sessions, g.log)
  {
    hide Step, Enabled;
    assert map[0 := x, 1 := y][0 := Step(cfg, x, i)] == map[0 := Step(cfg, x, i), 1 := y];
  }

  lemma Move1(cfg: Config, g: G, x: S, y: S, i: Input)
    requires g == Both(g.max, x, y, g.connections, g.sessions, g.log)
    requires Enabled(y, i) && Step(cfg, y, i).life.sessionId == y.life.sessionId && Step(cfg, y, i).life.phase != Closed
    ensures CanOccur(g, SessionInput(1, i))
    ensures Next(cfg, g, SessionInput(1, i)) == Both(g.max, x, Step(cfg, y, i), g.connections, g.sessions, g.log)
  {
    hide Step, Enabled;
    assert map[0 := x, 1 := y][1 := Step(cfg, y, i)] == map[0 := x, 1 := Step(cfg, y, i)];
  }

  lemma Identify(cfg: Config, g: G, c: nat, x: S, y: S, i: Input)
    requires g == Both(g.max, x, y, g.connections, g.sessions, g.log) && c < 2
    requires var s := if c == 0 then x else y;
             Enabled(s, i) && s.life.sessionId == None && Step(cfg, s, i).life.sessionId == Some("s")
                 && Step(cfg, s, i).life.phase == Connecting
    ensures CanOccur(g, SessionInput(c, i))
    ensures var t := Step(cfg, if c == 0 then x else y, i);
            Next(cfg, g, SessionInput(c, i))
            == Both(g.max, if c == 0 then t else x, if c == 0 then y else t,
                    g.connections, g.sessions["s" := c], g.log + [("s", c)])
  {
    hide Step, Enabled;
    var t := Step(cfg, if c == 0 then x else y, i);
    assert map[0 := x, 1 := y][c := t] == map[0 := if c == 0 then t else x, 1 := if c == 0 then y else t];
  }

  lemma Close1(cfg: Config, g: G, x: S, y: S, i: Input)
    requires g == Both(g.max, x, y, {0, 1}, map["s" := 1], g.log)
    requires Enabled(y, i) && y.life.sessionId == Some("s") && y.life.phase != Closed
    requires Step(cfg, y, i).life.sessionId == Some("s") && Step(cfg, y, i).life.phase == Closed
    ensures CanOccur(g, SessionInput(1, i))
    ensures Next(cfg, g, SessionInput(1, i)) == Both(g.max, x, Step(cfg, y, i), {0}, map[], g.log)
  {
    hide Step, Enabled;
    assert map[0 := x, 1 := y][1 := Step(cfg, y, i)] == map[0 := x, 1 := Step(cfg, y, i)];
    assert {0, 1} - {1} == {0} && map["s" := 1] - {"s"} == map[];
  }

  // ---- the sessions ----

  lemma Lives(cfg: Config)
    ensures |LateRun(cfg)| == 7 && |LateInputs()| == 6
    ensures LateRun(cfg)[0].life.sessionId == None && LateRun(cfg)[0].life.phase == Auth
    ensures LateRun(cfg)[1].life.sessionId == None && LateRun(cfg)[1].life.phase == Connecting
    ensures forall k | 2 <= k < 4 ::
              LateRun(cfg)[k].life.sessionId == Some("s") && LateRun(cfg)[k].life.phase == Connecting
    ensures LateRun(cfg)[4].life.sessionId == Some("s") && LateRun(cfg)[4].life.phase == Live
  {
    hide Redactor.Kept;
  }

  lemma LeavingEnds(cfg: Config)
    ensures var s := Leaving(cfg);
            && s.life.phase == Closing && s.life.sessionId == Some("s") && s.life.finishPc == AwaitEvent(0, AfterEnded)
            && s.events == Events([Ended(ClientClosed)], 0, 0) && !s.recorder
  {
    hide Redactor.Kept, Redactor.Step;
  }

  lemma LeavingStep(cfg: Config)
    ensures Enabled(LateRun(cfg)[2], ClientGone) && Step(cfg, LateRun(cfg)[2], ClientGone) == Leaving(cfg)
  {
    hide End, Init, Redactor.Kept;
  }

  lemma ReportedStep(cfg: Config)
    ensures Enabled(Leaving(cfg), EventSettles(Lost)) && Step(cfg, Leaving(cfg), EventSettles(Lost)) == Reported(cfg)
    ensures Reported(cfg).life == Leaving(cfg).life && Reported(cfg).events.settled == 1 && !Reported(cfg).recorder
  {
    hide Leaving;
    LeavingEnds(cfg);
  }

  lemma GoneStep(cfg: Config)
    ensures Enabled(Reported(cfg), FinishResumes(true, false))
              && Step(cfg, Reported(cfg), FinishResumes(true, false)) == Gone(cfg)
    ensures Gone(cfg).life.phase == Closed && Gone(cfg).life.sessionId == Some("s")
  {
    hide Leaving, Reported;
    LeavingEnds(cfg);
    ReportedStep(cfg);
  }

  // ---- the run ----

  lemma Upgrades(cfg: Config, max: nat, k: nat)
    requires max >= 2 && k < 2
    ensures Takes(cfg, OrphanRun(cfg, max), Occurrences(), k)
  {
    hide Init, Step, Enabled, Leaving, Reported, Gone;
    FirstIsInit(cfg);
    match k
    case 0 =>
      assert Occurrences()[0] == UpgradeRequest(Plain, 0);
      assert {} + {0} == {0} && map[][0 := Init(cfg, 0)] == map[0 := Init(cfg, 0)];
    case 1 =>
      assert Occurrences()[1] == UpgradeRequest(Plain, 0);
      assert {0} + {1} == {0, 1} && |{0}| == 1;
      assert map[0 := Init(cfg, 0)][1 := Init(cfg, 0)] == map[0 := Init(cfg, 0), 1 := Init(cfg, 0)];
  }

  lemma FirstIsInit(cfg: Config)
    ensures LateRun(cfg)[0] == Init(cfg, 0)
  {
    hide Init;
  }

  lemma OlderGoesLive(cfg: Config, max: nat, k: nat)
    requires cfg.noticeSeconds == [] && 2 <= k < 6
    ensures Takes(cfg, OrphanRun(cfg, max), Occurrences(), k)
  {
    hide Init, Step, Enabled, Leaving, Reported, Gone, LateRun, LateInputs, Deliver;
    Lives(cfg);
    LateAuth(cfg);
    LateCheck(cfg);
    LateSsh(cfg);
    LateLive(cfg);
    var x, g := LateRun(cfg), OrphanRun(cfg, max)[k];
    assert Occurrences()[k] == SessionInput(0, LateInputs()[k - 2]);
    if k == 3 {
      Identify(cfg, g, 0, x[1], x[0], LateInputs()[1]);
    } else {
      Move0(cfg, g, x[k - 2], x[0], LateInputs()[k - 2]);
    }
  }

  lemma NewerIsIdentified(cfg: Config, max: nat, k: nat)
    requires 6 <= k < 8
    ensures Takes(cfg, OrphanRun(cfg, max), Occurrences(), k)
  {
    hide Init, Step, Enabled, Leaving, Reported, Gone, LateRun, LateInputs, Deliver;
    Lives(cfg);
    LateAuth(cfg);
    LateCheck(cfg);
    var x, g := LateRun(cfg), OrphanRun(cfg, max)[k];
    assert Occurrences()[k] == SessionInput(1, LateInputs()[k - 6]);
    if k == 6 {
      Move1(cfg, g, x[4], x[0], LateInputs()[0]);
    } else {
      Identify(cfg, g, 1, x[4], x[1], LateInputs()[1]);
      assert map["s" := 0]["s" := 1] == map["s" := 1];
    }
  }

  lemma NewerFinishes(cfg: Config, max: nat, k: nat)
    requires 8 <= k < 11
    ensures Takes(cfg, OrphanRun(cfg, max), Occurrences(), k)
  {
    hide Init, Step, Enabled, Leaving, Reported, Gone, LateRun, LateInputs, Deliver;
    Lives(cfg);
    LeavingEnds(cfg);
    LeavingStep(cfg);
    ReportedStep(cfg);
    GoneStep(cfg);
    var x, g := LateRun(cfg), OrphanRun(cfg, max)[k];
    match k
    case 8 =>
      assert Occurrences()[8] == SessionInput(1, ClientGone);
      Move1(cfg, g, x[4], x[2], ClientGone);
    case 9 =>
      assert Occurrences()[9] == SessionInput(1, EventSettles(Lost));
      Move1(cfg, g, x[4], Leaving(cfg), EventSettles(Lost));
    case 10 =>
      assert Occurrences()[10] == SessionInput(1, FinishResumes(true, false));
      Close1(cfg, g, x[4], Reported(cfg), FinishResumes(true, false));
  }

  /** The newest holder of "s" has finished, an older session with that id is live and connected, and a
      kill for "s" changes nothing. */
  lemma AKillReachesNobody(cfg: Config, max: nat)
    requires cfg.noticeSeconds == [] && max >= 2
    ensures IsGatewayRun(cfg, OrphanRun(cfg, max), Occurrences())
    ensures var g := OrphanRun(cfg, max)[11];
            && 0 in g.connections && 0 in g.all && g.all[0].life.phase == Live && g.all[0].life.sessionId == Some("s")
            && OnKill(cfg, g, "s") == g
  {
    hide Init, Step, Enabled, Leaving, Reported, Gone, LateRun, LateInputs, Next, CanOccur, Deliver;
    Lives(cfg);
    var run, os := OrphanRun(cfg, max), Occurrences();
    forall k | 0 <= k < |os| ensures CanOccur(run[k], os[k]) && run[k + 1] == Next(cfg, run[k], os[k]) {
      if k < 2 { Upgrades(cfg, max, k); }
      if 2 <= k < 6 { OlderGoesLive(cfg, max, k); }
      if 6 <= k < 8 { NewerIsIdentified(cfg, max, k); }
      if 8 <= k { NewerFinishes(cfg, max, k); }
      assert Takes(cfg, run, os, k);
    }
  }
}
