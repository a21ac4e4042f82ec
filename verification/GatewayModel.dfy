/** The gateway's registries (services/prgd-gateway/src/server.ts) over any number of sessions. A
    connection is a number; `all` holds every session ever accepted, finished ones included. */
module GatewayModel {
  import opened Options
  import opened SessionModel
  import opened SessionInvariant
  import opened SessionSteps
  import SessionRuns

  /** `log` records, oldest first, which connection was identified under which id. */
  datatype G = G(
    max: nat,
    all: map<nat, S>,
    connections: set<nat>,
    sessions: map<SessionId, nat>,
    log: seq<(SessionId, nat)>,
    next: nat)

  /** What a request for an upgrade was found to be. */
  datatype Upgrade = Upgrade(isTerminalPath: bool, originAllowed: bool, sessionParamValid: bool)

  /** The path, the origin header and the session parameter ("" if they are missing). */
  datatype Request = Request(path: string, origin: string, session: string)

  function WithoutSlashes(s: string): string {
    if s != [] && s[|s| - 1] == '/' then WithoutSlashes(s[..|s| - 1]) else s
  }

  predicate IdChar(c: char) {
    'A' <= c <= 'Z' || 'a' <= c <= 'z' || '0' <= c <= '9' || c == '_' || c == '-'
  }

  function Judged(allowed: set<string>, r: Request): Upgrade {
    var origin := WithoutSlashes(r.origin);
    Upgrade(r.path == "/v1/terminal", origin != "" && origin in allowed,
            1 <= |r.session| <= 64 && forall i | 0 <= i < |r.session| :: IdChar(r.session[i]))
  }

  datatype Verdict = NotFound | Forbidden | BadRequest | Unavailable | Accepted(conn: nat)

  function Empty(max: nat): G {
    G(max, map[], {}, map[], [], 0)
  }

  function OnUpgrade(cfg: Config, g: G, req: Upgrade, now: int): (G, Verdict) {
    if !req.isTerminalPath then (g, NotFound)
    else if !req.originAllowed then (g, Forbidden)
    else if !req.sessionParamValid then (g, BadRequest)
    else if |g.connections| >= g.max then (g, Unavailable)
    else
      (g.(all := g.all[g.next := Init(cfg, now)], connections := g.connections + {g.next}, next := g.next + 1),
       Accepted(g.next))
  }

  function OnIdentified(g: G, c: nat, id: SessionId): G {
    g.(sessions := g.sessions[id := c], log := g.log + [(id, c)])
  }

  function OnFinished(g: G, c: nat, id: Option<SessionId>): G {
    g.(connections := g.connections - {c},
       sessions := if id != None && id.value in g.sessions && g.sessions[id.value] == c
                   then g.sessions - {id.value} else g.sessions)
  }

  /** One input reaches session `c`; the session's callbacks run in order. */
  function Deliver(cfg: Config, g: G, c: nat, i: Input): G
    requires c in g.all && Enabled(g.all[c], i)
  {
    var s := g.all[c];
    var t := Step(cfg, s, i);
    var g1 := g.(all := g.all[c := t]);
    var g2 := if s.life.sessionId == None && t.life.sessionId != None
              then OnIdentified(g1, c, t.life.sessionId.value) else g1;
    if s.life.phase != Closed && t.life.phase == Closed then OnFinished(g2, c, t.life.sessionId) else g2
  }

  function OnKill(cfg: Config, g: G, id: SessionId): G {
    if id !in g.sessions || g.sessions[id] !in g.all then g
    else Deliver(cfg, g, g.sessions[id], KillRequest)
  }

  /** The last connection identified under `id`. */
  function Latest(log: seq<(SessionId, nat)>, id: SessionId): Option<nat> {
    if log == [] then None
    else if log[|log| - 1].0 == id then Some(log[|log| - 1].1)
    else Latest(log[..|log| - 1], id)
  }

  // ---- the registry invariant ----

  ghost predicate Members(g: G) {
    && (forall c | c in g.all :: c < g.next && Inv(g.all[c]))
    && (forall c :: c in g.connections <==> c in g.all && g.all[c].life.phase != Closed)
  }

  ghost predicate Logged(g: G) {
    && (forall k | 0 <= k < |g.log| :: g.log[k].1 in g.all && g.all[g.log[k].1].life.sessionId == Some(g.log[k].0))
    && (forall j, k | 0 <= j < k < |g.log| :: g.log[j].1 != g.log[k].1)
  }

  ghost predicate OpenHolder(g: G, id: SessionId) {
    Latest(g.log, id) != None && Latest(g.log, id).value in g.connections
  }

  /** `sessions` maps an id exactly when the latest session identified under it is still open. */
  ghost predicate Routed(g: G) {
    forall id :: (id in g.sessions <==> OpenHolder(g, id))
        && (id in g.sessions ==> Latest(g.log, id) == Some(g.sessions[id]))
  }

  ghost predicate GInv(g: G) {
    |g.connections| <= g.max && Members(g) && Logged(g) && Routed(g)
  }

  lemma {:induction false} LatestIsLogged(log: seq<(SessionId, nat)>, id: SessionId)
    requires Latest(log, id) != None
    ensures exists k :: 0 <= k < |log| && log[k] == (id, Latest(log, id).value)
  {
    if log[|log| - 1].0 == id {
      assert log[|log| - 1] == (id, Latest(log, id).value);
    } else {
      LatestIsLogged(log[..|log| - 1], id);
      var k :| 0 <= k < |log| - 1 && log[..|log| - 1][k] == (id, Latest(log, id).value);
      assert log[k] == (id, Latest(log, id).value);
    }
  }

  /** A routed id leads to an open connection that carries that very id. */
  lemma RouteIsOwnOpenConnection(g: G, id: SessionId)
    requires GInv(g) && id in g.sessions
    ensures g.sessions[id] in g.connections && g.sessions[id] in g.all
    ensures g.all[g.sessions[id]].life.sessionId == Some(id)
  {
    assert OpenHolder(g, id);
    LatestIsLogged(g.log, id);
  }

  /** Routing depends only on the log, the open connections and the map. */
  lemma RoutedSame(g: G, h: G)
    requires Routed(g) && h.log == g.log && h.sessions == g.sessions
    requires forall k | 0 <= k < |g.log| :: g.log[k].1 in h.connections <==> g.log[k].1 in g.connections
    ensures Routed(h)
  {
    forall id ensures OpenHolder(h, id) == OpenHolder(g, id) {
      if Latest(g.log, id) != None { LatestIsLogged(g.log, id); }
    }
  }

  lemma UpgradeMembers(cfg: Config, g: G, now: int)
    requires Members(g) && Logged(g)
    ensures var h := g.(all := g.all[g.next := Init(cfg, now)], connections := g.connections + {g.next},
                        next := g.next + 1);
            Members(h) && Logged(h) && g.next !in g.connections && g.next !in g.all
  {
    hide Inv, Init;
    InitInv(cfg, now);
    InitIsOpen(cfg, now);
    assert g.next !in g.all;
  }

  lemma UpgradeInv(cfg: Config, g: G, req: Upgrade, now: int)
    requires GInv(g)
    ensures GInv(OnUpgrade(cfg, g, req, now).0)
  {
    hide Inv, Init, Members, Routed, OpenHolder;
    var g' := OnUpgrade(cfg, g, req, now).0;
    if g' != g {
      UpgradeMembers(cfg, g, now);
      assert g'.connections == g.connections + {g.next};
      assert |g'.connections| == |g.connections| + 1;
      RoutedSame(g, g');
    }
  }

  lemma InitIsOpen(cfg: Config, now: int)
    ensures Init(cfg, now).life.phase == Auth && Init(cfg, now).life.sessionId == None
  {
  }

  // ---- which steps identify a session ----

  lemma FinishKeepsId(s: S)
    ensures Finish(s).life.sessionId == s.life.sessionId
    ensures s.life.phase != Closed && s.life.sessionId != None ==> Finish(s).life.phase != Closed
  {
  }

  lemma EndLocallyKeepsId(s: S, reason: EndReason)
    ensures EndLocally(s, reason).life == s.life.(phase := Closing, endReason := Some(reason))
  {
    hide Redactor.Step;
  }

  lemma EndKeepsId(s: S, reason: EndReason)
    ensures End(s, reason).life.sessionId == s.life.sessionId
    ensures s.life.phase != Closed && s.life.sessionId != None ==> End(s, reason).life.phase != Closed
  {
    hide EndLocally, Finish;
    EndLocallyKeepsId(s, reason);
    FinishKeepsId(EndLocally(s, reason));
  }

  lemma EndsKeepIds()
    ensures forall s: S, reason: EndReason :: End(s, reason).life.sessionId == s.life.sessionId
    ensures forall s: S, reason: EndReason :: s.life.phase != Closed && s.life.sessionId != None ==>
              End(s, reason).life.phase != Closed
  {
    hide End;
    forall s: S, reason: EndReason
      ensures End(s, reason).life.sessionId == s.life.sessionId
      ensures s.life.phase != Closed && s.life.sessionId != None ==> End(s, reason).life.phase != Closed
    {
      EndKeepsId(s, reason);
    }
  }

  lemma AnswersKeepId(cfg: Config, s: S, i: Input)
    requires Enabled(s, i)
    requires i.EventSettles? || i.ExpiryFires? || i.FinishResumes? || i.ShellAnswers? || i.AssetOutput?
    ensures Step(cfg, s, i).life.sessionId == s.life.sessionId
  {
    hide End, Redactor.Step, Redactor.Kept, NoticeTimers;
    EndsKeepIds();
  }

  lemma OthersKeepId(cfg: Config, s: S, i: Input)
    requires Enabled(s, i) && !i.CheckAnswers?
    ensures Step(cfg, s, i).life.sessionId == s.life.sessionId
  {
    hide End, Redactor.Step, Redactor.Kept, NoticeTimers, OnSettled, OnExpiryTimer, OnFinishResumes, OnShell, OnOutput,
        OnCheck;
    if i.EventSettles? || i.ExpiryFires? || i.FinishResumes? || i.ShellAnswers? || i.AssetOutput? {
      AnswersKeepId(cfg, s, i);
    } else {
      EndsKeepIds();
    }
  }

  /** Only the API's answer identifies a session, and that step does not also finish it. */
  lemma IdentifiedIsOpen(cfg: Config, s: S, i: Input)
    requires Inv(s) && Enabled(s, i) && s.life.sessionId == None && Step(cfg, s, i).life.sessionId != None
    ensures Step(cfg, s, i).life.phase != Closed && s.life.phase != Closed
  {
    hide Inv, End, Redactor.Step, Redactor.Kept, NoticeTimers, Screen, Streamed;
    EndsKeepIds();
    if !i.CheckAnswers? {
      OthersKeepId(cfg, s, i);
    } else {
      CheckPhase(s);
    }
  }

  // ---- a delivery keeps the registry ----

  lemma ReplaceMembers(g: G, c: nat, t: S)
    requires Members(g) && c in g.all && Inv(t)
    requires g.all[c].life.phase == Closed <==> t.life.phase == Closed
    ensures Members(g.(all := g.all[c := t]))
  {
    hide Inv;
  }

  lemma FinishMembers(g: G, c: nat, t: S, sessions: map<SessionId, nat>)
    requires Members(g) && c in g.all && Inv(t) && t.life.phase == Closed
    ensures Members(g.(all := g.all[c := t], connections := g.connections - {c}, sessions := sessions))
  {
    hide Inv;
  }

  lemma ReplaceLogged(g: G, c: nat, t: S)
    requires Logged(g) && c in g.all
    requires g.all[c].life.sessionId != None ==> t.life.sessionId == g.all[c].life.sessionId
    ensures Logged(g.(all := g.all[c := t]))
  {
  }

  lemma LatestAppend(log: seq<(SessionId, nat)>, c: nat, id: SessionId, key: SessionId)
    ensures Latest(log + [(id, c)], key) == if key == id then Some(c) else Latest(log, key)
  {
    assert (log + [(id, c)])[..|log|] == log;
  }

  lemma IdentifyInv(g: G, c: nat, t: S)
    requires GInv(g) && c in g.all && c in g.connections && g.all[c].life.sessionId == None
    requires Inv(t) && t.life.phase != Closed && t.life.sessionId != None
    ensures GInv(OnIdentified(g.(all := g.all[c := t]), c, t.life.sessionId.value))
  {
    hide Inv;
    var id := t.life.sessionId.value;
    var h := OnIdentified(g.(all := g.all[c := t]), c, id);
    ReplaceMembers(g, c, t);
    assert Members(h);
    assert Logged(h) by {
      hide Latest;
      forall k | 0 <= k < |g.log| ensures g.log[k].1 != c {}
    }
    forall key
      ensures (key in h.sessions <==> OpenHolder(h, key))
            && (key in h.sessions ==> Latest(h.log, key) == Some(h.sessions[key]))
    {
      LatestAppend(g.log, c, id, key);
      assert OpenHolder(g, key) ==> key in g.sessions;
    }
  }

  lemma FinishRouted(g: G, c: nat, id: Option<SessionId>)
    requires Routed(g) && Logged(g) && c in g.all && g.all[c].life.sessionId == id
    ensures Routed(OnFinished(g, c, id))
  {
    var h := OnFinished(g, c, id);
    forall key
      ensures (key in h.sessions <==> OpenHolder(h, key))
            && (key in h.sessions ==> Latest(h.log, key) == Some(h.sessions[key]))
    {
      assert key in g.sessions <==> OpenHolder(g, key);
      if Latest(g.log, key) != None {
        LatestIsLogged(g.log, key);
        if Latest(g.log, key).value == c { assert id == Some(key); }
      }
    }
  }

  lemma FinishInv(g: G, c: nat, t: S)
    requires GInv(g) && c in g.all && c in g.connections && Inv(t) && t.life.phase == Closed
    requires t.life.sessionId == g.all[c].life.sessionId
    ensures GInv(OnFinished(g.(all := g.all[c := t]), c, t.life.sessionId))
  {
    hide Inv, Routed, Members, OpenHolder;
    var h := g.(all := g.all[c := t]);
    ReplaceLogged(g, c, t);
    RoutedSame(g, h);
    FinishRouted(h, c, t.life.sessionId);
    FinishMembers(g, c, t, OnFinished(h, c, t.life.sessionId).sessions);
    assert |g.connections - {c}| <= |g.connections| by { SmallerSet(g.connections, c); }
  }

  lemma SmallerSet(a: set<nat>, c: nat)
    ensures |a - {c}| <= |a|
  {
    if c in a { assert a == (a - {c}) + {c}; } else { assert a - {c} == a; }
  }

  lemma PlainInv(g: G, c: nat, t: S)
    requires GInv(g) && c in g.all && Inv(t)
    requires g.all[c].life.phase == Closed <==> t.life.phase == Closed
    requires t.life.sessionId == g.all[c].life.sessionId
    ensures GInv(g.(all := g.all[c := t]))
  {
    hide Inv, Routed, Members;
    ReplaceMembers(g, c, t);
    ReplaceLogged(g, c, t);
    RoutedSame(g, g.(all := g.all[c := t]));
  }

  lemma MemberInv(g: G, c: nat)
    requires GInv(g) && c in g.all
    ensures Inv(g.all[c]) && (c in g.connections <==> g.all[c].life.phase != Closed)
  {
    hide Inv;
  }

  /** Whatever reaches whichever session, the registries stay exact. */
  lemma DeliverInv(cfg: Config, g: G, c: nat, i: Input)
    requires GInv(g) && c in g.all && Enabled(g.all[c], i)
    ensures GInv(Deliver(cfg, g, c, i))
  {
    hide Inv, GInv, Step, Enabled, SessionRuns.Forward;
    var s := g.all[c];
    var t := Step(cfg, s, i);
    MemberInv(g, c);
    StepInv(cfg, s, i);
    DeliverForward(cfg, s, i);
    if s.life.sessionId == None && t.life.sessionId != None {
      IdentifiedIsOpen(cfg, s, i);
      IdentifyInv(g, c, t);
    } else if s.life.phase != Closed && t.life.phase == Closed {
      FinishInv(g, c, t);
    } else {
      PlainInv(g, c, t);
    }
  }

  lemma DeliverForward(cfg: Config, s: S, i: Input)
    requires Inv(s) && Enabled(s, i)
    ensures s.life.sessionId != None ==> Step(cfg, s, i).life.sessionId == s.life.sessionId
    ensures s.life.phase == Closed ==> Step(cfg, s, i).life.phase == Closed
  {
    hide Inv, Step, Enabled;
    SessionRuns.StepForward(cfg, s, i);
  }

  lemma KillInv(cfg: Config, g: G, id: SessionId)
    requires GInv(g)
    ensures GInv(OnKill(cfg, g, id))
  {
    hide GInv, Deliver;
    if id in g.sessions && g.sessions[id] in g.all {
      DeliverInv(cfg, g, g.sessions[id], KillRequest);
    }
  }

  lemma EmptyInv(max: nat)
    ensures GInv(Empty(max))
  {
  }

  // ---- kills ----

  predicate Ending(s: S) {
    s.life.phase == Closing || s.life.phase == Closed
  }

  lemma EndIsEnding(s: S, reason: EndReason)
    requires Inv(s)
    ensures End(s, reason).life.phase == Closing || End(s, reason).life.phase == Closed
    ensures End(s, reason).life.endReason
            == if s.life.phase == Closing || s.life.phase == Closed then s.life.endReason else Some(reason)
  {
    hide Inv, EndLocally, Finish, Running;
    if s.life.phase != Closing && s.life.phase != Closed {
      InvIsRunning(s);
      EndInv(s, reason);
    }
  }

  /** Delivering a kill or the shutdown to a session ends it and touches no other session. */
  lemma EndingDelivery(cfg: Config, g: G, c: nat, i: Input)
    requires GInv(g) && c in g.all && (i == KillRequest || i == Shutdown)
    ensures Enabled(g.all[c], i)
    ensures var h := Deliver(cfg, g, c, i); var s := g.all[c];
            && h.all == g.all[c := End(s, if i == KillRequest then Killed else Error)]
            && h.connections <= g.connections
            && Ending(h.all[c])
            && (!Ending(s) ==>
                  h.all[c].life.endReason == Some(if i == KillRequest then Killed else Error))
  {
    hide Inv, GInv, End;
    MemberInv(g, c);
    EndIsEnding(g.all[c], if i == KillRequest then Killed else Error);
  }

  /** A kill reaches the session that was identified last under the id, if it is still open: it is
      ending afterwards, and no other session is touched. Otherwise nothing happens at all. */
  lemma KillReachesLatestHolder(cfg: Config, g: G, id: SessionId)
    requires GInv(g)
    ensures var h := OnKill(cfg, g, id);
            if OpenHolder(g, id) then
              var c := Latest(g.log, id).value;
              && c in g.all && c in h.all
              && Ending(h.all[c])
              && (g.all[c].life.phase != Closing ==> h.all[c].life.endReason == Some(Killed))
              && (forall d | d in g.all && d != c :: d in h.all && h.all[d] == g.all[d])
            else h == g
  {
    hide Inv, GInv, Deliver, Members, Logged, End, Step, Enabled;
    IdRouted(g, id);
    if OpenHolder(g, id) {
      RouteIsOwnOpenConnection(g, id);
      MemberInv(g, g.sessions[id]);
      EndingDelivery(cfg, g, g.sessions[id], KillRequest);
    }
  }

  lemma IdRouted(g: G, id: SessionId)
    requires GInv(g)
    ensures id in g.sessions <==> OpenHolder(g, id)
    ensures id in g.sessions ==> Latest(g.log, id) == Some(g.sessions[id])
  {
    hide Inv, Members, Logged, OpenHolder, Latest;
  }

  // ---- shutdown ----

  /** `close` ends every open connection, in any order. */
  function ShutdownAll(cfg: Config, g: G, order: seq<nat>): G
    requires forall c | c in order :: c in g.all
    decreases |order|
  {
    if order == [] then g
    else ShutdownAll(cfg, Deliver(cfg, g, order[0], Shutdown), order[1..])
  }

  /** After `close` every session it was given is ending or has ended; it admits and revives none. */
  lemma {:induction false} ShutdownEndsAll(cfg: Config, g: G, order: seq<nat>)
    requires GInv(g) && forall c | c in order :: c in g.all
    ensures var h := ShutdownAll(cfg, g, order);
            && GInv(h) && h.all.Keys == g.all.Keys && h.connections <= g.connections
            && (forall c | c in order :: c in h.all && Ending(h.all[c]))
            && (forall c | c in g.all && Ending(g.all[c]) :: c in h.all && Ending(h.all[c]))
    decreases |order|
  {
    hide Inv, GInv, End, Deliver, Step, Enabled;
    if order != [] {
      EndingDelivery(cfg, g, order[0], Shutdown);
      DeliverInv(cfg, g, order[0], Shutdown);
      ShutdownEndsAll(cfg, Deliver(cfg, g, order[0], Shutdown), order[1..]);
      assert forall d | d in order :: d == order[0] || d in order[1..];
    }
  }

  // ---- who is let in ----

  predicate Proper(req: Upgrade) {
    req.isTerminalPath && req.originAllowed && req.sessionParamValid
  }

  /** A header names an allowed origin exactly if it is that origin with any number of slashes behind;
      so an origin that itself ends in a slash is never met. */
  lemma OriginAllowedIff(allowed: set<string>, r: Request)
    ensures Judged(allowed, r).originAllowed
            <==> exists o, tail ::
                   r.origin == o + tail && o in allowed && o != "" && o[|o| - 1] != '/' && AllSlashes(tail)
  {
    SlashesBehind(r.origin);
    if o, tail :| r.origin == o + tail && o in allowed && o != "" && o[|o| - 1] != '/' && AllSlashes(tail) {
      OriginIsWhatPrecedes(o, tail);
    }
  }

  predicate AllSlashes(s: string) {
    forall i | 0 <= i < |s| :: s[i] == '/'
  }

  lemma {:induction false} SlashesBehind(s: string)
    ensures var o := WithoutSlashes(s);
            && o <= s && AllSlashes(s[|o|..]) && (o != "" ==> o[|o| - 1] != '/')
  {
    if s != [] && s[|s| - 1] == '/' {
      var front := s[..|s| - 1];
      SlashesBehind(front);
      var n := |WithoutSlashes(front)|;
      assert s[n..] == front[n..] + "/";
    }
  }

  lemma {:induction false} OriginIsWhatPrecedes(o: string, tail: string)
    requires o != "" && o[|o| - 1] != '/' && AllSlashes(tail)
    ensures WithoutSlashes(o + tail) == o
    decreases |tail|
  {
    if tail == [] {
      assert o + tail == o;
    } else {
      assert (o + tail)[..|o + tail| - 1] == o + tail[..|tail| - 1];
      OriginIsWhatPrecedes(o, tail[..|tail| - 1]);
    }
  }

  /** A request is let in exactly if its path, origin and parameter are in order and there is room; it
      then adds one connection, new and in its initial state. Otherwise nothing changes, and the answer
      names the first thing that is not in order. */
  lemma UpgradeAnswers(cfg: Config, g: G, req: Upgrade, now: int)
    requires GInv(g)
    ensures var (h, v) := OnUpgrade(cfg, g, req, now);
            && (v.Accepted? <==> Proper(req) && |g.connections| < g.max)
            && (v.Accepted? ==> v.conn !in g.all && v.conn !in g.connections
                                && h.all == g.all[v.conn := Init(cfg, now)]
                                && h.connections == g.connections + {v.conn}
                                && h.sessions == g.sessions && h.log == g.log)
            && (!v.Accepted? ==> h == g)
            && (v == NotFound <==> !req.isTerminalPath)
            && (v == Forbidden <==> req.isTerminalPath && !req.originAllowed)
            && (v == BadRequest <==> req.isTerminalPath && req.originAllowed && !req.sessionParamValid)
            && (v == Unavailable <==> Proper(req) && |g.connections| >= g.max)
  {
    hide Init, Inv, Routed, Logged;
  }

  // ---- whole runs ----

  datatype Occurrence =
    | UpgradeRequest(req: Upgrade, now: int)
    | SessionInput(conn: nat, input: Input)
    | KillMessage(id: SessionId)

  predicate CanOccur(g: G, o: Occurrence) {
    o.SessionInput? ==> o.conn in g.all && Enabled(g.all[o.conn], o.input)
  }

  function Next(cfg: Config, g: G, o: Occurrence): G
    requires CanOccur(g, o)
  {
    match o
    case UpgradeRequest(req, now) => OnUpgrade(cfg, g, req, now).0
    case SessionInput(c, i) => Deliver(cfg, g, c, i)
    case KillMessage(id) => OnKill(cfg, g, id)
  }

  ghost predicate IsGatewayRun(cfg: Config, run: seq<G>, os: seq<Occurrence>) {
    && |run| == |os| + 1
    && run[0].all == map[] && run[0] == Empty(run[0].max)
    && forall k | 0 <= k < |os| :: CanOccur(run[k], os[k]) && run[k + 1] == Next(cfg, run[k], os[k])
  }

  lemma NextInv(cfg: Config, g: G, o: Occurrence)
    requires GInv(g) && CanOccur(g, o)
    ensures GInv(Next(cfg, g, o)) && Next(cfg, g, o).max == g.max
  {
    hide GInv, Enabled, Step, Init;
    match o
    case UpgradeRequest(req, now) => UpgradeInv(cfg, g, req, now);
    case SessionInput(c, i) => DeliverInv(cfg, g, c, i);
    case KillMessage(id) => KillInv(cfg, g, id);
  }

  /** In every run the registries are exact: never more than `max` connections are open, every one
      of them is a session that has not finished, and `sessions` maps an id exactly when the session
      identified last under it is open, and then to that session. */
  lemma {:induction false} RegistriesStayExact(cfg: Config, run: seq<G>, os: seq<Occurrence>, k: nat)
    requires IsGatewayRun(cfg, run, os) && k < |run|
    ensures GInv(run[k]) && run[k].max == run[0].max
    decreases k
  {
    hide GInv, CanOccur, Next;
    if k == 0 {
      EmptyInv(run[0].max);
    } else {
      RegistriesStayExact(cfg, run, os, k - 1);
      assert CanOccur(run[k - 1], os[k - 1]) && run[k - 1 + 1] == Next(cfg, run[k - 1], os[k - 1]);
      NextInv(cfg, run[k - 1], os[k - 1]);
    }
  }

  lemma FinishingIsNotIdentifying(cfg: Config, s: S, i: Input)
    requires Inv(s) && Enabled(s, i) && Step(cfg, s, i).life.phase == Closed
    ensures s.life.sessionId == None ==> Step(cfg, s, i).life.sessionId == None
  {
    hide Inv, Step, Enabled;
    if s.life.sessionId == None && Step(cfg, s, i).life.sessionId != None {
      IdentifiedIsOpen(cfg, s, i);
    }
  }

  /** When a session finishes, an id that leads to another session still leads to it: the kill for
      that id is delivered to the same session as before. */
  lemma FinishKeepsNewer(cfg: Config, g: G, c: nat, i: Input, id: SessionId)
    requires GInv(g) && c in g.all && Enabled(g.all[c], i)
    requires id in g.sessions && g.sessions[id] != c && Step(cfg, g.all[c], i).life.phase == Closed
    ensures var h := Deliver(cfg, g, c, i);
            id in h.sessions && h.sessions[id] == g.sessions[id] && OpenHolder(h, id)
  {
    hide Inv, GInv, Step, Enabled, OpenHolder;
    MemberInv(g, c);
    FinishingIsNotIdentifying(cfg, g.all[c], i);
    DeliverInv(cfg, g, c, i);
    IdRouted(Deliver(cfg, g, c, i), id);
  }

  // ---- where connections come from ----

  /** Connection `c` was let in at moment `j`. */
  ghost predicate LetInAt(run: seq<G>, os: seq<Occurrence>, j: nat, c: nat)
    requires j < |os| <= |run|
  {
    && os[j].UpgradeRequest? && Proper(os[j].req) && |run[j].connections| < run[j].max
    && c !in run[j].all
  }

  /** Only a request for an upgrade adds a session. */
  lemma OthersAddNobody(cfg: Config, g: G, o: Occurrence)
    requires CanOccur(g, o) && !o.UpgradeRequest?
    ensures Next(cfg, g, o).all.Keys == g.all.Keys
  {
    hide Step, Enabled, Inv;
  }

  /** Every session there ever is came from a request with the terminal's path, an allowed origin and a
      proper parameter, while there was room. */
  lemma {:induction false} SessionsWereLetIn(cfg: Config, run: seq<G>, os: seq<Occurrence>, k: nat, c: nat)
    requires IsGatewayRun(cfg, run, os) && k < |run| && c in run[k].all
    ensures exists j: nat :: j < k && LetInAt(run, os, j, c) && c in run[j + 1].all
    decreases k
  {
    hide GInv, CanOccur, Next, OnUpgrade;
    if k > 0 {
      var g, o := run[k - 1], os[k - 1];
      RegistriesStayExact(cfg, run, os, k - 1);
      assert CanOccur(g, o) && run[k - 1 + 1] == Next(cfg, g, o);
      if c in g.all {
        SessionsWereLetIn(cfg, run, os, k - 1, c);
      } else {
        AddedByRequest(cfg, g, o, c);
        assert LetInAt(run, os, k - 1, c);
      }
    }
  }

  lemma AddedByRequest(cfg: Config, g: G, o: Occurrence, c: nat)
    requires GInv(g) && CanOccur(g, o) && c !in g.all && c in Next(cfg, g, o).all
    ensures o.UpgradeRequest? && Proper(o.req) && |g.connections| < g.max
  {
    hide GInv, CanOccur, OnUpgrade, Init;
    if o.UpgradeRequest? { UpgradeAnswers(cfg, g, o.req, o.now); } else { OthersAddNobody(cfg, g, o); }
  }
}
