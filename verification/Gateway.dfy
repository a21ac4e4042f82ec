/** The gateway object (services/prgd-gateway/src/server.ts): its two registries, changed by the
    upgrade handler and by the callbacks of the sessions. The sessions are held as the values that
    `TerminalSessions` proves its objects to have. */
module Gateways {
  import opened Options
  import opened SessionModel
  import opened SessionInvariant
  import opened GatewayModel

  class Gateway {
    const cfg: Config
    const maxSessions: nat
    const allowedOrigins: set<string>
    var all: map<nat, S>
    var connections: set<nat>
    var sessions: map<SessionId, nat>
    var next: nat
    /** Who was identified under which id, oldest first. */
    ghost var log: seq<(SessionId, nat)>

    ghost function Snap(): G
      reads this
    {
      G(maxSessions, all, connections, sessions, log, next)
    }

    ghost predicate Valid()
      reads this
    {
      GInv(Snap())
    }

    constructor (cfg: Config, maxSessions: nat, allowedOrigins: set<string>)
      ensures this.cfg == cfg && this.allowedOrigins == allowedOrigins && Snap() == Empty(maxSessions) && Valid()
    {
      this.cfg, this.maxSessions, this.allowedOrigins := cfg, maxSessions, allowedOrigins;
      all, connections, sessions, next, log := map[], {}, map[], 0, [];
      new;
      EmptyInv(maxSessions);
    }

    method OnUpgrade(r: Request, now: int) returns (verdict: Verdict)
      requires Valid()
      modifies this
      ensures Valid()
      ensures (Snap(), verdict) == GatewayModel.OnUpgrade(cfg, old(Snap()), Judged(allowedOrigins, r), now)
      ensures verdict.Accepted? <==> Proper(Judged(allowedOrigins, r)) && |old(connections)| < maxSessions
      ensures verdict.Accepted? ==> verdict.conn !in old(all) && all == old(all)[verdict.conn := Init(cfg, now)]
                                    && connections == old(connections) + {verdict.conn}
      ensures !verdict.Accepted? ==> Snap() == old(Snap())
    {
      hide GInv, Init;
      UpgradeInv(cfg, Snap(), Judged(allowedOrigins, r), now);
      UpgradeAnswers(cfg, Snap(), Judged(allowedOrigins, r), now);
      if r.path != "/v1/terminal" { return NotFound; }
      var origin := WithoutSlashes(r.origin);
      if origin == "" || origin !in allowedOrigins { return Forbidden; }
      if !(1 <= |r.session| <= 64 && forall i | 0 <= i < |r.session| :: IdChar(r.session[i])) { return BadRequest; }
      if |connections| >= maxSessions { return Unavailable; }
      verdict := Accepted(next);
      all := all[next := Init(cfg, now)];
      connections := connections + {next};
      next := next + 1;
    }

    method OnIdentified(c: nat, id: SessionId)
      modifies this`sessions, this`log
      ensures Snap() == GatewayModel.OnIdentified(old(Snap()), c, id)
    {
      sessions := sessions[id := c];
      log := log + [(id, c)];
    }

    method OnFinished(c: nat, id: Option<SessionId>)
      modifies this`connections, this`sessions
      ensures Snap() == GatewayModel.OnFinished(old(Snap()), c, id)
    {
      connections := connections - {c};
      if id != None && id.value in sessions && sessions[id.value] == c {
        sessions := sessions - {id.value};
      }
    }

    /** Session `c` handles one input and calls back what it has to report. */
    method Deliver(c: nat, i: Input)
      requires Valid() && c in all && Enabled(all[c], i)
      modifies this
      ensures Valid() && Snap() == GatewayModel.Deliver(cfg, old(Snap()), c, i)
    {
      hide GInv, Enabled, Step;
      DeliverInv(cfg, Snap(), c, i);
      var s := all[c];
      var t := Step(cfg, s, i);
      all := all[c := t];
      if s.life.sessionId == None && t.life.sessionId != None { OnIdentified(c, t.life.sessionId.value); }
      if s.life.phase != Closed && t.life.phase == Closed { OnFinished(c, t.life.sessionId); }
    }

    method OnKill(id: SessionId)
      requires Valid()
      modifies this
      ensures Valid() && Snap() == GatewayModel.OnKill(cfg, old(Snap()), id)
    {
      hide GInv, GatewayModel.Deliver;
      if id !in sessions { return; }
      if sessions[id] !in all { return; }
      Deliver(sessions[id], KillRequest);
    }

    /** Ends every open connection. */
    method Close()
      requires Valid()
      modifies this
      ensures Valid() && all.Keys == old(all.Keys) && connections <= old(connections)
      ensures forall c | c in old(connections) :: c in all && Ending(all[c])
    {
      hide GInv, End, GatewayModel.Deliver, Step, Enabled;
      var left := connections;
      ghost var was := all;
      OpenAreMembers(Snap());
      while left != {}
        invariant Valid() && all.Keys == was.Keys && connections <= old(connections)
        invariant left <= old(connections) && forall c | c in old(connections) :: c in all
        invariant forall c | c in old(connections) && c !in left :: Ending(all[c])
        decreases |left|
      {
        var c :| c in left;
        EndingDelivery(cfg, Snap(), c, Shutdown);
        Deliver(c, Shutdown);
        left := left - {c};
      }
    }
  }

  lemma OpenAreMembers(g: G)
    requires GInv(g)
    ensures forall c | c in g.connections :: c in g.all
  {
    hide Inv, Logged, Routed;
  }
}
