/** Host capacity: the counters that the scheduler reserves and releases
    (apps/api/src/modules/scheduler/scheduler.service.ts) and the activities that call it
    (apps/api/src/workflows/activities.ts). Every activity is one step and may be repeated. */
module CapacityModel {
  import opened Options

  datatype Load = Load(vcpu: int, memoryMb: int, diskGb: int)

  type Size = s: Load | s.vcpu > 0 && s.memoryMb > 0 && s.diskGb > 0 witness Load(1, 1, 1)

  /** `live`: active, and heard from lately. */
  datatype Host = Host(used: Load, total: Load, overcommitCpu: real, family: string, live: bool)

  datatype Server = Server(size: Size, family: string, host: Option<nat>, hasVm: bool)

  datatype Db = Db(hosts: seq<Host>, servers: seq<Server>)

  const Nothing := Load(0, 0, 0)

  function Plus(a: Load, b: Load): Load {
    Load(a.vcpu + b.vcpu, a.memoryMb + b.memoryMb, a.diskGb + b.diskGb)
  }

  function Minus(a: Load, b: Load): Load {
    Load(a.vcpu - b.vcpu, a.memoryMb - b.memoryMb, a.diskGb - b.diskGb)
  }

  // ---- the scheduler ----

  predicate Fits(h: Host, s: Server) {
    && h.used.memoryMb + s.size.memoryMb <= h.total.memoryMb
    && (h.used.vcpu + s.size.vcpu) as real <= h.total.vcpu as real * h.overcommitCpu
    && h.used.diskGb + s.size.diskGb <= h.total.diskGb
    && (s.family == "" || s.family == "shared" || h.family == s.family)
  }

  function Reserve(db: Db, h: nat, size: Load): Db
    requires h < |db.hosts|
  {
    db.(hosts := db.hosts[h := db.hosts[h].(used := Plus(db.hosts[h].used, size))])
  }

  function Release(db: Db, h: nat, size: Load): Db
    requires h < |db.hosts|
  {
    db.(hosts := db.hosts[h := db.hosts[h].(used := Minus(db.hosts[h].used, size))])
  }

  // ---- the activities ----

  predicate WellFormed(db: Db) {
    forall i | 0 <= i < |db.servers| :: db.servers[i].host != None ==> db.servers[i].host.value < |db.hosts|
  }

  /** `placeServer`, when the scheduler picks host `h`. */
  function Place(db: Db, i: nat, h: nat): Db
    requires i < |db.servers| && h < |db.hosts|
  {
    if db.servers[i].host != None then db
    else Reserve(db.(servers := db.servers[i := db.servers[i].(host := Some(h))]), h, db.servers[i].size)
  }

  /** `resizeVm`. */
  function Resize(db: Db, i: nat, size: Size): Db
    requires WellFormed(db) && i < |db.servers|
  {
    var s := db.servers[i];
    if !s.hasVm then db
    else
      var moved := if s.host == None then db else Reserve(Release(db, s.host.value, s.size), s.host.value, size);
      moved.(servers := db.servers[i := s.(size := size)])
  }

  /** The part that `compensateCreate` and `finalizeDelete` share. */
  function Unplace(db: Db, i: nat): Db
    requires WellFormed(db) && i < |db.servers|
  {
    var s := db.servers[i];
    var freed := if s.host == None then db else Release(db, s.host.value, s.size);
    freed.(servers := db.servers[i := s.(host := None)])
  }

  datatype Activity =
    | PlaceServer(i: nat, h: nat)
    | ResizeVm(i: nat, size: Size)
    | ReleaseServer(i: nat)
    | VmChanges(i: nat, hasVm: bool)

  predicate CanRun(db: Db, a: Activity) {
    a.i < |db.servers| && (a.PlaceServer? ==> a.h < |db.hosts|)
  }

  function Apply(db: Db, a: Activity): Db
    requires WellFormed(db) && CanRun(db, a)
  {
    match a
    case PlaceServer(i, h) => Place(db, i, h)
    case ResizeVm(i, size) => Resize(db, i, size)
    case ReleaseServer(i) => Unplace(db, i)
    case VmChanges(i, v) => db.(servers := db.servers[i := db.servers[i].(hasVm := v)])
  }

  // ---- conservation ----

  function Share(s: Server, h: nat): Load {
    if s.host == Some(h) then s.size else Nothing
  }

  /** The sum of the sizes of the servers placed on host `h`. */
  function PlacedOn(servers: seq<Server>, h: nat): Load {
    if servers == [] then Nothing else Plus(PlacedOn(servers[..|servers| - 1], h), Share(servers[|servers| - 1], h))
  }

  ghost predicate Balanced(db: Db) {
    WellFormed(db) && forall h | 0 <= h < |db.hosts| :: db.hosts[h].used == PlacedOn(db.servers, h)
  }

  lemma Shuffle(rest: Load, was: Load, now: Load, last: Load)
    ensures Plus(Plus(Minus(rest, was), now), last) == Plus(Minus(Plus(rest, last), was), now)
    ensures Plus(rest, now) == Plus(Minus(Plus(rest, was), was), now)
  {
  }

  lemma {:induction false} PlacedOnUpdate(servers: seq<Server>, i: nat, s: Server, h: nat)
    requires i < |servers|
    ensures PlacedOn(servers[i := s], h) == Plus(Minus(PlacedOn(servers, h), Share(servers[i], h)), Share(s, h))
  {
    hide Plus, Minus, Share;
    var n := |servers| - 1;
    var rest := servers[..n];
    if i == n {
      assert servers[i := s][..n] == rest;
      Shuffle(PlacedOn(rest, h), Share(servers[i], h), Share(s, h), Nothing);
    } else {
      PlacedOnUpdate(rest, i, s, h);
      assert servers[i := s][..n] == rest[i := s];
      Shuffle(PlacedOn(rest, h), Share(servers[i], h), Share(s, h), Share(servers[n], h));
    }
  }

  lemma {:induction false} PlacedIsNatural(servers: seq<Server>, h: nat)
    ensures var l := PlacedOn(servers, h); l.vcpu >= 0 && l.memoryMb >= 0 && l.diskGb >= 0
  {
    if servers != [] { PlacedIsNatural(servers[..|servers| - 1], h); }
  }

  lemma UpdateBalance(db: Db, b: Db, i: nat, s: Server)
    requires Balanced(db) && i < |db.servers| && |b.hosts| == |db.hosts| && b.servers == db.servers[i := s]
    requires s.host != None ==> s.host.value < |db.hosts|
    requires forall h | 0 <= h < |db.hosts| ::
              b.hosts[h].used == Plus(Minus(db.hosts[h].used, Share(db.servers[i], h)), Share(s, h))
    ensures Balanced(b)
  {
    hide PlacedOn, Share;
    forall h | 0 <= h < |db.hosts| ensures b.hosts[h].used == PlacedOn(b.servers, h) {
      PlacedOnUpdate(db.servers, i, s, h);
    }
  }

  /** Every activity, on every server, keeps each host's counters equal to the sum of what is placed
      on it. */
  lemma ApplyKeepsBalance(db: Db, a: Activity)
    requires Balanced(db) && CanRun(db, a)
    ensures Balanced(Apply(db, a))
  {
    hide PlacedOn;
    var b := Apply(db, a);
    UpdateBalance(db, b, a.i, b.servers[a.i]);
  }

  ghost predicate IsRun(run: seq<Db>, acts: seq<Activity>) {
    && |run| == |acts| + 1
    && forall k | 0 <= k < |acts| ::
        WellFormed(run[k]) && CanRun(run[k], acts[k]) && run[k + 1] == Apply(run[k], acts[k])
  }

  /** The counters never drift: over any activities in any order, repeated at will, they stay equal
      to the sums, and so never go below zero. */
  lemma {:induction false} CountersNeverDrift(run: seq<Db>, acts: seq<Activity>, k: nat)
    requires IsRun(run, acts) && k < |run| && Balanced(run[0])
    ensures Balanced(run[k])
    ensures forall h | 0 <= h < |run[k].hosts| ::
              run[k].hosts[h].used.vcpu >= 0 && run[k].hosts[h].used.memoryMb >= 0 && run[k].hosts[h].used.diskGb >= 0
    decreases k
  {
    hide Apply, CanRun, PlacedOn;
    if k > 0 {
      CountersNeverDrift(run, acts, k - 1);
      assert CanRun(run[k - 1], acts[k - 1]) && run[k - 1 + 1] == Apply(run[k - 1], acts[k - 1]);
      ApplyKeepsBalance(run[k - 1], acts[k - 1]);
    }
    forall h | 0 <= h < |run[k].hosts|
      ensures run[k].hosts[h].used.vcpu >= 0 && run[k].hosts[h].used.memoryMb >= 0 && run[k].hosts[h].used.diskGb >= 0
    {
      PlacedIsNatural(run[k].servers, h);
    }
  }

  /** Which host server `i` is on after the first `k` activities: the one of the first placement since
      the last release. */
  function HostAfter(acts: seq<Activity>, k: nat, i: nat, start: Option<nat>): Option<nat>
    requires k <= |acts|
  {
    if k == 0 then start
    else
      var before, a := HostAfter(acts, k - 1, i, start), acts[k - 1];
      if a.i == i && a.ReleaseServer? then None
      else if a.i == i && a.PlaceServer? && before == None then Some(a.h)
      else before
  }

  /** The activities decide where every server is, and with it what every host holds: exactly the sizes
      of the servers that were placed there and not released since. */
  lemma {:induction false} ServersAreWherePlaced(run: seq<Db>, acts: seq<Activity>, k: nat, i: nat)
    requires IsRun(run, acts) && k < |run| && Balanced(run[0]) && i < |run[0].servers|
    ensures |run[k].servers| == |run[0].servers| && |run[k].hosts| == |run[0].hosts|
    ensures run[k].servers[i].host == HostAfter(acts, k, i, run[0].servers[i].host)
    ensures forall h | 0 <= h < |run[k].hosts| :: run[k].hosts[h].used == PlacedOn(run[k].servers, h)
    decreases k
  {
    hide PlacedOn;
    CountersNeverDrift(run, acts, k);
    if k > 0 {
      ServersAreWherePlaced(run, acts, k - 1, i);
      assert CanRun(run[k - 1], acts[k - 1]) && run[k - 1 + 1] == Apply(run[k - 1], acts[k - 1]);
    }
  }

  /** A repeated attempt changes nothing, even if the scheduler would pick another host this time. */
  lemma RepeatsChangeNothing(db: Db, a: Activity, h: nat)
    requires WellFormed(db) && CanRun(db, a) && h < |db.hosts|
    ensures WellFormed(Apply(db, a)) && Apply(Apply(db, a), a) == Apply(db, a)
    ensures a.PlaceServer? ==> Apply(Apply(db, a), PlaceServer(a.i, h)) == Apply(db, a)
  {
    var b := Apply(db, a);
    assert CanRun(b, a);
    var c := Apply(b, a);
    assert c.servers == b.servers;
    assert c.hosts == b.hosts;
  }

  /** Undoing a placement gives back exactly what it took. */
  lemma UnplaceUndoesPlace(db: Db, i: nat, h: nat)
    requires WellFormed(db) && i < |db.servers| && h < |db.hosts| && db.servers[i].host == None
    ensures WellFormed(Place(db, i, h)) && Unplace(Place(db, i, h), i) == db
  {
    assert Unplace(Place(db, i, h), i).servers == db.servers;
    assert Unplace(Place(db, i, h), i).hosts == db.hosts;
  }
}
