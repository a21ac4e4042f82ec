/** The hosts and servers of one region as the scheduler and the activities update them
    (apps/api/src/modules/scheduler/scheduler.service.ts, apps/api/src/workflows/activities.ts). */
module Fleets {
  import opened Options
  import opened CapacityModel

  /** What the caller asks of a placement: hosts to keep away from, the one host that will do, and
      whether sharing a host is better than nothing. */
  datatype Request = Request(avoid: set<nat>, only: Option<nat>, soft: bool)

  predicate Candidate(db: Db, r: Request, h: nat) {
    h < |db.hosts| && db.hosts[h].live && (r.only == None || r.only == Some(h))
  }

  predicate Eligible(db: Db, r: Request, s: Server, h: nat) {
    Candidate(db, r, h) && h !in r.avoid && Fits(db.hosts[h], s)
  }

  ghost predicate CountersNatural(db: Db) {
    forall h | 0 <= h < |db.hosts| :: db.hosts[h].used.memoryMb >= 0
  }

  function Ratio(h: Host): real
    requires h.total.memoryMb > 0
  {
    h.used.memoryMb as real / h.total.memoryMb as real
  }

  /** `h` is the first host of least memory use among the eligible ones. */
  ghost predicate Best(db: Db, r: Request, s: Server, h: nat)
    requires CountersNatural(db)
  {
    && Eligible(db, r, s, h)
    && forall k: nat | Eligible(db, r, s, k) ::
         if h <= k then Ratio(db.hosts[h]) <= Ratio(db.hosts[k]) else Ratio(db.hosts[h]) < Ratio(db.hosts[k])
  }

  /** The hosts of `now` are those of `was`, but for the counters of host `h`, which grew by the
      given amounts. */
  ghost predicate Grew(was: seq<Host>, now: seq<Host>, h: nat, vcpu: int, memoryMb: int, diskGb: int) {
    && |now| == |was| && h < |was|
    && now[h] == was[h].(used := Load(was[h].used.vcpu + vcpu, was[h].used.memoryMb + memoryMb,
                                      was[h].used.diskGb + diskGb))
    && forall k | 0 <= k < |was| && k != h :: now[k] == was[k]
  }

  /** Server `i` is on host `h`, which suits its family and counts its size; everything else is as it was. */
  ghost predicate Placed(
      s: Server, hosts: seq<Host>, now: seq<Host>, servers: seq<Server>, after: seq<Server>, i: nat, h: nat)
  {
    && i < |servers| && after == servers[i := s.(host := Some(h))]
    && Grew(hosts, now, h, s.size.vcpu, s.size.memoryMb, s.size.diskGb)
    && (s.family == "" || s.family == "shared" || hosts[h].family == s.family)
  }

  /** No host holds more than it has; processors may be overcommitted. */
  predicate WithinCapacity(h: Host) {
    h.used.memoryMb <= h.total.memoryMb && h.used.diskGb <= h.total.diskGb
    && h.used.vcpu as real <= h.total.vcpu as real * h.overcommitCpu
  }

  /** A host is eligible exactly if it is live, allowed and not to be avoided, suits the family, and with the
      server on it would still hold no more than it has. */
  lemma EligibleIff(db: Db, r: Request, s: Server, h: nat)
    ensures Eligible(db, r, s, h)
            <==> && h < |db.hosts| && db.hosts[h].live && (r.only == None || r.only == Some(h)) && h !in r.avoid
                 && (s.family == "" || s.family == "shared" || db.hosts[h].family == s.family)
                 && WithinCapacity(db.hosts[h].(used := Plus(db.hosts[h].used, s.size)))
  {
  }

  /** The best host is relatively the emptiest: as fractions, its use of memory is the least. */
  lemma BestIsEmptiest(db: Db, r: Request, s: Server, h: nat, k: nat)
    requires CountersNatural(db) && Best(db, r, s, h) && Eligible(db, r, s, k)
    ensures db.hosts[h].used.memoryMb * db.hosts[k].total.memoryMb
         <= db.hosts[k].used.memoryMb * db.hosts[h].total.memoryMb
  {
    hide Balanced;
    var a, b := db.hosts[h], db.hosts[k];
    assert a.total.memoryMb > 0 && b.total.memoryMb > 0;
    assert Ratio(a) <= Ratio(b);
    FractionsCompare(a.used.memoryMb as real, a.total.memoryMb as real,
                     b.used.memoryMb as real, b.total.memoryMb as real);
    assert (a.used.memoryMb * b.total.memoryMb) as real == a.used.memoryMb as real * b.total.memoryMb as real;
    assert (b.used.memoryMb * a.total.memoryMb) as real == b.used.memoryMb as real * a.total.memoryMb as real;
  }

  lemma FractionsCompare(a: real, b: real, c: real, d: real)
    requires b > 0.0 && d > 0.0 && a / b <= c / d
    ensures a * d <= c * b
  {
    var x, y := a / b, c / d;
    assert a == x * b && c == y * d;
    assert b * d > 0.0;
    assert x * (b * d) <= y * (b * d);
    assert a * d == x * (b * d) && c * b == y * (b * d);
  }

  class Fleet {
    var hosts: seq<Host>
    var servers: seq<Server>

    ghost function Snap(): Db
      reads this
    {
      Db(hosts, servers)
    }

    ghost predicate Valid()
      reads this
    {
      Balanced(Snap()) && CountersNatural(Snap())
    }

    lemma BalancedIsNatural()
      requires Balanced(Snap())
      ensures Valid()
    {
      forall h | 0 <= h < |hosts| ensures hosts[h].used.memoryMb >= 0 { PlacedIsNatural(servers, h); }
    }

    constructor (hosts: seq<Host>)
      requires forall h | 0 <= h < |hosts| :: hosts[h].used == Nothing
      ensures Valid() && Snap() == Db(hosts, [])
    {
      this.hosts, servers := hosts, [];
    }

    /** The first host of least memory use that is eligible. */
    method Pick(r: Request, s: Server) returns (best: Option<nat>)
      requires Valid()
      ensures best == None ==> forall h: nat :: !Eligible(Snap(), r, s, h)
      ensures best != None ==> Best(Snap(), r, s, best.value)
    {
      hide Balanced;
      best := None;
      for h := 0 to |hosts|
        invariant best != None ==> best.value < h && Eligible(Snap(), r, s, best.value)
        invariant best == None ==> forall k: nat | k < h :: !Eligible(Snap(), r, s, k)
        invariant best != None ==> forall k: nat | k < h && Eligible(Snap(), r, s, k) ::
                    if best.value <= k then Ratio(hosts[best.value]) <= Ratio(hosts[k])
                    else Ratio(hosts[best.value]) < Ratio(hosts[k])
      {
        if Eligible(Db(hosts, servers), r, s, h) {
          if best == None {
            best := Some(h);
          } else if Ratio(hosts[h]) < Ratio(hosts[best.value]) {
            best := Some(h);
          }
        }
      }
    }

    /** Every live host that may be used is one to keep away from. */
    method OnlyAvoided(r: Request) returns (none: bool)
      ensures none <==> forall h: nat | Candidate(Snap(), r, h) :: h in r.avoid
    {
      none := true;
      for h := 0 to |hosts|
        invariant none <==> forall k: nat | k < h && Candidate(Snap(), r, k) :: k in r.avoid
      {
        if Candidate(Db(hosts, servers), r, h) && h !in r.avoid { none := false; }
      }
    }

    /** Places server `i` once: a placed server stays where it is. Otherwise the least used host apart
        from the avoided ones is taken; an avoided one only if the request allows it and every live host
        is avoided. Without a host that fits nothing changes. */
    method PlaceServer(i: nat, r: Request) returns (ok: bool)
      requires Valid() && i < |servers|
      modifies this
      ensures Valid()
      ensures old(servers)[i].host != None ==> ok && Snap() == old(Snap())
      ensures !ok ==> Snap() == old(Snap())
      ensures old(servers)[i].host == None && ok ==>
                exists h: nat :: h < |old(hosts)| && Snap() == Place(old(Snap()), i, h)
                  && old(hosts)[h].live && Placed(old(servers)[i], old(hosts), hosts, old(servers), servers, i, h)
                  && (Best(old(Snap()), r, old(servers)[i], h)
                      || (r.soft && (forall k: nat | Candidate(old(Snap()), r, k) :: k in r.avoid)
                          && Best(old(Snap()), r.(avoid := {}), old(servers)[i], h)))
      ensures !ok ==> forall h: nat :: !Eligible(old(Snap()), r, old(servers)[i], h)
      ensures !ok && r.soft && (forall h: nat | Candidate(old(Snap()), r, h) :: h in r.avoid) ==>
                forall h: nat :: !Eligible(old(Snap()), r.(avoid := {}), old(servers)[i], h)
      ensures (forall h | 0 <= h < |old(hosts)| :: WithinCapacity(old(hosts)[h])) ==>
                forall h | 0 <= h < |hosts| :: WithinCapacity(hosts[h])
    {
      hide PlacedOn, Best, Eligible;
      if servers[i].host != None { return true; }
      var s := servers[i];
      var best := Pick(r, s);
      if best == None && r.soft {
        var none := OnlyAvoided(r);
        if none { best := Pick(r.(avoid := {}), s); }
      }
      if best == None { return false; }
      var h := best.value;
      BestFits(Snap(), r, s, h);
      BestFits(Snap(), r.(avoid := {}), s, h);
      ghost var db := Snap();
      ApplyKeepsBalance(db, CapacityModel.PlaceServer(i, h));
      servers := servers[i := s.(host := Some(h))];
      hosts := hosts[h := hosts[h].(used := Plus(hosts[h].used, s.size))];
      assert Snap() == Place(db, i, h);
      assert Placed(s, db.hosts, hosts, db.servers, servers, i, h);
      BalancedIsNatural();
      ok := true;
    }

    lemma BestFits(db: Db, r: Request, s: Server, h: nat)
      requires CountersNatural(db)
      ensures Best(db, r, s, h) ==> h < |db.hosts| && Fits(db.hosts[h], s) && db.hosts[h].live
    {
    }

    /** Resizes a server that has a VM and moves its host's counters along. */
    method ResizeVm(i: nat, size: Size) returns (ok: bool)
      requires Valid() && i < |servers|
      modifies this
      ensures Valid() && ok == old(servers)[i].hasVm && Snap() == Resize(old(Snap()), i, size)
      ensures ok ==> servers == old(servers)[i := old(servers)[i].(size := size)]
      ensures !ok ==> servers == old(servers)
      ensures if ok && old(servers)[i].host != None
              then Grew(old(hosts), hosts, old(servers)[i].host.value, size.vcpu - old(servers)[i].size.vcpu,
                        size.memoryMb - old(servers)[i].size.memoryMb, size.diskGb - old(servers)[i].size.diskGb)
              else hosts == old(hosts)
    {
      hide PlacedOn;
      var s := servers[i];
      ApplyKeepsBalance(Snap(), CapacityModel.ResizeVm(i, size));
      if !s.hasVm { return false; }
      if s.host != None {
        var h := s.host.value;
        hosts := hosts[h := hosts[h].(used := Minus(hosts[h].used, s.size))];
        hosts := hosts[h := hosts[h].(used := Plus(hosts[h].used, size))];
      }
      servers := servers[i := s.(size := size)];
      BalancedIsNatural();
      ok := true;
    }

    /** Gives the capacity back, as a rollback and a deletion both do. */
    method ReleaseServer(i: nat)
      requires Valid() && i < |servers|
      modifies this
      ensures Valid() && Snap() == Unplace(old(Snap()), i)
      ensures servers == old(servers)[i := old(servers)[i].(host := None)]
      ensures if old(servers)[i].host != None
              then Grew(old(hosts), hosts, old(servers)[i].host.value, -old(servers)[i].size.vcpu,
                        -old(servers)[i].size.memoryMb, -old(servers)[i].size.diskGb)
              else hosts == old(hosts)
    {
      hide PlacedOn;
      var s := servers[i];
      ApplyKeepsBalance(Snap(), CapacityModel.ReleaseServer(i));
      if s.host != None {
        var h := s.host.value;
        hosts := hosts[h := hosts[h].(used := Minus(hosts[h].used, s.size))];
      }
      servers := servers[i := s.(host := None)];
      BalancedIsNatural();
    }
  }
}
