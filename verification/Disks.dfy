/** Volumes in the scsi slots of a VM (agents/host-agent/internal/proxmox/client.go), and plugging
    them in again after a rebuild or a rollback (apps/api/src/workflows/activities.ts). */
module Disks {
  import opened Hypervisor
  import opened FirewallSpec
  import FirewallMeaning

  type Config = map<string, string>

  /** The loop over the slots ends at 30; slot 0 is the boot disk. */
  const LAST_SLOT := 30

  function Decimal(n: nat): string {
    var digit := [('0' as int + n % 10) as char];
    if n < 10 then digit else Decimal(n / 10) + digit
  }

  function Slot(i: nat): string {
    "scsi" + Decimal(i)
  }

  predicate OccursAt(s: string, sub: string, i: nat) {
    i + |sub| <= |s| && s[i..i + |sub|] == sub
  }

  predicate Contains(s: string, sub: string) {
    exists i: nat | i <= |s| :: OccursAt(s, sub, i)
  }

  function Entry(volid: string, serial: string): string {
    volid + ",backup=0,serial=" + serial
  }

  /** The value is the entry of this very volume: its name, alone or before the options. */
  predicate Seats(value: string, volid: string) {
    value == volid || volid + "," <= value
  }

  /** The scsi keys that hold the volume. */
  function SeatsOf(c: Config, volid: string): set<string> {
    set k | k in c && "scsi" <= k && Seats(c[k], volid)
  }

  /** The scsi keys whose value mentions the volume. */
  function Holders(c: Config, volid: string): set<string> {
    set k | k in c && "scsi" <= k && Contains(c[k], volid)
  }

  function FreeSlots(c: Config): set<int> {
    set i | 1 <= i <= LAST_SLOT && Slot(i) !in c
  }

  ghost predicate FirstFree(c: Config, slot: string) {
    exists i :: 1 <= i <= LAST_SLOT && slot == Slot(i) && slot !in c && forall j | 1 <= j < i :: Slot(j) in c
  }

  /** What attaching makes of the configuration. */
  ghost predicate Attached(c: Config, d: Config, slot: string, volid: string, serial: string) {
    if Holders(c, volid) != {} then d == c && slot in Holders(c, volid)
    else FirstFree(c, slot) && d == c[slot := Entry(volid, serial)]
  }

  lemma EntryContains(volid: string, serial: string)
    ensures Contains(Entry(volid, serial), volid)
  {
    assert OccursAt(Entry(volid, serial), volid, 0);
  }

  /** A new entry names the volume and carries two options: it is excluded from backups and has the serial
      by which the guest finds it. */
  lemma EntryOptions(volid: string, serial: string)
    requires ',' !in volid && ',' !in serial
    ensures SplitOn(Entry(volid, serial), ',') == [volid, "backup=0", "serial=" + serial]
  {
    hide SplitOn;
    var options := "backup=0,serial=" + serial;
    SplitFirst(volid, ',', options);
    assert Entry(volid, serial) == volid + [','] + options;
    SplitFirst("backup=0", ',', "serial=" + serial);
    assert options == "backup=0" + [','] + ("serial=" + serial);
    SplitPlain("serial=" + serial, ',');
    assert [volid] + (["backup=0"] + ["serial=" + serial]) == [volid, "backup=0", "serial=" + serial];
  }

  /** A key that holds the same value, looked for in any order. */
  method SlotWithValue(cfg: Config, value: string) returns (found: bool, key: string)
    ensures found ==> key in cfg && "scsi" <= key && cfg[key] == value
    ensures !found ==> forall k | k in cfg && "scsi" <= k :: cfg[k] != value
  {
    var left := cfg.Keys;
    while left != {}
      invariant left <= cfg.Keys && forall k | k in cfg && k !in left && "scsi" <= k :: cfg[k] != value
      decreases |left|
    {
      var k :| k in left;
      if cfg[k] == value && "scsi" <= k { return true, k; }
      left := left - {k};
    }
    return false, "";
  }

  method AlreadyAttached(cfg: Config, volid: string) returns (found: bool, key: string)
    ensures found ==> key in Holders(cfg, volid)
    ensures !found ==> Holders(cfg, volid) == {}
  {
    hide Contains;
    var left := cfg.Keys;
    while left != {}
      invariant left <= cfg.Keys && forall k | k in cfg && k !in left && "scsi" <= k :: !Contains(cfg[k], volid)
      decreases |left|
    {
      var k :| k in left;
      if Contains(cfg[k], volid) {
        found, key := SlotWithValue(cfg, cfg[k]);
        if found { return; }
      }
      left := left - {k};
    }
    return false, "";
  }

  method FreeSlot(cfg: Config) returns (found: bool, slot: string)
    ensures found ==> FirstFree(cfg, slot)
    ensures found <==> FreeSlots(cfg) != {}
  {
    hide Slot;
    var i := 1;
    while i <= LAST_SLOT
      invariant 1 <= i <= LAST_SLOT + 1 && forall j | 1 <= j < i :: Slot(j) in cfg
    {
      if Slot(i) !in cfg {
        assert i in FreeSlots(cfg);
        return true, Slot(i);
      }
      i := i + 1;
    }
    assert FreeSlots(cfg) == {};
    return false, "";
  }

  /** Plugs the volume into the first free slot, once: a volume that some slot mentions stays where it
      is. No slot in use is ever written, and nothing else in the configuration changes. It succeeds
      exactly when no call was hindered and the volume is mentioned or a slot is free. */
  method AttachDisk(api: Api, volid: string, serial: string) returns (ok: bool, slot: string)
    modifies api`vm, api`trace, api`script, api`hindered
    ensures ok ==> Attached(old(api.vm).config, api.vm.config, slot, volid, serial)
    ensures !ok ==>
              api.vm.config == old(api.vm).config || Attached(old(api.vm).config, api.vm.config, slot, volid, serial)
    ensures ok <==> api.hindered == old(api.hindered)
                    && (Holders(old(api.vm).config, volid) != {} || FreeSlots(old(api.vm).config) != {})
    ensures old(api.script) == [] ==> api.script == [] && api.hindered == old(api.hindered)
    ensures api.vm == old(api.vm).(config := api.vm.config)
    ensures ok && Holders(old(api.vm).config, volid) == {} && ',' !in volid && ',' !in serial ==>
              slot in api.vm.config && SplitOn(api.vm.config[slot], ',') == [volid, "backup=0", "serial=" + serial]
  {
    hide Holders, Slot, Entry, SplitOn;
    if ',' !in volid && ',' !in serial { EntryOptions(volid, serial); }
    slot := "";
    var cfg: Config;
    ok, cfg := api.GetConfig();
    if !ok { return; }
    var found, key := AlreadyAttached(cfg, volid);
    if found { return true, key; }
    found, slot := FreeSlot(cfg);
    if !found {
      ok := false;
      return;
    }
    ok := api.PostConfig(slot, Entry(volid, serial));
  }

  /** Unplugs one slot that mentions the volume; none is fine. */
  method DetachDisk(api: Api, volid: string) returns (ok: bool)
    modifies api`vm, api`trace, api`script, api`hindered
    ensures ok && Holders(old(api.vm).config, volid) == {} ==> api.vm == old(api.vm)
    ensures ok && Holders(old(api.vm).config, volid) != {} ==>
              exists k :: k in Holders(old(api.vm).config, volid) && api.vm.config == old(api.vm).config - {k}
    ensures !ok ==> api.vm == old(api.vm) || exists k ::
                      k in Holders(old(api.vm).config, volid) && api.vm.config == old(api.vm).config - {k}
    ensures forall k | k in old(api.vm).config && k !in api.vm.config ::
              "scsi" <= k && Contains(old(api.vm).config[k], volid)
    ensures ok <==> api.hindered == old(api.hindered)
    ensures old(api.script) == [] ==> api.script == [] && api.hindered == old(api.hindered)
  {
    hide Contains;
    var cfg: Config;
    ok, cfg := api.GetConfig();
    if !ok { return; }
    var left := cfg.Keys;
    while left != {}
      invariant left <= cfg.Keys && api.vm == old(api.vm) && ok
      invariant forall k | k in cfg && k !in left :: k !in Holders(cfg, volid)
      invariant api.hindered == old(api.hindered) && (old(api.script) == [] ==> api.script == [])
      decreases |left|
    {
      var k :| k in left;
      if "scsi" <= k && Contains(cfg[k], volid) {
        assert k in Holders(cfg, volid);
        ok := api.DeleteConfig(k);
        return;
      }
      left := left - {k};
    }
    assert Holders(cfg, volid) == {};
  }

  // ---- laws ----

  lemma SeatIsHolder(c: Config, volid: string)
    ensures SeatsOf(c, volid) <= Holders(c, volid)
  {
    hide Contains;
    forall k | k in SeatsOf(c, volid) ensures k in Holders(c, volid) {
      assert OccursAt(c[k], volid, 0);
      SeatContains(c[k], volid);
    }
  }

  lemma SeatContains(value: string, volid: string)
    ensures Seats(value, volid) ==> Contains(value, volid)
  {
    if Seats(value, volid) { assert OccursAt(value, volid, 0); }
  }

  lemma EntrySeats(volid: string, serial: string)
    ensures Seats(Entry(volid, serial), volid)
  {
    assert Entry(volid, serial) == volid + "," + "backup=0,serial=" + serial;
  }

  /** A scsi entry of something else mentions the volume. */
  ghost predicate Foreign(c: Config, volid: string) {
    Holders(c, volid) != SeatsOf(c, volid)
  }

  /** Attaching seats a volume exactly when it was seated before or no entry of something else mentions
      it; and the slot it answers with is the volume's own exactly when no such entry exists or the
      answer is a slot the volume had. */
  lemma AttachSeatsIff(c: Config, d: Config, slot: string, volid: string, serial: string)
    requires Attached(c, d, slot, volid, serial)
    ensures SeatsOf(d, volid) != {} <==> SeatsOf(c, volid) != {} || !Foreign(c, volid)
    ensures slot in SeatsOf(d, volid) <==> slot in SeatsOf(c, volid) || !Foreign(c, volid)
  {
    hide Contains, Entry, Seats, Slot, Holders;
    SeatIsHolder(c, volid);
    if Holders(c, volid) == {} {
      FreshSeat(c, slot, volid, serial);
      assert SeatsOf(c, volid) == {};
    }
  }

  /** In a fresh slot, the volume has exactly that seat. */
  lemma FreshSeat(c: Config, slot: string, volid: string, serial: string)
    requires SeatsOf(c, volid) == {} && FirstFree(c, slot)
    ensures SeatsOf(c[slot := Entry(volid, serial)], volid) == {slot}
  {
    hide Entry, Slot, Seats;
    EntrySeats(volid, serial);
    var i :| 1 <= i <= LAST_SLOT && slot == Slot(i);
    SlotIsScsi(i);
    var d := c[slot := Entry(volid, serial)];
    forall k ensures k in SeatsOf(d, volid) <==> k == slot {
      assert k in c && k != slot ==> k !in SeatsOf(c, volid);
    }
  }

  /** After an attach some slot mentions the volume, and attaching again changes nothing. */
  lemma AttachIsIdempotent(c: Config, d: Config, e: Config, slot: string, again: string, volid: string, serial: string)
    requires Attached(c, d, slot, volid, serial) && Attached(d, e, again, volid, serial)
    ensures e == d && slot in Holders(d, volid) && (Holders(c, volid) == {} ==> again == slot)
  {
    hide Contains, Entry;
    EntryContains(volid, serial);
    if Holders(c, volid) == {} {
      FreshHolder(c, slot, volid, serial);
    }
  }

  lemma SlotIsScsi(i: nat)
    ensures "scsi" <= Slot(i)
  {
  }

  /** In a fresh slot, the volume has exactly that slot. */
  lemma FreshHolder(c: Config, slot: string, volid: string, serial: string)
    requires Holders(c, volid) == {} && FirstFree(c, slot)
    ensures Holders(c[slot := Entry(volid, serial)], volid) == {slot}
  {
    hide Contains, Entry, Slot;
    EntryContains(volid, serial);
    var i :| 1 <= i <= LAST_SLOT && slot == Slot(i);
    SlotIsScsi(i);
    var d := c[slot := Entry(volid, serial)];
    forall k ensures k in Holders(d, volid) <==> k == slot {
      assert k in c && k != slot ==> k !in Holders(c, volid);
    }
  }

  /** Detaching what a fresh attach plugged in gives back the configuration as it was. */
  lemma DetachUndoesAttach(c: Config, d: Config, slot: string, k: string, volid: string, serial: string)
    requires Holders(c, volid) == {} && Attached(c, d, slot, volid, serial) && k in Holders(d, volid)
    ensures d - {k} == c
  {
    hide Contains, Entry;
    FreshHolder(c, slot, volid, serial);
  }

  // ---- plugging in again ----

  datatype Volume = Volume(ref: string, serial: string)

  ghost predicate ExactlyOneSeat(c: Config, volid: string) {
    exists k :: SeatsOf(c, volid) == {k}
  }

  /** `d` has everything of `c` unchanged, and beyond it only entries of the volumes. */
  ghost predicate Extends(c: Config, d: Config, vols: seq<Volume>) {
    && (forall k | k in c :: k in d && d[k] == c[k])
    && (forall k | k in d && k !in c :: exists i :: 0 <= i < |vols| && d[k] == Entry(vols[i].ref, vols[i].serial))
  }

  /** No volume's entry reads as the entry of another volume. */
  ghost predicate OwnEntries(vols: seq<Volume>) {
    forall i, j | 0 <= i < |vols| && 0 <= j < |vols| && i != j ::
        !Seats(Entry(vols[i].ref, vols[i].serial), vols[j].ref)
  }

  /** Volume `i` will get a slot: no scsi entry mentions it, neither one of the configuration nor one of
      an earlier volume that gets a slot. */
  ghost predicate GetsSlot(c: Config, vols: seq<Volume>, i: nat)
    requires i < |vols|
  {
    && Holders(c, vols[i].ref) == {}
    && forall j: nat | j < i && GetsSlot(c, vols, j) :: !Contains(Entry(vols[j].ref, vols[j].serial), vols[i].ref)
  }

  /** The first `n` volumes were attached, one after the other, from configuration `c` on. */
  ghost predicate Plugged(c: Config, d: Config, vols: seq<Volume>, n: nat)
    requires n <= |vols|
    decreases n, 1
  {
    if n == 0 then d == c else exists mid, slot :: PluggedLast(c, mid, slot, d, vols, n)
  }

  /** The last of the `n` volumes was attached in configuration `mid`. */
  ghost predicate PluggedLast(c: Config, mid: Config, slot: string, d: Config, vols: seq<Volume>, n: nat)
    requires 0 < n <= |vols|
    decreases n, 0
  {
    Plugged(c, mid, vols, n - 1) && Attached(mid, d, slot, vols[n - 1].ref, vols[n - 1].serial)
  }

  /** What a new entry changes for any volume. */
  lemma NewEntry(mid: Config, d: Config, slot: string, v: Volume, other: string)
    requires Attached(mid, d, slot, v.ref, v.serial) && Holders(mid, v.ref) == {}
    ensures Holders(d, other) == {} <==> Holders(mid, other) == {} && !Contains(Entry(v.ref, v.serial), other)
    ensures !Seats(Entry(v.ref, v.serial), other) ==> SeatsOf(d, other) == SeatsOf(mid, other)
  {
    hide Contains, Entry, Seats, Slot;
    var i :| 1 <= i <= LAST_SLOT && slot == Slot(i);
    SlotIsScsi(i);
    assert d == mid[slot := Entry(v.ref, v.serial)] && slot !in mid;
    assert slot in Holders(d, other) <==> Contains(Entry(v.ref, v.serial), other);
    assert forall k :: k in Holders(d, other)
                       <==> k in Holders(mid, other) || (k == slot && Contains(Entry(v.ref, v.serial), other));
    if !Seats(Entry(v.ref, v.serial), other) {
      forall k ensures k in SeatsOf(d, other) <==> k in SeatsOf(mid, other) {}
    }
  }

  /** Who mentions a volume once the first `n` are attached. */
  ghost predicate Mentioned(c: Config, d: Config, vols: seq<Volume>, n: nat, i: nat)
    requires n <= |vols| && i < |vols|
  {
    Holders(d, vols[i].ref) == {}
    <==> Holders(c, vols[i].ref) == {}
         && forall j: nat | j < n && GetsSlot(c, vols, j) :: !Contains(Entry(vols[j].ref, vols[j].serial), vols[i].ref)
  }

  lemma {:induction false} PluggedMentions(c: Config, d: Config, vols: seq<Volume>, n: nat, i: nat)
    requires n <= |vols| && i < |vols| && Plugged(c, d, vols, n)
    ensures Mentioned(c, d, vols, n, i)
    decreases n, 0
  {
    hide Contains, Entry, Attached, Holders, GetsSlot;
    if n > 0 {
      var mid, slot :| PluggedLast(c, mid, slot, d, vols, n);
      PluggedMentions(c, mid, vols, n - 1, i);
      GetsSlotNow(c, mid, vols, n - 1);
      AttachMentions(mid, d, slot, vols[n - 1], vols[i].ref);
    }
  }

  /** The next volume needs a slot exactly if that could be told from the start. */
  lemma GetsSlotNow(c: Config, d: Config, vols: seq<Volume>, n: nat)
    requires n < |vols| && Plugged(c, d, vols, n)
    ensures Holders(d, vols[n].ref) == {} <==> GetsSlot(c, vols, n)
    decreases n, 1
  {
    hide Contains, Entry, Holders, Plugged;
    PluggedMentions(c, d, vols, n, n);
  }

  lemma AttachMentions(c: Config, d: Config, slot: string, v: Volume, other: string)
    requires Attached(c, d, slot, v.ref, v.serial)
    ensures Holders(d, other) == {} <==>
              Holders(c, other) == {} && (Holders(c, v.ref) == {} ==> !Contains(Entry(v.ref, v.serial), other))
  {
    hide Contains, Entry, Holders;
    if Holders(c, v.ref) == {} { NewEntry(c, d, slot, v, other); }
  }

  /** Where volume `i` sits once the first `n` are attached. */
  ghost predicate Standing(c: Config, d: Config, vols: seq<Volume>, n: nat, i: nat)
    requires n <= |vols| && i < |vols|
  {
    if i < n && GetsSlot(c, vols, i) then ExactlyOneSeat(d, vols[i].ref)
    else SeatsOf(d, vols[i].ref) == SeatsOf(c, vols[i].ref)
  }

  lemma {:induction false} PluggedStands(c: Config, d: Config, vols: seq<Volume>, n: nat, i: nat)
    requires n <= |vols| && i < |vols| && OwnEntries(vols) && Plugged(c, d, vols, n)
    ensures Standing(c, d, vols, n, i)
    decreases n
  {
    hide Contains, Entry, Attached, GetsSlot, OwnEntries, Holders, SeatsOf;
    if n > 0 {
      var mid, slot :| PluggedLast(c, mid, slot, d, vols, n);
      PluggedStands(c, mid, vols, n - 1, i);
      GetsSlotNow(c, mid, vols, n - 1);
      OneMoreStands(c, mid, d, slot, vols, n, i);
    }
  }

  lemma OneMoreStands(c: Config, mid: Config, d: Config, slot: string, vols: seq<Volume>, n: nat, i: nat)
    requires 0 < n <= |vols| && i < |vols| && OwnEntries(vols)
    requires Attached(mid, d, slot, vols[n - 1].ref, vols[n - 1].serial)
    requires Standing(c, mid, vols, n - 1, i)
    requires Holders(mid, vols[n - 1].ref) == {} <==> GetsSlot(c, vols, n - 1)
    ensures Standing(c, d, vols, n, i)
  {
    hide Contains, Entry, Seats, Slot, GetsSlot, Holders, SeatsOf;
    if GetsSlot(c, vols, n - 1) {
      NewEntry(mid, d, slot, vols[n - 1], vols[i].ref);
      if i == n - 1 {
        NoMentionNoSeat(mid, vols[i].ref);
        FreshSeat(mid, slot, vols[i].ref, vols[i].serial);
      }
    }
  }

  lemma NoMentionNoSeat(c: Config, volid: string)
    ensures Holders(c, volid) == {} ==> SeatsOf(c, volid) == {}
  {
    SeatIsHolder(c, volid);
  }

  /** Names without a comma that differ never read as one another's entries; the agent's own names are
      like that. */
  lemma PlainNamesAreOwn(vols: seq<Volume>)
    requires forall i | 0 <= i < |vols| :: ',' !in vols[i].ref
    requires forall i, j | 0 <= i < j < |vols| :: vols[i].ref != vols[j].ref
    ensures OwnEntries(vols)
  {
    forall i, j | 0 <= i < |vols| && 0 <= j < |vols| && i != j
      ensures !Seats(Entry(vols[i].ref, vols[i].serial), vols[j].ref)
    {
      SeatedNameIsIt(vols[i].ref, vols[i].serial, vols[j].ref);
    }
  }

  function UpToComma(s: string): string {
    if s == [] || s[0] == ',' then [] else [s[0]] + UpToComma(s[1..])
  }

  lemma {:induction false} NameIsUpToComma(name: string, rest: string)
    requires ',' !in name
    ensures UpToComma(name + "," + rest) == name
  {
    if name == [] {
      assert name + "," + rest == "," + rest;
    } else {
      NameIsUpToComma(name[1..], rest);
      assert (name + "," + rest)[1..] == name[1..] + "," + rest;
    }
  }

  lemma SeatedNameIsIt(v: string, serial: string, w: string)
    requires ',' !in v && ',' !in w
    ensures Seats(Entry(v, serial), w) ==> v == w
  {
    hide UpToComma;
    var e := Entry(v, serial);
    assert e[|v|] == ',' && e == v + "," + ("backup=0,serial=" + serial);
    NameIsUpToComma(v, "backup=0,serial=" + serial);
    if w + "," <= e {
      assert e == w + "," + e[|w| + 1..];
      NameIsUpToComma(w, e[|w| + 1..]);
    }
  }

  // ---- whether the slots suffice ----

  lemma {:induction false} DecimalIsInjective(a: nat, b: nat)
    requires Decimal(a) == Decimal(b)
    ensures a == b
  {
    var x, y := Decimal(a), Decimal(b);
    assert x[|x| - 1] == ('0' as int + a % 10) as char && y[|y| - 1] == ('0' as int + b % 10) as char;
    if a >= 10 && b >= 10 {
      assert x[..|x| - 1] == Decimal(a / 10) && y[..|y| - 1] == Decimal(b / 10);
      DecimalIsInjective(a / 10, b / 10);
    } else {
      DecimalLength(a);
      DecimalLength(b);
    }
  }

  lemma DecimalLength(n: nat)
    ensures |Decimal(n)| == 1 <==> n < 10
  {
  }

  lemma SlotIsInjective(i: nat, j: nat)
    requires Slot(i) == Slot(j)
    ensures i == j
  {
    assert Slot(i)[4..] == Decimal(i) && Slot(j)[4..] == Decimal(j);
    DecimalIsInjective(i, j);
  }

  /** A decimal number without a leading zero. */
  predicate Numeral(s: string) {
    FirewallMeaning.IsNumber(s) && (s[0] != '0' || |s| == 1)
  }

  lemma {:induction false} DecimalReadsBack(n: nat)
    ensures Numeral(Decimal(n)) && FirewallMeaning.Value(Decimal(n)) == n && (n > 0 ==> Decimal(n)[0] != '0')
  {
    var s := Decimal(n);
    if n >= 10 {
      DecimalReadsBack(n / 10);
      assert s[..|s| - 1] == Decimal(n / 10) && s[0] == Decimal(n / 10)[0];
    } else {
      assert s[..0] == "";
    }
  }

  lemma {:induction false} DecimalOfValue(s: string)
    requires Numeral(s)
    ensures Decimal(FirewallMeaning.Value(s)) == s && (s[0] != '0' ==> FirewallMeaning.Value(s) > 0)
    decreases |s|
  {
    var front, digit := s[..|s| - 1], s[|s| - 1] as int - '0' as int;
    if |s| > 1 {
      DecimalOfValue(front);
      var n := FirewallMeaning.Value(front);
      assert FirewallMeaning.Value(s) == 10 * n + digit;
      assert (10 * n + digit) / 10 == n && (10 * n + digit) % 10 == digit;
      assert front + [s[|s| - 1]] == s;
    } else {
      assert front == "" && s == [s[0]];
    }
  }

  /** The slots are "scsi1" to "scsi30", and one is free exactly if the configuration has no such key. */
  lemma SlotsAreNumbered(c: Config, slot: string)
    ensures (exists i: nat :: i in FreeSlots(c) && Slot(i) == slot)
            <==> "scsi" <= slot && slot !in c && Numeral(slot[4..]) && 1 <= FirewallMeaning.Value(slot[4..]) <= 30
  {
    hide Decimal, FirewallMeaning.Value;
    if i: nat :| i in FreeSlots(c) && Slot(i) == slot {
      assert slot[4..] == Decimal(i);
      DecimalReadsBack(i);
    }
    if "scsi" <= slot && slot !in c && Numeral(slot[4..]) && 1 <= FirewallMeaning.Value(slot[4..]) <= 30 {
      var i := FirewallMeaning.Value(slot[4..]);
      DecimalOfValue(slot[4..]);
      assert Slot(i) == "scsi" + slot[4..] == slot;
      assert i in FreeSlots(c);
    }
  }

  /** A volume that is plugged in takes one free slot. */
  lemma AttachTakesOne(c: Config, d: Config, slot: string, volid: string, serial: string)
    requires Attached(c, d, slot, volid, serial)
    ensures |FreeSlots(d)| == |FreeSlots(c)| - if Holders(c, volid) == {} then 1 else 0
  {
    hide Contains, Entry, Slot, Holders;
    if Holders(c, volid) == {} {
      var i :| 1 <= i <= LAST_SLOT && slot == Slot(i) && slot !in c;
      forall j | 1 <= j <= LAST_SLOT && Slot(j) == slot ensures j == i { SlotIsInjective(i, j); }
      assert i in FreeSlots(c) && FreeSlots(d) == FreeSlots(c) - {i};
    }
  }

  /** How many of the first `n` volumes get a slot, if there are enough. */
  ghost function SlotsTaken(c: Config, vols: seq<Volume>, n: nat): nat
    requires n <= |vols|
  {
    if n == 0 then 0 else SlotsTaken(c, vols, n - 1) + if GetsSlot(c, vols, n - 1) then 1 else 0
  }

  lemma {:induction false} SlotsTakenGrows(c: Config, vols: seq<Volume>, n: nat, m: nat)
    requires n <= m <= |vols|
    ensures SlotsTaken(c, vols, n) <= SlotsTaken(c, vols, m)
  {
    hide GetsSlot;
    if n < m { SlotsTakenGrows(c, vols, n, m - 1); }
  }

  lemma {:induction false} SlotsLeft(c: Config, d: Config, vols: seq<Volume>, n: nat)
    requires n <= |vols| && Plugged(c, d, vols, n)
    ensures |FreeSlots(d)| + SlotsTaken(c, vols, n) == |FreeSlots(c)|
    decreases n
  {
    hide Contains, Entry, Attached, Holders, GetsSlot, FreeSlots;
    if n > 0 {
      var mid, slot :| PluggedLast(c, mid, slot, d, vols, n);
      SlotsLeft(c, mid, vols, n - 1);
      GetsSlotNow(c, mid, vols, n - 1);
      AttachTakesOne(mid, d, slot, vols[n - 1].ref, vols[n - 1].serial);
    }
  }

  lemma NoSlotLeft(c: Config, d: Config, vols: seq<Volume>, n: nat)
    requires n < |vols| && Plugged(c, d, vols, n)
    ensures Holders(d, vols[n].ref) == {} && FreeSlots(d) == {} ==> SlotsTaken(c, vols, |vols|) > |FreeSlots(c)|
  {
    hide Holders, FreeSlots, GetsSlot, Plugged;
    SlotsLeft(c, d, vols, n);
    GetsSlotNow(c, d, vols, n);
    SlotsTakenGrows(c, vols, n + 1, |vols|);
  }

  /** Attaches every volume that the database shows on the server. Whatever was in the configuration
      stays as it was. When the call succeeds, a volume sits in exactly one slot if and only if it did
      before or it could be told from the start that it gets one. It succeeds exactly when no call was
      hindered and the free slots suffice for the volumes that get one. */
  method ReattachVolumes(api: Api, vols: seq<Volume>) returns (ok: bool)
    modifies api`vm, api`trace, api`script, api`hindered
    ensures Extends(old(api.vm).config, api.vm.config, vols)
    ensures ok ==> Plugged(old(api.vm).config, api.vm.config, vols, |vols|)
    ensures ok <==> api.hindered == old(api.hindered)
                    && SlotsTaken(old(api.vm).config, vols, |vols|) <= |FreeSlots(old(api.vm).config)|
    ensures old(api.script) == [] ==> api.script == [] && api.hindered == old(api.hindered)
    ensures ok && OwnEntries(vols) ==>
              forall i: nat | i < |vols| ::
                ExactlyOneSeat(api.vm.config, vols[i].ref)
                <==> ExactlyOneSeat(old(api.vm).config, vols[i].ref) || GetsSlot(old(api.vm).config, vols, i)
  {
    hide Contains, Entry, Slot, Attached, Extends, OwnEntries, GetsSlot, ExactlyOneSeat, FreeSlots, SlotsTaken;
    ghost var c := api.vm.config;
    ExtendsSelf(c, vols);
    for i := 0 to |vols|
      invariant Extends(c, api.vm.config, vols) && Plugged(c, api.vm.config, vols, i)
      invariant api.hindered == old(api.hindered) && (old(api.script) == [] ==> api.script == [])
    {
      ghost var d := api.vm.config;
      NoSlotLeft(c, d, vols, i);
      var slot: string;
      ok, slot := AttachDisk(api, vols[i].ref, vols[i].serial);
      if api.vm.config != d || ok { AttachExtends(c, d, api.vm.config, slot, vols, i); }
      if !ok { return; }
      assert PluggedLast(c, d, slot, api.vm.config, vols, i + 1);
    }
    ok := true;
    SlotsLeft(c, api.vm.config, vols, |vols|);
    if OwnEntries(vols) {
      forall i: nat | i < |vols|
        ensures ExactlyOneSeat(api.vm.config, vols[i].ref) <==> ExactlyOneSeat(c, vols[i].ref) || GetsSlot(c, vols, i)
      {
        SeatedIff(c, api.vm.config, vols, i);
      }
    }
  }

  /** The same on configurations: who ends up with exactly one seat. */
  lemma SeatedIff(c: Config, d: Config, vols: seq<Volume>, i: nat)
    requires OwnEntries(vols) && Plugged(c, d, vols, |vols|) && i < |vols|
    ensures ExactlyOneSeat(d, vols[i].ref) <==> ExactlyOneSeat(c, vols[i].ref) || GetsSlot(c, vols, i)
  {
    hide Contains, Entry, Plugged, GetsSlot, Seats, OwnEntries;
    PluggedStands(c, d, vols, |vols|, i);
  }

  /** In an orderly configuration every volume is seated: names do not occur in one another's entries,
      every entry that mentions a volume is its own, and none has two. */
  lemma OrderlyVolumesAreSeated(c: Config, d: Config, vols: seq<Volume>, i: nat)
    requires Plugged(c, d, vols, |vols|) && i < |vols| && OwnEntries(vols)
    requires forall j: nat | j < i :: !Contains(Entry(vols[j].ref, vols[j].serial), vols[i].ref)
    requires !Foreign(c, vols[i].ref)
    requires forall j, k | j in SeatsOf(c, vols[i].ref) && k in SeatsOf(c, vols[i].ref) :: j == k
    ensures ExactlyOneSeat(d, vols[i].ref)
  {
    hide Contains, Entry, Plugged, Seats, OwnEntries;
    SeatedIff(c, d, vols, i);
    if SeatsOf(c, vols[i].ref) != {} {
      var k :| k in SeatsOf(c, vols[i].ref);
      assert SeatsOf(c, vols[i].ref) == {k};
    }
  }

  lemma AttachExtends(c: Config, d: Config, e: Config, slot: string, vols: seq<Volume>, i: nat)
    requires Extends(c, d, vols) && i < |vols| && Attached(d, e, slot, vols[i].ref, vols[i].serial)
    ensures Extends(c, e, vols)
  {
    hide Contains, Entry, Slot;
  }

  lemma ExtendsSelf(c: Config, vols: seq<Volume>)
    ensures Extends(c, c, vols)
  {
  }

  /** Why the names matter. A volume whose name occurs in the entry of another one is taken for attached
      and gets no seat, whether that entry was there before or belongs to a volume listed earlier. */
  lemma AShorterNameGetsNoSlot()
    ensures var ten, one := Volume("ceph:vol-10", "b"), Volume("ceph:vol-1", "a");
            var c := map["scsi1" := Entry(ten.ref, ten.serial)];
            && OwnEntries([one]) && OwnEntries([ten, one])
            && !GetsSlot(c, [one], 0) && SeatsOf(c, one.ref) == {} && !GetsSlot(map[], [ten, one], 1)
            && (forall d, slot :: Attached(c, d, slot, one.ref, one.serial) ==> d == c && slot == "scsi1")
            && (forall d :: Plugged(map[], d, [ten, one], 2) ==> SeatsOf(d, one.ref) == {})
  {
    var ten, one := Volume("ceph:vol-10", "b"), Volume("ceph:vol-1", "a");
    var c: Config := map["scsi1" := Entry(ten.ref, ten.serial)];
    assert OccursAt(Entry(ten.ref, ten.serial), one.ref, 0);
    assert [ten, one][0] == ten && [ten, one][1] == one && [one][0] == one;
    PlainNamesAreOwn([ten, one]);
    SeatedNameIsIt(ten.ref, ten.serial, one.ref);
    assert "scsi1" in Holders(c, one.ref);
    assert Holders(map[], ten.ref) == {} && SeatsOf(map[], one.ref) == {};
    assert GetsSlot(map[], [ten, one], 0);
    forall d | Plugged(map[], d, [ten, one], 2) ensures SeatsOf(d, one.ref) == {} {
      PluggedStands(map[], d, [ten, one], 2, 1);
    }
  }
}
