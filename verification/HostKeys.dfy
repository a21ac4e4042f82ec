/** Host key checks of the gateway (services/prgd-gateway/src/host-keys.ts): against a known_hosts
    file, or by trusting and pinning the first key an asset and its address present. */
module HostKeyModel {
  import opened Options
  import opened Scrub

  datatype Decision = Trusted(firstUse: bool) | Mismatch | Unknown | Revoked

  datatype Marker = Plain | RevokedKey | CertAuthority

  datatype Line = Line(marker: Marker, patterns: seq<string>, blob: Bytes)

  /** What a key is pinned to. */
  datatype Pin = Asset(id: string) | Address(name: string)

  datatype Check = Check(assetId: string, address: string, blob: Bytes)

  // ---- trust on first use ----

  predicate Clashes(pins: map<Pin, Bytes>, k: Pin, blob: Bytes) {
    k in pins && pins[k] != blob
  }

  function OnFirstUse(pins: map<Pin, Bytes>, c: Check): (map<Pin, Bytes>, Decision) {
    var a, n := Asset(c.assetId), Address(c.address);
    if Clashes(pins, a, c.blob) || Clashes(pins, n, c.blob) then (pins, Mismatch)
    else (pins[a := c.blob][n := c.blob], Trusted(a !in pins))
  }

  function PinsAfter(checks: seq<Check>): map<Pin, Bytes> {
    if checks == [] then map[] else OnFirstUse(PinsAfter(checks[..|checks| - 1]), checks[|checks| - 1]).0
  }

  /** Check `i` of the process was accepted. */
  predicate AcceptedAt(checks: seq<Check>, i: nat)
    requires i < |checks|
  {
    OnFirstUse(PinsAfter(checks[..i]), checks[i]).1.Trusted?
  }

  /** A pin is never changed. */
  lemma {:induction false} PinsStay(checks: seq<Check>, i: nat, k: Pin)
    requires i <= |checks| && k in PinsAfter(checks[..i])
    ensures k in PinsAfter(checks) && PinsAfter(checks)[k] == PinsAfter(checks[..i])[k]
    decreases |checks|
  {
    if i == |checks| {
      assert checks[..i] == checks;
    } else {
      var front := checks[..|checks| - 1];
      assert front[..i] == checks[..i];
      PinsStay(front, i, k);
    }
  }

  /** An accepted key is pinned to its asset and its address from then on. */
  lemma AcceptedIsPinned(checks: seq<Check>, i: nat)
    requires i < |checks| && AcceptedAt(checks, i)
    ensures var p := PinsAfter(checks); var c := checks[i];
            Asset(c.assetId) in p && p[Asset(c.assetId)] == c.blob && Address(c.address) in p
                && p[Address(c.address)] == c.blob
  {
    var upTo := checks[..i + 1];
    assert upTo[..|upTo| - 1] == checks[..i] && upTo[|upTo| - 1] == checks[i];
    PinsStay(checks, i + 1, Asset(checks[i].assetId));
    PinsStay(checks, i + 1, Address(checks[i].address));
  }

  /** Two checks are about the same asset or the same address. */
  predicate Linked(c: Check, d: Check) {
    c.assetId == d.assetId || c.address == d.address
  }

  ghost predicate IsPath(checks: seq<Check>, path: seq<nat>) {
    && path != [] && (forall k | 0 <= k < |path| :: path[k] < |checks| && AcceptedAt(checks, path[k]))
    && forall k | 0 < k < |path| :: Linked(checks[path[k - 1]], checks[path[k]])
  }

  /** Over the life of the process all keys accepted within one connected group of assets and addresses
      are the same key, however the checks are ordered and whichever others come in between. */
  lemma {:induction false} OneKeyPerGroup(checks: seq<Check>, path: seq<nat>)
    requires IsPath(checks, path)
    ensures checks[path[0]].blob == checks[path[|path| - 1]].blob
    decreases |path|
  {
    hide AcceptedAt, PinsAfter;
    if |path| > 1 {
      var n := |path| - 1;
      OneKeyPerGroup(checks, path[..n]);
      AcceptedIsPinned(checks, path[n - 1]);
      AcceptedIsPinned(checks, path[n]);
      assert Linked(checks[path[n - 1]], checks[path[n]]);
    }
  }

  predicate About(c: Check, k: Pin) {
    k == Asset(c.assetId) || k == Address(c.address)
  }

  /** The pins are exactly the keys accepted so far for each asset and address. */
  lemma {:induction false} PinnedIff(checks: seq<Check>, k: Pin, blob: Bytes)
    ensures (k in PinsAfter(checks) && PinsAfter(checks)[k] == blob)
            <==> exists i: nat :: i < |checks| && AcceptedAt(checks, i) && About(checks[i], k) && checks[i].blob == blob
    decreases |checks|
  {
    if checks != [] {
      var n := |checks| - 1;
      var front := checks[..n];
      PinnedIff(front, k, blob);
      assert forall i: nat | i < n :: front[..i] == checks[..i];
      if i: nat :| i < n && AcceptedAt(front, i) && About(front[i], k) && front[i].blob == blob {
        assert AcceptedAt(checks, i);
        PinsStay(checks, n, k);
      }
      if i: nat :| i < |checks| && AcceptedAt(checks, i) && About(checks[i], k) && checks[i].blob == blob {
        AcceptedIsPinned(checks, i);
      }
      if k in PinsAfter(checks) && !(k in PinsAfter(front)) { assert AcceptedAt(checks, n); }
    }
  }

  /** A key is trusted exactly when no key accepted before for its asset or its address is another one; and
      it is a first use exactly when none was accepted for the asset. */
  lemma TrustedIff(checks: seq<Check>, c: Check)
    ensures var d := OnFirstUse(PinsAfter(checks), c).1;
            && (d.Trusted? <==> forall i: nat | i < |checks| && AcceptedAt(checks, i) && Linked(checks[i], c) ::
                                  checks[i].blob == c.blob)
            && (!d.Trusted? ==> d == Mismatch)
            && (d.Trusted? ==> (d.firstUse <==> forall i: nat | i < |checks| && AcceptedAt(checks, i) ::
                                                  checks[i].assetId != c.assetId))
  {
    hide PinsAfter, AcceptedAt;
    var pins := PinsAfter(checks);
    var a, n := Asset(c.assetId), Address(c.address);
    forall i: nat | i < |checks| && AcceptedAt(checks, i)
      ensures checks[i].assetId == c.assetId ==> a in pins && pins[a] == checks[i].blob
      ensures checks[i].address == c.address ==> n in pins && pins[n] == checks[i].blob
    {
      AcceptedIsPinned(checks, i);
    }
    WhoPinned(checks, a);
    WhoPinned(checks, n);
  }

  lemma WhoPinned(checks: seq<Check>, k: Pin)
    ensures k in PinsAfter(checks) ==>
              exists i: nat :: i < |checks| && AcceptedAt(checks, i) && About(checks[i], k)
                               && checks[i].blob == PinsAfter(checks)[k]
  {
    hide PinsAfter, AcceptedAt;
    if k in PinsAfter(checks) { PinnedIff(checks, k, PinsAfter(checks)[k]); }
  }

  /** A key that was accepted once is accepted again, for the same asset and address, whatever happened
      in between, and any other key is refused. */
  lemma AcceptedStaysTheOnlyKey(checks: seq<Check>, i: nat, blob: Bytes)
    requires i < |checks| && AcceptedAt(checks, i)
    ensures var c := checks[i];
            OnFirstUse(PinsAfter(checks), Check(c.assetId, c.address, blob)).1
            == if blob == c.blob then Trusted(false) else Mismatch
  {
    AcceptedIsPinned(checks, i);
  }

  // ---- known_hosts ----

  predicate Negated(p: string) {
    |p| > 0 && p[0] == '!'
  }

  function Bare(p: string): string {
    if Negated(p) then p[1..] else p
  }

  /** Some pattern names the host and no negated one does. */
  predicate HostMatches(matches: (string, string) -> bool, patterns: seq<string>, name: string) {
    && (exists i :: 0 <= i < |patterns| && !Negated(patterns[i]) && matches(Bare(patterns[i]), name))
    && (forall i | 0 <= i < |patterns| && Negated(patterns[i]) :: !matches(Bare(patterns[i]), name))
  }

  /** A host is meant by a line exactly if a pattern without "!" matches it and none behind a "!" does. */
  lemma HostMatchesIff(matches: (string, string) -> bool, patterns: seq<string>, name: string)
    ensures HostMatches(matches, patterns, name)
            <==> && (exists p :: p in patterns && !("!" <= p) && matches(p, name))
                 && (forall p :: "!" + p in patterns ==> !matches(p, name))
  {
    forall i | 0 <= i < |patterns| && Negated(patterns[i]) ensures patterns[i] == "!" + Bare(patterns[i]) {}
    forall p | "!" + p in patterns ensures Negated("!" + p) && Bare("!" + p) == p {}
  }

  predicate Applies(matches: (string, string) -> bool, l: Line, name: string, name22: Option<string>) {
    HostMatches(matches, l.patterns, name) || (name22 != None && HostMatches(matches, l.patterns, name22.value))
  }

  /** Some line of this kind, with this key, applies to the host. */
  predicate Listed(
      matches: (string, string) -> bool, lines: seq<Line>, name: string, name22: Option<string>, marker: Marker,
      blob: Bytes)
  {
    exists i ::
      0 <= i < |lines| && Applies(matches, lines[i], name, name22) && lines[i].marker == marker
      && lines[i].blob == blob
  }
}

module HostKeyVerifiers {
  import opened Options
  import opened Scrub
  import opened HostKeyModel

  class HostKeyVerifier {
    /** How one pattern is compared with a name: globs and hashed names. */
    const matches: (string, string) -> bool
    /** The lines of the known_hosts file, if there is one. */
    var lines: Option<seq<Line>>
    var pins: map<Pin, Bytes>

    constructor (matches: (string, string) -> bool, lines: Option<seq<Line>>)
      ensures this.matches == matches && this.lines == lines && pins == map[]
    {
      this.matches, this.lines, pins := matches, lines, map[];
    }

    method HostMatches(patterns: seq<string>, name: string) returns (hit: bool)
      ensures hit == HostKeyModel.HostMatches(matches, patterns, name)
    {
      hit := false;
      for i := 0 to |patterns|
        invariant hit <==> exists k :: 0 <= k < i && !Negated(patterns[k]) && matches(Bare(patterns[k]), name)
        invariant forall k | 0 <= k < i && Negated(patterns[k]) :: !matches(Bare(patterns[k]), name)
      {
        if matches(Bare(patterns[i]), name) {
          if Negated(patterns[i]) { return false; }
          hit := true;
        }
      }
    }

    /** With a file, a key is trusted exactly when a plain line lists it for the host and no revocation
        does; without one, exactly when neither its asset nor its address is pinned to another key. A
        refused key changes nothing. */
    method Check(c: Check, name22: Option<string>) returns (d: Decision)
      modifies this`pins
      ensures lines == None ==> (pins, d) == OnFirstUse(old(pins), c)
      ensures lines != None ==> pins == old(pins)
      ensures lines != None ==> (d.Trusted? <==> Listed(matches, lines.value, c.address, name22, Plain, c.blob)
                                                 && !Listed(matches, lines.value, c.address, name22,
                                                            RevokedKey, c.blob))
      ensures lines != None ==> (d == Revoked <==> Listed(matches, lines.value, c.address, name22, RevokedKey, c.blob))
      ensures lines != None && d == Unknown ==> forall blob ::
                !Listed(matches, lines.value, c.address, name22, Plain, blob)
      ensures d.Trusted? ==> (d.firstUse <==> lines == None && Asset(c.assetId) !in old(pins))
    {
      hide HostKeyModel.HostMatches;
      if lines != None {
        d := Lookup(lines.value, c, name22);
        return;
      }
      var a, n := Asset(c.assetId), Address(c.address);
      if a in pins && pins[a] != c.blob { return Mismatch; }
      if n in pins && pins[n] != c.blob { return Mismatch; }
      d := Trusted(a !in pins);
      pins := pins[a := c.blob][n := c.blob];
    }

    method Lookup(ls: seq<Line>, c: Check, name22: Option<string>) returns (d: Decision)
      ensures d == if Listed(matches, ls, c.address, name22, RevokedKey, c.blob) then Revoked
                   else if Listed(matches, ls, c.address, name22, Plain, c.blob) then Trusted(false)
                   else if exists i ::
                     0 <= i < |ls| && Applies(matches, ls[i], c.address, name22) && ls[i].marker == Plain then Mismatch
                   else Unknown
    {
      hide HostKeyModel.HostMatches, Applies;
      var revoked, listed, plain := false, false, false;
      for i := 0 to |ls|
        invariant revoked <==> exists k ::
                  0 <= k < i && Applies(matches, ls[k], c.address, name22)
                  && ls[k].marker == RevokedKey && ls[k].blob == c.blob
        invariant listed <==> exists k ::
                  0 <= k < i && Applies(matches, ls[k], c.address, name22)
                  && ls[k].marker == Plain && ls[k].blob == c.blob
        invariant plain <==> exists k ::
                  0 <= k < i && Applies(matches, ls[k], c.address, name22) && ls[k].marker == Plain
      {
        var applies := LineApplies(ls[i], c.address, name22);
        if applies {
          if ls[i].marker == RevokedKey && ls[i].blob == c.blob { revoked := true; }
          if ls[i].marker == Plain { plain := true; }
          if ls[i].marker == Plain && ls[i].blob == c.blob { listed := true; }
        }
      }
      d := if revoked then Revoked else if listed then Trusted(false) else if plain then Mismatch else Unknown;
    }

    method LineApplies(l: Line, name: string, name22: Option<string>) returns (r: bool)
      ensures r == Applies(matches, l, name, name22)
    {
      hide HostKeyModel.HostMatches;
      r := HostMatches(l.patterns, name);
      if !r && name22 != None { r := HostMatches(l.patterns, name22.value); }
    }
  }
}
