/** SSH wire strings (section 5 of RFC 4251), the certificate check and the signed public key request
    (section 7 of RFC 4252), as services/prgd-gateway/src/ssh-keys.ts and
    services/prgd-gateway/src/ssh-client.ts write and read them. */
module SshWire {
  import opened Options
  import opened Scrub

  datatype Result<+T> = Ok(value: T) | Truncated

  /** A length that four bytes hold; a longer value makes the source throw. */
  const LIMIT := 0x1_0000_0000

  type Field = b: Bytes | |b| < LIMIT

  function Uint16(n: nat): (b: Bytes)
    requires n < 0x1_0000
    ensures |b| == 2
  {
    [n / 256, n % 256]
  }

  function ReadUint16(b: Bytes): (n: nat)
    requires |b| == 2
    ensures n < 0x1_0000
  {
    var high: nat, low: nat := b[0], b[1];
    high * 256 + low
  }

  /** The number in four bytes, most significant first. */
  function Uint32(n: nat): (b: Bytes)
    requires n < LIMIT
    ensures |b| == 4
  {
    Uint16(n / 0x1_0000) + Uint16(n % 0x1_0000)
  }

  function ReadUint32(b: Bytes): (n: nat)
    requires |b| == 4
    ensures n < LIMIT
  {
    ReadUint16(b[..2]) * 0x1_0000 + ReadUint16(b[2..])
  }

  lemma Uint16RoundTrips(n: nat, b: Bytes)
    requires n < 0x1_0000 && |b| == 2
    ensures ReadUint16(Uint16(n)) == n && Uint16(ReadUint16(b)) == b
  {
  }

  lemma Uint32ReadsBack(n: nat)
    requires n < LIMIT
    ensures ReadUint32(Uint32(n)) == n
  {
    hide Uint16, ReadUint16;
    Uint16RoundTrips(n / 0x1_0000, [0, 0]);
    Uint16RoundTrips(n % 0x1_0000, [0, 0]);
    assert Uint32(n)[..2] == Uint16(n / 0x1_0000) && Uint32(n)[2..] == Uint16(n % 0x1_0000);
  }

  lemma Uint32WritesBack(b: Bytes)
    requires |b| == 4
    ensures Uint32(ReadUint32(b)) == b
  {
    hide Uint16, ReadUint16;
    Uint16RoundTrips(0, b[..2]);
    Uint16RoundTrips(0, b[2..]);
    Halves(ReadUint16(b[..2]), ReadUint16(b[2..]));
    assert b == b[..2] + b[2..];
  }

  lemma Halves(h: nat, l: nat)
    requires l < 0x1_0000
    ensures (h * 0x1_0000 + l) / 0x1_0000 == h && (h * 0x1_0000 + l) % 0x1_0000 == l
  {
  }

  /** A length is the number that its four bytes make, most significant first. */
  lemma LengthIsBigEndian(b: Bytes, n: nat)
    requires |b| == 4 && n < LIMIT
    ensures var x: nat, y: nat, z: nat, w: nat := b[0], b[1], b[2], b[3];
            ReadUint32(b) == x * 16_777_216 + y * 65_536 + z * 256 + w
    ensures var x: nat, y: nat, z: nat, w: nat := Uint32(n)[0], Uint32(n)[1], Uint32(n)[2], Uint32(n)[3];
            n == x * 16_777_216 + y * 65_536 + z * 256 + w
  {
    assert Uint32(n) == Uint16(n / 0x1_0000) + Uint16(n % 0x1_0000);
  }

  function SshString(v: Field): Bytes {
    Uint32(|v|) + v
  }

  /** The string at `off`, and the offset behind it. */
  function ReadSshString(buf: Bytes, off: nat): Result<(Field, nat)> {
    if off + 4 > |buf| then Truncated
    else
      var n := ReadUint32(buf[off..off + 4]);
      if off + 4 + n > |buf| then Truncated else Ok((buf[off + 4..off + 4 + n], off + 4 + n))
  }

  /** Reading succeeds exactly where a whole string is written, and yields that string: nothing that
      was cut short is accepted, and nothing else can be read there. */
  lemma ReadsExactlyWhatIsWritten(buf: Bytes, off: nat, v: Field, next: nat)
    ensures ReadSshString(buf, off) == Ok((v, next))
            <==> off + |SshString(v)| == next <= |buf| && buf[off..next] == SshString(v)
  {
    if off + |SshString(v)| == next <= |buf| && buf[off..next] == SshString(v) {
      assert buf[off..off + 4] == buf[off..next][..4] == Uint32(|v|);
      Uint32ReadsBack(|v|);
      assert buf[off + 4..next] == buf[off..next][4..] == v;
    }
    if ReadSshString(buf, off) == Ok((v, next)) {
      Uint32WritesBack(buf[off..off + 4]);
      assert buf[off..next] == buf[off..off + 4] + buf[off + 4..next];
    }
  }

  /** A string is read back from any place in any buffer. */
  lemma ReadsBack(before: Bytes, v: Field, rest: Bytes)
    ensures ReadSshString(before + SshString(v) + rest, |before|) == Ok((v, |before + SshString(v)|))
  {
    hide SshString, ReadSshString;
    var buf := before + SshString(v) + rest;
    assert buf[|before|..|before + SshString(v)|] == SshString(v);
    ReadsExactlyWhatIsWritten(buf, |before|, v, |before + SshString(v)|);
  }

  /** A buffer that ends inside a string is rejected, wherever it was cut. */
  lemma TruncatedIsRejected(before: Bytes, v: Field, cut: nat)
    requires cut < |SshString(v)|
    ensures ReadSshString(before + SshString(v)[..cut], |before|) == Truncated
  {
    var buf := before + SshString(v)[..cut];
    if cut >= 4 {
      assert buf[|before|..|before| + 4] == Uint32(|v|);
      Uint32ReadsBack(|v|);
    }
  }

  // ---- sequences of strings ----

  function Concat(vs: seq<Field>): Bytes {
    if vs == [] then [] else SshString(vs[0]) + Concat(vs[1..])
  }

  /** `n` strings in a row, from `off`. */
  function ReadMany(buf: Bytes, off: nat, n: nat): Result<(seq<Field>, nat)>
    decreases n
  {
    if n == 0 then Ok(([], off))
    else
      match ReadSshString(buf, off)
      case Truncated => Truncated
      case Ok((v, next)) =>
        match ReadMany(buf, next, n - 1)
        case Truncated => Truncated
        case Ok((vs, end)) => Ok(([v] + vs, end))
  }

  lemma {:induction false} ManyReadBack(before: Bytes, vs: seq<Field>, rest: Bytes)
    ensures ReadMany(before + Concat(vs) + rest, |before|, |vs|) == Ok((vs, |before + Concat(vs)|))
    decreases |vs|
  {
    hide SshString, ReadSshString;
    if vs == [] {
      assert before + Concat(vs) + rest == before + rest;
    } else {
      var buf := before + Concat(vs) + rest;
      assert buf == before + SshString(vs[0]) + (Concat(vs[1..]) + rest);
      ReadsBack(before, vs[0], Concat(vs[1..]) + rest);
      var ahead := before + SshString(vs[0]);
      assert buf == ahead + Concat(vs[1..]) + rest;
      ManyReadBack(ahead, vs[1..], rest);
      assert [vs[0]] + vs[1..] == vs;
      assert ahead + Concat(vs[1..]) == before + Concat(vs);
    }
  }

  lemma ManyFromStart(vs: seq<Field>, rest: Bytes)
    ensures ReadMany(Concat(vs) + rest, 0, |vs|) == Ok((vs, |Concat(vs)|))
  {
    hide Concat, ReadMany;
    ManyReadBack([], vs, rest);
    assert [] + Concat(vs) == Concat(vs);
  }

  /** No sequence of strings can be mistaken for another one of the same number, whatever follows. */
  lemma ManyAreUnique(vs: seq<Field>, ws: seq<Field>, r: Bytes, t: Bytes)
    requires |vs| == |ws| && Concat(vs) + r == Concat(ws) + t
    ensures vs == ws && r == t
  {
    hide Concat, ReadMany;
    ManyFromStart(vs, r);
    ManyFromStart(ws, t);
    assert (Concat(vs) + r)[|Concat(vs)|..] == r && (Concat(ws) + t)[|Concat(ws)|..] == t;
  }

  // ---- the public key request ----

  const USERAUTH_REQUEST: Byte := 50

  /** The texts of the request, as the bytes of their characters. */
  function Ascii(s: string): Bytes {
    seq(|s|, i requires 0 <= i < |s| => s[i] as int % 256)
  }

  const CONNECTION: Field := Ascii("ssh-connection")
  const PUBLICKEY: Field := Ascii("publickey")
  const ED25519: Field := Ascii("ssh-ed25519")
  const ED25519_CERT: Field := Ascii("ssh-ed25519-cert-v01@openssh.com")

  function Flag(signed: bool): Bytes {
    if signed then [1] else [0]
  }

  /** The fields of the request, up to the signature. */
  function Fields(user: Field, signed: bool, blob: Field): Bytes {
    [USERAUTH_REQUEST] + SshString(user) + SshString(CONNECTION) + SshString(PUBLICKEY) + Flag(signed)
    + SshString(ED25519_CERT) + SshString(blob)
  }

  /** What the ephemeral key signs. */
  function SignedBytes(sessionId: Field, user: Field, blob: Field): Bytes {
    SshString(sessionId) + Fields(user, true, blob)
  }

  lemma FieldsAsConcat(user: Field, signed: bool, blob: Field)
    ensures Fields(user, signed, blob)
         == [USERAUTH_REQUEST] + (Concat([user, CONNECTION, PUBLICKEY]) + (Flag(signed) + Concat([ED25519_CERT, blob])))
  {
    hide SshString, Flag;
    ConcatThree(user, CONNECTION, PUBLICKEY);
    ConcatTwo(ED25519_CERT, blob);
  }

  lemma ConcatTwo(a: Field, b: Field)
    ensures Concat([a, b]) == SshString(a) + SshString(b)
  {
    hide SshString;
    assert [a, b][1..] == [b] && [b][1..] == [];
    assert Concat([b]) == SshString(b) + [];
  }

  lemma ConcatThree(a: Field, b: Field, c: Field)
    ensures Concat([a, b, c]) == SshString(a) + SshString(b) + SshString(c)
  {
    hide SshString;
    assert [a, b, c][1..] == [b, c];
    ConcatTwo(b, c);
  }

  /** A request says one thing only: its user, whether it is signed, its certificate, and what follows
      can all be told from the bytes. */
  lemma FieldsAreUnique(
      user: Field, signed: bool, blob: Field, r: Bytes, user': Field, signed': bool, blob': Field, r': Bytes)
    requires Fields(user, signed, blob) + r == Fields(user', signed', blob') + r'
    ensures user == user' && signed == signed' && blob == blob' && r == r'
  {
    hide SshString, Fields, Concat, Flag;
    FieldsAsConcat(user, signed, blob);
    FieldsAsConcat(user', signed', blob');
    var tail := Flag(signed) + Concat([ED25519_CERT, blob]) + r;
    var tail' := Flag(signed') + Concat([ED25519_CERT, blob']) + r';
    var names, names' := [user, CONNECTION, PUBLICKEY], [user', CONNECTION, PUBLICKEY];
    assert (Fields(user, signed, blob) + r)[1..] == Concat(names) + tail;
    assert (Fields(user', signed', blob') + r')[1..] == Concat(names') + tail';
    ManyAreUnique(names, names', tail, tail');
    assert user == names[0] == names'[0] == user';
    assert tail == Flag(signed) + (Concat([ED25519_CERT, blob]) + r)
        && tail' == Flag(signed') + (Concat([ED25519_CERT, blob']) + r');
    FlagIsUnique(signed, Concat([ED25519_CERT, blob]) + r, signed', Concat([ED25519_CERT, blob']) + r');
    ManyAreUnique([ED25519_CERT, blob], [ED25519_CERT, blob'], r, r');
    assert blob == [ED25519_CERT, blob][1] == [ED25519_CERT, blob'][1] == blob';
  }

  lemma FlagIsUnique(signed: bool, r: Bytes, signed': bool, r': Bytes)
    requires Flag(signed) + r == Flag(signed') + r'
    ensures signed == signed' && r == r'
  {
    assert (Flag(signed) + r)[0] == Flag(signed)[0] && (Flag(signed') + r')[0] == Flag(signed')[0];
    assert (Flag(signed) + r)[1..] == r && (Flag(signed') + r')[1..] == r';
  }

  /** The signature covers session, user and certificate: two different requests never have the same
      signed bytes, so a signature for one cannot serve another. */
  lemma SignedBytesAreUnique(sid: Field, user: Field, blob: Field, sid': Field, user': Field, blob': Field)
    requires SignedBytes(sid, user, blob) == SignedBytes(sid', user', blob')
    ensures sid == sid' && user == user' && blob == blob'
  {
    hide SshString, Fields;
    assert Concat([sid]) == SshString(sid) && Concat([sid']) == SshString(sid') by { ConcatOne(sid); ConcatOne(sid'); }
    ManyAreUnique([sid], [sid'], Fields(user, true, blob), Fields(user', true, blob'));
    assert sid == [sid][0] == [sid'][0] == sid';
    assert Fields(user, true, blob) + [] == Fields(user, true, blob)
        && Fields(user', true, blob') + [] == Fields(user', true, blob');
    FieldsAreUnique(user, true, blob, [], user', true, blob', []);
  }

  lemma ConcatOne(a: Field)
    ensures Concat([a]) == SshString(a)
  {
    hide SshString;
    assert [a][1..] == [];
    assert SshString(a) + [] == SshString(a);
  }

  /** The payload that is sent: with a signature it ends in the signature's own two strings. */
  function Payload(user: Field, blob: Field, signature: Option<Field>): Bytes
    requires signature != None ==> |SshString(ED25519) + SshString(signature.value)| < LIMIT
  {
    match signature
    case None => Fields(user, false, blob)
    case Some(s) => Fields(user, true, blob) + SshString(SshString(ED25519) + SshString(s))
  }

  /** The server can tell every part of the payload. */
  lemma PayloadIsUnique(user: Field, blob: Field, s: Option<Field>, user': Field, blob': Field, s': Option<Field>)
    requires s != None ==> |SshString(ED25519) + SshString(s.value)| < LIMIT
    requires s' != None ==> |SshString(ED25519) + SshString(s'.value)| < LIMIT
    requires Payload(user, blob, s) == Payload(user', blob', s')
    ensures user == user' && blob == blob' && s == s'
  {
    hide Fields, SshString;
    var r := if s == None then [] else SshString(SshString(ED25519) + SshString(s.value));
    var r' := if s' == None then [] else SshString(SshString(ED25519) + SshString(s'.value));
    assert Payload(user, blob, s) == Fields(user, s != None, blob) + r;
    assert Payload(user', blob', s') == Fields(user', s' != None, blob') + r';
    FieldsAreUnique(user, s != None, blob, r, user', s' != None, blob', r');
    if s != None { SignatureIsUnique(s.value, s'.value); }
  }

  lemma SignatureIsUnique(s: Field, t: Field)
    requires |SshString(ED25519) + SshString(s)| < LIMIT && |SshString(ED25519) + SshString(t)| < LIMIT
    ensures SshString(SshString(ED25519) + SshString(s)) == SshString(SshString(ED25519) + SshString(t)) ==> s == t
  {
    hide SshString, Concat;
    var a, b := SshString(ED25519) + SshString(s), SshString(ED25519) + SshString(t);
    if SshString(a) == SshString(b) {
      ConcatOne(a);
      ConcatOne(b);
      ManyAreUnique([a], [b], [], []);
      assert a == [a][0] == [b][0] == b;
      ConcatTwo(ED25519, s);
      ConcatTwo(ED25519, t);
      ManyAreUnique([ED25519, s], [ED25519, t], [], []);
      assert s == [ED25519, s][1] == [ED25519, t][1] == t;
    }
  }

  lemma ReadsAfter(before: Bytes, vs: seq<Field>, rest: Bytes, buf: Bytes, off: nat)
    requires buf == before + Concat(vs) + rest && off == |before|
    ensures ReadMany(buf, off, |vs|) == Ok((vs, off + |Concat(vs)|))
  {
    ManyReadBack(before, vs, rest);
  }

  /** A server that reads the request as section 7 of RFC 4252 lays it out finds the message number, the user,
      the service, the method, the flag, the algorithm and the certificate, and then what follows. */
  lemma ServerReadsRequest(user: Field, signed: bool, blob: Field, rest: Bytes)
    ensures var p := Fields(user, signed, blob) + rest;
            && p[0] == 50
            && var names := ReadMany(p, 1, 3);
               && names.Ok? && names.value.0 == [user, Ascii("ssh-connection"), Ascii("publickey")]
               && var at := names.value.1;
                  && at < |p| && p[at] == (if signed then 1 else 0)
                  && ReadMany(p, at + 1, 2)
                     == Ok(([Ascii("ssh-ed25519-cert-v01@openssh.com"), blob], |Fields(user, signed, blob)|))
  {
    hide SshString, Fields, Concat, ReadMany, Ascii;
    FieldsAsConcat(user, signed, blob);
    var names, key := [user, CONNECTION, PUBLICKEY], [ED25519_CERT, blob];
    var p := Fields(user, signed, blob) + rest;
    var head := [USERAUTH_REQUEST] + Concat(names);
    assert p == [USERAUTH_REQUEST] + Concat(names) + (Flag(signed) + Concat(key) + rest);
    ReadsAfter([USERAUTH_REQUEST], names, Flag(signed) + Concat(key) + rest, p, 1);
    assert p == (head + Flag(signed)) + Concat(key) + rest;
    assert p[|head|] == Flag(signed)[0];
    ReadsAfter(head + Flag(signed), key, rest, p, |head| + 1);
  }

  /** Behind a signed request the server finds one string, in which the key type precedes the signature; and
      what was signed is the session's id followed by the request's fields. */
  lemma ServerReadsSignature(user: Field, blob: Field, s: Field, sid: Field)
    requires |SshString(ED25519) + SshString(s)| < LIMIT
    ensures var p, at := Payload(user, blob, Some(s)), |Fields(user, true, blob)|;
            && p[..at] == Fields(user, true, blob)
            && var read := ReadSshString(p, at);
               && read.Ok? && read.value.1 == |p|
               && ReadMany(read.value.0, 0, 2) == Ok(([Ascii("ssh-ed25519"), s], |read.value.0|))
    ensures var read := ReadSshString(SignedBytes(sid, user, blob), 0);
            read.Ok? && read.value.0 == sid && SignedBytes(sid, user, blob)[read.value.1..] == Fields(user, true, blob)
  {
    hide SshString, Fields, Concat, ReadMany, ReadSshString, Ascii;
    var front, both := Fields(user, true, blob), SshString(ED25519) + SshString(s);
    ReadsBack(front, both, []);
    assert front + SshString(both) + [] == Payload(user, blob, Some(s));
    ConcatTwo(ED25519, s);
    ManyFromStart([ED25519, s], []);
    assert Concat([ED25519, s]) + [] == both;
    ReadsBack([], sid, front);
    assert [] + SshString(sid) + front == SignedBytes(sid, user, blob);
    assert |[] + SshString(sid)| == |SshString(sid)|;
  }

  // ---- the certificate ----

  datatype Certificate = Accepted | BadType | BadKey | CutShort

  /** The check of a certificate blob: its type, a nonce of any content, and the session's own key. */
  method CertificateBlob(blob: Bytes, raw: Field) returns (c: Certificate)
    ensures c == Accepted <==> exists nonce: Field, rest: Bytes :: blob == Concat([ED25519_CERT, nonce, raw]) + rest
  {
    hide SshString, ReadSshString, Concat;
    var off := 0;
    var v: Bytes;
    var r := ReadSshString(blob, off);
    if r == Truncated { Refusal(blob, raw); return CutShort; }
    v, off := r.value.0, r.value.1;
    if v != ED25519_CERT { Refusal(blob, raw); return BadType; }
    r := ReadSshString(blob, off);
    if r == Truncated { Refusal(blob, raw); return CutShort; }
    ghost var nonce := r.value.0;
    off := r.value.1;
    r := ReadSshString(blob, off);
    if r == Truncated { Refusal(blob, raw); return CutShort; }
    v, off := r.value.0, r.value.1;
    if v != raw { Refusal(blob, raw); return BadKey; }
    Acceptance(blob, raw, nonce, off);
    c := Accepted;
  }

  /** Three reads succeed on every blob of the right form. */
  lemma Refusal(blob: Bytes, raw: Field)
    ensures (exists nonce: Field, rest: Bytes :: blob == Concat([ED25519_CERT, nonce, raw]) + rest) ==>
              var a := ReadSshString(blob, 0);
              && a.Ok? && a.value.0 == ED25519_CERT
              && var b := ReadSshString(blob, a.value.1);
                 b.Ok? && var c := ReadSshString(blob, b.value.1); c.Ok? && c.value.0 == raw
  {
    hide SshString, ReadSshString, Concat;
    if nonce: Field, rest: Bytes :| blob == Concat([ED25519_CERT, nonce, raw]) + rest {
      ConcatThree(ED25519_CERT, nonce, raw);
      var x, y, z := SshString(ED25519_CERT), SshString(nonce), SshString(raw);
      assert blob == [] + x + (y + z + rest) == x + y + (z + rest) == (x + y) + z + rest;
      ReadsBack([], ED25519_CERT, y + z + rest);
      assert [] + x == x;
      ReadsBack(x, nonce, z + rest);
      ReadsBack(x + y, raw, rest);
    }
  }

  lemma Acceptance(blob: Bytes, raw: Field, nonce: Field, end: nat)
    requires var a := ReadSshString(blob, 0);
             && a.Ok? && a.value.0 == ED25519_CERT
             && var b := ReadSshString(blob, a.value.1);
                b.Ok? && b.value.0 == nonce && ReadSshString(blob, b.value.1) == Ok((raw, end))
    ensures end <= |blob| && blob == Concat([ED25519_CERT, nonce, raw]) + blob[end..]
  {
    hide SshString, ReadSshString, Concat;
    var a := ReadSshString(blob, 0).value.1;
    var b := ReadSshString(blob, a).value.1;
    ReadsExactlyWhatIsWritten(blob, 0, ED25519_CERT, a);
    ReadsExactlyWhatIsWritten(blob, a, nonce, b);
    ReadsExactlyWhatIsWritten(blob, b, raw, end);
    ConcatThree(ED25519_CERT, nonce, raw);
    assert blob == blob[0..a] + blob[a..b] + blob[b..end] + blob[end..];
  }
}
