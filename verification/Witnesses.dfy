/**
  The libraries that the models take from outside can exist: for each set of laws, functions that
  keep them. They hide nothing, and are no more than witnesses.
 */
module Witnesses {
  import opened Prelude
  import G = GroupOperations
  import R = GroupRoundTrip
  import S = StorageService

  // -- numbers, texts and lists as bytes ----------------------------------------------

  /** Each number in unary, ended by a zero. */
  function Encode(ns: seq<nat>): Bytes {
    if ns == [] then [] else seq(ns[0], _ => 1) + [0] + Encode(ns[1..])
  }

  function Decode(b: Bytes, n: nat := 0): seq<nat> {
    if b == [] then []
    else if b[0] == 0 then [n] + Decode(b[1..], 0)
    else Decode(b[1..], n + 1)
  }

  lemma {:induction false} DecodeOne(k: nat, rest: Bytes, n: nat)
    ensures Decode(seq(k, _ => 1) + [0] + rest, n) == [n + k] + Decode(rest, 0)
  {
    var b := seq(k, _ => 1) + [0] + rest;
    if k == 0 {
      assert b[1..] == rest;
    } else {
      assert b[1..] == seq(k - 1, _ => 1) + [0] + rest;
      DecodeOne(k - 1, rest, n + 1);
    }
  }

  lemma {:induction false} DecodeEncode(ns: seq<nat>)
    ensures Decode(Encode(ns)) == ns
  {
    if ns != [] {
      DecodeOne(ns[0], Encode(ns[1..]), 0);
      DecodeEncode(ns[1..]);
    }
  }

  function Codes(s: string): seq<nat> {
    seq(|s|, i requires 0 <= i < |s| => s[i] as nat)
  }

  function Text(ns: seq<nat>): string {
    seq(|ns|, i requires 0 <= i < |ns| =>
      if ns[i] < 0xD800 || 0xE000 <= ns[i] < 0x11_0000 then ns[i] as char else ' ')
  }

  lemma TextRoundTrip(s: string)
    ensures Text(Decode(Encode(Codes(s)))) == s
  {
    DecodeEncode(Codes(s));
  }

  function Flat(ids: seq<Bytes>): seq<nat> {
    if ids == [] then [] else [|ids[0]|] + ids[0] + Flat(ids[1..])
  }

  function AsBytes(ns: seq<nat>): Bytes {
    seq(|ns|, i requires 0 <= i < |ns| => ns[i] % 256)
  }

  function Unflat(ns: seq<nat>): seq<Bytes> {
    if ns == [] || ns[0] > |ns| - 1 then []
    else [AsBytes(ns[1..1 + ns[0]])] + Unflat(ns[1 + ns[0]..])
  }

  lemma {:induction false} UnflatFlat(ids: seq<Bytes>)
    ensures Unflat(Flat(ids)) == ids
  {
    if ids != [] {
      var ns := Flat(ids);
      assert ns[1..1 + ns[0]] == ids[0] && ns[1 + ns[0]..] == Flat(ids[1..]);
      assert AsBytes(ids[0]) == ids[0];
      UnflatFlat(ids[1..]);
    }
  }

  // -- groups -------------------------------------------------------------------------

  function ServiceIdBytes(s: ServiceId): Bytes {
    [if s.Aci? then 0 else 1] + Encode([s.uuid])
  }

  function ServiceIdOf(b: Bytes): Result<ServiceId, G.GroupError> {
    if b == [] || |Decode(b[1..])| != 1 then Err(G.ZkGroupDeserializationFailure)
    else Ok(if b[0] == 0 then Aci(Decode(b[1..])[0]) else Pni(Decode(b[1..])[0]))
  }

  function BlobBytes(b: G.Blob): Bytes {
    match b
    case Title(t) => [0] + Encode(Codes(t))
    case Avatar(a) => [1] + a
    case Timer(d) => [2] + Encode([d])
    case DescriptionText(t) => [3] + Encode(Codes(t))
  }

  function BlobOf(b: Bytes): Option<Option<G.Blob>> {
    if b == [] then Some(None)
    else if b[0] == 0 then Some(Some(G.Title(Text(Decode(b[1..])))))
    else if b[0] == 1 then Some(Some(G.Avatar(b[1..])))
    else if b[0] == 2 && |Decode(b[1..])| == 1 then Some(Some(G.Timer(Decode(b[1..])[0])))
    else if b[0] == 3 then Some(Some(G.DescriptionText(Text(Decode(b[1..])))))
    else None
  }

  function KeyBytes(k: G.ProfileKey, aci: nat): Bytes {
    k
  }

  function Seal(rand: Bytes, b: Bytes): Bytes {
    Zeros(29) + b
  }

  function Present(c: G.Credential, rand: Bytes): Bytes {
    c.profileKey + ServiceIdBytes(Aci(c.aci))
  }

  function TextBytes(s: string): Bytes {
    Encode(Codes(s))
  }

  /** One group's params, for a world in which `sent` is the one change. */
  function Params(sent: G.Actions): G.Zk {
    G.Zk(
      Zeros(G.GROUP_IDENTIFIER_LEN),
      [],
      ServiceIdBytes,
      ServiceIdOf,
      KeyBytes,
      (b: Bytes, a: nat) => if |b| == G.PROFILE_KEY_LEN then Ok(b) else Err(G.ZkGroupVerificationFailure),
      Seal,
      (b: Bytes) => if |b| < 29 then Err(G.ZkGroupVerificationFailure) else Ok(b[29..]),
      Present,
      (b: Bytes) =>
        if |b| < G.PROFILE_KEY_LEN then Err(G.ZkGroupDeserializationFailure)
        else Ok((b[G.PROFILE_KEY_LEN..], b[..G.PROFILE_KEY_LEN])),
      BlobBytes,
      BlobOf,
      TextBytes,
      (b: Bytes) => Some(Text(Decode(b))),
      (b: Bytes) => "",
      (a: G.Actions) => [],
      (b: Bytes) => Some(sent))
  }

  lemma ServiceIdRoundTrip(s: ServiceId)
    ensures ServiceIdOf(ServiceIdBytes(s)) == Ok(s)
  {
    assert ServiceIdBytes(s)[1..] == Encode([s.uuid]);
    DecodeEncode([s.uuid]);
  }

  lemma BlobBytesRoundTrip(b: G.Blob)
    ensures BlobOf(BlobBytes(b)) == Some(Some(b))
  {
    match b
    case Title(t) =>
      TextRoundTrip(t);
      assert BlobBytes(b)[1..] == Encode(Codes(t));
    case Avatar(a) => assert BlobBytes(b)[1..] == a;
    case Timer(d) =>
      DecodeEncode([d]);
      assert BlobBytes(b)[1..] == Encode([d]);
    case DescriptionText(t) =>
      TextRoundTrip(t);
      assert BlobBytes(b)[1..] == Encode(Codes(t));
  }

  lemma PresentationSplits(c: G.Credential)
    ensures var b := c.profileKey + ServiceIdBytes(Aci(c.aci));
            b[G.PROFILE_KEY_LEN..] == ServiceIdBytes(Aci(c.aci)) && b[..G.PROFILE_KEY_LEN] == c.profileKey
  {
  }

  /** For every editor and every list of actions there are params under which the change can be sent. */
  lemma ParamsExist(editor: nat, version: nat, bs: seq<G.Builder>) returns (z: G.Zk)
    ensures G.Lawful(z) && G.Encodable(z, G.Stamped(z, editor, R.Assemble(version, R.Built(z, bs))))
    ensures R.NeverSays(z, G.NotAci)
  {
    var draft := Params(G.Actions([], [], 0, map[]));
    z := Params(G.Stamped(draft, editor, R.Assemble(version, R.Built(draft, bs))));
    BuiltAlike(draft, z, bs);
    forall s
      ensures z.decryptServiceId(z.encryptServiceId(s)) == Ok(s)
    {
      ServiceIdRoundTrip(s);
    }
    forall r, b
      ensures z.openBlob(z.sealBlob(r, b)) == Ok(b)
    {
      assert (Zeros(29) + b)[29..] == b;
    }
    forall c: G.Credential, r
      ensures z.present(c, r) != []
      ensures z.parsePresentation(z.present(c, r)) == Ok((z.encryptServiceId(Aci(c.aci)), z.encryptKey(c.profileKey, c.aci)))
    {
      PresentationSplits(c);
    }
    forall b
      ensures z.decodeBlob(z.encodeBlob(b)) == Some(Some(b))
    {
      BlobBytesRoundTrip(b);
    }
    forall s
      ensures z.fromUtf8(z.utf8(s)) == Some(s)
    {
      TextRoundTrip(s);
    }
  }

  ghost predicate BuildAlike(y: G.Zk, z: G.Zk) {
    && y.encryptServiceId == z.encryptServiceId && y.encryptKey == z.encryptKey && y.sealBlob == z.sealBlob
    && y.present == z.present && y.encodeBlob == z.encodeBlob && y.utf8 == z.utf8
  }

  lemma OneBuiltAlike(y: G.Zk, z: G.Zk, b: G.Builder)
    requires BuildAlike(y, z)
    ensures G.Build(y, b) == G.Build(z, b)
  {
  }

  /** What is built does not depend on how the message will be encoded. */
  lemma {:induction false} BuiltAlike(y: G.Zk, z: G.Zk, bs: seq<G.Builder>)
    requires BuildAlike(y, z)
    ensures R.Built(y, bs) == R.Built(z, bs)
  {
    if bs != [] {
      OneBuiltAlike(y, z, bs[0]);
      BuiltAlike(y, z, bs[1..]);
    }
  }

  // -- storage ------------------------------------------------------------------------

  function ManifestNumbers(m: S.ManifestRecord): seq<nat> {
    [m.version, m.sourceDevice] + Flat([m.recordIkm] + m.identifiers)
  }

  function ManifestOf(b: Bytes): Option<S.ManifestRecord> {
    var ns := Decode(b);
    if |ns| < 2 || Unflat(ns[2..]) == [] then None
    else
      var lists := Unflat(ns[2..]);
      Some(S.ManifestRecord(ns[0], ns[1], lists[1..], lists[0]))
  }

  function Libraries(): S.Crypto {
    S.Crypto(
      (k: Bytes, m: Bytes) => m,
      (k: Bytes, m: Bytes) => m,
      (b: Bytes) => b,
      (k: Bytes, iv: Bytes, m: Bytes) => (m, Zeros(16)),
      (k: Bytes, iv: Bytes, b: Bytes) => if |b| < 16 then None else Some(b[..|b| - 16]),
      (m: S.ManifestRecord) => Encode(ManifestNumbers(m)),
      (b: Bytes) => ManifestOf(b),
      (b: Bytes) => Some(S.StorageRecord(b)))
  }

  lemma ManifestBytesRoundTrip(m: S.ManifestRecord)
    ensures ManifestOf(Encode(ManifestNumbers(m))) == Some(m)
  {
    var lists := [m.recordIkm] + m.identifiers;
    DecodeEncode(ManifestNumbers(m));
    assert ManifestNumbers(m)[2..] == Flat(lists);
    UnflatFlat(lists);
    assert lists[1..] == m.identifiers;
  }

  /** Libraries as the storage service assumes them, under which every record decodes. */
  lemma LibrariesExist(record: Bytes)
    ensures S.Lawful(Libraries()) && Libraries().decodeRecord(record).Some?
  {
    var c := Libraries();
    forall k, iv, m
      ensures c.open(k, iv, c.seal(k, iv, m).0 + c.seal(k, iv, m).1) == Some(m)
    {
      assert (m + Zeros(16))[..|m|] == m;
    }
    forall r
      ensures c.decodeManifest(c.encodeManifest(r)) == Some(r)
    {
      ManifestBytesRoundTrip(r);
    }
  }
}
