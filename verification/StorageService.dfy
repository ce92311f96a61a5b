/**
  Storage service (src/storage_service.rs): a versioned, encrypted manifest that lists encrypted
  items, written optimistically by several devices. Every blob is `iv || ciphertext || tag`.
 */
module StorageService {
  import opened Prelude

  const IV_LEN: nat := 12

  /** The decoded protobuf of an item: opaque here, whatever its body. */
  datatype StorageRecord = StorageRecord(body: Bytes)

  datatype ManifestRecord = ManifestRecord(version: nat, sourceDevice: nat, identifiers: seq<Bytes>, recordIkm: Bytes)

  datatype StorageManifest = StorageManifest(version: nat, value: Bytes)

  datatype StorageItem = StorageItem(key: Bytes, value: Bytes)

  datatype WriteOperation = WriteOperation(
    manifest: StorageManifest, insertItem: seq<StorageItem>, deleteKey: seq<Bytes>, clearAll: bool)

  datatype DecryptedItem = DecryptedItem(key: Bytes, plaintext: Bytes, record: StorageRecord)

  datatype StorageError = Invalid | Conflict

  /** The libraries: key derivation, AES-256-GCM with a detached tag, and the protobuf codecs. */
  datatype Crypto = Crypto(
    hmac: (Bytes, Bytes) -> Bytes,
    hkdf: (Bytes, Bytes) -> Bytes,
    base64: Bytes -> Bytes,
    seal: (Bytes, Bytes, Bytes) -> (Bytes, Bytes),
    open: (Bytes, Bytes, Bytes) -> Option<Bytes>,
    encodeManifest: ManifestRecord -> Bytes,
    decodeManifest: Bytes -> Option<ManifestRecord>,
    decodeRecord: Bytes -> Option<StorageRecord>)

  /** What is assumed of them: opening undoes sealing, decoding undoes encoding. */
  ghost predicate Lawful(c: Crypto) {
    && (forall k, iv, m {:trigger c.seal(k, iv, m)} ::
          |c.seal(k, iv, m).0| == |m| && c.open(k, iv, c.seal(k, iv, m).0 + c.seal(k, iv, m).1) == Some(m))
    && (forall r {:trigger c.encodeManifest(r)} :: c.decodeManifest(c.encodeManifest(r)) == Some(r))
  }

  function Ascii(s: string): Bytes {
    seq(|s|, i requires 0 <= i < |s| => s[i] as int % 256)
  }

  // -- crypto -----------------------------------------------------------------

  function Sealed(c: Crypto, key: Bytes, iv: Bytes, plaintext: Bytes): Bytes {
    var (ciphertext, tag) := c.seal(key, iv, plaintext);
    iv + ciphertext + tag
  }

  /** One buffer: the IV, the plaintext encrypted where it stands, then the tag. */
  method Encrypt(c: Crypto, key: Bytes, iv: Bytes, plaintext: Bytes) returns (out: Bytes)
    requires Lawful(c) && |iv| == IV_LEN
    ensures out == Sealed(c, key, iv, plaintext)
    ensures Decrypt(c, key, out) == Ok(plaintext)
  {
    out := [];
    out := out + iv;
    out := out + plaintext;
    assert out[IV_LEN..] == plaintext;
    var (ciphertext, tag) := c.seal(key, iv, out[IV_LEN..]);
    out := out[..IV_LEN] + ciphertext;
    out := out + tag;
    assert out == Sealed(c, key, iv, plaintext);
    DecryptSealed(c, key, iv, plaintext);
  }

  function Decrypt(c: Crypto, key: Bytes, blob: Bytes): Result<Bytes, StorageError> {
    if |blob| < IV_LEN then Err(Invalid)
    else
      match c.open(key, blob[..IV_LEN], blob[IV_LEN..])
      case Some(plaintext) => Ok(plaintext)
      case None => Err(Invalid)
  }

  lemma DecryptSealed(c: Crypto, key: Bytes, iv: Bytes, plaintext: Bytes)
    requires Lawful(c) && |iv| == IV_LEN
    ensures Decrypt(c, key, Sealed(c, key, iv, plaintext)) == Ok(plaintext)
  {
    var (ciphertext, tag) := c.seal(key, iv, plaintext);
    var blob := Sealed(c, key, iv, plaintext);
    assert blob[..IV_LEN] == iv && blob[IV_LEN..] == ciphertext + tag;
  }

  function ManifestKey(c: Crypto, storageKey: Bytes, version: nat): Bytes {
    c.hmac(storageKey, Ascii("Manifest_") + Ascii(Decimal(version)))
  }

  /** HKDF from the manifest's ikm; without one, or with an empty one, the legacy derivation. */
  function ItemKey(c: Crypto, storageKey: Bytes, rawId: Bytes, recordIkm: Option<Bytes>): Bytes {
    if recordIkm.Some? && recordIkm.value != [] then
      c.hkdf(recordIkm.value, Ascii("20240801_SIGNAL_STORAGE_SERVICE_ITEM_") + rawId)
    else
      c.hmac(storageKey, Ascii("Item_") + c.base64(rawId))
  }

  function EncryptManifest(c: Crypto, storageKey: Bytes, record: ManifestRecord, iv: Bytes): StorageManifest {
    StorageManifest(record.version, Sealed(c, ManifestKey(c, storageKey, record.version), iv, c.encodeManifest(record)))
  }

  function DecryptManifest(c: Crypto, storageKey: Bytes, manifest: StorageManifest): Result<ManifestRecord, StorageError> {
    match Decrypt(c, ManifestKey(c, storageKey, manifest.version), manifest.value)
    case Err(e) => Err(e)
    case Ok(plaintext) =>
      match c.decodeManifest(plaintext)
      case Some(record) => Ok(record)
      case None => Err(Invalid)
  }

  function EncryptItem(c: Crypto, storageKey: Bytes, rawId: Bytes, record: Bytes, recordIkm: Option<Bytes>, iv: Bytes): StorageItem {
    StorageItem(rawId, Sealed(c, ItemKey(c, storageKey, rawId, recordIkm), iv, record))
  }

  function DecryptItem(c: Crypto, storageKey: Bytes, item: StorageItem, recordIkm: Option<Bytes>): Result<DecryptedItem, StorageError> {
    match Decrypt(c, ItemKey(c, storageKey, item.key, recordIkm), item.value)
    case Err(e) => Err(e)
    case Ok(plaintext) =>
      match c.decodeRecord(plaintext)
      case Some(record) => Ok(DecryptedItem(item.key, plaintext, record))
      case None => Err(Invalid)
  }

  /** An encoded record to be stored under a raw identifier, and the random IV drawn for it. */
  datatype Insert = Insert(id: Bytes, record: Bytes, iv: Bytes)

  function WriteOp(c: Crypto, storageKey: Bytes, manifest: ManifestRecord, iv: Bytes, inserts: seq<Insert>, deletes: seq<Bytes>)
    : WriteOperation
  {
    var recordIkm := if manifest.recordIkm == [] then None else Some(manifest.recordIkm);
    WriteOperation(
      EncryptManifest(c, storageKey, manifest, iv),
      seq(|inserts|, i requires 0 <= i < |inserts| =>
        EncryptItem(c, storageKey, inserts[i].id, inserts[i].record, recordIkm, inserts[i].iv)),
      deletes,
      false)
  }

  /** Items are fetched by identifier; those the server lacks are absent, and one bad item fails the read. */
  function DecryptItems(c: Crypto, storageKey: Bytes, items: seq<StorageItem>, recordIkm: Option<Bytes>)
    : Result<seq<DecryptedItem>, StorageError>
  {
    if items == [] then Ok([])
    else
      match DecryptItem(c, storageKey, items[0], recordIkm)
      case Err(e) => Err(e)
      case Ok(item) =>
        match DecryptItems(c, storageKey, items[1..], recordIkm)
        case Err(e) => Err(e)
        case Ok(rest) => Ok([item] + rest)
  }

  lemma ManifestRoundTrip(c: Crypto, storageKey: Bytes, record: ManifestRecord, iv: Bytes)
    requires Lawful(c) && |iv| == IV_LEN
    ensures DecryptManifest(c, storageKey, EncryptManifest(c, storageKey, record, iv)) == Ok(record)
  {
    DecryptSealed(c, ManifestKey(c, storageKey, record.version), iv, c.encodeManifest(record));
  }

  /** Every item of a write decrypts under the ikm of that write's own manifest, the empty one included. */
  lemma ItemsMatchTheirManifest(c: Crypto, storageKey: Bytes, manifest: ManifestRecord, iv: Bytes,
                                inserts: seq<Insert>, deletes: seq<Bytes>, i: nat)
    requires Lawful(c) && i < |inserts| && |inserts[i].iv| == IV_LEN && c.decodeRecord(inserts[i].record).Some?
    ensures var op := WriteOp(c, storageKey, manifest, iv, inserts, deletes);
            && op.insertItem[i].key == inserts[i].id
            && DecryptItem(c, storageKey, op.insertItem[i], Some(manifest.recordIkm))
               == Ok(DecryptedItem(inserts[i].id, inserts[i].record, c.decodeRecord(inserts[i].record).value))
            && (manifest.recordIkm == [] ==>
                  DecryptItem(c, storageKey, op.insertItem[i], None)
                  == DecryptItem(c, storageKey, op.insertItem[i], Some(manifest.recordIkm)))
  {
    var recordIkm := if manifest.recordIkm == [] then None else Some(manifest.recordIkm);
    assert ItemKey(c, storageKey, inserts[i].id, recordIkm) == ItemKey(c, storageKey, inserts[i].id, Some(manifest.recordIkm));
    DecryptSealed(c, ItemKey(c, storageKey, inserts[i].id, recordIkm), inserts[i].iv, inserts[i].record);
  }

  // -- what other clients see -----------------------------------------------------------

  const MANIFEST_: Bytes := [0x4D, 0x61, 0x6E, 0x69, 0x66, 0x65, 0x73, 0x74, 0x5F]

  const ITEM_: Bytes := [0x49, 0x74, 0x65, 0x6D, 0x5F]

  /** The octets of a version are its decimal digits; the octets of the two prefixes are as above. */
  lemma AsciiIsAscii(version: nat)
    ensures Ascii("Manifest_") == MANIFEST_ && Ascii("Item_") == ITEM_
    ensures var s, b := Decimal(version), Ascii(Decimal(version));
            |b| == |s| && forall i :: 0 <= i < |s| ==> 48 <= b[i] < 58 && b[i] == s[i] as int
  {
    DecimalIsDecimal(version);
    var s := Decimal(version);
    forall i | 0 <= i < |s|
      ensures IsDigit(s[i])
    {
      assert s[i] in s;
    }
  }

  lemma ThreeParts(c: Crypto, key: Bytes, iv: Bytes, plaintext: Bytes)
    requires Lawful(c) && |iv| == IV_LEN
    ensures var (ciphertext, tag) := c.seal(key, iv, plaintext);
            Sealed(c, key, iv, plaintext) == iv + ciphertext + tag && Decrypt(c, key, iv + ciphertext + tag) == Ok(plaintext)
  {
    DecryptSealed(c, key, iv, plaintext);
  }

  /**
    A manifest as any client writes it is read under the version it came with, and ours is written so:
    IV, ciphertext and tag, under the HMAC of "Manifest_" and the version's digits.
   */
  lemma ManifestsAreShared(c: Crypto, storageKey: Bytes, version: nat, record: ManifestRecord, iv: Bytes)
    requires Lawful(c) && |iv| == IV_LEN
    ensures var (ciphertext, tag) := c.seal(c.hmac(storageKey, MANIFEST_ + Ascii(Decimal(version))), iv, c.encodeManifest(record));
            var manifest := StorageManifest(version, iv + ciphertext + tag);
            && DecryptManifest(c, storageKey, manifest) == Ok(record)
            && (record.version == version ==> EncryptManifest(c, storageKey, record, iv) == manifest)
  {
    AsciiIsAscii(version);
    ThreeParts(c, c.hmac(storageKey, MANIFEST_ + Ascii(Decimal(version))), iv, c.encodeManifest(record));
  }

  /** The key of an item: HKDF over the raw identifier where there is an ikm, HMAC over its base64 where there is none. */
  lemma ItemsAreShared(c: Crypto, storageKey: Bytes, id: Bytes, record: Bytes, ikm: Bytes, iv: Bytes)
    requires Lawful(c) && |iv| == IV_LEN && c.decodeRecord(record).Some?
    ensures var modern := c.seal(c.hkdf(ikm, Ascii("20240801_SIGNAL_STORAGE_SERVICE_ITEM_") + id), iv, record);
            var legacy := c.seal(c.hmac(storageKey, ITEM_ + c.base64(id)), iv, record);
            var read := Ok(DecryptedItem(id, record, c.decodeRecord(record).value));
            && (ikm != [] ==>
                  var item := StorageItem(id, iv + modern.0 + modern.1);
                  DecryptItem(c, storageKey, item, Some(ikm)) == read
                  && EncryptItem(c, storageKey, id, record, Some(ikm), iv) == item)
            && var item := StorageItem(id, iv + legacy.0 + legacy.1);
               && DecryptItem(c, storageKey, item, None) == read && DecryptItem(c, storageKey, item, Some([])) == read
               && EncryptItem(c, storageKey, id, record, None, iv) == item
               && EncryptItem(c, storageKey, id, record, Some([]), iv) == item
  {
    AsciiIsAscii(0);
    ThreeParts(c, c.hkdf(ikm, Ascii("20240801_SIGNAL_STORAGE_SERVICE_ITEM_") + id), iv, record);
    ThreeParts(c, c.hmac(storageKey, ITEM_ + c.base64(id)), iv, record);
  }

  /** No two versions share a key message, and no manifest shares one with an item. */
  lemma KeyMessagesDiffer(v: nat, w: nat, base64: Bytes)
    ensures MANIFEST_ + Ascii(Decimal(v)) == MANIFEST_ + Ascii(Decimal(w)) <==> v == w
    ensures MANIFEST_ + Ascii(Decimal(v)) != ITEM_ + base64
  {
    AsciiIsAscii(v);
    AsciiIsAscii(w);
    if MANIFEST_ + Ascii(Decimal(v)) == MANIFEST_ + Ascii(Decimal(w)) {
      assert (MANIFEST_ + Ascii(Decimal(v)))[|MANIFEST_|..] == Ascii(Decimal(v));
      assert (MANIFEST_ + Ascii(Decimal(w)))[|MANIFEST_|..] == Ascii(Decimal(w));
      assert Decimal(v) == Decimal(w);
      DecimalInjective(v, w);
    }
    assert (MANIFEST_ + Ascii(Decimal(v)))[0] != (ITEM_ + base64)[0];
  }

  /** A manifest is read exactly if there is a whole IV, the rest opens under its version's key, and what is inside decodes. */
  lemma ManifestReadsIff(c: Crypto, storageKey: Bytes, manifest: StorageManifest, record: ManifestRecord)
    ensures var r := DecryptManifest(c, storageKey, manifest);
            && (r.Err? ==> r == Err(Invalid))
            && (r == Ok(record) <==>
                  && |manifest.value| >= IV_LEN
                  && var key := c.hmac(storageKey, MANIFEST_ + Ascii(Decimal(manifest.version)));
                     var plain := c.open(key, manifest.value[..IV_LEN], manifest.value[IV_LEN..]);
                     plain.Some? && c.decodeManifest(plain.value) == Some(record))
  {
    AsciiIsAscii(manifest.version);
  }

  /** And so an item, under the key its identifier and the manifest's ikm call for. */
  lemma ItemReadsIff(c: Crypto, storageKey: Bytes, item: StorageItem, ikm: Option<Bytes>, plaintext: Bytes)
    ensures var r := DecryptItem(c, storageKey, item, ikm);
            && (r.Err? ==> r == Err(Invalid))
            && (r.Ok? ==> r.value.key == item.key && c.decodeRecord(r.value.plaintext) == Some(r.value.record))
            && (r.Ok? && r.value.plaintext == plaintext <==>
                  && |item.value| >= IV_LEN && c.decodeRecord(plaintext).Some?
                  && var key := if ikm.GetOr([]) == [] then c.hmac(storageKey, ITEM_ + c.base64(item.key))
                                else c.hkdf(ikm.value, Ascii("20240801_SIGNAL_STORAGE_SERVICE_ITEM_") + item.key);
                     c.open(key, item.value[..IV_LEN], item.value[IV_LEN..]) == Some(plaintext))
  {
    AsciiIsAscii(0);
  }

  // -- a bad item --------------------------------------------------------------------------

  predicate FirstBad(c: Crypto, storageKey: Bytes, items: seq<StorageItem>, ikm: Option<Bytes>, i: nat, e: StorageError) {
    && i < |items| && DecryptItem(c, storageKey, items[i], ikm) == Err(e)
    && forall k :: 0 <= k < i ==> DecryptItem(c, storageKey, items[k], ikm).Ok?
  }

  lemma FirstBadLater(c: Crypto, storageKey: Bytes, items: seq<StorageItem>, ikm: Option<Bytes>, i: nat, e: StorageError)
    requires items != [] && DecryptItem(c, storageKey, items[0], ikm).Ok?
    requires FirstBad(c, storageKey, items[1..], ikm, i, e)
    ensures FirstBad(c, storageKey, items, ikm, i + 1, e)
  {
    assert forall k :: 0 < k < |items| ==> items[k] == items[1..][k - 1];
  }

  /** A read fails exactly if some item does, with what the first such item fails with; else every item is read, in order. */
  lemma {:induction false} OneBadItemFailsTheRead(c: Crypto, storageKey: Bytes, items: seq<StorageItem>, ikm: Option<Bytes>)
    ensures var r := DecryptItems(c, storageKey, items, ikm);
            && (r.Ok? ==> |r.value| == |items|
                          && forall i :: 0 <= i < |items| ==> DecryptItem(c, storageKey, items[i], ikm) == Ok(r.value[i]))
            && (r.Err? ==> exists i :: 0 <= i < |items| && FirstBad(c, storageKey, items, ikm, i, r.error))
    decreases items
  {
    if items != [] {
      OneBadItemFailsTheRead(c, storageKey, items[1..], ikm);
      var r, rest := DecryptItems(c, storageKey, items, ikm), DecryptItems(c, storageKey, items[1..], ikm);
      if DecryptItem(c, storageKey, items[0], ikm).Err? {
        assert FirstBad(c, storageKey, items, ikm, 0, r.error);
      } else if rest.Err? {
        var i :| 0 <= i < |items[1..]| && FirstBad(c, storageKey, items[1..], ikm, i, rest.error);
        FirstBadLater(c, storageKey, items, ikm, i, r.error);
      }
    }
  }
}
