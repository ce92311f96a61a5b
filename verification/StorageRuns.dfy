/**
  Several devices writing through `write_operation` to one server that accepts only the version
  after its own (src/storage_service.rs). A writer starts from the manifest it last read: it goes
  one version up, carries the ikm forward and lists every identifier it means to keep.
 */
module StorageRuns {
  import opened Prelude
  import opened StorageService

  datatype Remote = Remote(manifest: Option<StorageManifest>, items: map<Bytes, Bytes>)
  {
    function Version(): nat { if manifest.Some? then manifest.value.version else 0 }
  }

  function Store(items: map<Bytes, Bytes>, inserts: seq<StorageItem>): map<Bytes, Bytes> {
    if inserts == [] then items
    else Store(items, inserts[..|inserts| - 1])[inserts[|inserts| - 1].key := inserts[|inserts| - 1].value]
  }

  /** The server: 409 unless the version is the next one. */
  function Put(remote: Remote, op: WriteOperation): Result<Remote, StorageError> {
    if op.manifest.version != remote.Version() + 1 then Err(Conflict)
    else
      var kept := if op.clearAll then map[] else remote.items - (set k | k in op.deleteKey);
      Ok(Remote(Some(op.manifest), Store(kept, op.insertItem)))
  }

  /** One write as its author means it; `ikm` matters only for the account's very first manifest. */
  datatype Write = Write(device: nat, inserts: seq<Insert>, deletes: seq<Bytes>, ikm: Bytes, iv: Bytes)

  /**
    `bases` is what each device last read or wrote. `history` (the accepted manifests, oldest
    first) and `meaning` (the bytes last supplied under an identifier) are bookkeeping only.
   */
  datatype Net = Net(remote: Remote, bases: map<nat, ManifestRecord>, history: seq<ManifestRecord>, meaning: map<Bytes, Bytes>)

  datatype Event = Sync(device: nat) | Attempt(write: Write)

  function Ids(inserts: seq<Insert>): seq<Bytes> {
    seq(|inserts|, i requires 0 <= i < |inserts| => inserts[i].id)
  }

  function Without(ids: seq<Bytes>, gone: seq<Bytes>): (r: seq<Bytes>)
    ensures forall id :: id in r <==> id in ids && id !in gone
  {
    if ids == [] then []
    else if ids[0] in gone then Without(ids[1..], gone)
    else [ids[0]] + Without(ids[1..], gone)
  }

  /** The manifest a device builds on top of the one it knows. */
  function NextManifest(base: Option<ManifestRecord>, w: Write): ManifestRecord {
    match base
    case None => ManifestRecord(1, w.device, Ids(w.inserts), w.ikm)
    case Some(m) => ManifestRecord(m.version + 1, w.device, Without(m.identifiers, w.deletes) + Ids(w.inserts), m.recordIkm)
  }

  function Meaning(meaning: map<Bytes, Bytes>, inserts: seq<Insert>): map<Bytes, Bytes> {
    if inserts == [] then meaning
    else Meaning(meaning, inserts[..|inserts| - 1])[inserts[|inserts| - 1].id := inserts[|inserts| - 1].record]
  }

  function BaseOf(net: Net, d: nat): Option<ManifestRecord> {
    if d in net.bases then Some(net.bases[d]) else None
  }

  /** `write_items` over the network: the answer, and what has changed by then. */
  function WriteItems(c: Crypto, key: Bytes, net: Net, w: Write): (Result<(), StorageError>, Net) {
    var manifest := NextManifest(BaseOf(net, w.device), w);
    match Put(net.remote, WriteOp(c, key, manifest, w.iv, w.inserts, w.deletes))
    case Err(e) => (Err(e), net)
    case Ok(remote) =>
      (Ok(()), Net(remote, net.bases[w.device := manifest], net.history + [manifest], Meaning(net.meaning, w.inserts)))
  }

  function Step(c: Crypto, key: Bytes, net: Net, e: Event): Net {
    match e
    case Attempt(w) => WriteItems(c, key, net, w).1
    case Sync(d) =>
      if net.remote.manifest.None? then net
      else
        match DecryptManifest(c, key, net.remote.manifest.value)
        case Ok(m) => net.(bases := net.bases[d := m])
        case Err(_) => net
  }

  /** A write is never both inserting and deleting an identifier, and supplies encoded records. */
  ghost predicate ValidEvent(c: Crypto, e: Event) {
    e.Attempt? ==>
      && |e.write.iv| == IV_LEN
      && forall i :: i in e.write.inserts ==>
           |i.iv| == IV_LEN && c.decodeRecord(i.record).Some? && i.id !in e.write.deletes
  }

  function Run(c: Crypto, key: Bytes, events: seq<Event>): Net {
    if events == [] then Net(Remote(None, map[]), map[], [], map[])
    else Step(c, key, Run(c, key, events[..|events| - 1]), events[|events| - 1])
  }

  // -- invariant -------------------------------------------------------------------

  /** The stored manifest decrypts, under its own version, to the latest accepted one. */
  ghost predicate ManifestOk(c: Crypto, key: Bytes, net: Net) {
    && net.remote.Version() == |net.history|
    && (net.remote.manifest.Some? <==> net.history != [])
    && (net.history != [] ==>
          DecryptManifest(c, key, net.remote.manifest.value) == Ok(net.history[|net.history| - 1]))
    && (forall i :: 0 <= i < |net.history| ==> net.history[i].version == i + 1)
  }

  /** What a device knows is some manifest that was really accepted. */
  ghost predicate BasesOk(net: Net) {
    forall d :: d in net.bases ==>
      1 <= net.bases[d].version <= |net.history| && net.bases[d] == net.history[net.bases[d].version - 1]
  }

  /** `id` is stored and decrypts under `ikm` to the bytes its writer supplied. */
  ghost predicate Readable(c: Crypto, key: Bytes, items: map<Bytes, Bytes>, meaning: map<Bytes, Bytes>, ikm: Bytes, id: Bytes) {
    && id in items && id in meaning && c.decodeRecord(meaning[id]).Some?
    && DecryptItem(c, key, StorageItem(id, items[id]), Some(ikm))
       == Ok(DecryptedItem(id, meaning[id], c.decodeRecord(meaning[id]).value))
  }

  ghost predicate ItemsOk(c: Crypto, key: Bytes, net: Net) {
    net.history != [] ==>
      var m := net.history[|net.history| - 1];
      forall id :: id in m.identifiers ==> Readable(c, key, net.remote.items, net.meaning, m.recordIkm, id)
  }

  ghost predicate Inv(c: Crypto, key: Bytes, net: Net) {
    ManifestOk(c, key, net) && BasesOk(net) && ItemsOk(c, key, net)
  }

  /** A write is accepted exactly when its author had seen the latest manifest, and else changes nothing. */
  lemma AcceptedIffUpToDate(c: Crypto, key: Bytes, net: Net, w: Write)
    requires Inv(c, key, net)
    ensures var (answer, net') := WriteItems(c, key, net, w);
            var latest := if net.history == [] then None else Some(net.history[|net.history| - 1]);
            && (answer.Ok? <==> BaseOf(net, w.device) == latest)
            && (answer.Err? ==> answer == Err(Conflict) && net' == net)
  {
  }

  /** An accepted write keeps every identifier the account had, except those it deletes on purpose. */
  lemma NothingSilentlyDiscarded(c: Crypto, key: Bytes, net: Net, w: Write)
    requires Inv(c, key, net) && net.history != [] && WriteItems(c, key, net, w).0.Ok?
    ensures var before := net.history[|net.history| - 1];
            var after := WriteItems(c, key, net, w).1.history[|net.history|];
            && after.recordIkm == before.recordIkm && after.version == before.version + 1 && after.sourceDevice == w.device
            && forall id :: id in after.identifiers <==>
                 (id in before.identifiers && id !in w.deletes) || id in Ids(w.inserts)
  {
    AcceptedIffUpToDate(c, key, net, w);
  }

  /** The first manifest of an account is its author's: version, device and ikm, and what was inserted with it. */
  lemma FirstWriteIsItsAuthors(c: Crypto, key: Bytes, net: Net, w: Write)
    requires Inv(c, key, net) && net.history == []
    ensures WriteItems(c, key, net, w).0.Ok? && WriteItems(c, key, net, w).1.history == [ManifestRecord(1, w.device, Ids(w.inserts), w.ikm)]
  {
    AcceptedIffUpToDate(c, key, net, w);
  }

  /** After a conflict: a device that reads the manifest again knows the latest one, and its next write is accepted. */
  lemma SyncThenWrite(c: Crypto, key: Bytes, net: Net, d: nat, w: Write)
    requires Inv(c, key, net) && net.history != [] && w.device == d
    ensures var net' := Step(c, key, net, Sync(d));
            && BaseOf(net', d) == Some(net.history[|net.history| - 1])
            && net'.remote == net.remote && WriteItems(c, key, net', w).0.Ok?
  {
    SyncKeepsInv(c, key, net, d);
    AcceptedIffUpToDate(c, key, Step(c, key, net, Sync(d)), w);
  }

  /** What storing a batch leaves under `id`: the batch's last item for it, or what was there. */
  lemma {:induction false} StoredUnder(inserts: seq<Insert>, stored: seq<StorageItem>, items: map<Bytes, Bytes>,
                                       meaning: map<Bytes, Bytes>, id: Bytes) returns (i: int)
    requires |stored| == |inserts| && forall k :: 0 <= k < |inserts| ==> stored[k].key == inserts[k].id
    ensures var items', meaning' := Store(items, stored), Meaning(meaning, inserts);
            if i < 0 then
              && id !in Ids(inserts)
              && (id in items ==> id in items' && items'[id] == items[id])
              && (id in meaning ==> id in meaning' && meaning'[id] == meaning[id])
            else
              && i < |inserts| && inserts[i].id == id
              && id in items' && items'[id] == stored[i].value && id in meaning' && meaning'[id] == inserts[i].record
    decreases inserts
  {
    i := -1;
    if inserts != [] {
      var n := |inserts| - 1;
      if inserts[n].id == id {
        i := n;
      } else {
        i := StoredUnder(inserts[..n], stored[..n], items, meaning, id);
        if i < 0 {
          assert forall k :: 0 <= k < n ==> Ids(inserts[..n])[k] == inserts[k].id;
        }
      }
    }
  }

  /** An identifier listed by an accepted manifest is readable afterwards: freshly stored, or kept. */
  lemma ListedIsReadable(c: Crypto, key: Bytes, m: ManifestRecord, w: Write, kept: map<Bytes, Bytes>,
                         meaning: map<Bytes, Bytes>, id: Bytes)
    requires Lawful(c) && ValidEvent(c, Attempt(w))
    requires id in Ids(w.inserts) || Readable(c, key, kept, meaning, m.recordIkm, id)
    ensures var op := WriteOp(c, key, m, w.iv, w.inserts, w.deletes);
            Readable(c, key, Store(kept, op.insertItem), Meaning(meaning, w.inserts), m.recordIkm, id)
  {
    var op := WriteOp(c, key, m, w.iv, w.inserts, w.deletes);
    var i := StoredUnder(w.inserts, op.insertItem, kept, meaning, id);
    if i >= 0 {
      assert w.inserts[i] in w.inserts;
      ItemsMatchTheirManifest(c, key, m, w.iv, w.inserts, w.deletes, i);
      assert op.insertItem[i] == StorageItem(id, op.insertItem[i].value);
    }
  }

  /** What an accepted write does. */
  lemma AcceptedWrite(c: Crypto, key: Bytes, net: Net, w: Write)
    requires WriteItems(c, key, net, w).0.Ok?
    ensures var m, net' := NextManifest(BaseOf(net, w.device), w), WriteItems(c, key, net, w).1;
            && net'.history == net.history + [m] && net'.bases == net.bases[w.device := m]
            && net'.remote.manifest == Some(EncryptManifest(c, key, m, w.iv))
            && net'.remote.items == Store(net.remote.items - (set k | k in w.deletes),
                                          WriteOp(c, key, m, w.iv, w.inserts, w.deletes).insertItem)
            && net'.meaning == Meaning(net.meaning, w.inserts)
  {
  }

  lemma KeepsManifest(c: Crypto, key: Bytes, net: Net, m: ManifestRecord, device: nat, net': Net)
    requires ManifestOk(c, key, net) && BasesOk(net) && m.version == |net.history| + 1
    requires net'.history == net.history + [m] && net'.bases == net.bases[device := m]
    requires net'.remote.manifest.Some? && net'.remote.manifest.value.version == m.version
    requires DecryptManifest(c, key, net'.remote.manifest.value) == Ok(m)
    ensures ManifestOk(c, key, net') && BasesOk(net')
  {
  }

  lemma WriteKeepsManifest(c: Crypto, key: Bytes, net: Net, w: Write)
    requires Lawful(c) && Inv(c, key, net) && |w.iv| == IV_LEN && WriteItems(c, key, net, w).0.Ok?
    ensures ManifestOk(c, key, WriteItems(c, key, net, w).1) && BasesOk(WriteItems(c, key, net, w).1)
  {
    var m := NextManifest(BaseOf(net, w.device), w);
    AcceptedIffUpToDate(c, key, net, w);
    AcceptedWrite(c, key, net, w);
    ManifestRoundTrip(c, key, m, w.iv);
    KeepsManifest(c, key, net, m, w.device, WriteItems(c, key, net, w).1);
  }

  /** What the next manifest takes over from the latest one stays readable when `w` deletes what it deletes. */
  lemma TakenOverIsReadable(c: Crypto, key: Bytes, net: Net, w: Write, id: Bytes)
    requires ItemsOk(c, key, net)
    requires BaseOf(net, w.device) == if net.history == [] then None else Some(net.history[|net.history| - 1])
    requires id in NextManifest(BaseOf(net, w.device), w).identifiers && id !in Ids(w.inserts)
    ensures var kept := net.remote.items - (set k | k in w.deletes);
            Readable(c, key, kept, net.meaning, NextManifest(BaseOf(net, w.device), w).recordIkm, id)
  {
    var before := net.history[|net.history| - 1];
    assert id in before.identifiers && id !in w.deletes;
    assert Readable(c, key, net.remote.items, net.meaning, before.recordIkm, id);
  }

  lemma WriteKeepsItems(c: Crypto, key: Bytes, net: Net, w: Write)
    requires Lawful(c) && Inv(c, key, net) && ValidEvent(c, Attempt(w)) && WriteItems(c, key, net, w).0.Ok?
    ensures ItemsOk(c, key, WriteItems(c, key, net, w).1)
  {
    AcceptedIffUpToDate(c, key, net, w);
    AcceptedWrite(c, key, net, w);
    var m := NextManifest(BaseOf(net, w.device), w);
    var net' := WriteItems(c, key, net, w).1;
    forall id | id in m.identifiers
      ensures Readable(c, key, net'.remote.items, net'.meaning, m.recordIkm, id)
    {
      if id !in Ids(w.inserts) {
        TakenOverIsReadable(c, key, net, w, id);
      }
      ListedIsReadable(c, key, m, w, net.remote.items - (set k | k in w.deletes), net.meaning, id);
    }
  }

  lemma SyncKeepsInv(c: Crypto, key: Bytes, net: Net, d: nat)
    requires Inv(c, key, net)
    ensures Inv(c, key, Step(c, key, net, Sync(d)))
  {
  }

  /** Over every run, whoever writes and however writes race. */
  lemma {:induction false} RunKeepsInv(c: Crypto, key: Bytes, events: seq<Event>)
    requires Lawful(c) && forall e :: e in events ==> ValidEvent(c, e)
    ensures Inv(c, key, Run(c, key, events))
  {
    if events != [] {
      var net, e := Run(c, key, events[..|events| - 1]), events[|events| - 1];
      assert e in events && ValidEvent(c, e);
      assert forall f :: f in events[..|events| - 1] ==> f in events;
      RunKeepsInv(c, key, events[..|events| - 1]);
      if e.Sync? {
        SyncKeepsInv(c, key, net, e.device);
      } else if WriteItems(c, key, net, e.write).0.Ok? {
        WriteKeepsManifest(c, key, net, e.write);
        WriteKeepsItems(c, key, net, e.write);
      }
    }
  }

  /**
    The server's answer to a request for `ids`: stored items of those identifiers, in whatever order,
    and one for each identifier that it stores.
   */
  ghost predicate Answers(remote: Remote, ids: seq<Bytes>, items: seq<StorageItem>) {
    && (forall i :: 0 <= i < |items| ==>
          items[i].key in ids && items[i].key in remote.items && items[i].value == remote.items[items[i].key])
    && (forall id :: id in ids && id in remote.items ==> HasKey(items, id))
  }

  ghost predicate HasKey(items: seq<StorageItem>, id: Bytes) {
    exists i :: 0 <= i < |items| && items[i].key == id
  }

  /** Every item of the answer decrypts to the bytes that its writer supplied under its key. */
  lemma {:induction false} FetchedItemsDecrypt(c: Crypto, key: Bytes, net: Net, ikm: Bytes, ids: seq<Bytes>, items: seq<StorageItem>)
    requires forall id :: id in ids ==> Readable(c, key, net.remote.items, net.meaning, ikm, id)
    requires forall i :: 0 <= i < |items| ==>
               && items[i].key in ids && items[i].key in net.remote.items
               && items[i].value == net.remote.items[items[i].key]
    ensures var r := DecryptItems(c, key, items, Some(ikm));
            && r.Ok? && |r.value| == |items|
            && forall i :: 0 <= i < |items| ==>
                 r.value[i].key == items[i].key && items[i].key in net.meaning && r.value[i].plaintext == net.meaning[items[i].key]
    decreases items
  {
    if items != [] {
      FetchedItemsDecrypt(c, key, net, ikm, ids, items[1..]);
      assert Readable(c, key, net.remote.items, net.meaning, ikm, items[0].key);
      assert items[0] == StorageItem(items[0].key, net.remote.items[items[0].key]);
    }
  }

  /** The bytes a reader finds under `id`, matching items by key. */
  ghost predicate ReadsAs(items: seq<DecryptedItem>, id: Bytes, plaintext: Bytes) {
    && (exists i :: 0 <= i < |items| && items[i].key == id)
    && (forall i :: 0 <= i < |items| && items[i].key == id ==> items[i].plaintext == plaintext)
  }

  /**
    After any run a device that fetches the manifest, and then every item it lists, decrypts all
    of them with that manifest's own ikm. Whatever order they come in, it finds every listed
    identifier, and under it exactly the bytes its writer supplied.
   */
  lemma EverythingListedIsReadable(c: Crypto, key: Bytes, events: seq<Event>, items: seq<StorageItem>)
    requires Lawful(c) && (forall e :: e in events ==> ValidEvent(c, e)) && Run(c, key, events).history != []
    requires var history := Run(c, key, events).history;
             Answers(Run(c, key, events).remote, history[|history| - 1].identifiers, items)
    ensures Run(c, key, events).remote.manifest.Some?
    ensures var net := Run(c, key, events);
            var m := DecryptManifest(c, key, net.remote.manifest.value);
            && m == Ok(net.history[|net.history| - 1]) && m.value.version == net.remote.manifest.value.version
            && var r := DecryptItems(c, key, items, Some(m.value.recordIkm));
            && r.Ok?
            && forall id :: id in m.value.identifiers ==> id in net.meaning && ReadsAs(r.value, id, net.meaning[id])
  {
    RunKeepsInv(c, key, events);
    InvReadsBack(c, key, Run(c, key, events), items);
  }

  lemma InvReadsBack(c: Crypto, key: Bytes, net: Net, items: seq<StorageItem>)
    requires Inv(c, key, net) && net.history != []
    requires Answers(net.remote, net.history[|net.history| - 1].identifiers, items)
    ensures net.remote.manifest.Some?
    ensures var m := DecryptManifest(c, key, net.remote.manifest.value);
            && m == Ok(net.history[|net.history| - 1]) && m.value.version == net.remote.manifest.value.version
            && var r := DecryptItems(c, key, items, Some(m.value.recordIkm));
            && r.Ok?
            && forall id :: id in m.value.identifiers ==> id in net.meaning && ReadsAs(r.value, id, net.meaning[id])
  {
    ListedReadsBack(c, key, net, items);
  }

  lemma ListedReadsBack(c: Crypto, key: Bytes, net: Net, items: seq<StorageItem>)
    requires net.history != [] && ItemsOk(c, key, net)
    requires Answers(net.remote, net.history[|net.history| - 1].identifiers, items)
    ensures var m := net.history[|net.history| - 1];
            var r := DecryptItems(c, key, items, Some(m.recordIkm));
            r.Ok? && forall id :: id in m.identifiers ==> id in net.meaning && ReadsAs(r.value, id, net.meaning[id])
  {
    var m := net.history[|net.history| - 1];
    FetchedItemsDecrypt(c, key, net, m.recordIkm, m.identifiers, items);
    var r := DecryptItems(c, key, items, Some(m.recordIkm)).value;
    forall id | id in m.identifiers
      ensures id in net.meaning && ReadsAs(r, id, net.meaning[id])
    {
      assert Readable(c, key, net.remote.items, net.meaning, m.recordIkm, id);
      assert HasKey(items, id);
      var i :| 0 <= i < |items| && items[i].key == id;
      assert r[i].key == id;
    }
  }

  // -- a conflict answered wrongly ---------------------------------------------------

  /** The server takes any body of the next version, and what it stores is the manifest in it. */
  lemma NextIsAccepted(c: Crypto, key: Bytes, remote: Remote, m: ManifestRecord, w: Write)
    requires Lawful(c) && |w.iv| == IV_LEN && m.version == remote.Version() + 1
    ensures var answer := Put(remote, WriteOp(c, key, m, w.iv, w.inserts, w.deletes));
            answer.Ok? && answer.value.manifest.Some? && DecryptManifest(c, key, answer.value.manifest.value) == Ok(m)
  {
    ManifestRoundTrip(c, key, m, w.iv);
  }

  /** `mine` and `theirs` began with the same manifest, and `theirs` came first. */
  lemma TheirsCameFirst(c: Crypto, key: Bytes, net: Net, mine: Write, theirs: Write)
    requires Lawful(c) && Inv(c, key, net) && mine.device != theirs.device && |theirs.iv| == IV_LEN
    requires BaseOf(net, mine.device) == BaseOf(net, theirs.device) && WriteItems(c, key, net, theirs).0.Ok?
    ensures var net1 := WriteItems(c, key, net, theirs).1;
            var base := BaseOf(net, mine.device);
            && net1.remote.manifest.Some? && BaseOf(net1, mine.device) == base
            && DecryptManifest(c, key, net1.remote.manifest.value) == Ok(NextManifest(base, theirs))
            && net1.remote.Version() == NextManifest(base, mine).version == NextManifest(base, theirs).version
            && WriteItems(c, key, net1, mine).0 == Err(Conflict)
  {
    AcceptedWrite(c, key, net, theirs);
    ManifestRoundTrip(c, key, NextManifest(BaseOf(net, theirs.device), theirs), theirs.iv);
  }

  /** What a device lists that knows nothing: nothing. */
  function Listed(base: Option<ManifestRecord>): seq<Bytes> {
    if base.Some? then base.value.identifiers else []
  }

  lemma WhatIsListedNext(base: Option<ManifestRecord>, w: Write, id: Bytes)
    ensures id in NextManifest(base, w).identifiers <==> (id in Listed(base) && id !in w.deletes) || id in Ids(w.inserts)
  {
  }

  /** `known` was listed at first; both servers' manifests decrypt, and differ as said. */
  ghost predicate Discards(c: Crypto, key: Bytes, known: seq<Bytes>, mine: Write, theirs: Write, before: Remote, after: Remote) {
    && before.manifest.Some? && after.manifest.Some?
    && var m, m' := DecryptManifest(c, key, before.manifest.value), DecryptManifest(c, key, after.manifest.value);
    && m.Ok? && m'.Ok?
    && forall id :: id in m.value.identifiers && id !in known ==>
         id in Ids(theirs.inserts) && (id !in m'.value.identifiers <==> id !in Ids(mine.inserts))
  }

  /**
    Why a conflict must not be answered by bumping the version and sending the same body again: the
    server accepts it, and of what has come to be listed since both began, exactly what only the
    other device inserted is listed no longer.
   */
  lemma BumpingTheVersionDiscards(c: Crypto, key: Bytes, net: Net, mine: Write, theirs: Write)
    requires Lawful(c) && Inv(c, key, net) && mine.device != theirs.device
    requires |mine.iv| == IV_LEN && |theirs.iv| == IV_LEN
    requires BaseOf(net, mine.device) == BaseOf(net, theirs.device) && WriteItems(c, key, net, theirs).0.Ok?
    ensures var net1 := WriteItems(c, key, net, theirs).1;
            var body := NextManifest(BaseOf(net, mine.device), mine);
            var bumped := WriteOp(c, key, body.(version := body.version + 1), mine.iv, mine.inserts, mine.deletes);
            && WriteItems(c, key, net1, mine).0 == Err(Conflict)
            && Put(net1.remote, bumped).Ok?
            && Discards(c, key, Listed(BaseOf(net, mine.device)), mine, theirs, net1.remote, Put(net1.remote, bumped).value)
  {
    var base := BaseOf(net, mine.device);
    var body := NextManifest(base, mine);
    var net1 := WriteItems(c, key, net, theirs).1;
    TheirsCameFirst(c, key, net, mine, theirs);
    NextIsAccepted(c, key, net1.remote, body.(version := body.version + 1), mine);
    forall id
      ensures id in NextManifest(base, theirs).identifiers <==>
                (id in Listed(base) && id !in theirs.deletes) || id in Ids(theirs.inserts)
      ensures id in body.identifiers <==> (id in Listed(base) && id !in mine.deletes) || id in Ids(mine.inserts)
    {
      WhatIsListedNext(base, theirs, id);
      WhatIsListedNext(base, mine, id);
    }
  }
}
