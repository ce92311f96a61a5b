/**
  Handing the new PNI keys to every linked device (src/account_manager.rs:713): one loop fills three
  maps keyed by the device id's decimal text and a list of messages.
 */
module PniDistribution {
  import opened Prelude
  import PreKeys

  const DEFAULT_DEVICE_ID: DeviceId := 1
  const REGISTRATION_IDS: nat := 16380

  type DeviceId = n: int | 1 <= n <= 127 witness 1

  datatype PniMessage = PniMessage(device: DeviceId, signedPreKey: PreKeys.Record, kyber: PreKeys.Record, registrationId: nat)

  datatype Distribution = Distribution(
    messages: seq<PniMessage>, signed: map<string, PreKeys.Record>, kyber: map<string, PreKeys.Record>,
    registrationIds: map<string, nat>)

  datatype Outcome = Distributed(distribution: Distribution) | EncryptionFailed(device: DeviceId)

  /** What the outside answers: keys drawn at each turn of the loop, registration ids, and failing encryptions. */
  datatype Outside = Outside(
    signed: nat -> PreKeys.Record, kyber: nat -> PreKeys.Record, registration: nat -> nat, failing: set<DeviceId>)

  ghost predicate HappensFrom(draw: nat -> nat, v: nat, from: nat) {
    exists m: nat :: m >= from && draw(m) == v
  }

  /** `random_range(1..16380)`: always in range, and every value turns up again sooner or later. */
  ghost predicate FairDraws(draw: nat -> nat) {
    && (forall m: nat :: 1 <= draw(m) < REGISTRATION_IDS)
    && (forall v: nat, from: nat :: 1 <= v < REGISTRATION_IDS ==> HappensFrom(draw, v, from))
  }

  function RoundAndRound(m: nat): nat {
    m % 16379 + 1
  }

  /** Counting round and round is fair, for one. */
  lemma CountingIsFair()
    ensures FairDraws(RoundAndRound)
  {
    forall v: nat, from: nat | 1 <= v < REGISTRATION_IDS
      ensures HappensFrom(RoundAndRound, v, from)
    {
      var m: nat := from * 16379 + (v - 1);
      assert RoundAndRound(m) == v;
    }
  }

  // -- a free registration id always exists -----------------------------------------

  ghost function UpTo(n: nat): (s: set<nat>)
    ensures |s| == n && forall v: nat :: v in s <==> 1 <= v <= n
  {
    if n == 0 then {} else UpTo(n - 1) + {n}
  }

  ghost function NamesUpTo(n: nat): (s: set<string>)
    ensures |s| <= n && forall v: nat :: 1 <= v <= n ==> Decimal(v) in s
  {
    if n == 0 then {} else NamesUpTo(n - 1) + {Decimal(n)}
  }

  lemma {:induction false} ValuesAtMostKeys(m: map<string, nat>)
    ensures |m.Values| <= |m|
    decreases |m|
  {
    if m.Keys == {} {
      assert m.Values == {};
    } else {
      var k :| k in m.Keys;
      var rest := m - {k};
      assert rest.Keys == m.Keys - {k};
      ValuesAtMostKeys(rest);
      assert m.Values <= rest.Values + {m[k]} by {
        forall v | v in m.Values
          ensures v in rest.Values + {m[k]}
        {
          var key :| key in m && m[key] == v;
          if key != k {
            assert key in rest && rest[key] == v;
          }
        }
      }
      Larger(m.Values, rest.Values + {m[k]});
    }
  }

  lemma Larger<T>(a: set<T>, b: set<T>)
    requires a <= b
    ensures |a| <= |b|
  {
    assert b == a + (b - a);
  }

  /** Device ids are bytes below 128 and there are 16379 registration ids. */
  lemma FreeIdExists(used: map<string, nat>) returns (v: nat)
    requires used.Keys <= NamesUpTo(127)
    ensures 1 <= v < REGISTRATION_IDS && v !in used.Values
  {
    var all := UpTo(REGISTRATION_IDS - 1);
    if all <= used.Values {
      ValuesAtMostKeys(used);
      Larger(all, used.Values);
      Larger(used.Keys, NamesUpTo(127));
      assert false;
    }
    v :| v in all && v !in used.Values;
  }

  lemma FreeDraw(used: map<string, nat>, draw: nat -> nat, start: nat) returns (end: nat)
    requires FairDraws(draw) && used.Keys <= NamesUpTo(127)
    ensures end >= start && draw(end) !in used.Values
  {
    var free := FreeIdExists(used);
    assert HappensFrom(draw, free, start);
    end :| end >= start && draw(end) == free;
  }

  lemma DrawInRange(draw: nat -> nat, m: nat)
    requires FairDraws(draw)
    ensures 1 <= draw(m) < REGISTRATION_IDS
  {
  }

  /** Draw until the id is free. It ends because a free id exists and every id turns up again. */
  method FreeRegistrationId(used: map<string, nat>, draw: nat -> nat, start: nat) returns (id: nat, next: nat)
    requires FairDraws(draw) && used.Keys <= NamesUpTo(127)
    ensures 1 <= id < REGISTRATION_IDS && id !in used.Values && next > start
    ensures id == draw(next - 1) && forall j :: start <= j < next - 1 ==> draw(j) in used.Values
  {
    ghost var end := FreeDraw(used, draw, start);
    next := start;
    while true
      invariant start <= next <= end && draw(end) !in used.Values
      invariant forall j :: start <= j < next ==> draw(j) in used.Values
      decreases end - next
    {
      id := draw(next);
      next := next + 1;
      if id !in used.Values {
        break;
      }
    }
    DrawInRange(draw, next - 1);
  }

  // -- the loop ---------------------------------------------------------------------

  predicate Participates(sessions: set<DeviceId>, d: DeviceId) {
    d == DEFAULT_DEVICE_ID || d in sessions
  }

  /** The linked devices with a session, as listed. */
  function Recipients(sessions: set<DeviceId>, devices: seq<DeviceId>): seq<DeviceId> {
    if devices == [] then []
    else
      var last := devices[|devices| - 1];
      Recipients(sessions, devices[..|devices| - 1])
      + if last != DEFAULT_DEVICE_ID && last in sessions then [last] else []
  }

  ghost predicate NameOfParticipant(sessions: set<DeviceId>, devices: seq<DeviceId>, name: string) {
    exists d :: d in devices && Participates(sessions, d) && Decimal(d) == name
  }

  /** The three maps have an entry for every participating device and for nothing else. */
  ghost predicate KeysAre(sessions: set<DeviceId>, devices: seq<DeviceId>, d: Distribution) {
    && d.signed.Keys == d.kyber.Keys == d.registrationIds.Keys
    && forall name :: name in d.signed <==> NameOfParticipant(sessions, devices, name)
  }

  ghost predicate DistinctIds(ids: map<string, nat>) {
    forall a, b :: a in ids && b in ids && a != b ==> ids[a] != ids[b]
  }

  ghost predicate MessagesAre(recipients: seq<DeviceId>, messages: seq<PniMessage>) {
    && |messages| == |recipients|
    && forall j :: 0 <= j < |messages| ==> messages[j].device == recipients[j]
  }

  /** No later message goes to the same device. */
  ghost predicate LastFor(messages: seq<PniMessage>, j: nat)
    requires j < |messages|
  {
    forall l :: j < l < |messages| ==> messages[l].device != messages[j].device
  }

  ghost predicate SaysWhatTheMapsSay(m: PniMessage, d: Distribution) {
    var name := Decimal(m.device);
    && name in d.signed && d.signed[name] == m.signedPreKey
    && name in d.kyber && d.kyber[name] == m.kyber
    && name in d.registrationIds && d.registrationIds[name] == m.registrationId
  }

  ghost predicate Aligned(d: Distribution) {
    forall j :: 0 <= j < |d.messages| && LastFor(d.messages, j) ==> SaysWhatTheMapsSay(d.messages[j], d)
  }

  /** Message `l` is the next one after `j` to the same device. */
  ghost predicate NextFor(messages: seq<PniMessage>, j: nat, l: nat) {
    && j < l < |messages| && messages[l].device == messages[j].device
    && forall m :: j < m < l ==> messages[m].device != messages[j].device
  }

  /** A device that gets another message gets another registration id with it. */
  ghost predicate Redrawn(messages: seq<PniMessage>) {
    forall j: nat, l: nat :: NextFor(messages, j, l) ==> messages[l].registrationId != messages[j].registrationId
  }

  ghost predicate PrimaryKeepsItsId(d: Distribution, id: nat) {
    Decimal(DEFAULT_DEVICE_ID) in d.registrationIds && d.registrationIds[Decimal(DEFAULT_DEVICE_ID)] == id
  }

  /** What holds after the devices in `devices` have had their turn. */
  ghost predicate Good(sessions: set<DeviceId>, devices: seq<DeviceId>, d: Distribution) {
    && KeysAre(sessions, devices, d)
    && DistinctIds(d.registrationIds)
    && MessagesAre(Recipients(sessions, devices), d.messages)
    && Aligned(d)
    && Redrawn(d.messages)
  }

  function Insert(d: Distribution, device: DeviceId, signed: PreKeys.Record, kyber: PreKeys.Record, id: nat): Distribution {
    var name := Decimal(device);
    d.(signed := d.signed[name := signed], kyber := d.kyber[name := kyber], registrationIds := d.registrationIds[name := id])
  }

  ghost predicate AllEncrypt(sessions: set<DeviceId>, devices: seq<DeviceId>, failing: set<DeviceId>) {
    forall x :: x in Recipients(sessions, devices) ==> x !in failing
  }

  /** The primary gets map entries only; a linked device also gets a message. */
  function Turn(d: Distribution, device: DeviceId, signed: PreKeys.Record, kyber: PreKeys.Record, id: nat): Distribution {
    var inserted := Insert(d, device, signed, kyber, id);
    if device == DEFAULT_DEVICE_ID then inserted
    else inserted.(messages := d.messages + [PniMessage(device, signed, kyber, id)])
  }

  /** The turns at which the recipients came, in order. */
  function Slots(sessions: set<DeviceId>, devices: seq<DeviceId>): (r: seq<nat>)
    ensures |r| == |Recipients(sessions, devices)|
  {
    if devices == [] then []
    else
      var n := |devices| - 1;
      Slots(sessions, devices[..n]) + if devices[n] != DEFAULT_DEVICE_ID && devices[n] in sessions then [n] else []
  }

  /** Every message carries the keys drawn at its recipient's turn. */
  ghost predicate KeysAreDrawn(outside: Outside, slots: seq<nat>, messages: seq<PniMessage>) {
    && |messages| == |slots|
    && forall j :: 0 <= j < |messages| ==>
         messages[j].signedPreKey == outside.signed(slots[j]) && messages[j].kyber == outside.kyber(slots[j])
  }

  /** The keys listed for the primary are those the PNI store has under their ids. */
  ghost predicate PrimaryIsStored(store: PreKeys.PreKeysStore, d: Distribution)
    reads store
  {
    var name := Decimal(DEFAULT_DEVICE_ID);
    && name in d.signed && d.signed[name].id in store.signedPreKeys && store.signedPreKeys[d.signed[name].id] == d.signed[name]
    && name in d.kyber && d.kyber[name].id in store.lastResortKeys && store.lastResortKeys[d.kyber[name].id] == d.kyber[name]
  }

  /** The message for the device at turn `i` is the first that cannot be encrypted. */
  ghost predicate FailsFirst(sessions: set<DeviceId>, devices: seq<DeviceId>, i: nat, failing: set<DeviceId>) {
    && i < |devices| && AllEncrypt(sessions, devices[..i], failing)
    && devices[i] != DEFAULT_DEVICE_ID && devices[i] in sessions && devices[i] in failing
  }

  /** Keys for one device: from the PNI store for the primary, freshly drawn for the others. */
  method KeysFor(store: PreKeys.PreKeysStore, outside: Outside, device: DeviceId, turn: nat)
    returns (signed: PreKeys.Record, kyber: PreKeys.Record)
    modifies store
    ensures device != DEFAULT_DEVICE_ID ==>
              && signed == outside.signed(turn) && kyber == outside.kyber(turn)
              && store.signedPreKeys == old(store.signedPreKeys) && store.lastResortKeys == old(store.lastResortKeys)
    ensures device == DEFAULT_DEVICE_ID ==>
              && signed.id in store.signedPreKeys && store.signedPreKeys[signed.id] == signed
              && kyber.id in store.lastResortKeys && store.lastResortKeys[kyber.id] == kyber
  {
    if device == DEFAULT_DEVICE_ID {
      var replenished := store.Replenish(true, 0, 0, PreKeys.Draws(_ => 0, _ => 0, turn, turn));
      assert replenished.Issued? && replenished.preKeys == [] && replenished.pqPreKeys == [];
      return replenished.signedPreKey, replenished.lastResort.value;
    } else {
      return outside.signed(turn), outside.kyber(turn);
    }
  }

  /** One turn of the loop, for a device that participates. */
  method TakeTurn(store: PreKeys.PreKeysStore, outside: Outside, ghost sessions: set<DeviceId>, ghost before: seq<DeviceId>,
                  device: DeviceId, turn: nat, d: Distribution, drawn: nat, localRegistrationId: nat)
    returns (after: Distribution, next: nat)
    requires FairDraws(outside.registration) && Good(sessions, before, d) && Participates(sessions, device)
    requires if turn > 0 then PrimaryKeepsItsId(d, localRegistrationId) else d.registrationIds == map[] && device == DEFAULT_DEVICE_ID
    requires turn == |before| && KeysAreDrawn(outside, Slots(sessions, before), d.messages)
    requires turn > 0 ==> PrimaryIsStored(store, d)
    modifies store
    ensures Good(sessions, before + [device], after) && PrimaryKeepsItsId(after, localRegistrationId)
    ensures KeysAreDrawn(outside, Slots(sessions, before + [device]), after.messages) && PrimaryIsStored(store, after)
  {
    var signed, kyber := KeysFor(store, outside, device, turn);
    var id;
    if device == DEFAULT_DEVICE_ID {
      id, next := localRegistrationId, drawn;
      PrimaryIdStaysDistinct(d, turn, localRegistrationId);
    } else {
      NamesAreFew(sessions, before, d);
      id, next := FreeRegistrationId(d.registrationIds, outside.registration, drawn);
      UnusedIsFree(d.registrationIds, Decimal(device), id);
    }
    TurnKeepsGood(sessions, before, d, device, signed, kyber, id);
    TurnKeepsPrimary(d, device, signed, kyber, id, localRegistrationId);
    TurnKeepsDrawn(sessions, before, outside, d, device, signed, kyber, id);
    TurnKeepsStored(store, d, device, signed, kyber, id);
    after := Insert(d, device, signed, kyber, id);
    if device != DEFAULT_DEVICE_ID {
      after := after.(messages := after.messages + [PniMessage(device, signed, kyber, id)]);
    }
  }

  /** Skip a linked device without a session; otherwise take its turn and encrypt its message. */
  method Consider(store: PreKeys.PreKeysStore, outside: Outside, sessions: set<DeviceId>, ghost before: seq<DeviceId>,
                  device: DeviceId, turn: nat, d: Distribution, drawn: nat, localRegistrationId: nat)
    returns (after: Distribution, next: nat, encrypted: bool)
    requires FairDraws(outside.registration) && Good(sessions, before, d) && AllEncrypt(sessions, before, outside.failing)
    requires if turn > 0 then PrimaryKeepsItsId(d, localRegistrationId) else d.registrationIds == map[] && device == DEFAULT_DEVICE_ID
    requires turn == |before| && KeysAreDrawn(outside, Slots(sessions, before), d.messages)
    requires turn > 0 ==> PrimaryIsStored(store, d)
    modifies store
    ensures Good(sessions, before + [device], after) && PrimaryKeepsItsId(after, localRegistrationId)
    ensures KeysAreDrawn(outside, Slots(sessions, before + [device]), after.messages) && PrimaryIsStored(store, after)
    ensures encrypted ==> AllEncrypt(sessions, before + [device], outside.failing)
    ensures !encrypted ==> device != DEFAULT_DEVICE_ID && device in sessions && device in outside.failing
  {
    EncryptNext(sessions, before, device, outside.failing);
    SlotsNext(sessions, before, device);
    if device != DEFAULT_DEVICE_ID && device !in sessions {
      SkipKeepsGood(sessions, before, device, d);
      return d, drawn, true;
    }
    after, next := TakeTurn(store, outside, sessions, before, device, turn, d, drawn, localRegistrationId);
    encrypted := device == DEFAULT_DEVICE_ID || device !in outside.failing;
  }

  method ForEachDevice(store: PreKeys.PreKeysStore, outside: Outside, sessions: set<DeviceId>, devices: seq<DeviceId>,
                       localRegistrationId: nat) returns (r: Outcome)
    requires FairDraws(outside.registration) && devices != [] && devices[0] == DEFAULT_DEVICE_ID
    modifies store
    ensures r.Distributed? ==> Good(sessions, devices, r.distribution) && PrimaryKeepsItsId(r.distribution, localRegistrationId)
    ensures r.Distributed? ==>
              KeysAreDrawn(outside, Slots(sessions, devices), r.distribution.messages) && PrimaryIsStored(store, r.distribution)
    ensures r.Distributed? <==> AllEncrypt(sessions, devices, outside.failing)
    ensures r.EncryptionFailed? ==>
              exists i: nat :: FailsFirst(sessions, devices, i, outside.failing) && r.device == devices[i]
  {
    var d := Distribution([], map[], map[], map[]);
    var drawn: nat := 0;
    PrefixEnds(devices);
    NothingDone(sessions, outside.failing);
    for i := 0 to |devices|
      invariant Good(sessions, devices[..i], d) && AllEncrypt(sessions, devices[..i], outside.failing)
      invariant if i > 0 then PrimaryKeepsItsId(d, localRegistrationId) else d.registrationIds == map[]
      invariant KeysAreDrawn(outside, Slots(sessions, devices[..i]), d.messages) && (i > 0 ==> PrimaryIsStored(store, d))
    {
      var encrypted;
      PrefixNext(devices, i);
      d, drawn, encrypted := Consider(store, outside, sessions, devices[..i], devices[i], i, d, drawn, localRegistrationId);
      if !encrypted {
        FailingRecipient(sessions, devices, i, outside.failing);
        assert FailsFirst(sessions, devices, i, outside.failing);
        return EncryptionFailed(devices[i]);
      }
    }
    r := Distributed(d);
  }

  /** `Good` of all devices when every message could be encrypted; the first that could not ends it. */
  method InitializeDevices(store: PreKeys.PreKeysStore, outside: Outside, sessions: set<DeviceId>, subDevices: seq<DeviceId>,
                           localRegistrationId: nat) returns (r: Outcome)
    requires FairDraws(outside.registration)
    modifies store
    ensures r.Distributed? ==> Good(sessions, [DEFAULT_DEVICE_ID] + subDevices, r.distribution)
    ensures r.Distributed? ==> PrimaryKeepsItsId(r.distribution, localRegistrationId)
    ensures r.Distributed? ==>
              && KeysAreDrawn(outside, Slots(sessions, [DEFAULT_DEVICE_ID] + subDevices), r.distribution.messages)
              && PrimaryIsStored(store, r.distribution)
    ensures r.Distributed? <==> AllEncrypt(sessions, [DEFAULT_DEVICE_ID] + subDevices, outside.failing)
    ensures r.EncryptionFailed? ==>
              exists i: nat ::
                FailsFirst(sessions, [DEFAULT_DEVICE_ID] + subDevices, i, outside.failing)
                && r.device == ([DEFAULT_DEVICE_ID] + subDevices)[i]
  {
    r := ForEachDevice(store, outside, sessions, [DEFAULT_DEVICE_ID] + subDevices, localRegistrationId);
  }

  // -- one turn of the loop ---------------------------------------------------------

  lemma DecimalInjectiveAt(a: nat, b: nat)
    ensures Decimal(a) == Decimal(b) <==> a == b
  {
    if Decimal(a) == Decimal(b) {
      DecimalInjective(a, b);
    }
  }

  lemma UnusedIsFree(ids: map<string, nat>, own: string, id: nat)
    requires id !in ids.Values
    ensures FreeExceptFor(ids, own, id)
  {
  }

  lemma NothingDone(sessions: set<DeviceId>, failing: set<DeviceId>)
    ensures Good(sessions, [], Distribution([], map[], map[], map[])) && AllEncrypt(sessions, [], failing)
  {
  }

  lemma EncryptNext(sessions: set<DeviceId>, devices: seq<DeviceId>, x: DeviceId, failing: set<DeviceId>)
    requires AllEncrypt(sessions, devices, failing)
    ensures AllEncrypt(sessions, devices + [x], failing) <==> !(x != DEFAULT_DEVICE_ID && x in sessions && x in failing)
  {
    RecipientsOfNext(sessions, devices, x);
  }

  lemma FailingRecipient(sessions: set<DeviceId>, devices: seq<DeviceId>, i: nat, failing: set<DeviceId>)
    requires i < |devices| && devices[i] != DEFAULT_DEVICE_ID && devices[i] in sessions && devices[i] in failing
    ensures !AllEncrypt(sessions, devices, failing)
  {
    RecipientsOfPrefix(sessions, devices, i);
  }

  lemma RecipientsOfNext(sessions: set<DeviceId>, devices: seq<DeviceId>, x: DeviceId)
    ensures Recipients(sessions, devices + [x])
            == Recipients(sessions, devices) + if x != DEFAULT_DEVICE_ID && x in sessions then [x] else []
  {
    assert (devices + [x])[..|devices|] == devices;
  }

  lemma SlotsNext(sessions: set<DeviceId>, devices: seq<DeviceId>, x: DeviceId)
    ensures Slots(sessions, devices + [x])
            == Slots(sessions, devices) + if x != DEFAULT_DEVICE_ID && x in sessions then [|devices|] else []
  {
    assert (devices + [x])[..|devices|] == devices;
  }

  lemma TurnKeepsDrawn(sessions: set<DeviceId>, devices: seq<DeviceId>, outside: Outside, d: Distribution, x: DeviceId,
                       signed: PreKeys.Record, kyber: PreKeys.Record, id: nat)
    requires KeysAreDrawn(outside, Slots(sessions, devices), d.messages) && Participates(sessions, x)
    requires x != DEFAULT_DEVICE_ID ==> signed == outside.signed(|devices|) && kyber == outside.kyber(|devices|)
    ensures KeysAreDrawn(outside, Slots(sessions, devices + [x]), Turn(d, x, signed, kyber, id).messages)
  {
    SlotsNext(sessions, devices, x);
  }

  /** The store has the primary's keys, if they are what is inserted, and had them before if not. */
  lemma TurnKeepsStored(store: PreKeys.PreKeysStore, d: Distribution, x: DeviceId,
                        signed: PreKeys.Record, kyber: PreKeys.Record, id: nat)
    requires if x == DEFAULT_DEVICE_ID then
               && signed.id in store.signedPreKeys && store.signedPreKeys[signed.id] == signed
               && kyber.id in store.lastResortKeys && store.lastResortKeys[kyber.id] == kyber
             else PrimaryIsStored(store, d)
    ensures PrimaryIsStored(store, Turn(d, x, signed, kyber, id))
  {
    DecimalInjectiveAt(x, DEFAULT_DEVICE_ID);
  }

  lemma SkipKeepsGood(sessions: set<DeviceId>, devices: seq<DeviceId>, x: DeviceId, d: Distribution)
    requires Good(sessions, devices, d) && !Participates(sessions, x)
    ensures Good(sessions, devices + [x], d)
  {
    assert (devices + [x])[..|devices|] == devices;
    forall name
      ensures NameOfParticipant(sessions, devices + [x], name) <==> NameOfParticipant(sessions, devices, name)
    {
      if NameOfParticipant(sessions, devices, name) {
        var p :| p in devices && Participates(sessions, p) && Decimal(p) == name;
        assert p in devices + [x];
      }
    }
  }

  lemma NamesAreFew(sessions: set<DeviceId>, devices: seq<DeviceId>, d: Distribution)
    requires KeysAre(sessions, devices, d)
    ensures d.registrationIds.Keys <= NamesUpTo(127)
  {
    forall name | name in d.registrationIds.Keys
      ensures name in NamesUpTo(127)
    {
      assert name in d.signed.Keys;
      assert NameOfParticipant(sessions, devices, name);
    }
  }

  /** The id of the primary is its own: inserting it again changes nothing, and at first nobody else has one. */
  lemma PrimaryIdStaysDistinct(d: Distribution, i: nat, id: nat)
    requires DistinctIds(d.registrationIds) && (i > 0 ==> PrimaryKeepsItsId(d, id))
    requires i == 0 ==> d.registrationIds == map[]
    ensures FreeExceptFor(d.registrationIds, Decimal(DEFAULT_DEVICE_ID), id)
  {
  }

  lemma ParticipantsGrow(sessions: set<DeviceId>, devices: seq<DeviceId>, x: DeviceId, name: string)
    requires Participates(sessions, x)
    ensures NameOfParticipant(sessions, devices + [x], name) <==>
              NameOfParticipant(sessions, devices, name) || name == Decimal(x)
  {
    if NameOfParticipant(sessions, devices, name) {
      var p :| p in devices && Participates(sessions, p) && Decimal(p) == name;
      assert p in devices + [x];
    }
    if name == Decimal(x) {
      assert x in devices + [x];
    }
  }

  lemma InsertKeepsKeys(sessions: set<DeviceId>, devices: seq<DeviceId>, d: Distribution, x: DeviceId,
                        signed: PreKeys.Record, kyber: PreKeys.Record, id: nat)
    requires KeysAre(sessions, devices, d) && Participates(sessions, x)
    ensures KeysAre(sessions, devices + [x], Insert(d, x, signed, kyber, id))
  {
    var after := Insert(d, x, signed, kyber, id);
    assert after.signed.Keys == d.signed.Keys + {Decimal(x)};
    assert after.kyber.Keys == d.kyber.Keys + {Decimal(x)};
    assert after.registrationIds.Keys == d.registrationIds.Keys + {Decimal(x)};
    forall name
      ensures name in after.signed <==> NameOfParticipant(sessions, devices + [x], name)
    {
      ParticipantsGrow(sessions, devices, x, name);
      assert name in after.signed <==> name in after.signed.Keys;
      assert name in d.signed <==> name in d.signed.Keys;
    }
  }

  ghost predicate FreeExceptFor(ids: map<string, nat>, own: string, id: nat) {
    forall name :: name in ids && name != own ==> ids[name] != id
  }

  lemma InsertKeepsIds(ids: map<string, nat>, own: string, id: nat)
    requires DistinctIds(ids) && FreeExceptFor(ids, own, id)
    ensures DistinctIds(ids[own := id])
  {
  }

  /** A participating device has had its turn. */
  lemma TurnKeepsGood(sessions: set<DeviceId>, devices: seq<DeviceId>, d: Distribution, x: DeviceId,
                      signed: PreKeys.Record, kyber: PreKeys.Record, id: nat)
    requires Good(sessions, devices, d) && Participates(sessions, x)
    requires FreeExceptFor(d.registrationIds, Decimal(x), id)
    requires x != DEFAULT_DEVICE_ID ==> id !in d.registrationIds.Values
    ensures Good(sessions, devices + [x], Turn(d, x, signed, kyber, id))
  {
    InsertKeepsKeys(sessions, devices, d, x, signed, kyber, id);
    InsertKeepsIds(d.registrationIds, Decimal(x), id);
    if x == DEFAULT_DEVICE_ID {
      PrimaryKeepsAligned(sessions, devices, d, signed, kyber, id);
    } else {
      MessageKeepsAligned(d, x, signed, kyber, id);
      MessageIsRedrawn(d, x, signed, kyber, id);
      assert (devices + [x])[..|devices|] == devices;
    }
  }

  lemma TurnKeepsPrimary(d: Distribution, x: DeviceId, signed: PreKeys.Record, kyber: PreKeys.Record, id: nat, primary: nat)
    requires if x == DEFAULT_DEVICE_ID then id == primary else PrimaryKeepsItsId(d, primary)
    ensures PrimaryKeepsItsId(Turn(d, x, signed, kyber, id), primary)
  {
    DecimalInjectiveAt(x, DEFAULT_DEVICE_ID);
  }

  lemma PrimaryKeepsAligned(sessions: set<DeviceId>, devices: seq<DeviceId>, d: Distribution,
                            signed: PreKeys.Record, kyber: PreKeys.Record, id: nat)
    requires Aligned(d) && MessagesAre(Recipients(sessions, devices), d.messages)
    ensures Aligned(Insert(d, DEFAULT_DEVICE_ID, signed, kyber, id))
    ensures Recipients(sessions, devices + [DEFAULT_DEVICE_ID]) == Recipients(sessions, devices)
  {
    assert (devices + [DEFAULT_DEVICE_ID])[..|devices|] == devices;
    RecipientsAreLinked(sessions, devices);
    var after := Insert(d, DEFAULT_DEVICE_ID, signed, kyber, id);
    forall j | 0 <= j < |d.messages| && LastFor(d.messages, j)
      ensures SaysWhatTheMapsSay(d.messages[j], after)
    {
      assert d.messages[j].device in Recipients(sessions, devices);
      DecimalInjectiveAt(d.messages[j].device, DEFAULT_DEVICE_ID);
      assert SaysWhatTheMapsSay(d.messages[j], d);
    }
  }

  lemma {:induction false} RecipientsAreLinked(sessions: set<DeviceId>, devices: seq<DeviceId>)
    ensures forall x :: x in Recipients(sessions, devices) ==> x != DEFAULT_DEVICE_ID && x in sessions
  {
    if devices != [] {
      RecipientsAreLinked(sessions, devices[..|devices| - 1]);
    }
  }

  lemma MessageKeepsAligned(d: Distribution, x: DeviceId, signed: PreKeys.Record, kyber: PreKeys.Record, id: nat)
    requires Aligned(d)
    ensures var after := Insert(d, x, signed, kyber, id);
            Aligned(after.(messages := d.messages + [PniMessage(x, signed, kyber, id)]))
  {
    var inserted := Insert(d, x, signed, kyber, id);
    var after := inserted.(messages := d.messages + [PniMessage(x, signed, kyber, id)]);
    forall j | 0 <= j < |after.messages| && LastFor(after.messages, j)
      ensures SaysWhatTheMapsSay(after.messages[j], after)
    {
      if j < |d.messages| {
        assert after.messages[|d.messages|].device == x;
        DecimalInjectiveAt(d.messages[j].device, x);
        assert LastFor(d.messages, j) by {
          forall l | j < l < |d.messages|
            ensures d.messages[l].device != d.messages[j].device
          {
            assert after.messages[l] == d.messages[l];
          }
        }
        assert SaysWhatTheMapsSay(d.messages[j], d);
      }
    }
  }

  /** The last message to `x` so far says what the map says, and the new id is not in the map. */
  lemma MessageIsRedrawn(d: Distribution, x: DeviceId, signed: PreKeys.Record, kyber: PreKeys.Record, id: nat)
    requires Aligned(d) && Redrawn(d.messages) && id !in d.registrationIds.Values
    ensures Redrawn(d.messages + [PniMessage(x, signed, kyber, id)])
  {
    var after := d.messages + [PniMessage(x, signed, kyber, id)];
    forall j: nat, l: nat | NextFor(after, j, l)
      ensures after[l].registrationId != after[j].registrationId
    {
      if l < |d.messages| {
        assert NextFor(d.messages, j, l) by {
          assert forall m :: j < m < l ==> after[m] == d.messages[m];
        }
      } else {
        assert LastFor(d.messages, j) by {
          assert forall m :: j < m < l ==> after[m] == d.messages[m];
        }
        assert SaysWhatTheMapsSay(d.messages[j], d);
      }
    }
  }

  lemma {:induction false} RecipientsConcat(sessions: set<DeviceId>, a: seq<DeviceId>, b: seq<DeviceId>)
    ensures Recipients(sessions, a + b) == Recipients(sessions, a) + Recipients(sessions, b)
    decreases b
  {
    if b == [] {
      assert a + b == a;
    } else {
      RecipientsConcat(sessions, a, b[..|b| - 1]);
      assert (a + b)[..|a + b| - 1] == a + b[..|b| - 1];
    }
  }

  lemma RecipientsOfPrefix(sessions: set<DeviceId>, devices: seq<DeviceId>, i: nat)
    requires i < |devices| && devices[i] != DEFAULT_DEVICE_ID && devices[i] in sessions
    ensures devices[i] in Recipients(sessions, devices)
  {
    assert devices == devices[..i + 1] + devices[i + 1..];
    RecipientsConcat(sessions, devices[..i + 1], devices[i + 1..]);
    assert devices[..i + 1][..i] == devices[..i];
  }

  // -- consequences -----------------------------------------------------------------

  lemma {:induction false} RecipientsAre(sessions: set<DeviceId>, devices: seq<DeviceId>)
    ensures forall x :: x in Recipients(sessions, devices) <==> x in devices && x != DEFAULT_DEVICE_ID && x in sessions
  {
    if devices != [] {
      RecipientsAre(sessions, devices[..|devices| - 1]);
      assert devices == devices[..|devices| - 1] + [devices[|devices| - 1]];
    }
  }

  /** Apart from the primary, the maps have an entry for a device exactly if it gets a message. */
  lemma MessagePerEntry(sessions: set<DeviceId>, devices: seq<DeviceId>, d: Distribution, x: DeviceId)
    requires Good(sessions, devices, d) && x != DEFAULT_DEVICE_ID
    ensures Decimal(x) in d.registrationIds <==> exists j :: 0 <= j < |d.messages| && d.messages[j].device == x
  {
    RecipientsAre(sessions, devices);
    assert Decimal(x) in d.registrationIds.Keys <==> Decimal(x) in d.signed.Keys;
    var rs := Recipients(sessions, devices);
    if Decimal(x) in d.registrationIds {
      assert NameOfParticipant(sessions, devices, Decimal(x));
      var p :| p in devices && Participates(sessions, p) && Decimal(p) == Decimal(x);
      DecimalInjectiveAt(p, x);
      var j :| 0 <= j < |rs| && rs[j] == x;
      assert d.messages[j].device == x;
    }
    if j :| 0 <= j < |d.messages| && d.messages[j].device == x {
      assert rs[j] in rs;
      assert NameOfParticipant(sessions, devices, Decimal(x));
    }
  }

  ghost predicate NoRepeats(devices: seq<DeviceId>) {
    forall i, j :: 0 <= i < j < |devices| ==> devices[i] != devices[j]
  }

  /** The last two messages to a device that gets two. */
  lemma {:induction false} LastTwo(messages: seq<PniMessage>, i: nat, j: nat) returns (p: nat, l: nat)
    requires i < j < |messages| && messages[i].device == messages[j].device
    ensures NextFor(messages, p, l) && LastFor(messages, l)
    decreases |messages| - j, j - i
  {
    if m :| j < m < |messages| && messages[m].device == messages[j].device {
      p, l := LastTwo(messages, j, m);
    } else if m :| i < m < j && messages[m].device == messages[j].device {
      p, l := LastTwo(messages, m, j);
    } else {
      p, l := i, j;
    }
  }

  /**
    Every message says what the maps say about its device exactly if no device is listed twice; of a
    device that is, the last message but one disagrees about the registration id.
   */
  lemma MessagesAgreeIff(sessions: set<DeviceId>, devices: seq<DeviceId>, d: Distribution)
    requires Good(sessions, devices, d)
    ensures (forall m :: m in d.messages ==> SaysWhatTheMapsSay(m, d)) <==> NoRepeats(Recipients(sessions, devices))
  {
    var rs := Recipients(sessions, devices);
    if NoRepeats(rs) {
      forall j | 0 <= j < |d.messages|
        ensures SaysWhatTheMapsSay(d.messages[j], d)
      {
        assert LastFor(d.messages, j);
      }
    } else {
      var i, j :| 0 <= i < j < |rs| && rs[i] == rs[j];
      assert d.messages[i].device == d.messages[j].device;
      var p, l := LastTwo(d.messages, i, j);
      SecondToLastDisagrees(d, p, l);
      assert d.messages[p] in d.messages;
    }
  }

  lemma SecondToLastDisagrees(d: Distribution, p: nat, l: nat)
    requires Aligned(d) && Redrawn(d.messages) && NextFor(d.messages, p, l) && LastFor(d.messages, l)
    ensures !SaysWhatTheMapsSay(d.messages[p], d)
  {
    assert SaysWhatTheMapsSay(d.messages[l], d);
  }

  /** Two turns of a linked device, wherever the loop stands: the first of the two messages is out of date. */
  lemma TwoTurns(sessions: set<DeviceId>, devices: seq<DeviceId>, d: Distribution, x: DeviceId, key: PreKeys.Record,
                 id: nat, id': nat) returns (after: Distribution)
    requires Good(sessions, devices, d) && x != DEFAULT_DEVICE_ID && x in sessions
    requires id !in d.registrationIds.Values && id' !in d.registrationIds.Values && id' != id
    ensures Good(sessions, devices + [x] + [x], after)
    ensures after.messages == d.messages + [PniMessage(x, key, key, id)] + [PniMessage(x, key, key, id')]
    ensures !SaysWhatTheMapsSay(after.messages[|d.messages|], after)
  {
    var once := Turn(d, x, key, key, id);
    UnusedIsFree(d.registrationIds, Decimal(x), id);
    TurnKeepsGood(sessions, devices, d, x, key, key, id);
    assert id' !in once.registrationIds.Values;
    after := Turn(once, x, key, key, id');
    UnusedIsFree(once.registrationIds, Decimal(x), id');
    TurnKeepsGood(sessions, devices + [x], once, x, key, key, id');
    SecondToLastDisagrees(after, |d.messages|, |d.messages| + 1);
  }

  /** For instance: the primary, and one linked device listed twice. */
  lemma ListedTwice(x: DeviceId, key: PreKeys.Record) returns (d: Distribution)
    requires x != DEFAULT_DEVICE_ID
    ensures Good({x}, [DEFAULT_DEVICE_ID] + [x] + [x], d)
    ensures d.messages == [PniMessage(x, key, key, 8), PniMessage(x, key, key, 9)]
    ensures !SaysWhatTheMapsSay(d.messages[0], d)
  {
    var nothing := Distribution([], map[], map[], map[]);
    var primary := Turn(nothing, DEFAULT_DEVICE_ID, key, key, 7);
    NothingDone({x}, {});
    TurnKeepsGood({x}, [], nothing, DEFAULT_DEVICE_ID, key, key, 7);
    assert [] + [DEFAULT_DEVICE_ID] == [DEFAULT_DEVICE_ID];
    assert primary.registrationIds == map[Decimal(DEFAULT_DEVICE_ID) := 7];
    assert 8 !in primary.registrationIds.Values && 9 !in primary.registrationIds.Values;
    d := TwoTurns({x}, [DEFAULT_DEVICE_ID], primary, x, key, 8, 9);
  }
}
