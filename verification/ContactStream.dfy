/**
  The contact list attachment: a concatenation of length-delimited messages, written by
  `upload_contact_details` (src/sender.rs) and read back by `DeviceContactsIterator::next`
  (src/receiver.rs) after the attachment's zero padding.
 */
module ContactStream {
  import opened Prelude

  // -- the length prefix ------------------------------------------------------------

  const U64: nat := 0x1_0000_0000_0000_0000

  function EncodeVarint(n: nat): Bytes {
    if n < 128 then [n] else [n % 128 + 128] + EncodeVarint(n / 128)
  }

  /** The value and the number of bytes used; at most ten bytes, the tenth at most 1. */
  function DecodeVarint(b: Bytes, count: nat := 0): (r: Option<(nat, nat)>)
    ensures r.Some? ==> 1 <= r.value.1 <= |b|
  {
    if b == [] || count >= 10 then None
    else if b[0] < 128 then (if count == 9 && b[0] >= 2 then None else Some((b[0], 1)))
    else
      match DecodeVarint(b[1..], count + 1)
      case None => None
      case Some((value, used)) => Some((b[0] - 128 + 128 * value, used + 1))
  }

  /** What is left of 64 bits after `count` groups of seven. */
  function Room(count: nat): nat {
    if count == 0 then U64 else Room(count - 1) / 128
  }

  lemma RoomShrinksBy128(count: nat)
    requires count <= 8
    ensures Room(count) == 128 * Room(count + 1) && Room(9) == 2
  {
    assert Room(1) == 0x200_0000_0000_0000;
    assert Room(2) == 0x4_0000_0000_0000;
    assert Room(3) == 0x800_0000_0000;
    assert Room(4) == 0x10_0000_0000;
    assert Room(5) == 0x2000_0000;
    assert Room(6) == 0x40_0000;
    assert Room(7) == 0x8000;
    assert Room(8) == 0x100;
  }

  lemma RoomAtLast()
    ensures Room(9) == 2
  {
    RoomShrinksBy128(8);
  }

  /** A number fits where it does exactly if all but its last seven bits fit in what is left. */
  lemma NextRoom(count: nat, low: nat, high: int)
    requires count <= 8 && low < 128
    ensures low + 128 * high < Room(count) <==> high < Room(count + 1)
  {
    RoomShrinksBy128(count);
  }

  /** Groups of seven bits, all but the last with the continuation bit. */
  ghost predicate Groups(b: Bytes) {
    b != [] && b[|b| - 1] < 128 && forall i :: 0 <= i < |b| - 1 ==> b[i] >= 128
  }

  /** The number they stand for, the least significant group first. */
  function Value(b: Bytes): int {
    if |b| <= 1 then (if b == [] then 0 else b[0]) else b[0] - 128 + 128 * Value(b[1..])
  }

  lemma OneGroup(b: Bytes, k: nat)
    requires b != [] && b[0] < 128 && 1 <= k <= |b|
    ensures Groups(b[..k]) <==> k == 1
    ensures Value(b[..1]) == b[0] && b[..1][0] == b[0]
  {
    assert b[..k][0] == b[0];
  }

  lemma FirstGroup(b: Bytes, k: nat)
    requires b != [] && b[0] >= 128 && 2 <= k <= |b|
    ensures Groups(b[..k]) <==> Groups(b[1..][..k - 1])
    ensures Value(b[..k]) == b[0] - 128 + 128 * Value(b[1..][..k - 1])
  {
    var x, y := b[..k], b[1..][..k - 1];
    assert x[1..] == y;
    assert x == [b[0]] + y;
  }

  /** The decoder by itself: ten groups at most, and no more than the lowest bit of the tenth. */
  lemma {:induction false} DecodesGroups(b: Bytes, count: nat, n: nat, k: nat)
    requires count <= 9
    ensures DecodeVarint(b, count) == Some((n, k)) <==>
              1 <= k <= |b| && count + k <= 10 && Groups(b[..k]) && n == Value(b[..k]) && (count + k == 10 ==> b[k - 1] < 2)
    decreases b
  {
    if b == [] {
    } else if b[0] < 128 {
      if 1 <= k <= |b| {
        OneGroup(b, k);
      }
    } else if count < 9 && 2 <= k <= |b| {
      var rest := (n - (b[0] - 128)) / 128;
      FirstGroup(b, k);
      DecodesGroups(b[1..], count + 1, if rest < 0 then 0 else rest, k - 1);
    } else if 1 <= k <= |b| {
      assert b[..k][0] == b[0];
      assert k == 1 ==> !Groups(b[..k]);
    }
  }

  /** The lowest bit of the tenth group is the 64th bit of the number. */
  lemma {:induction false} FitsIff(b: Bytes, count: nat)
    requires Groups(b) && count + |b| <= 10
    ensures Value(b) < Room(count) <==> (count + |b| == 10 ==> b[|b| - 1] < 2)
    decreases b
  {
    if |b| == 1 {
      if count == 9 {
        RoomAtLast();
      } else {
        RoomIsWide(count);
      }
    } else {
      assert b[1..][|b| - 2] == b[|b| - 1];
      FitsIff(b[1..], count + 1);
      NextRoom(count, b[0] - 128, Value(b[1..]));
    }
  }

  lemma {:induction false} RoomIsWide(count: nat)
    requires count <= 8
    ensures Room(count) >= 256
    decreases 8 - count
  {
    RoomShrinksBy128(count);
    if count < 8 {
      RoomIsWide(count + 1);
    }
  }

  /** What is read as a prefix: at most ten groups, of a number of 64 bits; and nothing else. */
  lemma VarintIff(b: Bytes, n: nat, k: nat)
    ensures DecodeVarint(b) == Some((n, k)) <==> 1 <= k <= |b| && k <= 10 && Groups(b[..k]) && n == Value(b[..k]) && n < U64
  {
    DecodesGroups(b, 0, n, k);
    if 1 <= k <= |b| && k <= 10 && Groups(b[..k]) {
      FitsIff(b[..k], 0);
    }
  }

  lemma Low7(n: nat)
    ensures n == n % 128 + 128 * (n / 128) && (n >= 128 ==> n / 128 > 0)
  {
  }

  lemma OneMoreGroup(first: byte, rest: Bytes)
    requires first >= 128 && Groups(rest)
    ensures Groups([first] + rest) && Value([first] + rest) == first - 128 + 128 * Value(rest)
  {
    assert ([first] + rest)[1..] == rest;
  }

  /** Encoding writes groups that stand for the number. */
  lemma {:induction false} EncodedGroups(n: nat)
    ensures var b := EncodeVarint(n); Groups(b) && Value(b) == n
  {
    if n >= 128 {
      Low7(n);
      EncodedGroups(n / 128);
      OneMoreGroup(n % 128 + 128, EncodeVarint(n / 128));
    }
  }

  lemma {:induction false} EncodedLength(n: nat, count: nat)
    requires count <= 9 && n < Room(count)
    ensures count + |EncodeVarint(n)| <= 10
    decreases n
  {
    if n >= 128 {
      if count == 9 {
        RoomAtLast();
      } else {
        Low7(n);
        NextRoom(count, n % 128, n / 128);
        EncodedLength(n / 128, count + 1);
      }
    }
  }

  lemma VarintRoundTrip(n: nat, rest: Bytes)
    requires n < U64
    ensures DecodeVarint(EncodeVarint(n) + rest) == Some((n, |EncodeVarint(n)|))
  {
    var b := EncodeVarint(n);
    EncodedGroups(n);
    EncodedLength(n, 0);
    assert (b + rest)[..|b|] == b;
    VarintIff(b + rest, n, |b|);
  }

  // -- messages ---------------------------------------------------------------------

  datatype AvatarInfo = AvatarInfo(contentType: Option<string>, length: Option<nat>)

  /** `uuid` and `number` stand for the outcome of parsing those fields. */
  datatype ContactDetails = ContactDetails(
    uuid: Option<nat>, number: Option<nat>, name: Option<string>, avatar: Option<AvatarInfo>,
    expireTimer: Option<nat>, expireTimerVersion: Option<nat>, inboxPosition: Option<nat>)

  const EMPTY: ContactDetails := ContactDetails(None, None, None, None, None, None, None)

  datatype Attachment = Attachment(contentType: string, reader: Bytes)

  datatype Contact = Contact(
    uuid: nat, phoneNumber: Option<nat>, name: string, expireTimer: nat, expireTimerVersion: nat,
    inboxPosition: nat, avatar: Option<Attachment>)

  datatype ParseContactError = MissingUuid

  datatype Codec = Codec(encode: ContactDetails -> Bytes, decode: Bytes -> Option<ContactDetails>)

  /** Protobuf, for one message: decoding undoes encoding, and the size fits the length prefix. */
  ghost predicate Encodable(c: Codec, m: ContactDetails) {
    c.decode(c.encode(m)) == Some(m) && |c.encode(m)| < U64
  }

  /** All that is asked of the codec: the messages written are encodable, and no bytes at all are the default message. */
  ghost predicate Lawful(c: Codec, ms: seq<ContactDetails>) {
    (forall m :: m in ms ==> Encodable(c, m)) && c.decode([]) == Some(EMPTY)
  }

  function IndexOf(ms: seq<ContactDetails>, m: ContactDetails): (i: nat)
    ensures i <= |ms| && (m in ms ==> i < |ms| && ms[i] == m)
  {
    if ms == [] then 0 else if ms[0] == m then 0 else 1 + IndexOf(ms[1..], m)
  }

  /** A codec that numbers the messages: the encoding of the `i`th has `i + 1` bytes. */
  function Numbering(ms: seq<ContactDetails>): Codec {
    Codec(
      (m: ContactDetails) => if m == EMPTY then [] else Zeros(IndexOf(ms, m) + 1),
      (b: Bytes) => if b == [] then Some(EMPTY) else if |b| <= |ms| then Some(ms[|b| - 1]) else None)
  }

  /** Whatever is to be written, there is a codec that can write it. */
  lemma CodecsExist(ms: seq<ContactDetails>)
    requires |ms| < U64 - 1
    ensures Lawful(Numbering(ms), ms)
  {
  }

  function AvatarOf(details: ContactDetails, data: Option<Bytes>): Option<Attachment> {
    match details.avatar
    case Some(AvatarInfo(Some(contentType), _)) => if data.Some? then Some(Attachment(contentType, data.value)) else None
    case _ => None
  }

  function FromProto(details: ContactDetails, data: Option<Bytes>): Result<Contact, ParseContactError> {
    if details.uuid.None? then Err(MissingUuid)
    else
      Ok(Contact(details.uuid.value, details.number, details.name.GetOr(""), details.expireTimer.GetOr(0),
                 details.expireTimerVersion.GetOr(0), details.inboxPosition.GetOr(0), AvatarOf(details, data)))
  }

  /** A contact without an id is refused; else what is said is kept, what is not is empty or zero, and an avatar needs both its parts. */
  lemma WhatAContactSays(m: ContactDetails, data: Option<Bytes>)
    ensures var r := FromProto(m, data);
            && (m.uuid.None? <==> r == Err(MissingUuid))
            && (m.uuid.Some? ==>
                  && r.Ok? && m.uuid == Some(r.value.uuid) && r.value.phoneNumber == m.number
                  && (m.name == Some(r.value.name) || (m.name.None? && r.value.name == ""))
                  && (m.expireTimer == Some(r.value.expireTimer) || (m.expireTimer.None? && r.value.expireTimer == 0))
                  && (m.expireTimerVersion == Some(r.value.expireTimerVersion)
                      || (m.expireTimerVersion.None? && r.value.expireTimerVersion == 0))
                  && (m.inboxPosition == Some(r.value.inboxPosition) || (m.inboxPosition.None? && r.value.inboxPosition == 0))
                  && (r.value.avatar.Some? <==> data.Some? && m.avatar.Some? && m.avatar.value.contentType.Some?)
                  && (r.value.avatar.Some? ==>
                        m.avatar.value.contentType == Some(r.value.avatar.value.contentType)
                        && data == Some(r.value.avatar.value.reader)))
  {
  }

  // -- writing ----------------------------------------------------------------------

  function Delimited(c: Codec, m: ContactDetails): Bytes {
    EncodeVarint(|c.encode(m)|) + c.encode(m)
  }

  function Stream(c: Codec, ms: seq<ContactDetails>): Bytes {
    if ms == [] then [] else Stream(c, ms[..|ms| - 1]) + Delimited(c, ms[|ms| - 1])
  }

  method UploadContactDetails(c: Codec, contacts: seq<ContactDetails>) returns (out: Bytes)
    ensures out == Stream(c, contacts)
  {
    out := [];
    for i := 0 to |contacts|
      invariant out == Stream(c, contacts[..i])
    {
      assert contacts[..i + 1][..i] == contacts[..i];
      out := out + Delimited(c, contacts[i]);
    }
    assert contacts[..|contacts|] == contacts;
  }

  // -- reading ----------------------------------------------------------------------

  /** `End` is the iterator's None; reading an avatar longer than the rest of the buffer panics. */
  datatype Item = End | Panicked | Next(contact: Result<Contact, ParseContactError>)

  /** One length-delimited message from the front: the message and the bytes it took. */
  function DecodeDelimited(c: Codec, b: Bytes): (r: Option<(ContactDetails, nat)>)
    ensures r.Some? ==> 1 <= r.value.1 <= |b|
  {
    match DecodeVarint(b)
    case None => None
    case Some((len, used)) =>
      if len > |b| - used then None
      else
        match c.decode(b[used..used + len])
        case None => None
        case Some(m) => Some((m, used + len))
  }

  function AvatarLength(m: ContactDetails): Option<nat> {
    match m.avatar
    case Some(AvatarInfo(_, Some(n))) => Some(n)
    case _ => None
  }

  function NextItem(c: Codec, b: Bytes): (r: (Item, Bytes))
    ensures r.0.Next? ==> |r.1| < |b|
  {
    if b == [] then (End, b)
    else
      match DecodeDelimited(c, b)
      case None => (End, b)
      case Some((m, used)) =>
        match AvatarLength(m)
        case None => (Next(FromProto(m, None)), b[used..])
        case Some(n) =>
          if n > |b| - used then (Panicked, b[used..])
          else (Next(FromProto(m, Some(b[used..used + n]))), b[used + n..])
  }

  class DeviceContactsIterator {
    var decryptedBuffer: Bytes

    constructor (decryptedBuffer: Bytes)
      ensures this.decryptedBuffer == decryptedBuffer
    {
      this.decryptedBuffer := decryptedBuffer;
    }

    method Advance(n: nat) returns (taken: Bytes)
      requires n <= |decryptedBuffer|
      modifies this
      ensures taken == old(decryptedBuffer)[..n] && decryptedBuffer == old(decryptedBuffer)[n..]
    {
      taken := decryptedBuffer[..n];
      decryptedBuffer := decryptedBuffer[n..];
    }

    /** Every `Some` strictly shrinks the buffer, so a reader that stops at None always stops. */
    method Step(c: Codec) returns (item: Item)
      modifies this
      ensures (item, decryptedBuffer) == NextItem(c, old(decryptedBuffer))
      ensures item.Next? ==> |decryptedBuffer| < |old(decryptedBuffer)|
    {
      if decryptedBuffer == [] {
        return End;
      }
      var decoded := DecodeDelimited(c, decryptedBuffer);
      if decoded.None? {
        return End;
      }
      var m, used := decoded.value.0, decoded.value.1;
      ghost var before := decryptedBuffer;
      var _ := Advance(used);
      var data: Option<Bytes> := None;
      match AvatarLength(m) {
        case Some(n) =>
          if n > |decryptedBuffer| {
            return Panicked;
          }
          var avatar := Advance(n);
          assert avatar == before[used..used + n] && decryptedBuffer == before[used + n..];
          data := Some(avatar);
        case None =>
      }
      item := Next(FromProto(m, data));
    }
  }

  /** Polled until it stops: what it yielded, how it stopped, and what it left unread. */
  function ReadAll(c: Codec, b: Bytes): (seq<Result<Contact, ParseContactError>>, Item, Bytes)
    decreases |b|
  {
    var (item, rest) := NextItem(c, b);
    match item
    case Next(contact) => var (more, last, left) := ReadAll(c, rest); ([contact] + more, last, left)
    case _ => ([], item, rest)
  }

  // -- round trips ------------------------------------------------------------------

  lemma DelimitedRoundTrip(c: Codec, m: ContactDetails, rest: Bytes)
    requires Encodable(c, m)
    ensures DecodeDelimited(c, Delimited(c, m) + rest) == Some((m, |Delimited(c, m)|))
  {
    var body, prefix := c.encode(m), EncodeVarint(|c.encode(m)|);
    VarintRoundTrip(|body|, body + rest);
    var b := Delimited(c, m) + rest;
    assert b == prefix + (body + rest);
    assert b[|prefix|..|prefix| + |body|] == body;
  }

  /** A message with the avatar bytes it announces. */
  datatype Entry = Entry(details: ContactDetails, data: Option<Bytes>)

  predicate Announced(e: Entry) {
    if e.details.avatar.None? || e.details.avatar.value.length.None? then e.data.None?
    else e.data.Some? && |e.data.value| == e.details.avatar.value.length.value
  }

  function EntryBytes(c: Codec, e: Entry): Bytes {
    Delimited(c, e.details) + e.data.GetOr([])
  }

  function Written(c: Codec, es: seq<Entry>): Bytes {
    if es == [] then [] else EntryBytes(c, es[0]) + Written(c, es[1..])
  }

  function Parsed(es: seq<Entry>): seq<Result<Contact, ParseContactError>> {
    if es == [] then [] else [FromProto(es[0].details, es[0].data)] + Parsed(es[1..])
  }

  lemma EntryRoundTrip(c: Codec, e: Entry, rest: Bytes)
    requires Encodable(c, e.details) && Announced(e)
    ensures NextItem(c, EntryBytes(c, e) + rest) == (Next(FromProto(e.details, e.data)), rest)
  {
    var head, data := Delimited(c, e.details), e.data.GetOr([]);
    var b := EntryBytes(c, e) + rest;
    DelimitedRoundTrip(c, e.details, data + rest);
    assert b == head + (data + rest);
    assert b[|head|..|head| + |data|] == data && b[|head| + |data|..] == rest;
    assert b[|head|..] == data + rest;
  }

  lemma ReadOne(c: Codec, b: Bytes, contact: Result<Contact, ParseContactError>, rest: Bytes)
    requires NextItem(c, b) == (Next(contact), rest)
    ensures ReadAll(c, b) == ([contact] + ReadAll(c, rest).0, ReadAll(c, rest).1, ReadAll(c, rest).2)
  {
  }

  /** Any list of entries, avatars included, is read back in order, and reading continues after it. */
  lemma {:induction false} EntriesRoundTrip(c: Codec, es: seq<Entry>, rest: Bytes)
    requires forall e :: e in es ==> Encodable(c, e.details) && Announced(e)
    ensures var (more, last, left) := ReadAll(c, rest);
            ReadAll(c, Written(c, es) + rest) == (Parsed(es) + more, last, left)
    decreases es
  {
    var more := ReadAll(c, rest).0;
    if es == [] {
      assert [] + rest == rest && [] + more == more;
    } else {
      var first, tail := FromProto(es[0].details, es[0].data), Written(c, es[1..]) + rest;
      assert Announced(es[0]);
      EntryRoundTrip(c, es[0], tail);
      ReadOne(c, EntryBytes(c, es[0]) + tail, first, tail);
      EntriesRoundTrip(c, es[1..], rest);
      Assoc(EntryBytes(c, es[0]), Written(c, es[1..]), rest);
      Assoc([first], Parsed(es[1..]), more);
    }
  }

  function Missing(k: nat): (r: seq<Result<Contact, ParseContactError>>)
    ensures |r| == k && forall i :: 0 <= i < k ==> r[i] == Err(MissingUuid)
  {
    seq(k, _ => Err(MissingUuid))
  }

  /** Each zero byte of padding reads as one contact without an id. */
  lemma {:induction false} PaddingReadsAsMissing(c: Codec, k: nat)
    requires c.decode([]) == Some(EMPTY)
    ensures ReadAll(c, Zeros(k)) == (Missing(k), End, [])
  {
    if k > 0 {
      var b := Zeros(k);
      assert DecodeVarint(b) == Some((0, 1));
      assert b[1..1] == [] && b[1..] == Zeros(k - 1);
      assert NextItem(c, b) == (Next(FromProto(EMPTY, None)), Zeros(k - 1));
      PaddingReadsAsMissing(c, k - 1);
      assert Missing(k) == [Err(MissingUuid)] + Missing(k - 1);
    } else {
      assert Zeros(0) == [];
      assert Missing(0) == [];
    }
  }

  /** A contact as it is uploaded: whatever avatar it announces, none of its bytes come along. */
  function BareEntry(m: ContactDetails): Entry {
    Entry(m, if AvatarLength(m).Some? then Some([]) else None)
  }

  function Bare(ms: seq<ContactDetails>): (r: seq<Entry>)
    ensures |r| == |ms| && forall i :: 0 <= i < |ms| ==> r[i] == BareEntry(ms[i])
  {
    seq(|ms|, i requires 0 <= i < |ms| => BareEntry(ms[i]))
  }

  /** No avatar, or one whose length is missing or zero: there are no bytes to come along. */
  predicate NoBytesAnnounced(m: ContactDetails) {
    m.avatar.None? || m.avatar.value.length.GetOr(0) == 0
  }

  lemma {:induction false} WrittenSnoc(c: Codec, es: seq<Entry>, e: Entry)
    ensures Written(c, es + [e]) == Written(c, es) + EntryBytes(c, e)
  {
    if es == [] {
      assert es + [e] == [e] && [e][1..] == [];
      assert Written(c, [e]) == EntryBytes(c, e) + [];
    } else {
      WrittenSnoc(c, es[1..], e);
      assert (es + [e])[1..] == es[1..] + [e];
      assert Written(c, es) + EntryBytes(c, e) == EntryBytes(c, es[0]) + (Written(c, es[1..]) + EntryBytes(c, e));
    }
  }

  lemma {:induction false} StreamIsWritten(c: Codec, ms: seq<ContactDetails>)
    ensures Stream(c, ms) == Written(c, Bare(ms))
  {
    if ms != [] {
      var front, last := ms[..|ms| - 1], ms[|ms| - 1];
      StreamIsWritten(c, front);
      assert Bare(ms) == Bare(front) + [BareEntry(last)];
      WrittenSnoc(c, Bare(front), BareEntry(last));
      assert EntryBytes(c, BareEntry(last)) == Delimited(c, last) + [] == Delimited(c, last);
    }
  }

  /** What is written without announced bytes is read back, contact by contact, with one error per padding byte after it. */
  lemma ContactsRoundTrip(c: Codec, ms: seq<ContactDetails>, k: nat)
    requires Lawful(c, ms) && forall m :: m in ms ==> NoBytesAnnounced(m)
    ensures ReadAll(c, Stream(c, ms) + Zeros(k)) == (Parsed(Bare(ms)) + Missing(k), End, [])
  {
    BareOnes(c, ms, Zeros(k));
    PaddingReadsAsMissing(c, k);
  }

  lemma BareOnes(c: Codec, ms: seq<ContactDetails>, rest: Bytes)
    requires Lawful(c, ms) && forall m :: m in ms ==> NoBytesAnnounced(m)
    ensures var (more, last, left) := ReadAll(c, rest);
            ReadAll(c, Stream(c, ms) + rest) == (Parsed(Bare(ms)) + more, last, left)
  {
    forall e | e in Bare(ms)
      ensures Encodable(c, e.details) && Announced(e)
    {
      assert e.details in ms && NoBytesAnnounced(e.details);
    }
    StreamIsWritten(c, ms);
    EntriesRoundTrip(c, Bare(ms), rest);
  }

  lemma {:induction false} StreamConcat(c: Codec, a: seq<ContactDetails>, b: seq<ContactDetails>)
    ensures Stream(c, a + b) == Stream(c, a) + Stream(c, b)
    decreases b
  {
    if b == [] {
      assert a + b == a && Stream(c, a) + [] == Stream(c, a);
    } else {
      var front, last := b[..|b| - 1], b[|b| - 1];
      assert (a + b)[..|a + b| - 1] == a + front;
      StreamConcat(c, a, front);
      Assoc(Stream(c, a), Stream(c, front), Delimited(c, last));
    }
  }

  // -- avatars ----------------------------------------------------------------------

  /**
    The uploader writes no avatar bytes. Wherever the first contact that announces any stands, the
    reader takes the `n` announced from what follows it, contacts and padding alike, and goes on
    behind; or it panics, when less than that follows.
   */
  lemma AnnouncedAvatarEatsWhatFollows(c: Codec, ms: seq<ContactDetails>, m: ContactDetails, later: seq<ContactDetails>, k: nat)
    requires Lawful(c, ms + [m]) && AvatarLength(m).Some? && forall m' :: m' in ms ==> NoBytesAnnounced(m')
    ensures var n, rest := AvatarLength(m).value, Stream(c, later) + Zeros(k);
            ReadAll(c, Stream(c, ms + [m] + later) + Zeros(k)) ==
              if n <= |rest| then
                var (more, last, left) := ReadAll(c, rest[n..]);
                (Parsed(Bare(ms)) + ([FromProto(m, Some(rest[..n]))] + more), last, left)
              else (Parsed(Bare(ms)), Panicked, rest)
  {
    var n, rest := AvatarLength(m).value, Stream(c, later) + Zeros(k);
    var tail := Delimited(c, m) + rest;
    SplitAtContact(c, ms, m, later, Zeros(k));
    assert forall m' :: m' in ms ==> m' in ms + [m];
    assert m in ms + [m];
    BareOnes(c, ms, tail);
    if n <= |rest| {
      ReadStolen(c, m, rest);
    } else {
      DelimitedRoundTrip(c, m, rest);
      assert tail[|Delimited(c, m)|..] == rest;
      assert ReadAll(c, tail) == ([], Panicked, rest);
      assert Parsed(Bare(ms)) + [] == Parsed(Bare(ms));
    }
  }

  lemma SplitAtContact(c: Codec, ms: seq<ContactDetails>, m: ContactDetails, later: seq<ContactDetails>, rest: Bytes)
    ensures Stream(c, ms + [m] + later) + rest == Stream(c, ms) + (Delimited(c, m) + (Stream(c, later) + rest))
  {
    assert (ms + [m])[..|ms|] == ms;
    StreamConcat(c, ms + [m], later);
    Assoc(Stream(c, ms) + Delimited(c, m), Stream(c, later), rest);
    Assoc(Stream(c, ms), Delimited(c, m), Stream(c, later) + rest);
  }

  lemma ReadStolen(c: Codec, m: ContactDetails, rest: Bytes)
    requires Encodable(c, m) && AvatarLength(m).Some? && AvatarLength(m).value <= |rest|
    ensures var n := AvatarLength(m).value;
            var (more, last, left) := ReadAll(c, rest[n..]);
            ReadAll(c, Delimited(c, m) + rest) == ([FromProto(m, Some(rest[..n]))] + more, last, left)
  {
    var n := AvatarLength(m).value;
    var e := Entry(m, Some(rest[..n]));
    EntryRoundTrip(c, e, rest[n..]);
    assert rest == rest[..n] + rest[n..];
    Assoc(Delimited(c, m), rest[..n], rest[n..]);
    ReadOne(c, Delimited(c, m) + rest, FromProto(m, e.data), rest[n..]);
  }

  /** The records the reader makes its items from, with the avatar bytes it took for each. */
  function Records(c: Codec, b: Bytes): seq<Entry>
    decreases |b|
  {
    var (item, rest) := NextItem(c, b);
    if !item.Next? then []
    else
      var m := DecodeDelimited(c, b).value;
      [Entry(m.0, if AvatarLength(m.0).None? then None else Some(b[m.1..m.1 + AvatarLength(m.0).value]))] + Records(c, rest)
  }

  lemma {:induction false} ItemsAreMadeFromRecords(c: Codec, b: Bytes)
    ensures ReadAll(c, b).0 == Parsed(Records(c, b))
    decreases |b|
  {
    if NextItem(c, b).0.Next? {
      ItemsAreMadeFromRecords(c, NextItem(c, b).1);
    }
  }

  lemma RecordOf(c: Codec, m: ContactDetails, rest: Bytes)
    requires Encodable(c, m)
    ensures var records := Records(c, Delimited(c, m) + rest);
            if NoBytesAnnounced(m) then records == [BareEntry(m)] + Records(c, rest)
            else records == [] || |records[0].data.GetOr([])| == AvatarLength(m).value
  {
    var u, b := |Delimited(c, m)|, Delimited(c, m) + rest;
    DelimitedRoundTrip(c, m, rest);
    assert b[u..] == rest;
    if NoBytesAnnounced(m) {
      assert b[u..u + 0] == [];
    }
  }

  /** Every contact with no avatar bytes, and an empty record for every byte of padding. */
  function AsWritten(ms: seq<ContactDetails>, k: nat): seq<Entry> {
    Bare(ms) + seq(k, _ => Entry(EMPTY, None))
  }

  lemma {:induction false} PaddingRecords(c: Codec, k: nat)
    requires c.decode([]) == Some(EMPTY)
    ensures Records(c, Zeros(k)) == AsWritten([], k)
  {
    if k > 0 {
      var b := Zeros(k);
      assert DecodeVarint(b) == Some((0, 1));
      assert b[1..1] == [] && b[1..] == Zeros(k - 1);
      assert NextItem(c, b) == (Next(FromProto(EMPTY, None)), Zeros(k - 1));
      PaddingRecords(c, k - 1);
      assert AsWritten([], k) == [Entry(EMPTY, None)] + AsWritten([], k - 1);
    } else {
      assert Zeros(0) == [] && AsWritten([], 0) == [];
    }
  }

  lemma StreamFirst(c: Codec, ms: seq<ContactDetails>, rest: Bytes)
    requires ms != []
    ensures Stream(c, ms) + rest == Delimited(c, ms[0]) + (Stream(c, ms[1..]) + rest)
  {
    assert ms == [] + [ms[0]] + ms[1..];
    SplitAtContact(c, [], ms[0], ms[1..], rest);
    assert Stream(c, []) == [];
  }

  lemma AsWrittenFirst(ms: seq<ContactDetails>, k: nat)
    requires ms != []
    ensures AsWritten(ms, k) == [BareEntry(ms[0])] + AsWritten(ms[1..], k)
  {
    assert Bare(ms) == [BareEntry(ms[0])] + Bare(ms[1..]);
  }

  lemma SameFirst<T>(x: T, a: seq<T>, b: seq<T>)
    ensures [x] + a == [x] + b <==> a == b
  {
    assert ([x] + a)[1..] == a && ([x] + b)[1..] == b;
  }

  lemma {:induction false} RecordsIff(c: Codec, ms: seq<ContactDetails>, k: nat)
    requires Lawful(c, ms)
    ensures Records(c, Stream(c, ms) + Zeros(k)) == AsWritten(ms, k) <==> forall m :: m in ms ==> NoBytesAnnounced(m)
  {
    if ms == [] {
      PaddingRecords(c, k);
      assert Stream(c, ms) + Zeros(k) == Zeros(k);
    } else {
      var m, later := ms[0], ms[1..];
      assert forall m' :: m' in ms <==> m' == m || m' in later;
      StreamFirst(c, ms, Zeros(k));
      AsWrittenFirst(ms, k);
      RecordOf(c, m, Stream(c, later) + Zeros(k));
      if NoBytesAnnounced(m) {
        RecordsIff(c, later, k);
        SameFirst(BareEntry(m), Records(c, Stream(c, later) + Zeros(k)), AsWritten(later, k));
      }
    }
  }

  /**
    When the round trip works: the reader makes every contact from its own record, with no bytes that
    are not its own, and the padding from the padding, exactly if no contact announces avatar bytes.
    What it yields is then what was written, and it stops with nothing left.
   */
  lemma ReadsBackIff(c: Codec, ms: seq<ContactDetails>, k: nat)
    requires Lawful(c, ms)
    ensures var b := Stream(c, ms) + Zeros(k);
            && ReadAll(c, b).0 == Parsed(Records(c, b))
            && (Records(c, b) == AsWritten(ms, k) <==> forall m :: m in ms ==> NoBytesAnnounced(m))
            && (Records(c, b) == AsWritten(ms, k) ==> ReadAll(c, b) == (Parsed(Bare(ms)) + Missing(k), End, []))
  {
    var b := Stream(c, ms) + Zeros(k);
    RecordsIff(c, ms, k);
    ItemsAreMadeFromRecords(c, b);
    if Records(c, b) == AsWritten(ms, k) {
      ContactsRoundTrip(c, ms, k);
    }
  }

  lemma {:induction false} ParsedAt(es: seq<Entry>, i: nat)
    requires i < |es|
    ensures |Parsed(es)| == |es| && Parsed(es)[i] == FromProto(es[i].details, es[i].data)
    decreases es
  {
    if |es| > 1 {
      ParsedAt(es[1..], if i > 0 then i - 1 else 0);
    }
  }

  /** A contact with an id and a content type that announces avatar bytes is visibly wrong, wherever it stands. */
  lemma StolenAvatarShows(c: Codec, ms: seq<ContactDetails>, m: ContactDetails, later: seq<ContactDetails>, k: nat)
    requires Lawful(c, ms + [m]) && !NoBytesAnnounced(m) && forall m' :: m' in ms ==> NoBytesAnnounced(m')
    requires m.uuid.Some? && m.avatar.value.contentType.Some?
    ensures ReadAll(c, Stream(c, ms + [m] + later) + Zeros(k)).0 != Parsed(Bare(ms + [m] + later)) + Missing(k)
  {
    AnnouncedAvatarEatsWhatFollows(c, ms, m, later, k);
    var all := Bare(ms + [m] + later);
    ParsedAt(all, |ms|);
    assert all[|ms|] == BareEntry(m);
    var items := ReadAll(c, Stream(c, ms + [m] + later) + Zeros(k)).0;
    if ms != [] {
      ParsedAt(Bare(ms), 0);
    }
    if |items| > |ms| {
      assert |items[|ms|].value.avatar.value.reader| == AvatarLength(m).value;
      assert FromProto(m, Some([])).value.avatar.value.reader == [];
    }
  }
}
