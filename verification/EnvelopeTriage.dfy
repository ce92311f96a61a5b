/**
  What becomes of a received envelope (src/cipher.rs:147-628): which are refused, which are dropped
  in silence, and what is known of a content that is handed to the application. The ratchets, the
  sealed-sender layer and the protobuf bodies answer from outside.
 */
module EnvelopeTriage {
  import opened Prelude
  import MessagePadding

  datatype Kind = PrekeyMessage | PlaintextContent | DoubleRatchet | UnidentifiedSender | ServerDeliveryReceipt | OtherType

  /** `source` and `destination` are the service ids after parsing, None when absent or unreadable. */
  datatype Envelope = Envelope(
    content: Option<Bytes>, kind: Kind, source: Option<ServiceId>, sourceDevice: nat, destination: Option<ServiceId>,
    clientTimestamp: int, serverTimestamp: int, serverGuid: Option<nat>, reportSpamToken: Option<Bytes>)

  datatype Body =
    | DataMessage(m: Bytes) | SyncMessage(m: Bytes) | CallMessage(m: Bytes) | NullMessage(m: Bytes) | ReceiptMessage(m: Bytes)
    | TypingMessage(m: Bytes) | StoryMessage(m: Bytes) | EditMessage(m: Bytes) | DecryptionErrorMessage(m: Bytes)

  datatype ProtoContent = ProtoContent(content: Option<Body>, senderKeyDistribution: Option<Bytes>, pniSignature: Option<Bytes>)

  datatype Metadata = Metadata(
    destination: ServiceId, sender: ServiceId, senderDevice: nat, clientTimestamp: int, serverTimestamp: int,
    needsReceipt: bool, unidentifiedSender: bool, wasPlaintext: bool, serverGuid: Option<nat>,
    reportSpamToken: Option<Bytes>, pniVerified: Option<nat>)

  datatype Content = Content(metadata: Metadata, body: Body)

  /** `Panicked` is the failed expectation that an identified envelope names its source. */
  datatype TriageError =
    | NoContent | MissingDestination | MismatchingDestination | SealedToOurPni | FromAPni | SealedFromAPni | UnknownType
    | InvalidDevice | Library(e: nat) | InvalidSender | Padding(p: MessagePadding.PaddingError) | Undecodable
    | BadTimestamp | BadServerTimestamp | Panicked

  datatype Unsealed = Unsealed(sender: Option<ServiceId>, device: nat, message: Bytes)

  datatype Outside = Outside(
    prekeyDecrypt: (Bytes, ServiceId, nat) -> Result<(Bytes, nat), nat>,
    signalDecrypt: (Bytes, ServiceId, nat) -> Result<(Bytes, nat), nat>,
    plaintextBody: Bytes -> Result<Bytes, nat>,
    unseal: Bytes -> Result<Unsealed, nat>,
    decode: Bytes -> Option<ProtoContent>,
    decodesAsError: Bytes -> bool,
    verifyPni: (ServiceId, nat, Bytes) -> Option<nat>,
    applySenderKey: (ServiceId, nat, Bytes) -> Result<(), nat>,
    isTime: int -> bool)

  /** Decrypted bytes and what varies with the envelope's type. */
  datatype Payload = Payload(data: Bytes, sender: ServiceId, device: nat, wasPlaintext: bool, unidentified: bool, needsReceipt: bool)

  function Lib<T>(r: Result<T, nat>): Result<T, TriageError> {
    match r
    case Ok(v) => Ok(v)
    case Err(e) => Err(Library(e))
  }

  function Device(n: nat): Result<nat, TriageError> {
    if 1 <= n <= 127 then Ok(n) else Err(InvalidDevice)
  }

  function Strip(version: nat, data: Bytes): Result<Bytes, TriageError> {
    match MessagePadding.Stripped(version, data)
    case Ok(plain) => Ok(plain)
    case Err(e) => Err(Padding(e))
  }

  /** Padding without a session version to go by. */
  function StripAlways(data: Bytes): Result<Bytes, TriageError> {
    match MessagePadding.Unpad(data)
    case Some(plain) => Ok(plain)
    case None => Err(Padding(MessagePadding.BadPadding))
  }

  function Checks(local: ServiceId, env: Envelope): Result<(), TriageError> {
    if env.content.None? then Err(NoContent)
    else if env.destination.None? then Err(MissingDestination)
    else if env.destination.value != local then Err(MismatchingDestination)
    else if env.destination.value.Pni? && env.source.None? then Err(SealedToOurPni)
    else if env.source.Some? && env.source.value.Pni? && env.kind != ServerDeliveryReceipt then Err(FromAPni)
    else Ok(())
  }

  /** The part that depends on the envelope's type. */
  function Decrypted(o: Outside, env: Envelope, ciphertext: Bytes): Result<Payload, TriageError> {
    match env.kind
    case PrekeyMessage =>
      if env.source.None? then Err(Panicked)
      else
        var device :- Device(env.sourceDevice);
        var r :- Lib(o.prekeyDecrypt(ciphertext, env.source.value, device));
        var data :- Strip(r.1, r.0);
        Ok(Payload(data, env.source.value, device, false, false, false))
    case PlaintextContent =>
      if env.source.None? then Err(Panicked)
      else
        var body :- Lib(o.plaintextBody(ciphertext));
        var data :- StripAlways(body);
        var device :- Device(env.sourceDevice);
        Ok(Payload(data, env.source.value, device, true, false, false))
    case DoubleRatchet =>
      if env.source.None? then Err(Panicked)
      else
        var device :- Device(env.sourceDevice);
        var r :- Lib(o.signalDecrypt(ciphertext, env.source.value, device));
        var data :- Strip(r.1, r.0);
        Ok(Payload(data, env.source.value, device, false, false, false))
    case UnidentifiedSender =>
      var u :- Lib(o.unseal(ciphertext));
      if u.sender.None? then Err(InvalidSender)
      else
        var needsReceipt := env.source.None?;
        if u.sender.value.Pni? then Err(SealedFromAPni)
        else
          var data :- StripAlways(u.message);
          Ok(Payload(data, u.sender.value, u.device, false, true, needsReceipt))
    case _ => Err(UnknownType)
  }

  /** `decrypt`: the checks, the type's own part, the body, and only then the timestamps. */
  function Decrypt(o: Outside, local: ServiceId, env: Envelope): Result<(Metadata, ProtoContent), TriageError> {
    var _ :- Checks(local, env);
    var p :- Decrypted(o, env, env.content.GetOr([]));
    match o.decode(p.data)
    case None => Err(Undecodable)
    case Some(message) =>
      var pniVerified := if message.pniSignature.Some? then o.verifyPni(p.sender, p.device, message.pniSignature.value) else None;
      if !o.isTime(env.clientTimestamp) then Err(BadTimestamp)
      else if !o.isTime(env.serverTimestamp) then Err(BadServerTimestamp)
      else
        Ok((Metadata(local, p.sender, p.device, env.clientTimestamp, env.serverTimestamp, p.needsReceipt, p.unidentified,
                     p.wasPlaintext, env.serverGuid, env.reportSpamToken, pniVerified), message))
  }

  /** The sender's own account, as an ACI, if it has one. */
  function AciOf(s: ServiceId): Option<nat> {
    if s.Aci? then Some(s.uuid) else None
  }

  function FromProto(o: Outside, body: Body, metadata: Metadata): Result<Content, TriageError> {
    if body.DecryptionErrorMessage? && !o.decodesAsError(body.m) then Err(Undecodable) else Ok(Content(metadata, body))
  }

  /** `open_envelope`: Ok(None) is an envelope dropped without an error. */
  function OpenEnvelope(o: Outside, local: ServiceId, env: Envelope): Result<Option<Content>, TriageError> {
    if env.content.None? then Ok(None)
    else
      var plaintext :- Decrypt(o, local, env);
      var (metadata, message) := plaintext;
      var _ :- if message.senderKeyDistribution.None? then Ok(())
               else Lib(o.applySenderKey(metadata.sender, metadata.senderDevice, message.senderKeyDistribution.value));
      if message.content.None? then Ok(None)
      else
        var body := message.content.value;
        if metadata.wasPlaintext && !body.DecryptionErrorMessage? then Ok(None)
        else if body.SyncMessage? && (AciOf(metadata.sender) != AciOf(local) || local.Pni?) then Ok(None)
        else
          var content :- FromProto(o, body, metadata);
          Ok(Some(content))
  }

  ghost predicate Opens(o: Outside, local: ServiceId, env: Envelope, c: Content) {
    OpenEnvelope(o, local, env) == Ok(Some(c))
  }

  lemma DecryptedPayload(o: Outside, local: ServiceId, env: Envelope, ciphertext: Bytes)
    requires Checks(local, env).Ok? && Decrypted(o, env, ciphertext).Ok?
    ensures var p := Decrypted(o, env, ciphertext).value;
            && p.sender.Aci?
            && (p.unidentified <==> env.kind == UnidentifiedSender)
            && (p.wasPlaintext <==> env.kind == PlaintextContent)
            && (p.needsReceipt <==> env.kind == UnidentifiedSender && env.source.None?)
            && (!p.unidentified ==> env.source == Some(p.sender) && p.device == env.sourceDevice && 1 <= p.device <= 127)
  {
  }

  /** Everything the application may rely on about a content it is given. */
  lemma OpenedContentIsTrustworthy(o: Outside, local: ServiceId, env: Envelope, c: Content)
    requires Opens(o, local, env, c)
    ensures c.metadata.sender.Aci? && c.metadata.destination == local && env.destination == Some(local)
    ensures c.body.SyncMessage? ==> local.Aci? && c.metadata.sender == local
    ensures c.metadata.wasPlaintext <==> env.kind == PlaintextContent
    ensures c.metadata.wasPlaintext ==> c.body.DecryptionErrorMessage?
    ensures c.metadata.unidentifiedSender <==> env.kind == UnidentifiedSender
    ensures c.metadata.needsReceipt <==> env.kind == UnidentifiedSender && env.source.None?
    ensures env.kind != UnidentifiedSender ==> env.source == Some(c.metadata.sender)
    ensures local.Pni? ==> env.source.Some? && env.source.value.Aci? && !c.metadata.needsReceipt
    ensures env.kind in {PrekeyMessage, PlaintextContent, DoubleRatchet, UnidentifiedSender}
  {
    DecryptedPayload(o, local, env, env.content.value);
  }

  /** The unchecked expectation fails exactly for an identified kind without a source, addressed to our ACI. */
  lemma PanicsIff(o: Outside, local: ServiceId, env: Envelope)
    ensures OpenEnvelope(o, local, env) == Err(Panicked) <==>
              && env.content.Some? && env.destination == Some(local) && local.Aci? && env.source.None?
              && env.kind in {PrekeyMessage, PlaintextContent, DoubleRatchet}
  {
    if Checks(local, env).Ok? && env.kind == UnidentifiedSender {
      SealedNeverPanics(o, env, env.content.value);
    } else if Checks(local, env).Ok? && env.source.Some? {
      IdentifiedNeverPanics(o, env, env.content.value);
    }
  }

  lemma SealedNeverPanics(o: Outside, env: Envelope, ciphertext: Bytes)
    requires env.kind == UnidentifiedSender
    ensures Decrypted(o, env, ciphertext) != Err(Panicked)
  {
  }

  lemma IdentifiedNeverPanics(o: Outside, env: Envelope, ciphertext: Bytes)
    requires env.source.Some?
    ensures Decrypted(o, env, ciphertext) != Err(Panicked)
  {
  }

  /**
    Delivery: a message padded by the sender under a session of version 3 or more, from an ACI to
    our ACI, comes out as sent, unless it is a sync message and the sender is not ourselves.
   */
  lemma HonestMessageOpens(o: Outside, env: Envelope, own: nat, sender: nat, encoded: Bytes, k: nat, version: nat, body: Body)
    requires env.kind == DoubleRatchet && env.content.Some? && 1 <= env.sourceDevice <= 127
    requires env.destination == Some(Aci(own)) && env.source == Some(Aci(sender))
    requires version > 2
    requires o.signalDecrypt(env.content.value, Aci(sender), env.sourceDevice)
             == Ok((MessagePadding.Terminated(encoded, k), version))
    requires o.decode(encoded) == Some(ProtoContent(Some(body), None, None)) && !body.DecryptionErrorMessage?
    requires o.isTime(env.clientTimestamp) && o.isTime(env.serverTimestamp)
    ensures OpenEnvelope(o, Aci(own), env)
            == if body.SyncMessage? && sender != own then Ok(None)
               else Ok(Some(Content(
                      Metadata(Aci(own), Aci(sender), env.sourceDevice, env.clientTimestamp, env.serverTimestamp,
                               false, false, false, env.serverGuid, env.reportSpamToken, None), body)))
  {
    MessagePadding.UnpadTerminated(encoded, k);
  }

  /** The same through the sealed layer: the sender is the certificate's, and only an envelope without a source asks for a receipt. */
  lemma HonestSealedMessageOpens(o: Outside, env: Envelope, own: nat, sender: nat, device: nat, encoded: Bytes, k: nat, body: Body)
    requires env.kind == UnidentifiedSender && env.content.Some? && env.destination == Some(Aci(own))
    requires env.source.Some? ==> env.source.value.Aci?
    requires o.unseal(env.content.value)
             == Ok(Unsealed(Some(Aci(sender)), device, MessagePadding.Terminated(encoded, k)))
    requires o.decode(encoded) == Some(ProtoContent(Some(body), None, None)) && !body.DecryptionErrorMessage?
    requires o.isTime(env.clientTimestamp) && o.isTime(env.serverTimestamp)
    ensures OpenEnvelope(o, Aci(own), env)
            == if body.SyncMessage? && sender != own then Ok(None)
               else Ok(Some(Content(
                      Metadata(Aci(own), Aci(sender), device, env.clientTimestamp, env.serverTimestamp,
                               env.source.None?, true, false, env.serverGuid, env.reportSpamToken, None), body)))
  {
    MessagePadding.UnpadTerminated(encoded, k);
  }
}
