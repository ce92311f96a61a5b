/**
  Which envelopes come to be opened, and as what (src/cipher.rs:110-628): a description, layer by
  layer, of what must have been sent, and of every reason for not opening it.
 */
module EnvelopeOpening {
  import opened Prelude
  import opened EnvelopeTriage
  import MessagePadding

  /** What was wrapped: the message, its bytes, and those bytes padded under a session version, if there is one. */
  datatype Layers = Layers(message: ProtoContent, data: Bytes, padded: Bytes, version: Option<nat>)

  /** Under its type, the envelope's content is `padded`, from that device of that sender. */
  predicate Wraps(o: Outside, env: Envelope, w: Layers, sender: ServiceId, device: nat) {
    && env.content.Some?
    && (env.kind != UnidentifiedSender ==> env.source == Some(sender) && env.sourceDevice == device && 1 <= device <= 127)
    && match env.kind
       case PrekeyMessage => w.version.Some? && o.prekeyDecrypt(env.content.value, sender, device) == Ok((w.padded, w.version.value))
       case DoubleRatchet => w.version.Some? && o.signalDecrypt(env.content.value, sender, device) == Ok((w.padded, w.version.value))
       case PlaintextContent => w.version.None? && o.plaintextBody(env.content.value) == Ok(w.padded)
       case UnidentifiedSender => w.version.None? && o.unseal(env.content.value) == Ok(Unsealed(Some(sender), device, w.padded))
       case _ => false
  }

  ghost predicate IsPaddingOf(padded: Bytes, data: Bytes) {
    exists k: nat :: padded == MessagePadding.Terminated(data, k)
  }

  /** Version 2 knew no padding, and no older version is read. */
  ghost predicate Pads(w: Layers) {
    if w.version.None? || w.version.value > 2 then IsPaddingOf(w.padded, w.data)
    else w.version.value == 2 && w.padded == w.data
  }

  /** The envelope may be opened by us, and its sender is one to be trusted with a name. */
  predicate Addressed(local: ServiceId, env: Envelope, sender: ServiceId) {
    && env.destination == Some(local) && sender.Aci?
    && (env.source.Some? ==> env.source.value.Aci?)
    && (local.Pni? ==> env.source.Some?)
  }

  /** The envelope is readable, as the message of `w` with these data about it. */
  ghost predicate Readable(o: Outside, local: ServiceId, env: Envelope, m: Metadata, w: Layers) {
    && Addressed(local, env, m.sender) && Wraps(o, env, w, m.sender, m.senderDevice) && Pads(w)
    && o.decode(w.data) == Some(w.message)
    && o.isTime(env.clientTimestamp) && o.isTime(env.serverTimestamp)
    && m == Metadata(
              local, m.sender, m.senderDevice, env.clientTimestamp, env.serverTimestamp,
              env.kind.UnidentifiedSender? && env.source.None?, env.kind.UnidentifiedSender?, env.kind.PlaintextContent?,
              env.serverGuid, env.reportSpamToken,
              if w.message.pniSignature.Some? then o.verifyPni(m.sender, m.senderDevice, w.message.pniSignature.value) else None)
  }

  lemma StripIff(version: nat, padded: Bytes, data: Bytes)
    ensures Strip(version, padded) == Ok(data) <==>
              if version > 2 then IsPaddingOf(padded, data) else version == 2 && padded == data
    ensures StripAlways(padded) == Ok(data) <==> IsPaddingOf(padded, data)
  {
    MessagePadding.UnpadIff(padded, data);
    if k: nat :| padded == MessagePadding.Terminated(data, k) {
      assert k == |padded| - |data| - 1;
    }
  }

  /** What the type's own part yields is what was wrapped. */
  lemma PayloadWasWrapped(o: Outside, env: Envelope) returns (w: Layers)
    requires env.content.Some? && Decrypted(o, env, env.content.value).Ok?
    ensures var p := Decrypted(o, env, env.content.value).value;
            && w.data == p.data && Wraps(o, env, w, p.sender, p.device) && Pads(w)
            && p.wasPlaintext == env.kind.PlaintextContent? && p.unidentified == env.kind.UnidentifiedSender?
            && p.needsReceipt == (env.kind.UnidentifiedSender? && env.source.None?)
            && (p.unidentified ==> p.sender.Aci?)
    ensures w.message == ProtoContent(None, None, None)
  {
    var content := env.content.value;
    var p := Decrypted(o, env, content).value;
    var nothing := ProtoContent(None, None, None);
    match env.kind
    case PrekeyMessage =>
      var (padded, version) := o.prekeyDecrypt(content, env.source.value, env.sourceDevice).value;
      w := Layers(nothing, p.data, padded, Some(version));
      StripIff(version, padded, p.data);
    case DoubleRatchet =>
      var (padded, version) := o.signalDecrypt(content, env.source.value, env.sourceDevice).value;
      w := Layers(nothing, p.data, padded, Some(version));
      StripIff(version, padded, p.data);
    case PlaintextContent =>
      w := Layers(nothing, p.data, o.plaintextBody(content).value, None);
      StripIff(0, w.padded, p.data);
    case UnidentifiedSender =>
      w := Layers(nothing, p.data, o.unseal(content).value.message, None);
      StripIff(0, w.padded, p.data);
  }

  /** What was wrapped is what the type's own part yields. */
  lemma WrappedIsThePayload(o: Outside, env: Envelope, w: Layers, sender: ServiceId, device: nat)
    requires Wraps(o, env, w, sender, device) && Pads(w) && sender.Aci?
    ensures Decrypted(o, env, env.content.value)
            == Ok(Payload(w.data, sender, device, env.kind.PlaintextContent?, env.kind.UnidentifiedSender?,
                          env.kind.UnidentifiedSender? && env.source.None?))
  {
    StripIff(w.version.GetOr(0), w.padded, w.data);
  }

  lemma ChecksIff(local: ServiceId, env: Envelope)
    ensures Checks(local, env).Ok? <==>
              && env.content.Some? && env.destination == Some(local) && (local.Pni? ==> env.source.Some?)
              && (env.source.Some? && env.source.value.Pni? ==> env.kind == ServerDeliveryReceipt)
  {
  }

  /** The order in which an envelope is looked at before anything is decrypted. */
  lemma FirstCheckThatFails(local: ServiceId, env: Envelope)
    ensures Checks(local, env)
            == if env.content.None? then Err(NoContent)
               else if env.destination != Some(local) then Err(if env.destination.None? then MissingDestination else MismatchingDestination)
               else
                 match env.source
                 case None => if local.Pni? then Err(SealedToOurPni) else Ok(())
                 case Some(Aci(_)) => Ok(())
                 case Some(Pni(_)) => if env.kind == ServerDeliveryReceipt then Ok(()) else Err(FromAPni)
  {
  }

  /** Decryption succeeds on the readable envelopes and on no others, with exactly what they say. */
  lemma DecryptsIff(o: Outside, local: ServiceId, env: Envelope, m: Metadata, message: ProtoContent)
    ensures Decrypt(o, local, env) == Ok((m, message)) <==>
              exists w: Layers :: w.message == message && Readable(o, local, env, m, w)
  {
    ChecksIff(local, env);
    if Decrypt(o, local, env) == Ok((m, message)) {
      var v := PayloadWasWrapped(o, env);
      DecryptedPayload(o, local, env, env.content.value);
      var w := v.(message := message);
      assert Readable(o, local, env, m, w);
    }
    if w: Layers :| w.message == message && Readable(o, local, env, m, w) {
      WrappedIsThePayload(o, env, w, m.sender, m.senderDevice);
    }
  }

  /** The sender key that came along, if any, could be stored. */
  predicate SenderKeyStored(o: Outside, m: Metadata, message: ProtoContent) {
    message.senderKeyDistribution.Some? ==> o.applySenderKey(m.sender, m.senderDevice, message.senderKeyDistribution.value).Ok?
  }

  /** Bodies that are dropped: in the clear anything but a decryption error, and sync messages of others or to our PNI. */
  predicate Unwelcome(local: ServiceId, m: Metadata, body: Body) {
    || (m.wasPlaintext && !body.DecryptionErrorMessage?)
    || (body.SyncMessage? && !(local.Aci? && m.sender == local))
  }

  /**
    The application is handed a content if and only if it was sent: inside a readable envelope, with
    nothing wrong with what came along, and with a body that is welcome.
   */
  lemma OpensIff(o: Outside, local: ServiceId, env: Envelope, c: Content)
    ensures OpenEnvelope(o, local, env) == Ok(Some(c)) <==>
              exists w: Layers ::
                && Readable(o, local, env, c.metadata, w) && SenderKeyStored(o, c.metadata, w.message)
                && w.message.content == Some(c.body) && !Unwelcome(local, c.metadata, c.body)
                && (c.body.DecryptionErrorMessage? ==> o.decodesAsError(c.body.m))
  {
    if OpenEnvelope(o, local, env) == Ok(Some(c)) {
      var (m, message) := Decrypt(o, local, env).value;
      DecryptsIff(o, local, env, m, message);
      OpenedContentIsTrustworthy(o, local, env, c);
    }
    if w: Layers :|
      && Readable(o, local, env, c.metadata, w) && SenderKeyStored(o, c.metadata, w.message)
      && w.message.content == Some(c.body) && !Unwelcome(local, c.metadata, c.body)
      && (c.body.DecryptionErrorMessage? ==> o.decodesAsError(c.body.m))
    {
      DecryptsIff(o, local, env, c.metadata, w.message);
    }
  }

  /** An envelope is dropped in silence if and only if it has no content, or is readable but has no body or an unwelcome one. */
  lemma DropsIff(o: Outside, local: ServiceId, env: Envelope)
    ensures OpenEnvelope(o, local, env) == Ok(None) <==>
              || env.content.None?
              || exists m: Metadata, w: Layers ::
                   && Readable(o, local, env, m, w) && SenderKeyStored(o, m, w.message)
                   && (w.message.content.None? || Unwelcome(local, m, w.message.content.value))
  {
    if env.content.Some? && OpenEnvelope(o, local, env) == Ok(None) {
      var (m, message) := Decrypt(o, local, env).value;
      DecryptsIff(o, local, env, m, message);
    }
    if m: Metadata, w: Layers :|
      && Readable(o, local, env, m, w) && SenderKeyStored(o, m, w.message)
      && (w.message.content.None? || Unwelcome(local, m, w.message.content.value))
    {
      DecryptsIff(o, local, env, m, w.message);
    }
  }

  // -- errors -----------------------------------------------------------------------------

  /** What must be the case for the envelope to fail with `e`. */
  ghost predicate Cause(o: Outside, local: ServiceId, env: Envelope, e: TriageError)
    requires env.content.Some?
  {
    var content := env.content.value;
    match e
    case NoContent => false
    case MissingDestination => env.destination.None?
    case MismatchingDestination => env.destination.Some? && env.destination.value != local
    case SealedToOurPni => env.destination == Some(local) && local.Pni? && env.source.None?
    case FromAPni => env.source.Some? && env.source.value.Pni? && env.kind != ServerDeliveryReceipt
    case SealedFromAPni => env.kind.UnidentifiedSender? && o.unseal(content).Ok? && o.unseal(content).value.sender.Some?
                           && o.unseal(content).value.sender.value.Pni?
    case InvalidSender => env.kind.UnidentifiedSender? && o.unseal(content).Ok? && o.unseal(content).value.sender.None?
    case UnknownType => env.kind.ServerDeliveryReceipt? || env.kind.OtherType?
    case InvalidDevice => !env.kind.UnidentifiedSender? && !(1 <= env.sourceDevice <= 127)
    case Library(x) => LibrarySaid(o, env, x)
    case Padding(p) => BadlyPadded(o, env, p)
    case Undecodable => (exists b: Bytes :: o.decode(b).None?) || (exists b: Bytes :: !o.decodesAsError(b))
    case BadTimestamp => !o.isTime(env.clientTimestamp)
    case BadServerTimestamp => o.isTime(env.clientTimestamp) && !o.isTime(env.serverTimestamp)
    case Panicked => env.source.None? && env.kind in {PrekeyMessage, PlaintextContent, DoubleRatchet}
  }

  ghost predicate LibrarySaid(o: Outside, env: Envelope, x: nat)
    requires env.content.Some?
  {
    var content := env.content.value;
    || (env.kind.PrekeyMessage? && env.source.Some? && o.prekeyDecrypt(content, env.source.value, env.sourceDevice) == Err(x))
    || (env.kind.DoubleRatchet? && env.source.Some? && o.signalDecrypt(content, env.source.value, env.sourceDevice) == Err(x))
    || (env.kind.PlaintextContent? && o.plaintextBody(content) == Err(x))
    || (env.kind.UnidentifiedSender? && o.unseal(content) == Err(x))
    || exists s: ServiceId, d: nat, b: Bytes :: o.applySenderKey(s, d, b) == Err(x)
  }

  ghost predicate BadlyPadded(o: Outside, env: Envelope, p: MessagePadding.PaddingError)
    requires env.content.Some?
  {
    var content := env.content.value;
    match env.kind
    case PrekeyMessage => env.source.Some? && IsBad(o.prekeyDecrypt(content, env.source.value, env.sourceDevice), p)
    case DoubleRatchet => env.source.Some? && IsBad(o.signalDecrypt(content, env.source.value, env.sourceDevice), p)
    case PlaintextContent => o.plaintextBody(content).Ok? && p.BadPadding? && Unpadded(o.plaintextBody(content).value)
    case UnidentifiedSender => o.unseal(content).Ok? && p.BadPadding? && Unpadded(o.unseal(content).value.message)
    case _ => false
  }

  predicate IsBad(r: Result<(Bytes, nat), nat>, p: MessagePadding.PaddingError) {
    r.Ok? && ((r.value.1 < 2 && p.UnknownVersion?) || (r.value.1 > 2 && p.BadPadding? && Unpadded(r.value.0)))
  }

  /** The padding is nobody's: past the zeros there is no terminator. */
  predicate Unpadded(padded: Bytes) {
    var rest := MessagePadding.TrimZeros(padded);
    rest == [] || rest[|rest| - 1] != MessagePadding.TERMINATOR
  }

  lemma StripErrors(version: nat, padded: Bytes)
    ensures Strip(version, padded).Err? ==>
              IsBad(Ok((padded, version)), if version < 2 then MessagePadding.UnknownVersion else MessagePadding.BadPadding)
              && Strip(version, padded) == Err(Padding(if version < 2 then MessagePadding.UnknownVersion else MessagePadding.BadPadding))
    ensures StripAlways(padded).Err? ==> Unpadded(padded) && StripAlways(padded) == Err(Padding(MessagePadding.BadPadding))
  {
    MessagePadding.StripFailsIff(padded);
  }

  lemma DecryptedErrors(o: Outside, local: ServiceId, env: Envelope)
    requires Checks(local, env).Ok? && Decrypted(o, env, env.content.value).Err?
    ensures Cause(o, local, env, Decrypted(o, env, env.content.value).error)
  {
    var content := env.content.value;
    match env.kind
    case PrekeyMessage =>
      if env.source.Some? && o.prekeyDecrypt(content, env.source.value, env.sourceDevice).Ok? {
        StripErrors(o.prekeyDecrypt(content, env.source.value, env.sourceDevice).value.1,
                    o.prekeyDecrypt(content, env.source.value, env.sourceDevice).value.0);
      }
    case DoubleRatchet =>
      if env.source.Some? && o.signalDecrypt(content, env.source.value, env.sourceDevice).Ok? {
        StripErrors(o.signalDecrypt(content, env.source.value, env.sourceDevice).value.1,
                    o.signalDecrypt(content, env.source.value, env.sourceDevice).value.0);
      }
    case PlaintextContent =>
      if o.plaintextBody(content).Ok? {
        StripErrors(0, o.plaintextBody(content).value);
      }
    case UnidentifiedSender =>
      if o.unseal(content).Ok? {
        StripErrors(0, o.unseal(content).value.message);
      }
    case _ =>
  }

  /** Every error has its cause in the envelope or in what a library answered. */
  lemma ErrorsHaveCauses(o: Outside, local: ServiceId, env: Envelope)
    requires OpenEnvelope(o, local, env).Err?
    ensures env.content.Some? && Cause(o, local, env, OpenEnvelope(o, local, env).error)
  {
    if Checks(local, env).Ok? {
      if Decrypted(o, env, env.content.value).Err? {
        DecryptedErrors(o, local, env);
      } else {
        AfterDecryption(o, local, env);
      }
    }
  }

  lemma AfterDecryption(o: Outside, local: ServiceId, env: Envelope)
    requires OpenEnvelope(o, local, env).Err? && Checks(local, env).Ok? && Decrypted(o, env, env.content.value).Ok?
    ensures Cause(o, local, env, OpenEnvelope(o, local, env).error)
  {
    var p := Decrypted(o, env, env.content.value).value;
    if o.decode(p.data).Some? && Decrypt(o, local, env).Ok? {
      var (m, message) := Decrypt(o, local, env).value;
      if SenderKeyStored(o, m, message) {
        assert !o.decodesAsError(message.content.value.m);
      } else {
        assert o.applySenderKey(m.sender, m.senderDevice, message.senderKeyDistribution.value).Err?;
      }
    }
  }
}
