/**
  Fan-out, session repair and retry (src/sender.rs, src/cipher.rs): what one call of
  `try_send_content` does to the sessions it holds with one recipient, and what it submits.

  The recipient's session lock is held for the whole call (see SessionProtocol), so nobody
  else changes these sessions. Everything outside the crate (the chat and key servers, the
  ratchet library, the iteration order of a hash set) is an oracle that may answer
  differently at every tick of a logical clock.
 */
module MessageSender {
  import opened Prelude

  type DeviceId = d: int | 1 <= d <= 127 witness 1

  const DEFAULT_DEVICE_ID: DeviceId := 1

  const MAX_SUBMISSIONS: nat := 4

  /** `registration` is the remote registration id; `usable` is `has_usable_sender_chain`. */
  datatype Session = Session(registration: nat, usable: bool, sent: nat)

  datatype Bundle = Bundle(device: DeviceId, registration: nat)

  datatype OutgoingPushMessage = OutgoingPushMessage(device: DeviceId, registration: nat)

  datatype Submission = Submission(unidentified: bool, messages: seq<OutgoingPushMessage>)

  datatype ServiceError =
    | Unauthorized
    | MismatchedDevices(missing: seq<DeviceId>, extra: seq<DeviceId>)
    | StaleDevices(stale: seq<DeviceId>)
    | ProofRequiredError
    | UnregisteredRecipient
    | NotFoundError
    | OtherService(code: nat)

  datatype SendError =
    | SessionNotFound
    | NotFound
    | NoMessagesToSend
    | MaximumRetriesLimitExceeded
    | UntrustedIdentity
    | ProofRequired
    | Protocol
    | Service(error: ServiceError)

  datatype SentMessage = SentMessage(unidentified: bool, needsSync: bool)

  datatype EncryptFault = LostSession | OtherFault

  datatype DeleteOutcome = Deleted | Missing | Failed

  /** Answers from outside, by clock tick. `needsSync` in a successful submission is the bool. */
  datatype Env = Env(
    order: (nat, set<DeviceId>) -> seq<DeviceId>,
    fetchAll: (nat, DeviceId) -> Result<seq<Bundle>, ServiceError>,
    fetchOne: (nat, DeviceId) -> Result<Bundle, ServiceError>,
    installs: (nat, Bundle) -> bool,
    encrypts: (nat, DeviceId) -> Option<EncryptFault>,
    deletes: (nat, DeviceId) -> DeleteOutcome,
    knowsIdentity: nat -> bool,
    submit: (nat, Submission) -> Result<bool, ServiceError>)

  /** Who sends what to whom; `plaintext` content is not encrypted and skips the ratchet. */
  datatype Call = Call(aci: nat, pni: nat, device: DeviceId, recipient: ServiceId, plaintext: bool)
  {
    predicate ToSelf() { recipient == Aci(aci) || recipient == Pni(pni) }

    /** Never sent to: the sending device itself. */
    function Own(): set<DeviceId> { if ToSelf() then {device} else {} }

    function Targets(sessions: map<DeviceId, Session>): set<DeviceId> {
      sessions.Keys + {DEFAULT_DEVICE_ID} - Own()
    }
  }

  /** The sessions with the recipient, the clock, and every submission made so far. */
  datatype Local = Local(sessions: map<DeviceId, Session>, clock: nat, wire: seq<Submission>)
  {
    function Tick(): Local { this.(clock := clock + 1) }

    function With(d: DeviceId, s: Session): Local { this.(sessions := sessions[d := s]) }

    function Without(d: DeviceId): Local { this.(sessions := sessions - {d}) }
  }

  // -- one message ------------------------------------------------------------

  /** Run the key agreement for each bundle in turn, skipping our own device. */
  function Establish(env: Env, call: Call, bundles: seq<Bundle>, st: Local): (bool, Local) {
    if bundles == [] then (true, st)
    else if call.recipient == Aci(call.aci) && bundles[0].device == call.device then
      Establish(env, call, bundles[1..], st)
    else if !env.installs(st.clock, bundles[0]) then (false, st.Tick())
    else Establish(env, call, bundles[1..], st.Tick().With(bundles[0].device, Session(bundles[0].registration, true, 0)))
  }

  function Encrypt(env: Env, call: Call, d: DeviceId, st: Local): (Result<OutgoingPushMessage, SendError>, Local) {
    if d !in st.sessions then (Err(SessionNotFound), st)
    else
      var s := st.sessions[d];
      if call.plaintext then (Ok(OutgoingPushMessage(d, s.registration)), st)
      else if !s.usable then (Err(SessionNotFound), st)
      else
        match env.encrypts(st.clock, d)
        case Some(LostSession) => (Err(SessionNotFound), st.Tick())
        case Some(OtherFault) => (Err(Protocol), st.Tick())
        case None => (Ok(OutgoingPushMessage(d, s.registration)), st.Tick().With(d, s.(sent := s.sent + 1)))
  }

  function CreateMessage(env: Env, call: Call, d: DeviceId, st: Local): (Result<OutgoingPushMessage, SendError>, Local) {
    if d in st.sessions then Encrypt(env, call, d, st)
    else
      match env.fetchAll(st.clock, d)
      case Err(NotFoundError) => (Err(NotFound), st.Tick())
      case Err(e) => (Err(Service(e)), st.Tick())
      case Ok(bundles) =>
        var (ok, st1) := Establish(env, call, bundles, st.Tick());
        if ok then Encrypt(env, call, d, st1) else (Err(Protocol), st1)
  }

  /** Up to `tries` attempts, deleting the session after each `SessionNotFound`. */
  function MessageFor(env: Env, call: Call, d: DeviceId, tries: nat, st: Local)
    : (Result<Option<OutgoingPushMessage>, SendError>, Local)
  {
    if tries == 0 then (Ok(None), st)
    else
      var (r, st1) := CreateMessage(env, call, d, st);
      match r
      case Ok(m) => (Ok(Some(m)), st1)
      case Err(SessionNotFound) =>
        if env.deletes(st1.clock, d).Deleted? then MessageFor(env, call, d, tries - 1, st1.Tick().Without(d))
        else (Err(SessionNotFound), st1.Tick())
      case Err(e) => (Err(e), st1)
  }

  // -- one attempt --------------------------------------------------------------

  /** Messages for the devices in `order`, one after the other; the first hard error stops. */
  function FanOut(env: Env, call: Call, order: seq<DeviceId>, st: Local)
    : (Result<seq<OutgoingPushMessage>, SendError>, Local)
  {
    if order == [] then (Ok([]), st)
    else
      var (before, st1) := FanOut(env, call, order[..|order| - 1], st);
      match before
      case Err(e) => (Err(e), st1)
      case Ok(messages) =>
        var (r, st2) := MessageFor(env, call, order[|order| - 1], 2, st1);
        match r
        case Err(e) => (Err(e), st2)
        case Ok(Some(m)) => (Ok(messages + [m]), st2)
        case Ok(None) => (Ok(messages), st2)
  }

  /** `Ok([])` stands for "no messages"; otherwise the primary's identity must be known. */
  function EncryptedMessages(env: Env, call: Call, st: Local): (Result<seq<OutgoingPushMessage>, SendError>, Local) {
    var order := env.order(st.clock, call.Targets(st.sessions));
    var (r, st1) := FanOut(env, call, order, st.Tick());
    match r
    case Err(e) => (Err(e), st1)
    case Ok(messages) =>
      if messages == [] then (Ok([]), st1)
      else if env.knowsIdentity(st1.clock) then (Ok(messages), st1.Tick())
      else (Err(UntrustedIdentity), st1.Tick())
  }

  // -- repair ---------------------------------------------------------------------

  function DropSessions(env: Env, devices: seq<DeviceId>, st: Local): (bool, Local) {
    if devices == [] then (true, st)
    else
      match env.deletes(st.clock, devices[0])
      case Failed => (false, st.Tick())
      case _ => DropSessions(env, devices[1..], st.Tick().Without(devices[0]))
  }

  function CreateSessions(env: Env, devices: seq<DeviceId>, st: Local): (Option<SendError>, Local) {
    if devices == [] then (None, st)
    else
      match env.fetchOne(st.clock, devices[0])
      case Err(e) => (Some(Service(e)), st.Tick())
      case Ok(bundle) =>
        var st1 := st.Tick();
        if env.installs(st1.clock, bundle) then
          CreateSessions(env, devices[1..], st1.Tick().With(devices[0], Session(bundle.registration, true, 0)))
        else (Some(UntrustedIdentity), st1.Tick())
  }

  datatype Verdict = Return(result: Result<SentMessage, SendError>) | Retry(unidentified: bool)

  /** React to the server's answer to one submission. */
  function React(env: Env, answer: Result<bool, ServiceError>, unidentified: bool, st: Local): (Verdict, Local) {
    match answer
    case Ok(needsSync) => (Return(Ok(SentMessage(unidentified, needsSync))), st)
    case Err(Unauthorized) => if unidentified then (Retry(false), st) else (Return(Err(Service(Unauthorized))), st)
    case Err(MismatchedDevices(missing, extra)) =>
      var (dropped, st1) := DropSessions(env, extra, st);
      if !dropped then (Return(Err(Protocol)), st1)
      else
        var (error, st2) := CreateSessions(env, missing, st1);
        (if error.None? then Retry(unidentified) else Return(Err(error.value)), st2)
    case Err(StaleDevices(stale)) =>
      var (dropped, st1) := DropSessions(env, stale, st);
      (if dropped then Retry(unidentified) else Return(Err(Protocol)), st1)
    case Err(ProofRequiredError) => (Return(Err(ProofRequired)), st)
    case Err(UnregisteredRecipient) => (Return(Err(NotFound)), st)
    case Err(e) => (Return(Err(Service(e))), st)
  }

  function Round(env: Env, call: Call, unidentified: bool, st: Local): (Verdict, Local) {
    var (r, st1) := EncryptedMessages(env, call, st);
    match r
    case Err(e) => (Return(Err(e)), st1)
    case Ok(messages) =>
      if messages == [] then (Return(Err(NoMessagesToSend)), st1)
      else
        var submission := Submission(unidentified, messages);
        React(env, env.submit(st1.clock, submission), unidentified, st1.Tick().(wire := st1.wire + [submission]))
  }

  /** The loop, over whatever a pass does. */
  function Loop(pass: (bool, Local) -> (Verdict, Local), unidentified: bool, left: nat, st: Local)
    : (Result<SentMessage, SendError>, Local)
    decreases left
  {
    if left == 0 then (Err(MaximumRetriesLimitExceeded), st)
    else
      var (verdict, st1) := pass(unidentified, st);
      match verdict
      case Return(result) => (result, st1)
      case Retry(still) => Loop(pass, still, left - 1, st1)
  }

  function Pass(env: Env, call: Call): (bool, Local) -> (Verdict, Local) {
    (unidentified: bool, st: Local) => Round(env, call, unidentified, st)
  }

  function Rounds(env: Env, call: Call, unidentified: bool, left: nat, st: Local): (Result<SentMessage, SendError>, Local) {
    Loop(Pass(env, call), unidentified, left, st)
  }

  // -- the sender itself ------------------------------------------------------------

  /** The sender's session store and sockets, updated in place. */
  class MessageSender {
    const env: Env
    var sessions: map<DeviceId, Session>
    var clock: nat
    var wire: seq<Submission>

    constructor (env: Env, sessions: map<DeviceId, Session>)
      ensures this.env == env && State() == Local(sessions, 0, [])
    {
      this.env, this.sessions, clock, wire := env, sessions, 0, [];
    }

    function State(): Local
      reads this
    {
      Local(sessions, clock, wire)
    }

    method EstablishAll(call: Call, bundles: seq<Bundle>) returns (ok: bool)
      modifies this`sessions, this`clock
      ensures (ok, State()) == Establish(env, call, bundles, old(State()))
    {
      var i := 0;
      while i < |bundles|
        invariant 0 <= i <= |bundles| && wire == old(wire)
        invariant Establish(env, call, bundles[i..], State()) == Establish(env, call, bundles, old(State()))
      {
        var bundle := bundles[i];
        assert bundles[i..][1..] == bundles[i + 1..];
        if !(call.recipient == Aci(call.aci) && bundle.device == call.device) {
          var installed := env.installs(clock, bundle);
          clock := clock + 1;
          if !installed { return false; }
          sessions := sessions[bundle.device := Session(bundle.registration, true, 0)];
        }
        i := i + 1;
      }
      return true;
    }

    method CreateEncryptedMessage(call: Call, d: DeviceId) returns (r: Result<OutgoingPushMessage, SendError>)
      modifies this`sessions, this`clock
      ensures (r, State()) == CreateMessage(env, call, d, old(State()))
    {
      if d !in sessions {
        var fetched := env.fetchAll(clock, d);
        clock := clock + 1;
        match fetched {
          case Err(NotFoundError) => return Err(NotFound);
          case Err(e) => return Err(Service(e));
          case Ok(bundles) =>
            var ok := EstablishAll(call, bundles);
            if !ok { return Err(Protocol); }
        }
      }
      r := EncryptTo(call, d);
    }

    method EncryptTo(call: Call, d: DeviceId) returns (r: Result<OutgoingPushMessage, SendError>)
      modifies this`sessions, this`clock
      ensures (r, State()) == Encrypt(env, call, d, old(State()))
    {
      if d !in sessions { return Err(SessionNotFound); }
      var session := sessions[d];
      if call.plaintext { return Ok(OutgoingPushMessage(d, session.registration)); }
      if !session.usable { return Err(SessionNotFound); }
      var fault := env.encrypts(clock, d);
      clock := clock + 1;
      match fault {
        case Some(LostSession) => return Err(SessionNotFound);
        case Some(OtherFault) => return Err(Protocol);
        case None =>
          sessions := sessions[d := session.(sent := session.sent + 1)];
          return Ok(OutgoingPushMessage(d, session.registration));
      }
    }

    /** Two attempts at one device, deleting its session in between. */
    method CreateWithRetry(call: Call, d: DeviceId) returns (r: Result<Option<OutgoingPushMessage>, SendError>)
      modifies this`sessions, this`clock
      ensures (r, State()) == MessageFor(env, call, d, 2, old(State()))
    {
      ghost var st0 := State();
      for attempt := 0 to 2
        invariant wire == old(wire)
        invariant MessageFor(env, call, d, 2 - attempt, State()) == MessageFor(env, call, d, 2, st0)
      {
        var message := CreateEncryptedMessage(call, d);
        match message {
          case Ok(m) => return Ok(Some(m));
          case Err(SessionNotFound) =>
            var deleted := env.deletes(clock, d);
            clock := clock + 1;
            if !deleted.Deleted? { return Err(SessionNotFound); }
            sessions := sessions - {d};
          case Err(e) => return Err(e);
        }
      }
      return Ok(None);
    }

    method CreateEncryptedMessages(call: Call) returns (r: Result<seq<OutgoingPushMessage>, SendError>)
      modifies this`sessions, this`clock
      ensures (r, State()) == EncryptedMessages(env, call, old(State()))
    {
      var messages: seq<OutgoingPushMessage> := [];
      var devices := sessions.Keys - {DEFAULT_DEVICE_ID};
      devices := devices + {DEFAULT_DEVICE_ID};
      if call.ToSelf() { devices := devices - {call.device}; }
      assert devices == call.Targets(sessions);

      var order := env.order(clock, devices);
      clock := clock + 1;
      ghost var st0 := State();
      for i := 0 to |order|
        invariant wire == old(wire)
        invariant FanOut(env, call, order[..i], st0) == (Ok(messages), State())
      {
        ghost var st1 := State();
        var message := CreateWithRetry(call, order[i]);
        FanOutStep(env, call, order, i, st0, messages, st1);
        if message.Err? {
          FanOutStops(env, call, order, i + 1, st0);
          return Err(message.error);
        }
        if message.value.Some? { messages := messages + [message.value.value]; }
      }
      assert order[..|order|] == order;
      if messages == [] { return Ok([]); }
      var known := env.knowsIdentity(clock);
      clock := clock + 1;
      if !known { return Err(UntrustedIdentity); }
      return Ok(messages);
    }

    method Drop(devices: seq<DeviceId>) returns (ok: bool)
      modifies this`sessions, this`clock
      ensures (ok, State()) == DropSessions(env, devices, old(State()))
    {
      for i := 0 to |devices|
        invariant wire == old(wire)
        invariant DropSessions(env, devices[i..], State()) == DropSessions(env, devices, old(State()))
      {
        assert devices[i..][1..] == devices[i + 1..];
        var deleted := env.deletes(clock, devices[i]);
        clock := clock + 1;
        if deleted.Failed? { return false; }
        sessions := sessions - {devices[i]};
      }
      return true;
    }

    method Create(devices: seq<DeviceId>) returns (error: Option<SendError>)
      modifies this`sessions, this`clock
      ensures (error, State()) == CreateSessions(env, devices, old(State()))
    {
      for i := 0 to |devices|
        invariant wire == old(wire)
        invariant CreateSessions(env, devices[i..], State()) == CreateSessions(env, devices, old(State()))
      {
        assert devices[i..][1..] == devices[i + 1..];
        var fetched := env.fetchOne(clock, devices[i]);
        clock := clock + 1;
        if fetched.Err? { return Some(Service(fetched.error)); }
        var installed := env.installs(clock, fetched.value);
        clock := clock + 1;
        if !installed { return Some(UntrustedIdentity); }
        sessions := sessions[devices[i] := Session(fetched.value.registration, true, 0)];
      }
      return None;
    }

    method Handle(answer: Result<bool, ServiceError>, unidentified: bool) returns (v: Verdict)
      modifies this`sessions, this`clock
      ensures (v, State()) == React(env, answer, unidentified, old(State()))
    {
      match answer {
        case Ok(needsSync) => return Return(Ok(SentMessage(unidentified, needsSync)));
        case Err(Unauthorized) => return if unidentified then Retry(false) else Return(Err(Service(Unauthorized)));
        case Err(MismatchedDevices(missing, extra)) =>
          var dropped := Drop(extra);
          if !dropped { return Return(Err(Protocol)); }
          var error := Create(missing);
          return if error.None? then Retry(unidentified) else Return(Err(error.value));
        case Err(StaleDevices(stale)) =>
          var dropped := Drop(stale);
          return if dropped then Retry(unidentified) else Return(Err(Protocol));
        case Err(ProofRequiredError) => return Return(Err(ProofRequired));
        case Err(UnregisteredRecipient) => return Return(Err(NotFound));
        case Err(e) => return Return(Err(Service(e)));
      }
    }

    /** One pass of the loop: encrypt, submit, react. */
    method SubmitOnce(call: Call, unidentified: bool) returns (v: Verdict)
      modifies this
      ensures (v, State()) == Round(env, call, unidentified, old(State()))
    {
      var created := CreateEncryptedMessages(call);
      if created.Err? { return Return(Err(created.error)); }
      if created.value == [] { return Return(Err(NoMessagesToSend)); }
      var submission := Submission(unidentified, created.value);
      var answer := env.submit(clock, submission);
      clock := clock + 1;
      wire := wire + [submission];
      v := Handle(answer, unidentified);
    }

    /** At most four submissions, repairing sessions in between as the server asks. */
    method TrySendContent(call: Call, access: bool) returns (r: Result<SentMessage, SendError>)
      modifies this
      ensures (r, State()) == Rounds(env, call, access, MAX_SUBMISSIONS, old(State()))
    {
      var unidentified := access;
      for i := 0 to MAX_SUBMISSIONS
        invariant Rounds(env, call, unidentified, MAX_SUBMISSIONS - i, State())
                  == Rounds(env, call, access, MAX_SUBMISSIONS, old(State()))
      {
        var verdict := SubmitOnce(call, unidentified);
        match verdict {
          case Return(result) => return result;
          case Retry(still) => unidentified := still;
        }
      }
      return Err(MaximumRetriesLimitExceeded);
    }
  }

  /** One more device after those before it. */
  lemma FanOutStep(env: Env, call: Call, order: seq<DeviceId>, i: nat, st: Local,
                   messages: seq<OutgoingPushMessage>, st1: Local)
    requires i < |order| && FanOut(env, call, order[..i], st) == (Ok(messages), st1)
    ensures var (r, st2) := MessageFor(env, call, order[i], 2, st1);
            FanOut(env, call, order[..i + 1], st)
            == (match r
                case Err(e) => (Err(e), st2)
                case Ok(Some(m)) => (Ok(messages + [m]), st2)
                case Ok(None) => (Ok(messages), st2))
  {
    assert order[..i + 1][..i] == order[..i];
  }

  /** An error for a prefix of the devices is the error for all of them. */
  lemma {:induction false} FanOutStops(env: Env, call: Call, order: seq<DeviceId>, n: nat, st: Local)
    requires n <= |order| && FanOut(env, call, order[..n], st).0.Err?
    ensures FanOut(env, call, order, st) == FanOut(env, call, order[..n], st)
    decreases |order| - n
  {
    if n < |order| {
      assert order[..n + 1][..n] == order[..n];
      FanOutStops(env, call, order, n + 1, st);
    } else {
      assert order[..n] == order;
    }
  }
}
