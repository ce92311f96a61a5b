/**
  One device's turn and one repair, taken apart (src/sender.rs, src/cipher.rs): when exactly each
  part succeeds, what it leaves, and which answer from outside is behind every error of a send.
 */
module SendDetails {
  import opened Prelude
  import opened MessageSender
  import opened SendFanOut
  import SendAnswers

  // -- key agreement ----------------------------------------------------------------------

  /** The bundles of a key fetch that are used: all but the sending device's own. */
  function Others(call: Call, bundles: seq<Bundle>): seq<Bundle> {
    if bundles == [] then []
    else (if call.recipient == Aci(call.aci) && bundles[0].device == call.device then [] else [bundles[0]]) + Others(call, bundles[1..])
  }

  /** Each of them is agreed to, one tick after the other from `t`. */
  predicate AllAgreed(env: Env, bundles: seq<Bundle>, t: nat) {
    bundles == [] || (env.installs(t, bundles[0]) && AllAgreed(env, bundles[1..], t + 1))
  }

  /** A fresh session for each of them, a later one in place of an earlier one. */
  function Refreshed(s: map<DeviceId, Session>, bundles: seq<Bundle>): map<DeviceId, Session> {
    if bundles == [] then s
    else Refreshed(s, bundles[..|bundles| - 1])[bundles[|bundles| - 1].device := Session(bundles[|bundles| - 1].registration, true, 0)]
  }

  lemma {:induction false} RefreshedFirst(s: map<DeviceId, Session>, b: Bundle, rest: seq<Bundle>)
    ensures Refreshed(s, [b] + rest) == Refreshed(s[b.device := Session(b.registration, true, 0)], rest)
    decreases rest
  {
    if rest == [] {
      assert [b] + rest == [b] && [b][..0] == [];
    } else {
      var n := |rest| - 1;
      RefreshedFirst(s, b, rest[..n]);
      assert ([b] + rest)[..n + 1] == [b] + rest[..n];
    }
  }

  /** Key agreement succeeds exactly if it does with every bundle used, one after the other. */
  lemma {:induction false} AllOrNothing(env: Env, call: Call, bundles: seq<Bundle>, st: Local)
    ensures var (ok, st1) := Establish(env, call, bundles, st);
            var others := Others(call, bundles);
            && (ok <==> AllAgreed(env, others, st.clock))
            && (ok ==> st1 == Local(Refreshed(st.sessions, others), st.clock + |others|, st.wire))
    decreases bundles
  {
    if bundles != [] {
      var b, rest := bundles[0], Others(call, bundles[1..]);
      if call.recipient == Aci(call.aci) && b.device == call.device {
        AllOrNothing(env, call, bundles[1..], st);
        assert Others(call, bundles) == [] + rest == rest;
      } else {
        AllOrNothing(env, call, bundles[1..], st.Tick().With(b.device, Session(b.registration, true, 0)));
        assert Others(call, bundles) == [b] + rest && ([b] + rest)[1..] == rest;
        RefreshedFirst(st.sessions, b, rest);
      }
    }
  }

  // -- one message ------------------------------------------------------------------------

  /** A message takes a session, and a ratchet that moves once for it; content in the clear takes the session only. */
  lemma WhenAMessageIsMade(env: Env, call: Call, d: DeviceId, st: Local)
    ensures var (r, st1) := Encrypt(env, call, d, st);
            var fault := env.encrypts(st.clock, d);
            && (r.Ok? <==> d in st.sessions && (call.plaintext || (st.sessions[d].usable && fault.None?)))
            && (r.Ok? ==>
                  && r.value == OutgoingPushMessage(d, st.sessions[d].registration)
                  && st1.sessions.Keys == st.sessions.Keys && st1.wire == st.wire
                  && (forall e :: e in st.sessions && e != d ==> st1.sessions[e] == st.sessions[e])
                  && st1.sessions[d].registration == st.sessions[d].registration && st1.sessions[d].usable == st.sessions[d].usable
                  && st1.sessions[d].sent == st.sessions[d].sent + (if call.plaintext then 0 else 1))
            && (r.Err? ==> st1.sessions == st.sessions
                           && r.error == if d in st.sessions && st.sessions[d].usable && fault == Some(OtherFault) then Protocol
                                         else SessionNotFound)
  {
  }

  /** Without a session keys are fetched first: what the fetch says, what the agreement says, and then as above. */
  lemma WhenThereIsNoSession(env: Env, call: Call, d: DeviceId, st: Local)
    requires d !in st.sessions
    ensures var fetched := env.fetchAll(st.clock, d);
            if fetched.Err? then
              CreateMessage(env, call, d, st)
              == (Err(if fetched.error == NotFoundError then NotFound else Service(fetched.error)), st.Tick())
            else
              var others := Others(call, fetched.value);
              if AllAgreed(env, others, st.clock + 1) then
                CreateMessage(env, call, d, st)
                == Encrypt(env, call, d, Local(Refreshed(st.sessions, others), st.clock + 1 + |others|, st.wire))
              else CreateMessage(env, call, d, st).0 == Err(Protocol)
  {
    if env.fetchAll(st.clock, d).Ok? {
      AllOrNothing(env, call, env.fetchAll(st.clock, d).value, st.Tick());
    }
  }

  /** Nothing is submitted to a recipient whose identity is not known. */
  lemma OnlyToAKnownIdentity(env: Env, call: Call, st: Local)
    ensures var fanOut := FanOut(env, call, env.order(st.clock, call.Targets(st.sessions)), st.Tick());
            var r := EncryptedMessages(env, call, st).0;
            && (fanOut.0.Err? ==> r == fanOut.0)
            && (fanOut.0.Ok? ==> r == if fanOut.0.value == [] || env.knowsIdentity(fanOut.1.clock) then fanOut.0
                                      else Err(UntrustedIdentity))
  {
  }

  // -- repair -----------------------------------------------------------------------------

  predicate NoneFails(env: Env, devices: seq<DeviceId>, t: nat) {
    devices == [] || (!env.deletes(t, devices[0]).Failed? && NoneFails(env, devices[1..], t + 1))
  }

  /** Sessions are dropped one by one, unless the store fails. */
  lemma {:induction false} DropsAllOrFails(env: Env, devices: seq<DeviceId>, st: Local)
    ensures var (ok, st1) := DropSessions(env, devices, st);
            && (ok <==> NoneFails(env, devices, st.clock))
            && (ok ==> st1 == Local(st.sessions - (set d | d in devices), st.clock + |devices|, st.wire))
    decreases devices
  {
    if devices != [] {
      DropsAllOrFails(env, devices[1..], st.Tick().Without(devices[0]));
      assert (set d | d in devices) == {devices[0]} + set d | d in devices[1..];
    }
  }

  /** The bundles that are fetched for devices, two ticks apart, as long as there are any. */
  function Fetched(env: Env, devices: seq<DeviceId>, t: nat): seq<Bundle> {
    if devices == [] || env.fetchOne(t, devices[0]).Err? then []
    else [Bundle(devices[0], env.fetchOne(t, devices[0]).value.registration)] + Fetched(env, devices[1..], t + 2)
  }

  /** What goes wrong first when sessions are created: a fetch, or an agreement. */
  function FirstWrong(env: Env, devices: seq<DeviceId>, t: nat): Option<SendError> {
    if devices == [] then None
    else if env.fetchOne(t, devices[0]).Err? then Some(Service(env.fetchOne(t, devices[0]).error))
    else if !env.installs(t + 1, env.fetchOne(t, devices[0]).value) then Some(UntrustedIdentity)
    else FirstWrong(env, devices[1..], t + 2)
  }

  /** Sessions are created one by one under the registrations fetched, until something goes wrong. */
  lemma {:induction false} CreatesAllOrFails(env: Env, devices: seq<DeviceId>, st: Local)
    ensures var (error, st1) := CreateSessions(env, devices, st);
            && error == FirstWrong(env, devices, st.clock)
            && (error.None? ==>
                  |Fetched(env, devices, st.clock)| == |devices|
                  && st1 == Local(Refreshed(st.sessions, Fetched(env, devices, st.clock)), st.clock + 2 * |devices|, st.wire))
    decreases devices
  {
    if devices != [] {
      var fetched := env.fetchOne(st.clock, devices[0]);
      if fetched.Ok? {
        var b := Bundle(devices[0], fetched.value.registration);
        CreatesAllOrFails(env, devices[1..], st.Tick().Tick().With(devices[0], Session(fetched.value.registration, true, 0)));
        RefreshedFirst(st.sessions, b, Fetched(env, devices[1..], st.clock + 2));
      }
    }
  }

  // -- errors -----------------------------------------------------------------------------

  ghost predicate SaidToASubmission(env: Env, e: ServiceError) {
    exists t: nat, s: Submission :: env.submit(t, s) == Err(e)
  }

  ghost predicate SaidToAKeyFetch(env: Env, e: ServiceError) {
    exists t: nat, d: DeviceId :: env.fetchAll(t, d) == Err(e)
  }

  ghost predicate SaidToARepair(env: Env, e: ServiceError) {
    exists t: nat, d: DeviceId :: env.fetchOne(t, d) == Err(e)
  }

  ghost predicate AgreementFailed(env: Env) {
    exists t: nat, b: Bundle :: !env.installs(t, b)
  }

  /** What must have been answered for a send to fail with `e` before, or instead of, a submission that is answered finally. */
  ghost predicate Cause(env: Env, e: SendError) {
    match e
    case Service(x) => SaidToAKeyFetch(env, x) || SaidToARepair(env, x) || SaidToASubmission(env, x)
    case NotFound => SaidToAKeyFetch(env, NotFoundError) || SaidToASubmission(env, UnregisteredRecipient)
    case ProofRequired => SaidToASubmission(env, ProofRequiredError)
    case UntrustedIdentity => AgreementFailed(env) || exists t: nat :: !env.knowsIdentity(t)
    case Protocol => AgreementFailed(env) || (exists t: nat, d: DeviceId :: env.encrypts(t, d) == Some(OtherFault))
                     || exists t: nat, d: DeviceId :: env.deletes(t, d).Failed?
    case SessionNotFound => exists t: nat, d: DeviceId :: !env.deletes(t, d).Deleted?
    case NoMessagesToSend => true
    case MaximumRetriesLimitExceeded => true
  }

  lemma {:induction false} EstablishCause(env: Env, call: Call, bundles: seq<Bundle>, st: Local)
    ensures !Establish(env, call, bundles, st).0 ==> AgreementFailed(env)
    decreases bundles
  {
    if bundles != [] {
      EstablishCause(env, call, bundles[1..], st);
      EstablishCause(env, call, bundles[1..], st.Tick().With(bundles[0].device, Session(bundles[0].registration, true, 0)));
    }
  }

  lemma CreateCause(env: Env, call: Call, d: DeviceId, st: Local)
    ensures var r := CreateMessage(env, call, d, st).0; r.Err? && r.error != SessionNotFound ==> Cause(env, r.error)
  {
    if d !in st.sessions && env.fetchAll(st.clock, d).Ok? {
      EstablishCause(env, call, env.fetchAll(st.clock, d).value, st.Tick());
    }
  }

  lemma {:induction false} MessageForCause(env: Env, call: Call, d: DeviceId, tries: nat, st: Local)
    ensures var r := MessageFor(env, call, d, tries, st).0; r.Err? ==> Cause(env, r.error)
    decreases tries
  {
    if tries > 0 {
      var st1 := CreateMessage(env, call, d, st).1;
      CreateCause(env, call, d, st);
      MessageForCause(env, call, d, tries - 1, st1.Tick().Without(d));
    }
  }

  lemma {:induction false} FanOutCause(env: Env, call: Call, order: seq<DeviceId>, st: Local)
    ensures var r := FanOut(env, call, order, st).0; r.Err? ==> Cause(env, r.error)
  {
    if order != [] {
      FanOutCause(env, call, order[..|order| - 1], st);
      MessageForCause(env, call, order[|order| - 1], 2, FanOut(env, call, order[..|order| - 1], st).1);
    }
  }

  lemma {:induction false} DropCause(env: Env, devices: seq<DeviceId>, st: Local)
    ensures !DropSessions(env, devices, st).0 ==> Cause(env, Protocol)
    decreases devices
  {
    if devices != [] {
      DropCause(env, devices[1..], st.Tick().Without(devices[0]));
    }
  }

  lemma {:induction false} CreateSessionsCause(env: Env, devices: seq<DeviceId>, st: Local)
    ensures var e := CreateSessions(env, devices, st).0; e.Some? ==> (e.value.Service? || e.value.UntrustedIdentity?) && Cause(env, e.value)
    decreases devices
  {
    if devices != [] {
      var fetched := env.fetchOne(st.clock, devices[0]);
      if fetched.Ok? {
        CreateSessionsCause(env, devices[1..], st.Tick().Tick().With(devices[0], Session(fetched.value.registration, true, 0)));
      }
    }
  }

  lemma ReactCause(env: Env, t: nat, s: Submission, unidentified: bool, st: Local)
    ensures var v := React(env, env.submit(t, s), unidentified, st).0; v.Return? && v.result.Err? ==> Cause(env, v.result.error)
  {
    var answer := env.submit(t, s);
    if answer.Err? && answer.error.MismatchedDevices? {
      DropCause(env, answer.error.extra, st);
      CreateSessionsCause(env, answer.error.missing, DropSessions(env, answer.error.extra, st).1);
    } else if answer.Err? && answer.error.StaleDevices? {
      DropCause(env, answer.error.stale, st);
    }
  }

  lemma RoundCause(env: Env, call: Call, unidentified: bool, st: Local)
    ensures var v := Round(env, call, unidentified, st).0; v.Return? && v.result.Err? ==> Cause(env, v.result.error)
  {
    FanOutCause(env, call, env.order(st.clock, call.Targets(st.sessions)), st.Tick());
    var (r, st1) := EncryptedMessages(env, call, st);
    if r.Ok? && r.value != [] {
      var s := Submission(unidentified, r.value);
      ReactCause(env, st1.clock, s, unidentified, st1.Tick().(wire := st1.wire + [s]));
    }
  }

  /** Whatever a send fails with, something from outside said so; only running out of tries and of devices needs no one's word. */
  lemma {:induction false} EveryErrorHasItsCause(env: Env, call: Call, unidentified: bool, left: nat, st: Local)
    ensures var (r, end) := Rounds(env, call, unidentified, left, st);
            && (r.Err? ==> Cause(env, r.error))
            && (r == Err(MaximumRetriesLimitExceeded) ==> |end.wire| == |st.wire| + left)
    decreases left
  {
    if left > 0 {
      RoundCause(env, call, unidentified, st);
      RoundSubmitsAtMostOnce(env, call, unidentified, st);
      SendAnswers.LoopStep(env, call, unidentified, left, st);
      var (v, st1) := Round(env, call, unidentified, st);
      if v.Retry? {
        EveryErrorHasItsCause(env, call, v.unidentified, left - 1, st1);
      } else {
        NeverTooMany(env, call, unidentified, st);
      }
    }
  }

  /** No single pass says that there were too many. */
  lemma NeverTooMany(env: Env, call: Call, unidentified: bool, st: Local)
    ensures Round(env, call, unidentified, st).0 != Return(Err(MaximumRetriesLimitExceeded))
  {
    FanOutNeverTooMany(env, call, env.order(st.clock, call.Targets(st.sessions)), st.Tick());
    var (r, st1) := EncryptedMessages(env, call, st);
    if r.Ok? && r.value != [] {
      var s := Submission(unidentified, r.value);
      var st2 := st1.Tick().(wire := st1.wire + [s]);
      var answer := env.submit(st1.clock, s);
      if answer.Err? && answer.error.MismatchedDevices? {
        CreateSessionsCause(env, answer.error.missing, DropSessions(env, answer.error.extra, st2).1);
      }
    }
  }

  lemma {:induction false} MessageForNeverTooMany(env: Env, call: Call, d: DeviceId, tries: nat, st: Local)
    ensures MessageFor(env, call, d, tries, st).0 != Err(MaximumRetriesLimitExceeded)
    decreases tries
  {
    if tries > 0 {
      MessageForNeverTooMany(env, call, d, tries - 1, CreateMessage(env, call, d, st).1.Tick().Without(d));
    }
  }

  lemma {:induction false} FanOutNeverTooMany(env: Env, call: Call, order: seq<DeviceId>, st: Local)
    ensures FanOut(env, call, order, st).0 != Err(MaximumRetriesLimitExceeded)
  {
    if order != [] {
      FanOutNeverTooMany(env, call, order[..|order| - 1], st);
      MessageForNeverTooMany(env, call, order[|order| - 1], 2, FanOut(env, call, order[..|order| - 1], st).1);
    }
  }
}
