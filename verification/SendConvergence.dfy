/**
  The repair loop of `try_send_content` against an honest server (src/sender.rs): exactly when a send
  goes through, how many submissions it takes, and what a rejected access key costs.
 */
module SendConvergence {
  import opened Prelude
  import opened MessageSender
  import opened SendFanOut

  type Sessions = map<DeviceId, Session>

  /** The recipient's devices on the server, each with its current registration id. */
  type Account = map<DeviceId, nat>

  ghost predicate Genuine(account: Account, bundles: seq<Bundle>) {
    forall b :: b in bundles ==> b.device in account && account[b.device] == b.registration
  }

  /** The devices a submission must address: every device but the sending one. */
  ghost function Expected(call: Call, account: Account): set<DeviceId> {
    account.Keys - call.Own()
  }

  ghost function SetOf(devices: seq<DeviceId>): set<DeviceId> {
    set d | d in devices
  }

  ghost predicate Outdated(account: Account, m: OutgoingPushMessage) {
    m.device in account && account[m.device] != m.registration
  }

  /** 409 with the exact difference, else 410 with exactly the stale devices, else success. */
  ghost predicate AnswersHonestly(call: Call, account: Account, messages: seq<OutgoingPushMessage>,
                                  answer: Result<bool, ServiceError>)
  {
    var sent := set m | m in messages :: m.device;
    var stale := set m | m in messages && Outdated(account, m) :: m.device;
    if sent != Expected(call, account) then
      && answer.Err? && answer.error.MismatchedDevices?
      && SetOf(answer.error.missing) == Expected(call, account) - sent
      && SetOf(answer.error.extra) == sent - Expected(call, account)
    else if stale != {} then
      answer.Err? && answer.error.StaleDevices? && SetOf(answer.error.stale) == stale
    else answer.Ok?
  }

  /** Nothing fails except as the account's own state dictates. */
  ghost predicate Cooperative(env: Env, call: Call, account: Account) {
    && IteratesSets(env)
    && DEFAULT_DEVICE_ID in account && (call.ToSelf() ==> call.device in account)
    && (forall t {:trigger env.fetchAll(t, DEFAULT_DEVICE_ID)} ::
          var r := env.fetchAll(t, DEFAULT_DEVICE_ID);
          r.Ok? && Genuine(account, r.value) && Bundle(DEFAULT_DEVICE_ID, account[DEFAULT_DEVICE_ID]) in r.value)
    && (forall t, d {:trigger env.fetchAll(t, d)} :: d != DEFAULT_DEVICE_ID ==>
          env.fetchAll(t, d) == if d in account then Ok([Bundle(d, account[d])]) else Err(NotFoundError))
    && (forall t, d {:trigger env.fetchOne(t, d)} :: d in account ==> env.fetchOne(t, d) == Ok(Bundle(d, account[d])))
    && (forall t, b {:trigger env.installs(t, b)} :: env.installs(t, b))
    && (forall t, d {:trigger env.encrypts(t, d)} :: env.encrypts(t, d).None?)
    && (forall t, d {:trigger env.deletes(t, d)} :: env.deletes(t, d).Deleted?)
    && (forall t {:trigger env.knowsIdentity(t)} :: env.knowsIdentity(t))
    && HonestOver(env, call, account, false)
  }

  /** Every submission over the one socket or the other is answered honestly. */
  ghost predicate HonestOver(env: Env, call: Call, account: Account, unidentified: bool) {
    forall t, s: Submission {:trigger env.submit(t, s)} :: s.unidentified == unidentified ==>
      AnswersHonestly(call, account, s.messages, env.submit(t, s))
  }

  /** The access key is not the recipient's. */
  ghost predicate RejectsKey(env: Env) {
    forall t, s: Submission {:trigger env.submit(t, s)} :: s.unidentified ==> env.submit(t, s) == Err(Unauthorized)
  }

  /** A session that encryption will not reject. */
  predicate Workable(call: Call, s: Session) { s.usable || call.plaintext }

  ghost predicate Fresh(call: Call, account: Account, s: Sessions, d: DeviceId) {
    d in account && d in s && Workable(call, s[d]) && s[d].registration == account[d]
  }

  /** A working session with a registration the server no longer accepts. */
  ghost predicate Stale(call: Call, account: Account, s: Sessions, d: DeviceId) {
    d in account && d in s && Workable(call, s[d]) && s[d].registration != account[d]
  }

  /** A corrupt session with a device the account does not have cannot be re-established. */
  ghost predicate Repairable(call: Call, account: Account, s: Sessions, d: DeviceId) {
    d in account || (d in s && Workable(call, s[d]))
  }

  ghost predicate Healthy(call: Call, account: Account, s: Sessions) {
    forall d :: d in call.Targets(s) ==> Repairable(call, account, s, d)
  }

  /** Sessions only appear, and only ever become fresh. */
  ghost predicate Evolves(call: Call, account: Account, s: Sessions, s': Sessions) {
    && s.Keys <= s'.Keys
    && forall d :: d in s' ==>
         (d in s && s'[d].registration == s[d].registration && s'[d].usable == s[d].usable) || Fresh(call, account, s', d)
  }

  /** The primary device writing to its own account: the one sender with nobody always addressed. */
  predicate PrimaryToSelf(call: Call) {
    call.ToSelf() && call.device == DEFAULT_DEVICE_ID
  }

  /** No attempt over these sessions needs the wildcard key fetch, which refreshes everybody. */
  predicate Quiet(call: Call, s: Sessions) {
    PrimaryToSelf(call) || (DEFAULT_DEVICE_ID in s && Workable(call, s[DEFAULT_DEVICE_ID]))
  }

  // -- one message --------------------------------------------------------------

  lemma {:induction false} EstablishWorks(env: Env, call: Call, account: Account, bundles: seq<Bundle>, st: Local)
    requires Cooperative(env, call, account) && Genuine(account, bundles)
    ensures var (ok, st1) := Establish(env, call, bundles, st);
            && ok && Evolves(call, account, st.sessions, st1.sessions)
            && (forall b :: b in bundles && b.device !in call.Own() ==> Fresh(call, account, st1.sessions, b.device))
            && (forall d :: (forall b :: b in bundles ==> b.device != d) ==>
                  (d in st1.sessions <==> d in st.sessions) && (d in st.sessions ==> st1.sessions[d] == st.sessions[d]))
    decreases bundles
  {
    if bundles != [] {
      var b := bundles[0];
      assert b in bundles;
      var st1 := if call.recipient == Aci(call.aci) && b.device == call.device then st
                 else st.Tick().With(b.device, Session(b.registration, true, 0));
      EstablishWorks(env, call, account, bundles[1..], st1);
      assert forall c :: c in bundles <==> c == b || c in bundles[1..];
    }
  }

  lemma EncryptWorks(env: Env, call: Call, account: Account, d: DeviceId, st: Local)
    requires Cooperative(env, call, account) && d in st.sessions && Workable(call, st.sessions[d])
    ensures var (r, st1) := Encrypt(env, call, d, st);
            && r == Ok(OutgoingPushMessage(d, st.sessions[d].registration))
            && Evolves(call, account, st.sessions, st1.sessions)
            && Untouched(st.sessions, st1.sessions, d)
            && d in st1.sessions && st1.sessions[d].registration == st.sessions[d].registration
            && st1.sessions[d].usable == st.sessions[d].usable
  {
  }

  /** With no session, one key fetch yields a message under the current registration. */
  lemma CreateFromNothing(env: Env, call: Call, account: Account, d: DeviceId, st: Local)
    requires Cooperative(env, call, account)
    requires d in account && d !in call.Own() && d !in st.sessions
    ensures var (r, st1) := CreateMessage(env, call, d, st);
            && r == Ok(OutgoingPushMessage(d, account[d]))
            && Evolves(call, account, st.sessions, st1.sessions) && Fresh(call, account, st1.sessions, d)
            && (d != DEFAULT_DEVICE_ID ==> Untouched(st.sessions, st1.sessions, d))
  {
    var r := env.fetchAll(st.clock, d);
    assert r.Ok? && Genuine(account, r.value) && Bundle(d, account[d]) in r.value;
    EstablishWorks(env, call, account, r.value, st.Tick());
    var st1 := Establish(env, call, r.value, st.Tick()).1;
    EncryptWorks(env, call, account, d, st1);
  }

  /** Only `d`'s session differs. */
  ghost predicate Untouched(s: Sessions, s': Sessions, d: DeviceId) {
    forall e :: e != d ==> (e in s' <==> e in s) && (e in s ==> s'[e] == s[e])
  }

  /** What one device's turn brings about. */
  ghost predicate Served(call: Call, account: Account, d: DeviceId, m: OutgoingPushMessage, s: Sessions, s': Sessions) {
    && m.device == d
    && Evolves(call, account, s, s')
    && d in s' && Workable(call, s'[d]) && s'[d].registration == m.registration
    && (if d in s && Workable(call, s[d]) then m.registration == s[d].registration
        else d in account && m.registration == account[d])
  }

  lemma MessageForWorks(env: Env, call: Call, account: Account, d: DeviceId, st: Local)
    requires Cooperative(env, call, account)
    requires d !in call.Own() && Repairable(call, account, st.sessions, d)
    ensures var (r, st1) := MessageFor(env, call, d, 2, st);
            && r.Ok? && r.value.Some? && Served(call, account, d, r.value.value, st.sessions, st1.sessions)
            && (d != DEFAULT_DEVICE_ID || Quiet(call, st.sessions) ==> Untouched(st.sessions, st1.sessions, d))
  {
    if d !in st.sessions {
      CreateFromNothing(env, call, account, d, st);
    } else if Workable(call, st.sessions[d]) {
      EncryptWorks(env, call, account, d, st);
    } else {
      var st1 := st.Tick().Without(d);
      CreateFromNothing(env, call, account, d, st1);
      assert MessageFor(env, call, d, 2, st) == MessageFor(env, call, d, 1, st1);
    }
  }

  // -- one attempt ----------------------------------------------------------------

  ghost predicate AllServed(call: Call, account: Account, order: seq<DeviceId>, messages: seq<OutgoingPushMessage>,
                            s: Sessions, s': Sessions)
  {
    && |messages| == |order| && Evolves(call, account, s, s')
    && forall i :: 0 <= i < |order| ==>
         && messages[i].device == order[i] && order[i] in s' && Workable(call, s'[order[i]])
         && (order[i] in account ==>
              && (messages[i].registration == account[order[i]] ==> Fresh(call, account, s', order[i]))
              && (messages[i].registration != account[order[i]] ==> Stale(call, account, s, order[i]))
              && (Quiet(call, s) && Stale(call, account, s, order[i]) ==>
                    messages[i].registration == s[order[i]].registration && s'[order[i]].registration == s[order[i]].registration))
  }

  lemma {:induction false} FanOutWorks(env: Env, call: Call, account: Account, order: seq<DeviceId>, st: Local)
    requires Cooperative(env, call, account)
    requires forall i, j :: 0 <= i < j < |order| ==> order[i] != order[j]
    requires forall d :: d in order ==> d !in call.Own() && Repairable(call, account, st.sessions, d)
    ensures var (r, st1) := FanOut(env, call, order, st);
            && r.Ok? && AllServed(call, account, order, r.value, st.sessions, st1.sessions)
            && (Quiet(call, st.sessions) ==> forall e :: e !in order ==>
                  (e in st1.sessions <==> e in st.sessions) && (e in st.sessions ==> st1.sessions[e] == st.sessions[e]))
  {
    if order != [] {
      var n := |order| - 1;
      var rest, d := order[..n], order[n];
      assert forall e :: e in rest ==> e in order;
      FanOutWorks(env, call, account, rest, st);
      var st1 := FanOut(env, call, rest, st).1;
      assert order[n] in order;
      MessageForWorks(env, call, account, d, st1);
      var m, st2 := MessageFor(env, call, d, 2, st1).0.value.value, MessageFor(env, call, d, 2, st1).1;
      ServedAfterAll(call, account, order, FanOut(env, call, rest, st).0.value, m, st.sessions, st1.sessions, st2.sessions);
    }
  }

  lemma EvolvesTrans(call: Call, account: Account, a: Sessions, b: Sessions, c: Sessions)
    requires Evolves(call, account, a, b) && Evolves(call, account, b, c)
    ensures Evolves(call, account, a, c)
  {
  }

  lemma ServedAfterAll(call: Call, account: Account, order: seq<DeviceId>, messages: seq<OutgoingPushMessage>,
                       m: OutgoingPushMessage, s: Sessions, s1: Sessions, s2: Sessions)
    requires |order| > 0 && forall i, j :: 0 <= i < j < |order| ==> order[i] != order[j]
    requires AllServed(call, account, order[..|order| - 1], messages, s, s1)
    requires Served(call, account, order[|order| - 1], m, s1, s2)
    requires Quiet(call, s) ==>
      && Untouched(s1, s2, order[|order| - 1])
      && (forall e :: e !in order[..|order| - 1] ==> (e in s1 <==> e in s) && (e in s ==> s1[e] == s[e]))
    ensures AllServed(call, account, order, messages + [m], s, s2)
  {
    var n := |order| - 1;
    EvolvesTrans(call, account, s, s1, s2);
    forall i | 0 <= i < |order| && order[i] in account
      ensures && ((messages + [m])[i].registration == account[order[i]] ==> Fresh(call, account, s2, order[i]))
              && ((messages + [m])[i].registration != account[order[i]] ==> Stale(call, account, s, order[i]))
    {
      if i < n { assert order[..n][i] == order[i]; }
    }
    forall i | 0 <= i < |order| && order[i] in account && Quiet(call, s) && Stale(call, account, s, order[i])
      ensures (messages + [m])[i].registration == s[order[i]].registration && s2[order[i]].registration == s[order[i]].registration
    {
      if i < n { assert order[..n][i] == order[i]; } else { assert order[n] !in order[..n]; }
    }
    assert forall i :: 0 <= i < n ==> order[..n][i] == order[i];
  }

  lemma MessageForAborts(env: Env, call: Call, account: Account, d: DeviceId, st: Local)
    requires Cooperative(env, call, account)
    requires d !in account && d in st.sessions && !Workable(call, st.sessions[d])
    ensures MessageFor(env, call, d, 2, st).0 == Err(NotFound)
  {
    var st1 := st.Tick().Without(d);
    assert CreateMessage(env, call, d, st) == (Err(SessionNotFound), st);
    assert env.deletes(st.clock, d).Deleted?;
    assert CreateMessage(env, call, d, st1).0 == Err(NotFound);
    assert MessageFor(env, call, d, 2, st) == MessageFor(env, call, d, 1, st1);
  }

  /** A corrupt session with an unregistered device ends the whole send with `NotFound`. */
  lemma {:induction false} FanOutAborts(env: Env, call: Call, account: Account, order: seq<DeviceId>, st: Local)
    requires Cooperative(env, call, account)
    requires forall i, j :: 0 <= i < j < |order| ==> order[i] != order[j]
    requires forall d :: d in order ==> d !in call.Own() && (d in account || d in st.sessions)
    requires exists d :: d in order && !Repairable(call, account, st.sessions, d)
    ensures FanOut(env, call, order, st).0 == Err(NotFound)
  {
    var n := |order| - 1;
    var rest, d := order[..n], order[n];
    assert forall e :: e in order <==> e in rest || e == d;
    if exists e :: e in rest && !Repairable(call, account, st.sessions, e) {
      FanOutAborts(env, call, account, rest, st);
    } else {
      FanOutWorks(env, call, account, rest, st);
      MessageForAborts(env, call, account, d, FanOut(env, call, rest, st).1);
    }
  }

  // -- repair -----------------------------------------------------------------------

  lemma {:induction false} DropWorks(env: Env, call: Call, account: Account, devices: seq<DeviceId>, st: Local)
    requires Cooperative(env, call, account)
    ensures var (ok, st1) := DropSessions(env, devices, st);
            ok && st1.sessions == st.sessions - SetOf(devices)
    decreases devices
  {
    if devices != [] {
      var st1 := st.Tick().Without(devices[0]);
      assert env.deletes(st.clock, devices[0]).Deleted?;
      DropWorks(env, call, account, devices[1..], st1);
      assert SetOf(devices) == {devices[0]} + SetOf(devices[1..]);
    }
  }

  lemma {:induction false} CreateWorks(env: Env, call: Call, account: Account, devices: seq<DeviceId>, st: Local)
    requires Cooperative(env, call, account) && forall d :: d in devices ==> d in account
    ensures var (error, st1) := CreateSessions(env, devices, st);
            && error.None? && st1.sessions.Keys == st.sessions.Keys + SetOf(devices)
            && (forall d :: d in devices ==> Fresh(call, account, st1.sessions, d))
            && (forall d :: d in st.sessions && d !in devices ==> st1.sessions[d] == st.sessions[d])
    decreases devices
  {
    if devices != [] {
      var d := devices[0];
      assert d in devices;
      var bundle := env.fetchOne(st.clock, d).value;
      var st1 := st.Tick().Tick().With(d, Session(bundle.registration, true, 0));
      assert env.installs(st.Tick().clock, bundle);
      CreateWorks(env, call, account, devices[1..], st1);
      assert SetOf(devices) == {d} + SetOf(devices[1..]);
    }
  }

  // -- one round ----------------------------------------------------------------------

  /** Every session that will be used carries a registration the server accepts. */
  ghost predicate AllFresh(call: Call, account: Account, s: Sessions) {
    forall d :: d in call.Targets(s) && d in s ==> Fresh(call, account, s, d)
  }

  /** The attempt of a round over healthy sessions. */
  lemma AttemptWorks(env: Env, call: Call, account: Account, st: Local)
    requires Cooperative(env, call, account) && Healthy(call, account, st.sessions) && call.Targets(st.sessions) != {}
    ensures var (r, st1) := EncryptedMessages(env, call, st);
            var order := env.order(st.clock, call.Targets(st.sessions));
            && r.Ok? && r.value != [] && Enumerates(order, call.Targets(st.sessions))
            && AllServed(call, account, order, r.value, st.sessions, st1.sessions)
            && (set m | m in r.value :: m.device) == call.Targets(st.sessions)
            && (Quiet(call, st.sessions) ==> forall e :: e !in order ==>
                  (e in st1.sessions <==> e in st.sessions) && (e in st.sessions ==> st1.sessions[e] == st.sessions[e]))
  {
    var targets := call.Targets(st.sessions);
    var order := env.order(st.clock, targets);
    assert Enumerates(order, targets);
    FanOutWorks(env, call, account, order, st.Tick());
    var messages := FanOut(env, call, order, st.Tick()).0.value;
    var d :| d in targets;
    assert d in order;
    assert env.knowsIdentity(FanOut(env, call, order, st.Tick()).1.clock);
    var sent := set m | m in messages :: m.device;
    forall e ensures e in sent <==> e in targets {
      if e in targets {
        var i :| 0 <= i < |order| && order[i] == e;
        assert messages[i] in messages;
      }
      if e in sent {
        var i :| 0 <= i < |messages| && messages[i].device == e;
        assert order[i] in order;
      }
    }
  }

  /** Extra devices dropped, missing ones created, the rest left alone. */
  ghost predicate Repaired(call: Call, account: Account, targets: set<DeviceId>, s: Sessions, s': Sessions) {
    var expected := Expected(call, account);
    && s'.Keys == s.Keys - (targets - expected) + (expected - targets)
    && (forall d :: d in expected - targets ==> Fresh(call, account, s', d))
    && (forall d :: d in s' && d !in expected - targets ==> s'[d] == s[d])
  }

  lemma MismatchIsRepaired(env: Env, call: Call, account: Account, messages: seq<OutgoingPushMessage>,
                           answer: Result<bool, ServiceError>, unidentified: bool, st: Local)
    requires Cooperative(env, call, account) && AnswersHonestly(call, account, messages, answer)
    requires (set m | m in messages :: m.device) != Expected(call, account)
    ensures var (v, st1) := React(env, answer, unidentified, st);
            v == Retry(unidentified) && Repaired(call, account, set m | m in messages :: m.device, st.sessions, st1.sessions)
  {
    var missing, extra := answer.error.missing, answer.error.extra;
    assert forall d :: d in missing <==> d in SetOf(missing);
    DropWorks(env, call, account, extra, st);
    CreateWorks(env, call, account, missing, DropSessions(env, extra, st).1);
  }

  /** `s` before the round, `s1` after its fan-out to `order`, `s2` after the repair. */
  lemma RepairedSessions(call: Call, account: Account, order: seq<DeviceId>, messages: seq<OutgoingPushMessage>,
                         s: Sessions, s1: Sessions, s2: Sessions)
    requires DEFAULT_DEVICE_ID in account && (call.ToSelf() ==> call.device in account)
    requires Enumerates(order, call.Targets(s)) && AllServed(call, account, order, messages, s, s1)
    requires Repaired(call, account, call.Targets(s), s1, s2)
    ensures call.Targets(s2) == Expected(call, account)
    ensures AllFresh(call, account, s) ==> AllFresh(call, account, s2)
    ensures Quiet(call, s2)
    ensures Quiet(call, s) ==> forall d :: d in Expected(call, account) ==>
              (Stale(call, account, s2, d) <==> Stale(call, account, s, d))
  {
    var targets, expected := call.Targets(s), Expected(call, account);
    forall d | d in targets
      ensures d in s1 && Workable(call, s1[d])
      ensures d in account && !Stale(call, account, s, d) ==> Fresh(call, account, s1, d)
      ensures Quiet(call, s) && Stale(call, account, s, d) ==> Stale(call, account, s1, d)
    {
      var i :| 0 <= i < |order| && order[i] == d;
    }
    assert call.Targets(s2) == expected;
    forall d | d in expected
      ensures d in s2 && (!Stale(call, account, s, d) ==> Fresh(call, account, s2, d))
      ensures Quiet(call, s) ==> (Stale(call, account, s2, d) <==> Stale(call, account, s, d))
    {
    }
  }

  /** After a 409 and its repair exactly the expected devices are addressed. */
  lemma RoundMismatched(env: Env, call: Call, account: Account, unidentified: bool, st: Local)
    requires Cooperative(env, call, account) && HonestOver(env, call, account, unidentified)
    requires Healthy(call, account, st.sessions)
    requires call.Targets(st.sessions) != {} && call.Targets(st.sessions) != Expected(call, account)
    ensures var (v, st1) := Round(env, call, unidentified, st);
            && v == Retry(unidentified)
            && call.Targets(st1.sessions) == Expected(call, account) && Quiet(call, st1.sessions)
            && (AllFresh(call, account, st.sessions) ==> AllFresh(call, account, st1.sessions))
            && (Quiet(call, st.sessions) ==> NotStale(call, account, st1.sessions) == NotStale(call, account, st.sessions))
  {
    AttemptWorks(env, call, account, st);
    var order := env.order(st.clock, call.Targets(st.sessions));
    var (r, sent) := EncryptedMessages(env, call, st);
    var submission := Submission(unidentified, r.value);
    var answer := env.submit(sent.clock, submission);
    assert AnswersHonestly(call, account, submission.messages, answer);
    var st1 := sent.Tick().(wire := sent.wire + [submission]);
    MismatchIsRepaired(env, call, account, r.value, answer, unidentified, st1);
    RepairedSessions(call, account, order, r.value, st.sessions, sent.sessions, React(env, answer, unidentified, st1).1.sessions);
  }

  ghost function NotStale(call: Call, account: Account, s: Sessions): set<DeviceId> {
    set d | d in Expected(call, account) && !Stale(call, account, s, d)
  }

  ghost function StaleDevices(account: Account, messages: seq<OutgoingPushMessage>): set<DeviceId> {
    set m | m in messages && Outdated(account, m) :: m.device
  }

  /** Who is found stale, in terms of the sessions before (`s`) and after (`s1`) the fan-out. */
  lemma WhoIsStale(call: Call, account: Account, order: seq<DeviceId>, messages: seq<OutgoingPushMessage>,
                   s: Sessions, s1: Sessions, d: DeviceId)
    requires Enumerates(order, call.Targets(s)) && call.Targets(s) == Expected(call, account)
    requires AllServed(call, account, order, messages, s, s1) && d in call.Targets(s)
    ensures d in s1
    ensures d in StaleDevices(account, messages) ==> Stale(call, account, s, d)
    ensures d !in StaleDevices(account, messages) ==> Fresh(call, account, s1, d)
    ensures Quiet(call, s) && Stale(call, account, s, d) ==> d in StaleDevices(account, messages)
  {
    var i :| 0 <= i < |order| && order[i] == d;
    assert messages[i] in messages;
    if d in StaleDevices(account, messages) {
      var m :| m in messages && Outdated(account, m) && m.device == d;
      var j :| 0 <= j < |messages| && messages[j] == m;
      assert order[j] == d;
    }
  }

  lemma MatchIsAnswered(env: Env, call: Call, account: Account, messages: seq<OutgoingPushMessage>,
                        answer: Result<bool, ServiceError>, unidentified: bool, st: Local)
    requires Cooperative(env, call, account) && AnswersHonestly(call, account, messages, answer)
    requires (set m | m in messages :: m.device) == Expected(call, account)
    ensures var (v, st1) := React(env, answer, unidentified, st);
            if StaleDevices(account, messages) == {} then v.Return? && v.result.Ok?
            else v == Retry(unidentified) && st1.sessions == st.sessions - StaleDevices(account, messages)
  {
    if StaleDevices(account, messages) != {} {
      DropWorks(env, call, account, answer.error.stale, st);
    }
  }

  /** The sessions after a fan-out to everyone expected, split by who the server calls stale. */
  lemma SplitByStale(call: Call, account: Account, order: seq<DeviceId>, messages: seq<OutgoingPushMessage>,
                     s: Sessions, s1: Sessions)
    requires Enumerates(order, call.Targets(s)) && call.Targets(s) == Expected(call, account)
    requires AllServed(call, account, order, messages, s, s1)
    requires (set m | m in messages :: m.device) == call.Targets(s)
    ensures var stale := StaleDevices(account, messages);
            && stale <= call.Targets(s) && s.Keys <= s1.Keys
            && (forall d :: d in s1 && d !in call.Own() ==> d in call.Targets(s))
            && forall d :: d in call.Targets(s) ==>
                 && d in s1 && (d in stale ==> Stale(call, account, s, d))
                 && (d !in stale ==> Fresh(call, account, s1, d))
                 && (Quiet(call, s) && Stale(call, account, s, d) ==> d in stale)
  {
    forall d | d in call.Targets(s)
      ensures && d in s1 && (d in StaleDevices(account, messages) ==> Stale(call, account, s, d))
              && (d !in StaleDevices(account, messages) ==> Fresh(call, account, s1, d))
              && (Quiet(call, s) && Stale(call, account, s, d) ==> d in StaleDevices(account, messages))
    {
      WhoIsStale(call, account, order, messages, s, s1, d);
    }
    forall d | d in StaleDevices(account, messages) ensures d in call.Targets(s) {
      assert d in set m | m in messages :: m.device;
    }
  }

  /** A pass that addressed the right devices either ends the send or leaves only up-to-date sessions. */
  ghost predicate Matched(call: Call, account: Account, s: Sessions, unidentified: bool, v: Verdict, st1: Local) {
    if v.Return? then v.result.Ok? && (Quiet(call, s) ==> NotStale(call, account, s) == Expected(call, account))
    else
      && v == Retry(unidentified) && !AllFresh(call, account, s) && NotStale(call, account, s) != Expected(call, account)
      && call.Targets(st1.sessions) <= Expected(call, account) && AllFresh(call, account, st1.sessions)
      && (Quiet(call, s) ==> call.Targets(st1.sessions) == NotStale(call, account, s) + call.Targets(map[]))
  }

  /** All devices addressed: success, or a 410 that drops the stale sessions and nothing else. */
  lemma RoundMatched(env: Env, call: Call, account: Account, unidentified: bool, st: Local)
    requires Cooperative(env, call, account) && HonestOver(env, call, account, unidentified)
    requires call.Targets(st.sessions) != {} && call.Targets(st.sessions) == Expected(call, account)
    ensures var (v, st1) := Round(env, call, unidentified, st); Matched(call, account, st.sessions, unidentified, v, st1)
  {
    AttemptWorks(env, call, account, st);
    var s := st.sessions;
    var order := env.order(st.clock, call.Targets(s));
    var (r, sent) := EncryptedMessages(env, call, st);
    var submission := Submission(unidentified, r.value);
    var answer := env.submit(sent.clock, submission);
    assert AnswersHonestly(call, account, submission.messages, answer);
    MatchIsAnswered(env, call, account, r.value, answer, unidentified, sent.Tick().(wire := sent.wire + [submission]));
    SplitByStale(call, account, order, r.value, s, sent.sessions);
    var stale := StaleDevices(account, r.value);
    if stale != {} {
      DroppedSessions(call, account, s, sent.sessions, stale);
    } else {
      var d :| d in call.Targets(s);
    }
  }

  lemma DroppedSessions(call: Call, account: Account, s: Sessions, s1: Sessions, stale: set<DeviceId>)
    requires call.Targets(s) == Expected(call, account) && stale <= call.Targets(s) && stale != {}
    requires s.Keys <= s1.Keys && forall d :: d in s1 && d !in call.Own() ==> d in call.Targets(s)
    requires forall d :: d in call.Targets(s) ==>
               && d in s1 && (d in stale ==> Stale(call, account, s, d))
               && (d !in stale ==> Fresh(call, account, s1, d))
               && (Quiet(call, s) && Stale(call, account, s, d) ==> d in stale)
    ensures var s2 := s1 - stale;
            && !AllFresh(call, account, s) && NotStale(call, account, s) != Expected(call, account)
            && call.Targets(s2) <= Expected(call, account) && AllFresh(call, account, s2)
            && (Quiet(call, s) ==> call.Targets(s2) == NotStale(call, account, s) + call.Targets(map[]))
  {
    var d :| d in stale;
    assert Stale(call, account, s, d) && d in call.Targets(s);
  }

  // -- the loop -------------------------------------------------------------------------

  /**
    When a send can be delivered: no corrupt session with a device the account no longer has, and,
    if the primary writes to its own account, at least one linked device it knows and at least
    one linked device the server will not call stale.
   */
  ghost predicate Deliverable(call: Call, account: Account, s: Sessions) {
    && Healthy(call, account, s)
    && (PrimaryToSelf(call) ==> call.Targets(s) != {} && NotStale(call, account, s) != {})
  }

  /** Which registrations the next messages carry does not depend on what a key fetch happens to bring. */
  ghost predicate Settled(call: Call, account: Account, s: Sessions) {
    Quiet(call, s) || AllFresh(call, account, s)
  }

  /**
    The submissions that settled sessions take: a 409 if the wrong devices are addressed; a 410 if
    any session is stale, and another 409 for the devices dropped then, other than the primary, which
    is addressed in any case; and the one that is accepted.
   */
  ghost function Needed(call: Call, account: Account, s: Sessions): nat {
    var stale := Expected(call, account) - NotStale(call, account, s);
    1 + (if call.Targets(s) != Expected(call, account) then 1 else 0)
    + (if stale == {} then 0 else if stale <= {DEFAULT_DEVICE_ID} then 1 else 2)
  }

  /** One pass of the loop, whatever it consists of. */
  lemma RoundsStep(env: Env, call: Call, unidentified: bool, left: nat, st: Local, v: Verdict, st1: Local)
    requires left >= 1 && Round(env, call, unidentified, st) == (v, st1)
    ensures Rounds(env, call, unidentified, left, st)
            == if v.Return? then (v.result, st1) else Rounds(env, call, v.unidentified, left - 1, st1)
  {
  }

  /** What a pass makes of a deliverable send: it is done, or one submission less is needed. */
  ghost predicate Advanced(call: Call, account: Account, s: Sessions, unidentified: bool, v: Verdict, s1: Sessions) {
    if v.Return? then v.result.Ok? && (Settled(call, account, s) ==> Needed(call, account, s) == 1)
    else
      && v == Retry(unidentified) && Deliverable(call, account, s1) && Settled(call, account, s1)
      && Needed(call, account, s1) <= 3
      && (Settled(call, account, s) ==> Needed(call, account, s1) == Needed(call, account, s) - 1)
  }

  /** Fresh sessions are not stale. */
  lemma FreshAreNotStale(call: Call, account: Account, s: Sessions)
    requires AllFresh(call, account, s)
    ensures NotStale(call, account, s) == Expected(call, account)
  {
  }

  lemma MismatchAdvances(call: Call, account: Account, s: Sessions, unidentified: bool, s1: Sessions)
    requires Deliverable(call, account, s) && call.Targets(s) != Expected(call, account)
    requires call.Targets(s1) == Expected(call, account) && Quiet(call, s1)
    requires AllFresh(call, account, s) ==> AllFresh(call, account, s1)
    requires Quiet(call, s) ==> NotStale(call, account, s1) == NotStale(call, account, s)
    ensures Advanced(call, account, s, unidentified, Retry(unidentified), s1)
  {
    if AllFresh(call, account, s) {
      FreshAreNotStale(call, account, s);
      FreshAreNotStale(call, account, s1);
    }
  }

  lemma MatchAdvances(call: Call, account: Account, s: Sessions, unidentified: bool, v: Verdict, st1: Local)
    requires DEFAULT_DEVICE_ID in account
    requires Deliverable(call, account, s) && call.Targets(s) == Expected(call, account)
    requires Matched(call, account, s, unidentified, v, st1)
    ensures Advanced(call, account, s, unidentified, v, st1.sessions)
  {
    if v.Return? {
      if AllFresh(call, account, s) {
        FreshAreNotStale(call, account, s);
      }
    } else {
      FreshAreNotStale(call, account, st1.sessions);
      if Quiet(call, s) {
        DropsMakeMissing(call, account, s, st1.sessions);
      }
    }
  }

  /** After a 410 the right devices are addressed if and only if nobody but the primary was dropped. */
  lemma DropsMakeMissing(call: Call, account: Account, s: Sessions, s1: Sessions)
    requires DEFAULT_DEVICE_ID in account
    requires call.Targets(s1) == NotStale(call, account, s) + call.Targets(map[])
    ensures call.Targets(s1) == Expected(call, account) <==>
              Expected(call, account) - NotStale(call, account, s) <= {DEFAULT_DEVICE_ID}
  {
    var expected, notStale := Expected(call, account), NotStale(call, account, s);
    assert call.Targets(map[]) == {DEFAULT_DEVICE_ID} - call.Own() <= expected;
    if expected - notStale <= {DEFAULT_DEVICE_ID} {
      forall d | d in expected
        ensures d in call.Targets(s1)
      {
        assert d in notStale || d in expected - notStale;
      }
    }
  }

  /** Each pass over a deliverable send submits once and gets one step closer. */
  lemma PassAdvances(env: Env, call: Call, account: Account, unidentified: bool, st: Local)
    requires Cooperative(env, call, account) && HonestOver(env, call, account, unidentified)
    requires Deliverable(call, account, st.sessions)
    ensures var (v, st1) := Round(env, call, unidentified, st);
            && |st1.wire| == |st.wire| + 1
            && Advanced(call, account, st.sessions, unidentified, v, st1.sessions)
  {
    var s := st.sessions;
    var v, st1 := Round(env, call, unidentified, st).0, Round(env, call, unidentified, st).1;
    assert !PrimaryToSelf(call) ==> DEFAULT_DEVICE_ID in call.Targets(s);
    if call.Targets(s) == Expected(call, account) {
      RoundMatched(env, call, account, unidentified, st);
      MatchAdvances(call, account, s, unidentified, v, st1);
    } else {
      RoundMismatched(env, call, account, unidentified, st);
      MismatchAdvances(call, account, s, unidentified, st1.sessions);
    }
    RoundSubmitsAtMostOnce(env, call, unidentified, st);
  }

  /** The outcome of a loop that may submit `left` times where `needed` are needed, and what it has sent. */
  ghost predicate Took(needed: nat, left: nat, before: seq<Submission>, r: Result<SentMessage, SendError>, after: seq<Submission>) {
    && (r.Ok? <==> needed <= left) && (r.Err? ==> r.error == MaximumRetriesLimitExceeded)
    && |after| == |before| + if needed <= left then needed else left
  }

  /** Passes that each submit once, and that advance every deliverable send without changing the socket. */
  ghost predicate Advances(call: Call, account: Account, unidentified: bool, pass: (bool, Local) -> (Verdict, Local)) {
    forall st: Local {:trigger pass(unidentified, st)} :: Deliverable(call, account, st.sessions) ==>
      var (v, st1) := pass(unidentified, st);
      |st1.wire| == |st.wire| + 1 && Advanced(call, account, st.sessions, unidentified, v, st1.sessions)
  }

  lemma {:induction false} CountThePasses(call: Call, account: Account, pass: (bool, Local) -> (Verdict, Local),
                                          unidentified: bool, left: nat, st: Local)
    requires Advances(call, account, unidentified, pass)
    requires Deliverable(call, account, st.sessions) && Settled(call, account, st.sessions)
    ensures var (r, end) := Loop(pass, unidentified, left, st);
            Took(Needed(call, account, st.sessions), left, st.wire, r, end.wire)
    decreases left
  {
    if left > 0 {
      var (v, st1) := pass(unidentified, st);
      if v.Retry? {
        CountThePasses(call, account, pass, unidentified, left - 1, st1);
      }
    }
  }

  /** From settled sessions the number of submissions is exact, and so is the bound that is enough. */
  lemma ExactlyNeeded(env: Env, call: Call, account: Account, unidentified: bool, left: nat, st: Local)
    requires Cooperative(env, call, account) && HonestOver(env, call, account, unidentified)
    requires Deliverable(call, account, st.sessions) && Settled(call, account, st.sessions)
    ensures var (r, end) := Rounds(env, call, unidentified, left, st);
            Took(Needed(call, account, st.sessions), left, st.wire, r, end.wire)
  {
    forall st: Local | Deliverable(call, account, st.sessions)
      ensures var (v, st1) := Pass(env, call)(unidentified, st);
              |st1.wire| == |st.wire| + 1 && Advanced(call, account, st.sessions, unidentified, v, st1.sessions)
    {
      PassAdvances(env, call, account, unidentified, st);
    }
    CountThePasses(call, account, Pass(env, call), unidentified, left, st);
  }

  /** With up-to-date sessions there is at most one 409, for devices not known yet, and then success. */
  lemma FreshSucceeds(env: Env, call: Call, account: Account, unidentified: bool, left: nat, st: Local)
    requires Cooperative(env, call, account) && HonestOver(env, call, account, unidentified) && left >= 2
    requires call.Targets(st.sessions) != {} && call.Targets(st.sessions) <= Expected(call, account)
    requires AllFresh(call, account, st.sessions)
    ensures Rounds(env, call, unidentified, left, st).0.Ok?
  {
    FreshAreNotStale(call, account, st.sessions);
    ExactlyNeeded(env, call, account, unidentified, left, st);
  }

  lemma EnumeratesSomething(order: seq<DeviceId>, devices: set<DeviceId>)
    requires Enumerates(order, devices)
    ensures order != [] ==> devices != {}
  {
    if order != [] {
      assert order[0] in devices;
    }
  }

  lemma NobodyToSendTo(env: Env, call: Call, unidentified: bool, st: Local)
    requires IteratesSets(env) && call.Targets(st.sessions) == {}
    ensures Round(env, call, unidentified, st).0 == Return(Err(NoMessagesToSend))
  {
    EnumeratesSomething(env.order(st.clock, {}), {});
  }

  /** A primary that no linked device will hear: after at most a 409 and a 410 there is nobody left. */
  lemma NobodyIsLeft(env: Env, call: Call, account: Account, unidentified: bool, left: nat, st: Local)
    requires Cooperative(env, call, account) && HonestOver(env, call, account, unidentified) && left >= 3
    requires Healthy(call, account, st.sessions) && !Deliverable(call, account, st.sessions)
    ensures Rounds(env, call, unidentified, left, st).0 == Err(NoMessagesToSend)
  {
    var v, st1 := Round(env, call, unidentified, st).0, Round(env, call, unidentified, st).1;
    RoundsStep(env, call, unidentified, left, st, v, st1);
    if call.Targets(st.sessions) == {} {
      NobodyToSendTo(env, call, unidentified, st);
    } else if call.Targets(st.sessions) == Expected(call, account) {
      StaleAreLost(env, call, account, unidentified, left, st);
    } else {
      RoundMismatched(env, call, account, unidentified, st);
      if Expected(call, account) == {} {
        NobodyToSendTo(env, call, unidentified, st1);
        RoundsStep(env, call, unidentified, left - 1, st1, Return(Err(NoMessagesToSend)), Round(env, call, unidentified, st1).1);
      } else {
        StaleAreLost(env, call, account, unidentified, left - 1, st1);
      }
    }
  }

  lemma StaleAreLost(env: Env, call: Call, account: Account, unidentified: bool, left: nat, st: Local)
    requires Cooperative(env, call, account) && HonestOver(env, call, account, unidentified) && left >= 2
    requires PrimaryToSelf(call) && NotStale(call, account, st.sessions) == {}
    requires call.Targets(st.sessions) != {} && call.Targets(st.sessions) == Expected(call, account)
    ensures Rounds(env, call, unidentified, left, st).0 == Err(NoMessagesToSend)
  {
    var v, st1 := Round(env, call, unidentified, st).0, Round(env, call, unidentified, st).1;
    RoundMatched(env, call, account, unidentified, st);
    RoundsStep(env, call, unidentified, left, st, v, st1);
    assert call.Targets(map[]) == {};
    NobodyToSendTo(env, call, unidentified, st1);
    RoundsStep(env, call, unidentified, left - 1, st1, Return(Err(NoMessagesToSend)), Round(env, call, unidentified, st1).1);
  }

  /** A corrupt session with a device that is no more ends the send in its first pass. */
  lemma UnhealthyAborts(env: Env, call: Call, account: Account, unidentified: bool, left: nat, st: Local)
    requires Cooperative(env, call, account) && left >= 1 && !Healthy(call, account, st.sessions)
    ensures Rounds(env, call, unidentified, left, st).0 == Err(NotFound)
  {
    var order := env.order(st.clock, call.Targets(st.sessions));
    assert Enumerates(order, call.Targets(st.sessions));
    FanOutAborts(env, call, account, order, st.Tick());
    assert Round(env, call, unidentified, st).0 == Return(Err(NotFound));
  }

  /** The error of a send that is not deliverable. */
  ghost function Undeliverable(call: Call, account: Account, s: Sessions): SendError {
    if Healthy(call, account, s) then NoMessagesToSend else NotFound
  }

  /**
    A send to an honest server, identified or with an access key that is accepted, succeeds within
    four submissions if and only if it is deliverable.
   */
  lemma Convergence(env: Env, call: Call, account: Account, unidentified: bool, st: Local)
    requires Cooperative(env, call, account) && HonestOver(env, call, account, unidentified)
    ensures var (r, end) := Rounds(env, call, unidentified, MAX_SUBMISSIONS, st);
            var s := st.sessions;
            && (r.Ok? <==> Deliverable(call, account, s)) && (r.Err? ==> r.error == Undeliverable(call, account, s))
            && (r.Ok? && Settled(call, account, s) ==> |end.wire| == |st.wire| + Needed(call, account, s))
  {
    var s := st.sessions;
    if !Healthy(call, account, s) {
      UnhealthyAborts(env, call, account, unidentified, MAX_SUBMISSIONS, st);
    } else if !Deliverable(call, account, s) {
      NobodyIsLeft(env, call, account, unidentified, MAX_SUBMISSIONS, st);
    } else if Settled(call, account, s) {
      ExactlyNeeded(env, call, account, unidentified, MAX_SUBMISSIONS, st);
    } else {
      PassAdvances(env, call, account, unidentified, st);
      var v, st1 := Round(env, call, unidentified, st).0, Round(env, call, unidentified, st).1;
      RoundsStep(env, call, unidentified, MAX_SUBMISSIONS, st, v, st1);
      if v.Retry? {
        ExactlyNeeded(env, call, account, unidentified, MAX_SUBMISSIONS - 1, st1);
      }
    }
  }

  /** In particular a send to anyone else, or from a linked device, with working sessions goes through. */
  lemma SendsToOthersConverge(env: Env, call: Call, account: Account, unidentified: bool, st: Local)
    requires Cooperative(env, call, account) && HonestOver(env, call, account, unidentified) && !PrimaryToSelf(call)
    requires forall d :: d in st.sessions ==> Workable(call, st.sessions[d])
    ensures Rounds(env, call, unidentified, MAX_SUBMISSIONS, st).0.Ok?
  {
    Convergence(env, call, account, unidentified, st);
  }

  // -- a rejected access key ----------------------------------------------------------------

  /** What the fan-out of a submission that came to nothing leaves behind. */
  lemma AttemptedSessions(call: Call, account: Account, order: seq<DeviceId>, messages: seq<OutgoingPushMessage>,
                          s: Sessions, s1: Sessions)
    requires DEFAULT_DEVICE_ID in account && Enumerates(order, call.Targets(s))
    requires AllServed(call, account, order, messages, s, s1)
    requires Quiet(call, s) ==> forall e :: e !in order ==> (e in s1 <==> e in s) && (e in s ==> s1[e] == s[e])
    ensures Healthy(call, account, s1) && Quiet(call, s1)
    ensures Quiet(call, s) ==>
              call.Targets(s1) == call.Targets(s) && NotStale(call, account, s1) == NotStale(call, account, s)
  {
    forall d | d in call.Targets(s)
      ensures d in s1 && Workable(call, s1[d])
      ensures d in account && !Stale(call, account, s, d) ==> Fresh(call, account, s1, d)
      ensures Quiet(call, s) && Stale(call, account, s, d) ==> Stale(call, account, s1, d)
    {
      var i :| 0 <= i < |order| && order[i] == d;
    }
    assert !PrimaryToSelf(call) ==> DEFAULT_DEVICE_ID in call.Targets(s);
  }

  lemma RejectedPass(env: Env, call: Call, account: Account, st: Local)
    requires Cooperative(env, call, account) && RejectsKey(env)
    requires Healthy(call, account, st.sessions) && call.Targets(st.sessions) != {}
    ensures var (v, st1) := Round(env, call, true, st);
            && v == Retry(false) && |st1.wire| == |st.wire| + 1
            && Healthy(call, account, st1.sessions) && Quiet(call, st1.sessions)
            && (Quiet(call, st.sessions) ==>
                  && call.Targets(st1.sessions) == call.Targets(st.sessions)
                  && NotStale(call, account, st1.sessions) == NotStale(call, account, st.sessions))
  {
    var s := st.sessions;
    AttemptWorks(env, call, account, st);
    var (r, sent) := EncryptedMessages(env, call, st);
    AttemptedSessions(call, account, env.order(st.clock, call.Targets(s)), r.value, s, sent.sessions);
    assert env.submit(sent.clock, Submission(true, r.value)) == Err(Unauthorized);
    RoundSubmitsAtMostOnce(env, call, true, st);
  }

  /**
    A send with an access key that is rejected: the first submission is lost, and the sessions it leaves
    decide. The send succeeds if and only if it is deliverable and they need no more than the three
    submissions that remain; from quiet sessions that is what was needed before.
   */
  lemma RejectedKey(env: Env, call: Call, account: Account, st: Local)
    requires Cooperative(env, call, account) && RejectsKey(env)
    ensures var (r, end) := Rounds(env, call, true, MAX_SUBMISSIONS, st);
            var s, s1 := st.sessions, Round(env, call, true, st).1.sessions;
            && (r.Ok? <==> Deliverable(call, account, s) && Needed(call, account, s1) < MAX_SUBMISSIONS)
            && (r.Ok? ==> |end.wire| == |st.wire| + 1 + Needed(call, account, s1))
            && (r.Err? ==> r.error == if Deliverable(call, account, s) then MaximumRetriesLimitExceeded
                                      else Undeliverable(call, account, s))
            && (Deliverable(call, account, s) && Quiet(call, s) ==> Needed(call, account, s1) == Needed(call, account, s))
  {
    var s := st.sessions;
    var v, st1 := Round(env, call, true, st).0, Round(env, call, true, st).1;
    if !Healthy(call, account, s) {
      UnhealthyAborts(env, call, account, true, MAX_SUBMISSIONS, st);
    } else if call.Targets(s) == {} {
      NobodyToSendTo(env, call, true, st);
      RoundsStep(env, call, true, MAX_SUBMISSIONS, st, v, st1);
      assert DEFAULT_DEVICE_ID !in call.Targets(s);
    } else {
      RejectedPass(env, call, account, st);
      RoundsStep(env, call, true, MAX_SUBMISSIONS, st, v, st1);
      if Deliverable(call, account, s) {
        ExactlyNeeded(env, call, account, false, MAX_SUBMISSIONS - 1, st1);
      } else {
        NobodyIsLeft(env, call, account, false, MAX_SUBMISSIONS - 1, st1);
      }
    }
  }

  // -- tightness ----------------------------------------------------------------------------

  /** A recipient with devices 1 and 2; we hold a stale session with 2 and one with a removed device 3. */
  const TWO_DEVICES: Account := map[1 := 11, 2 := 22]

  const OUT_OF_DATE: Sessions := map[1 := Session(11, true, 0), 2 := Session(99, true, 0), 3 := Session(33, true, 0)]

  lemma OutOfDateNeedsFour(call: Call)
    requires !call.ToSelf()
    ensures Deliverable(call, TWO_DEVICES, OUT_OF_DATE) && Quiet(call, OUT_OF_DATE)
    ensures Needed(call, TWO_DEVICES, OUT_OF_DATE) == 4
  {
    assert 3 in call.Targets(OUT_OF_DATE) && 3 !in Expected(call, TWO_DEVICES);
    assert Stale(call, TWO_DEVICES, OUT_OF_DATE, 2) && 2 in Expected(call, TWO_DEVICES);
    assert 2 in Expected(call, TWO_DEVICES) - NotStale(call, TWO_DEVICES, OUT_OF_DATE);
  }

  /** 409 for device 3, 410 for device 2, 409 for device 2 again: three submissions, none accepted. */
  lemma ThreeAreNotEnough(env: Env, call: Call, st: Local)
    requires Cooperative(env, call, TWO_DEVICES) && !call.ToSelf() && st.sessions == OUT_OF_DATE
    ensures Rounds(env, call, false, 3, st).0 == Err(MaximumRetriesLimitExceeded)
  {
    OutOfDateNeedsFour(call);
    ExactlyNeeded(env, call, TWO_DEVICES, false, 3, st);
  }

  /** Four is tight: a send that takes all four submissions fails if an access key is rejected first. */
  lemma BoundIsTight(env: Env, call: Call, st: Local)
    requires Cooperative(env, call, TWO_DEVICES) && RejectsKey(env) && !call.ToSelf() && st.sessions == OUT_OF_DATE
    ensures Rounds(env, call, false, MAX_SUBMISSIONS, st).0.Ok?
    ensures Rounds(env, call, true, MAX_SUBMISSIONS, st).0 == Err(MaximumRetriesLimitExceeded)
  {
    OutOfDateNeedsFour(call);
    Convergence(env, call, TWO_DEVICES, false, st);
    RejectedKey(env, call, TWO_DEVICES, st);
  }

  // -- there are such servers -----------------------------------------------------------------

  ghost function SomeOrder(s: set<DeviceId>): (order: seq<DeviceId>)
    ensures Enumerates(order, s)
  {
    if s == {} then [] else
      var d :| d in s;
      var rest := SomeOrder(s - {d});
      assert forall e :: e in [d] + rest <==> e == d || e in rest;
      [d] + rest
  }

  ghost function HonestAnswer(call: Call, account: Account, messages: seq<OutgoingPushMessage>): (r: Result<bool, ServiceError>)
    ensures AnswersHonestly(call, account, messages, r)
  {
    var sent := set m | m in messages :: m.device;
    var expected := Expected(call, account);
    if sent != expected then Err(MismatchedDevices(SomeOrder(expected - sent), SomeOrder(sent - expected)))
    else if StaleDevices(account, messages) != {} then Err(ServiceError.StaleDevices(SomeOrder(StaleDevices(account, messages))))
    else Ok(false)
  }

  /** `accepts` says whether the access key is the recipient's. */
  ghost function HonestEnv(call: Call, account: Account, accepts: bool): Env
    requires DEFAULT_DEVICE_ID in account
  {
    Env(
      (t, s) => SomeOrder(s),
      (t, d) => if d in account then Ok([Bundle(d, account[d])]) else Err(NotFoundError),
      (t, d) => if d in account then Ok(Bundle(d, account[d])) else Err(NotFoundError),
      (t, b) => true,
      (t, d) => None,
      (t, d) => Deleted,
      t => true,
      (t, s: Submission) => if s.unidentified && !accepts then Err(Unauthorized) else HonestAnswer(call, account, s.messages))
  }

  /** The assumptions above are met, whoever sends and whatever the account looks like. */
  lemma HonestEnvCooperates(call: Call, account: Account, accepts: bool)
    requires DEFAULT_DEVICE_ID in account && (call.ToSelf() ==> call.device in account)
    ensures var env := HonestEnv(call, account, accepts);
            Cooperative(env, call, account) && if accepts then HonestOver(env, call, account, true) else RejectsKey(env)
  {
  }

  // -- the send that does not converge ------------------------------------------------

  /** A primary writing to its own account. */
  ghost predicate WritesToItself(call: Call) {
    call.recipient == Aci(call.aci) && call.device == DEFAULT_DEVICE_ID
  }

  /** With no linked device at all there is nobody to address. */
  lemma AloneCannotWriteToItself(call: Call)
    requires WritesToItself(call)
    ensures var account: Account := map[DEFAULT_DEVICE_ID := 11];
            Rounds(HonestEnv(call, account, true), call, false, MAX_SUBMISSIONS, Local(map[], 0, [])).0
            == Err(NoMessagesToSend)
  {
    var account: Account := map[DEFAULT_DEVICE_ID := 11];
    HonestEnvCooperates(call, account, true);
    assert call.Targets(map[]) == {};
    Convergence(HonestEnv(call, account, true), call, account, false, Local(map[], 0, []));
  }

  /** A linked device that has registered anew: the 410 drops the one session there was, and nobody is left. */
  lemma StaleLinkedDeviceIsLost(call: Call)
    requires WritesToItself(call)
    ensures var s: Sessions := map[2 := Session(99, true, 0)];
            Rounds(HonestEnv(call, TWO_DEVICES, true), call, false, MAX_SUBMISSIONS, Local(s, 0, [])).0
            == Err(NoMessagesToSend)
  {
    HonestEnvCooperates(call, TWO_DEVICES, true);
    var s: Sessions := map[2 := Session(99, true, 0)];
    assert call.Targets(s) == {2} == Expected(call, TWO_DEVICES);
    assert NotStale(call, TWO_DEVICES, s) == {};
    Convergence(HonestEnv(call, TWO_DEVICES, true), call, TWO_DEVICES, false, Local(s, 0, []));
  }
}
