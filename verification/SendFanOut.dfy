/**
  What holds of every send, whatever the servers and the ratchet answer: who is addressed in an
  attempt, and which socket carries a submission (src/sender.rs).
 */
module SendFanOut {
  import opened Prelude
  import opened MessageSender

  ghost predicate Enumerates(order: seq<DeviceId>, devices: set<DeviceId>) {
    && (forall d :: d in order <==> d in devices)
    && (forall i, j :: 0 <= i < j < |order| ==> order[i] != order[j])
  }

  /** The one thing assumed of a hash set: iterating it visits each element once. */
  ghost predicate IteratesSets(env: Env) {
    forall t, s {:trigger env.order(t, s)} :: Enumerates(env.order(t, s), s)
  }

  function Devices(messages: seq<OutgoingPushMessage>): seq<DeviceId> {
    seq(|messages|, i requires 0 <= i < |messages| => messages[i].device)
  }

  /** Both attempts at `d` ended in `SessionNotFound`, the second after deleting the session. */
  ghost predicate FailsTwice(env: Env, call: Call, d: DeviceId, st: Local) {
    var (r1, st1) := CreateMessage(env, call, d, st);
    r1 == Err(SessionNotFound) && env.deletes(st1.clock, d).Deleted? &&
    var (r2, st2) := CreateMessage(env, call, d, st1.Tick().Without(d));
    r2 == Err(SessionNotFound) && env.deletes(st2.clock, d).Deleted?
  }

  lemma MessageForOutcome(env: Env, call: Call, d: DeviceId, st: Local)
    ensures var r := MessageFor(env, call, d, 2, st).0;
            && (r.Ok? && r.value.Some? ==> r.value.value.device == d)
            && (r == Ok(None) <==> FailsTwice(env, call, d, st))
  {
    var (r1, st1) := CreateMessage(env, call, d, st);
    if r1 == Err(SessionNotFound) && env.deletes(st1.clock, d).Deleted? {
      var st1' := st1.Tick().Without(d);
      var (r2, st2) := CreateMessage(env, call, d, st1');
      if r2 == Err(SessionNotFound) && env.deletes(st2.clock, d).Deleted? {
        assert MessageFor(env, call, d, 0, st2.Tick().Without(d)).0 == Ok(None);
      }
      assert MessageFor(env, call, d, 1, st1').0 == Ok(None) <==> FailsTwice(env, call, d, st);
    }
  }

  /** The state in which device `order[i]` had its turn. */
  function StateAt(env: Env, call: Call, order: seq<DeviceId>, i: nat, st: Local): Local
    requires i <= |order|
  {
    FanOut(env, call, order[..i], st).1
  }

  lemma FanOutAppends(env: Env, call: Call, order: seq<DeviceId>, st: Local)
    requires order != [] && FanOut(env, call, order, st).0.Ok?
    ensures var n := |order| - 1;
            var before, st1 := FanOut(env, call, order[..n], st).0, FanOut(env, call, order[..n], st).1;
            && before.Ok?
            && Devices(FanOut(env, call, order, st).0.value)
               == if FailsTwice(env, call, order[n], st1) then Devices(before.value)
                  else Devices(before.value) + [order[n]]
  {
    var n := |order| - 1;
    MessageForOutcome(env, call, order[n], FanOut(env, call, order[..n], st).1);
  }

  /** Which devices of `order` failed twice when they had their turns. */
  ghost function Failures(env: Env, call: Call, order: seq<DeviceId>, st: Local): (r: seq<bool>)
    ensures |r| == |order|
    ensures forall i :: 0 <= i < |order| ==> r[i] == FailsTwice(env, call, order[i], StateAt(env, call, order, i, st))
  {
    seq(|order|, i requires 0 <= i < |order| => FailsTwice(env, call, order[i], StateAt(env, call, order, i, st)))
  }

  lemma EarlierFailures(env: Env, call: Call, order: seq<DeviceId>, n: nat, st: Local)
    requires n <= |order|
    ensures Failures(env, call, order[..n], st) == Failures(env, call, order, st)[..n]
  {
    var earlier, all := Failures(env, call, order[..n], st), Failures(env, call, order, st);
    forall i | 0 <= i < n
      ensures earlier[i] == all[i]
    {
      assert order[..n][..i] == order[..i] && order[..n][i] == order[i];
    }
  }

  /** What was sent leaves out exactly the devices that failed, and names nobody twice. */
  ghost predicate LeavesOut(order: seq<DeviceId>, sent: seq<DeviceId>, failures: seq<bool>)
    requires |failures| == |order|
  {
    && (forall i, j :: 0 <= i < j < |sent| ==> sent[i] != sent[j])
    && (forall d :: d in sent ==> d in order)
    && (forall i :: 0 <= i < |order| ==> (order[i] !in sent <==> failures[i]))
  }

  lemma OneMoreSent(order: seq<DeviceId>, before: seq<DeviceId>, sent: seq<DeviceId>, failures: seq<bool>)
    requires order != [] && forall i, j :: 0 <= i < j < |order| ==> order[i] != order[j]
    requires |failures| == |order| && LeavesOut(order[..|order| - 1], before, failures[..|order| - 1])
    requires sent == if failures[|order| - 1] then before else before + [order[|order| - 1]]
    ensures LeavesOut(order, sent, failures)
  {
    var n := |order| - 1;
    assert order[n] !in order[..n];
    assert order[n] !in before;
    forall i | 0 <= i < n
      ensures order[i] !in sent <==> failures[i]
    {
      assert order[..n][i] == order[i] && failures[..n][i] == failures[i];
    }
  }

  /** Messages follow the iteration order and leave out exactly the devices that failed twice. */
  lemma {:induction false} FanOutExact(env: Env, call: Call, order: seq<DeviceId>, st: Local)
    requires forall i, j :: 0 <= i < j < |order| ==> order[i] != order[j]
    requires FanOut(env, call, order, st).0.Ok?
    ensures LeavesOut(order, Devices(FanOut(env, call, order, st).0.value), Failures(env, call, order, st))
  {
    if order != [] {
      var n := |order| - 1;
      FanOutAppends(env, call, order, st);
      FanOutExact(env, call, order[..n], st);
      EarlierFailures(env, call, order, n, st);
      var before := Devices(FanOut(env, call, order[..n], st).0.value);
      var sent := Devices(FanOut(env, call, order, st).0.value);
      OneMoreSent(order, before, sent, Failures(env, call, order, st));
    }
  }

  /**
    Every attempt addresses each target device at most once, no device outside the targets, and
    each target unless both tries at it failed for want of a session; never the sending device.
   */
  lemma AttemptAddressesTargets(env: Env, call: Call, st: Local)
    requires IteratesSets(env) && EncryptedMessages(env, call, st).0.Ok?
    requires EncryptedMessages(env, call, st).0.value != []
    ensures var sent := Devices(EncryptedMessages(env, call, st).0.value);
            var targets := call.Targets(st.sessions);
            var order := env.order(st.clock, targets);
            && (forall i, j :: 0 <= i < j < |sent| ==> sent[i] != sent[j])
            && (forall d :: d in sent ==> d in targets)
            && (var own := call.recipient == Aci(call.aci) || call.recipient == Pni(call.pni);
                && targets == (st.sessions.Keys + {DEFAULT_DEVICE_ID}) - (if own then {call.device} else {})
                && (own ==> call.device !in sent))
            && (forall i :: 0 <= i < |order| ==>
                  (order[i] !in sent <==> FailsTwice(env, call, order[i], StateAt(env, call, order, i, st.Tick()))))
            && ((forall i :: 0 <= i < |order| ==> !FailsTwice(env, call, order[i], StateAt(env, call, order, i, st.Tick())))
                 <==> (set d | d in sent) == targets)
  {
    var order := env.order(st.clock, call.Targets(st.sessions));
    assert Enumerates(order, call.Targets(st.sessions));
    FanOutExact(env, call, order, st.Tick());
    var sent := Devices(EncryptedMessages(env, call, st).0.value);
    assert forall i :: 0 <= i < |order| ==> order[i] in call.Targets(st.sessions);
    if (set d | d in sent) == call.Targets(st.sessions) {
      forall i | 0 <= i < |order|
        ensures !FailsTwice(env, call, order[i], StateAt(env, call, order, i, st.Tick()))
      {
        assert order[i] in (set d | d in sent);
      }
    }
  }

  // -- sockets --------------------------------------------------------------------

  lemma {:induction false} EstablishSubmitsNothing(env: Env, call: Call, bundles: seq<Bundle>, st: Local)
    ensures Establish(env, call, bundles, st).1.wire == st.wire
    decreases bundles
  {
    if bundles != [] {
      EstablishSubmitsNothing(env, call, bundles[1..], st);
      EstablishSubmitsNothing(env, call, bundles[1..],
                              st.Tick().With(bundles[0].device, Session(bundles[0].registration, true, 0)));
    }
  }

  lemma {:induction false} MessageForSubmitsNothing(env: Env, call: Call, d: DeviceId, tries: nat, st: Local)
    ensures MessageFor(env, call, d, tries, st).1.wire == st.wire
    decreases tries
  {
    if tries > 0 {
      var fetched := env.fetchAll(st.clock, d);
      if fetched.Ok? { EstablishSubmitsNothing(env, call, fetched.value, st.Tick()); }
      var (r, st1) := CreateMessage(env, call, d, st);
      assert st1.wire == st.wire;
      MessageForSubmitsNothing(env, call, d, tries - 1, st1.Tick().Without(d));
    }
  }

  lemma {:induction false} FanOutSubmitsNothing(env: Env, call: Call, order: seq<DeviceId>, st: Local)
    ensures FanOut(env, call, order, st).1.wire == st.wire
  {
    if order != [] {
      FanOutSubmitsNothing(env, call, order[..|order| - 1], st);
      MessageForSubmitsNothing(env, call, order[|order| - 1], 2, FanOut(env, call, order[..|order| - 1], st).1);
    }
  }

  lemma {:induction false} DropSubmitsNothing(env: Env, devices: seq<DeviceId>, st: Local)
    ensures DropSessions(env, devices, st).1.wire == st.wire
    decreases devices
  {
    if devices != [] { DropSubmitsNothing(env, devices[1..], st.Tick().Without(devices[0])); }
  }

  lemma {:induction false} CreateSubmitsNothing(env: Env, devices: seq<DeviceId>, st: Local)
    ensures CreateSessions(env, devices, st).1.wire == st.wire
    decreases devices
  {
    if devices != [] {
      var fetched := env.fetchOne(st.clock, devices[0]);
      if fetched.Ok? {
        CreateSubmitsNothing(env, devices[1..],
                             st.Tick().Tick().With(devices[0], Session(fetched.value.registration, true, 0)));
      }
    }
  }

  lemma RoundSubmitsAtMostOnce(env: Env, call: Call, unidentified: bool, st: Local)
    ensures var (v, st1) := Round(env, call, unidentified, st);
            && (st1.wire == st.wire
                || (|st1.wire| == |st.wire| + 1 && st1.wire[..|st.wire|] == st.wire
                    && st1.wire[|st.wire|].unidentified == unidentified && st1.wire[|st.wire|].messages != []))
            && (v.Retry? ==> st1.wire != st.wire && (v.unidentified ==> unidentified))
            && (v.Return? && v.result.Ok? ==> st1.wire != st.wire && v.result.value.unidentified == unidentified)
  {
    var order := env.order(st.clock, call.Targets(st.sessions));
    FanOutSubmitsNothing(env, call, order, st.Tick());
    var (r, st1) := EncryptedMessages(env, call, st);
    if r.Ok? && r.value != [] {
      var answer := env.submit(st1.clock, Submission(unidentified, r.value));
      var st2 := st1.Tick().(wire := st1.wire + [Submission(unidentified, r.value)]);
      if answer.Err? && answer.error.MismatchedDevices? {
        DropSubmitsNothing(env, answer.error.extra, st2);
        CreateSubmitsNothing(env, answer.error.missing, DropSessions(env, answer.error.extra, st2).1);
      } else if answer.Err? && answer.error.StaleDevices? {
        DropSubmitsNothing(env, answer.error.stale, st2);
      }
    }
  }

  /**
    At most `left` submissions are made and none is empty. Unidentified access, once dropped, is
    never used again, and a success reports the socket that carried the accepted submission.
   */
  lemma {:induction false} SocketsOverARun(env: Env, call: Call, unidentified: bool, left: nat, st: Local)
    ensures var (r, end) := Rounds(env, call, unidentified, left, st);
            && |st.wire| <= |end.wire| <= |st.wire| + left && end.wire[..|st.wire|] == st.wire
            && (forall i :: |st.wire| <= i < |end.wire| ==> end.wire[i].messages != [])
            && (forall i, j :: |st.wire| <= i <= j < |end.wire| && end.wire[j].unidentified ==> end.wire[i].unidentified)
            && (!unidentified ==> forall i :: |st.wire| <= i < |end.wire| ==> !end.wire[i].unidentified)
            && (r.Ok? ==> |end.wire| > |st.wire| && r.value.unidentified == end.wire[|end.wire| - 1].unidentified)
    decreases left
  {
    if left > 0 {
      RoundSubmitsAtMostOnce(env, call, unidentified, st);
      var (v, st1) := Round(env, call, unidentified, st);
      if v.Retry? {
        SocketsOverARun(env, call, v.unidentified, left - 1, st1);
        var end := Rounds(env, call, v.unidentified, left - 1, st1).1;
        assert end.wire[|st.wire|] == end.wire[..|st1.wire|][|st.wire|];
        assert end.wire[..|st.wire|] == end.wire[..|st1.wire|][..|st.wire|];
      }
    }
  }
}
