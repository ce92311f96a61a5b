/**
  What the outcome of a send says, whoever the servers are (src/sender.rs): the last answer decides,
  and every error has its cause in something that was answered.
 */
module SendAnswers {
  import opened Prelude
  import opened MessageSender
  import opened SendFanOut

  // -- the last answer decides -----------------------------------------------------------

  /** What an answer to a submission makes of the whole send, unless it asks for another try. */
  function Final(answer: Result<bool, ServiceError>, unidentified: bool): Option<Result<SentMessage, SendError>> {
    match answer
    case Ok(needsSync) => Some(Ok(SentMessage(unidentified, needsSync)))
    case Err(MismatchedDevices(_, _)) => None
    case Err(StaleDevices(_)) => None
    case Err(Unauthorized) => if unidentified then None else Some(Err(Service(Unauthorized)))
    case Err(ProofRequiredError) => Some(Err(ProofRequired))
    case Err(UnregisteredRecipient) => Some(Err(NotFound))
    case Err(NotFoundError) => Some(Err(Service(NotFoundError)))
    case Err(OtherService(code)) => Some(Err(Service(OtherService(code))))
  }

  /** The answer to the submission of one pass, if it got as far. */
  lemma PassAnswer(env: Env, call: Call, unidentified: bool, st: Local) returns (t: nat)
    ensures var (v, st1) := Round(env, call, unidentified, st);
            if st1.wire == st.wire then v.Return? && v.result.Err?
            else
              && |st1.wire| == |st.wire| + 1 && st1.wire[..|st.wire|] == st.wire && st1.wire[|st.wire|].unidentified == unidentified
              && var final := Final(env.submit(t, st1.wire[|st.wire|]), unidentified);
                 if final.Some? then v == Return(final.value) else v.Retry? || v.result.Err?
  {
    RoundSubmitsAtMostOnce(env, call, unidentified, st);
    var (r, st1) := EncryptedMessages(env, call, st);
    FanOutSubmitsNothing(env, call, env.order(st.clock, call.Targets(st.sessions)), st.Tick());
    t := st1.clock;
    if r.Ok? && r.value != [] {
      WireAfterReaction(env, env.submit(t, Submission(unidentified, r.value)), unidentified,
                        st1.Tick().(wire := st1.wire + [Submission(unidentified, r.value)]));
    }
  }

  lemma WireAfterReaction(env: Env, answer: Result<bool, ServiceError>, unidentified: bool, st: Local)
    ensures React(env, answer, unidentified, st).1.wire == st.wire
  {
    if answer.Err? && answer.error.MismatchedDevices? {
      DropSubmitsNothing(env, answer.error.extra, st);
      CreateSubmitsNothing(env, answer.error.missing, DropSessions(env, answer.error.extra, st).1);
    } else if answer.Err? && answer.error.StaleDevices? {
      DropSubmitsNothing(env, answer.error.stale, st);
    }
  }

  /** `answers` are what the server said to `sent`, one by one, and `r` is what they make of the send. */
  ghost predicate Decide(env: Env, sent: seq<Submission>, ticks: seq<nat>, r: Result<SentMessage, SendError>) {
    && |ticks| == |sent|
    && (forall i :: 0 <= i < |sent| - 1 ==> Final(env.submit(ticks[i], sent[i]), sent[i].unidentified).None?)
    && (if sent == [] then r.Err?
        else
          var n := |sent| - 1;
          var final := Final(env.submit(ticks[n], sent[n]), sent[n].unidentified);
          if final.Some? then r == final.value else r.Err?)
  }

  lemma DecideMore(env: Env, first: Submission, t: nat, later: seq<Submission>, ticks: seq<nat>, r: Result<SentMessage, SendError>)
    requires Decide(env, later, ticks, r) && Final(env.submit(t, first), first.unidentified).None?
    ensures Decide(env, [first] + later, [t] + ticks, r)
  {
  }

  /**
    Over the whole run: every answer but the last one asked for another try, and the last one is the
    outcome if it is final. So a success carries what the server said of it, and a final error ends
    the run with the submission it answers.
   */
  lemma {:induction false} LastAnswerDecides(env: Env, call: Call, unidentified: bool, left: nat, st: Local) returns (ticks: seq<nat>)
    ensures var (r, end) := Rounds(env, call, unidentified, left, st);
            && |end.wire| >= |st.wire| && end.wire[..|st.wire|] == st.wire
            && Decide(env, end.wire[|st.wire|..], ticks, r)
    decreases left
  {
    ticks := [];
    if left > 0 {
      var v, st1 := Round(env, call, unidentified, st).0, Round(env, call, unidentified, st).1;
      var t := PassAnswer(env, call, unidentified, st);
      RoundSubmitsAtMostOnce(env, call, unidentified, st);
      LoopStep(env, call, unidentified, left, st);
      if v.Return? {
        if st1.wire != st.wire {
          ticks := [t];
          assert st1.wire[|st.wire|..] == [st1.wire[|st.wire|]];
        }
      } else {
        var later := LastAnswerDecides(env, call, v.unidentified, left - 1, st1);
        var end := Rounds(env, call, v.unidentified, left - 1, st1).1;
        DecideMore(env, st1.wire[|st.wire|], t, end.wire[|st1.wire|..], later, Rounds(env, call, v.unidentified, left - 1, st1).0);
        WireSplits(st.wire, st1.wire, end.wire);
        ticks := [t] + later;
      }
    }
  }

  lemma WireSplits(a: seq<Submission>, b: seq<Submission>, c: seq<Submission>)
    requires |b| == |a| + 1 && b[..|a|] == a && |c| >= |b| && c[..|b|] == b
    ensures c[..|a|] == a && c[|a|..] == [b[|a|]] + c[|b|..]
  {
    assert c[|a|] == c[..|b|][|a|];
    assert c[..|a|] == c[..|b|][..|a|];
  }

  lemma LoopStep(env: Env, call: Call, unidentified: bool, left: nat, st: Local)
    requires left > 0
    ensures var (v, st1) := Round(env, call, unidentified, st);
            Rounds(env, call, unidentified, left, st)
            == if v.Return? then (v.result, st1) else Rounds(env, call, v.unidentified, left - 1, st1)
  {
  }

  /** A success reports the socket and the need for a transcript as the server accepted the last submission. */
  lemma SuccessIsTheServers(env: Env, call: Call, unidentified: bool, left: nat, st: Local) returns (t: nat)
    requires Rounds(env, call, unidentified, left, st).0.Ok?
    ensures var (r, end) := Rounds(env, call, unidentified, left, st);
            && |end.wire| > |st.wire|
            && var last := end.wire[|end.wire| - 1];
               env.submit(t, last) == Ok(r.value.needsSync) && last.unidentified == r.value.unidentified
  {
    var ticks := LastAnswerDecides(env, call, unidentified, left, st);
    var end := Rounds(env, call, unidentified, left, st).1;
    var sent := end.wire[|st.wire|..];
    t := ticks[|sent| - 1];
    assert sent[|sent| - 1] == end.wire[|end.wire| - 1];
  }
}
