/** What the WebSocket worker puts on the wire over a run, and what makes it stop (src/websocket/mod.rs). */
module WebSocketWire {
  import opened Prelude
  import opened WebSocketWorker
  import opened WebSocketRuns

  // -- requests -----------------------------------------------------------------------

  /** The application's requests among what went out, in order. */
  function RequestsSent(wire: seq<Sent>): seq<Sent> {
    if wire == [] then []
    else
      var last := wire[|wire| - 1];
      RequestsSent(wire[..|wire| - 1]) + if last.SentRequest? then [last] else []
  }

  lemma RequestsSentNext(wire: seq<Sent>, x: Sent)
    ensures RequestsSent(wire + [x]) == RequestsSent(wire) + if x.SentRequest? then [x] else []
  {
    assert (wire + [x])[..|wire|] == wire;
  }

  /** Every request that was taken, under the id it waits or waited under. */
  function Taken(wireIds: seq<nat>): (r: seq<Sent>)
    ensures |r| == |wireIds| && forall h :: 0 <= h < |r| ==> r[h] == SentRequest(wireIds[h], h)
  {
    seq(|wireIds|, h requires 0 <= h < |wireIds| => SentRequest(wireIds[h], h))
  }

  lemma TakenNext(wireIds: seq<nat>, id: nat)
    ensures Taken(wireIds + [id]) == Taken(wireIds) + [SentRequest(id, |wireIds|)]
  {
  }

  /** All of them went out, in the order in which they were taken; or all but the one whose sending failed. */
  ghost predicate WireOk(s: Worker) {
    var sent, taken := RequestsSent(s.wire), Taken(s.wireIds);
    sent == taken || (s.status.Exited? && taken != [] && sent == taken[..|taken| - 1])
  }

  lemma StepKeepsWire(s: Worker, e: Event)
    requires Enabled(s, e) && WireOk(s)
    ensures WireOk(Step(s, e))
  {
    var s' := Step(s, e);
    if e.AppRequest? {
      TakenNext(s.wireIds, WireId(s, e.drawn));
      RequestsSentNext(s.wire, SentRequest(WireId(s, e.drawn), |s.wireIds|));
    } else {
      OtherStepsOnTheWire(s, e);
      if s'.wire != s.wire {
        RequestsSentNext(s.wire, s'.wire[|s.wire|]);
        assert s'.wire == s.wire + [s'.wire[|s.wire|]];
      }
    }
  }

  lemma OtherStepsOnTheWire(s: Worker, e: Event)
    requires Enabled(s, e) && !e.AppRequest?
    ensures var s' := Step(s, e);
            && s'.wireIds == s.wireIds && (s.status.Exited? ==> s'.status == s.status)
            && (s'.wire == s.wire || (|s'.wire| == |s.wire| + 1 && s'.wire[..|s.wire|] == s.wire && !s'.wire[|s.wire|].SentRequest?))
  {
  }

  /**
    The frame of a request carries the id under which its caller waits. While the worker runs every
    request it has taken is on the wire exactly once, in the order of the channel.
   */
  lemma {:induction false} RequestsGoOutUnderTheirIds(states: seq<Worker>, events: seq<Event>, i: nat)
    requires IsRun(states, events) && i < |states|
    ensures WireOk(states[i])
    ensures states[i].status.Running? ==> RequestsSent(states[i].wire) == Taken(states[i].wireIds)
  {
    if i > 0 {
      RequestsGoOutUnderTheirIds(states, events, i - 1);
      assert Steps(states, events, i - 1);
      StepKeepsWire(states[i - 1], events[i - 1]);
    } else {
      assert Taken([]) == [];
    }
  }

  /** The next id is the one the caller asked for, unless it is pending or there is none: then it is the one drawn. */
  lemma WhichIdIsTaken(states: seq<Worker>, events: seq<Event>, i: nat)
    requires IsRun(states, events) && i < |events| && events[i].AppRequest?
    ensures var s, h := states[i], |states[i].wireIds|;
            && h < |s.submitted| && |states[i + 1].wireIds| == h + 1 && states[i + 1].wireIds[..h] == s.wireIds
            && var id := states[i + 1].wireIds[h];
            && id !in s.outgoing
            && (id == events[i].drawn || s.submitted[h] == Some(id))
            && (s.submitted[h].Some? && s.submitted[h].value != id ==> s.submitted[h].value in s.outgoing)
  {
    assert Steps(states, events, i);
  }

  /** The end of the application's requests is the end of all of them: each has been taken. */
  lemma NoneIsLeftBehind(states: seq<Worker>, events: seq<Event>, i: nat)
    requires IsRun(states, events) && i < |events| && events[i].AppClosed?
    ensures |RequestsSent(states[i].wire)| == |states[i].submitted|
  {
    assert Steps(states, events, i);
    RequestsGoOutUnderTheirIds(states, events, i);
  }

  // -- keep-alives ----------------------------------------------------------------------

  /**
    A tick with nothing outstanding makes exactly the id it drew outstanding, and puts a keep-alive
    under that id on the wire; if that fails the worker stops. No keep-alive goes out otherwise.
   */
  lemma KeepAlivesGoOut(states: seq<Worker>, events: seq<Event>, i: nat)
    requires IsRun(states, events) && i < |events|
    ensures var s, e, s' := states[i], events[i], states[i + 1];
            if e.Tick? && s.keepAlive == {} then
              && s'.keepAlive == {e.drawn}
              && if e.sent then s'.status.Running? && s'.wire == s.wire + [SentKeepAlive(e.drawn)]
                 else s'.status == Exited(true) && s'.wire == s.wire
            else
              s'.wire == s.wire || (|s'.wire| == |s.wire| + 1 && s'.wire[..|s.wire|] == s.wire && !s'.wire[|s.wire|].SentKeepAlive?)
  {
    assert Steps(states, events, i);
    var s, e := states[i], events[i];
    if !e.Tick? {
      OnlyTicksKeepAlive(s, e);
    }
  }

  lemma OnlyTicksKeepAlive(s: Worker, e: Event)
    requires Enabled(s, e) && !e.Tick?
    ensures var s' := Step(s, e);
            s'.wire == s.wire || (|s'.wire| == |s.wire| + 1 && s'.wire[..|s.wire|] == s.wire && !s'.wire[|s.wire|].SentKeepAlive?)
  {
  }

  // -- responses --------------------------------------------------------------------------

  /** A consumer's answer goes out as it is, under the request it is for; one that is never given sends nothing. */
  lemma AnswersGoOut(states: seq<Worker>, events: seq<Event>, i: nat)
    requires IsRun(states, events) && i < |events| && events[i].Responder?
    ensures var s, e, s' := states[i], events[i], states[i + 1];
            && e.i in s.responders && s'.responders == s.responders - {e.i}
            && s'.wire == s.wire + (if e.response.Some? && e.sent then [SentResponse(e.i, e.response.value)] else [])
  {
    assert Steps(states, events, i);
  }

  /** Request `r` of the server has had its answer, or been dropped, before event `n`. */
  predicate Settled(events: seq<Event>, n: nat, r: nat)
    requires n <= |events|
  {
    exists m :: 0 <= m < n && events[m].Responder? && events[m].i == r
  }

  lemma SettledNext(events: seq<Event>, n: nat, r: nat)
    requires n < |events|
    ensures Settled(events, n + 1, r) <==> Settled(events, n, r) || (events[n].Responder? && events[n].i == r)
  {
  }

  /** Answers are awaited for exactly the requests handed on and not settled yet. */
  lemma {:induction false} AwaitedAreTheUnsettled(states: seq<Worker>, events: seq<Event>, n: nat, r: nat)
    requires IsRun(states, events) && n < |states|
    ensures r in states[n].responders <==> r < |states[n].incoming| && !Settled(events, n, r)
    ensures Settled(events, n, r) ==> r < |states[n].incoming|
  {
    if n > 0 {
      AwaitedAreTheUnsettled(states, events, n - 1, r);
      assert Steps(states, events, n - 1);
      SettledNext(events, n - 1, r);
      HowAwaited(states[n - 1], events[n - 1], r);
    }
  }

  lemma HowAwaited(s: Worker, e: Event, r: nat)
    requires Enabled(s, e)
    ensures var s' := Step(s, e);
            && |s.incoming| <= |s'.incoming| <= |s.incoming| + 1
            && (r in s'.responders <==>
                  if e.Responder? then r in s.responders && r != e.i
                  else r in s.responders || |s.incoming| == r < |s'.incoming|)
            && (e.Responder? ==> e.i in s.responders && |s'.incoming| == |s.incoming|)
  {
  }

  // -- stopping -----------------------------------------------------------------------------

  /** A frame that the worker cannot do anything with: a request nobody takes included. */
  predicate Unusable(frame: Option<Frame>, consumer: bool) {
    || frame.None? || frame.value.kind.UnknownType?
    || (frame.value.kind.RequestType? && (frame.value.request.None? || !consumer))
    || (frame.value.kind.ResponseType? && frame.value.response.None?)
  }

  /** The answer to a keep-alive, with a status outside 200 to 299 once cut to 16 bits. */
  predicate BadKeepAliveAnswer(s: Worker, e: Event) {
    && IsResponse(e) && e.frame.value.response.value.id.Some?
    && e.frame.value.response.value.id.value !in s.outgoing && e.frame.value.response.value.id.value in s.keepAlive
    && e.frame.value.response.value.status.GetOr(0) % 0x1_0000 / 100 != 2
  }

  /** What a running worker does not survive. */
  predicate Stops(s: Worker, e: Event) {
    || e.AppClosed? || e.Close? || e.SocketError? || e.SocketEnd?
    || (e.Tick? && (s.keepAlive != {} || !e.sent))
    || (e.AppRequest? && !e.sent)
    || (e.Responder? && e.response.Some? && !e.sent)
    || (e.Binary? && Unusable(e.frame, e.consumer))
    || BadKeepAliveAnswer(s, e)
  }

  /** Orderly ends: the timer's, the application's and the server's. */
  predicate Orderly(e: Event) {
    e.Tick? || e.AppClosed? || e.Close?
  }

  lemma StepStopsIff(s: Worker, e: Event)
    requires Enabled(s, e) && s.status.Running?
    ensures Step(s, e).status == if Stops(s, e) then Exited(Orderly(e)) else Running
  {
    if e.Binary? {
      if IsResponse(e) {
        assert Step(s, e) == OnResponse(s, e.frame.value.response.value);
      }
    }
  }

  /** The worker runs on exactly until the first event that stops it, and how it ends is how that event ends it. */
  lemma {:induction false} RunsUntilStopped(states: seq<Worker>, events: seq<Event>, n: nat)
    requires IsRun(states, events) && n < |states|
    ensures states[n].status.Running? <==> forall i :: 0 <= i < n ==> !Stops(states[i], events[i])
    ensures forall i :: 0 <= i < n && Stops(states[i], events[i]) ==>
              states[n].status == Exited(Orderly(events[i]))
  {
    if n > 0 {
      RunsUntilStopped(states, events, n - 1);
      assert Steps(states, events, n - 1);
      var s, e := states[n - 1], events[n - 1];
      if s.status.Running? {
        StepStopsIff(s, e);
      } else {
        assert e.Submit?;
      }
    }
  }
}
