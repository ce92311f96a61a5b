/**
  The message pipe (src/messagepipe.rs): drains the server's requests from the WebSocket worker,
  acknowledges them and yields what they carry, ending with the reason for the disconnect.
 */
module MessagePipe {
  import opened Prelude
  import opened WebSocketWorker
  import WebSocketRuns

  /** A decoded envelope: opaque here. */
  type Envelope(==)

  datatype Incoming = IncomingEnvelope(envelope: Envelope) | QueueEmpty

  datatype ServiceError = NoBody | Undecodable | WsClosing

  /** A yielded item; `from` is the index of the request it came from. */
  datatype Item = Item(from: nat, result: Result<Incoming, ServiceError>) | Disconnected(reason: DisconnectReason)

  predicate IsSignalServiceEnvelope(r: Request) {
    r.verb == Some("PUT") && r.path == Some("/api/v1/message")
  }

  predicate IsQueueEmpty(r: Request) {
    r.verb == Some("PUT") && r.path == Some("/api/v1/queue/empty")
  }

  /** `WebSocketResponseMessage::from_request` */
  function FromRequest(r: Request): Response {
    Response(r.id, Some(if IsSignalServiceEnvelope(r) || IsQueueEmpty(r) then 200 else 400))
  }

  /**
    What is outside: `decode` is the protobuf decoder; `listens(i)` says whether request `i`'s
    response channel is still open when the pipe gets to it (it closes with the worker);
    `accepts(n)` whether the consumer is still there to take the `n`th item.
   */
  datatype World = World(
    decode: Bytes -> Option<Envelope>,
    listens: nat -> bool,
    accepts: nat -> bool)

  /** Items yielded so far, the responses handed to the worker, and whether the consumer is still there. */
  datatype Progress = Progress(items: seq<Item>, responses: seq<(nat, Response)>, live: bool)
  {
    function Yield(w: World, item: Item): Progress {
      if w.accepts(|items|) then this.(items := items + [item]) else this.(live := false)
    }
  }

  /** The result of `process_request`, and whether a response was handed over. */
  function Process(w: World, i: nat, r: Request): (Result<Option<Incoming>, ServiceError>, bool) {
    if IsSignalServiceEnvelope(r) then
      if r.body.None? then (Err(NoBody), false)
      else
        var envelope := w.decode(r.body.value);
        if envelope.None? then (Err(Undecodable), false)
        else if !w.listens(i) then (Err(WsClosing), false)
        else (Ok(Some(IncomingEnvelope(envelope.value))), true)
    else if !w.listens(i) then (Err(WsClosing), false)
    else (Ok(if IsQueueEmpty(r) then Some(QueueEmpty) else None), true)
  }

  function Handle(w: World, i: nat, r: Request, p: Progress): Progress {
    var (result, responded) := Process(w, i, r);
    var p' := if responded then p.(responses := p.responses + [(i, FromRequest(r))]) else p;
    match result
    case Ok(None) => p'
    case Ok(Some(incoming)) => p'.Yield(w, Item(i, Ok(incoming)))
    case Err(e) => p'.Yield(w, Item(i, Err(e)))
  }

  function Drain(w: World, requests: seq<Request>): Progress {
    if requests == [] then Progress([], [], true)
    else
      var n := |requests| - 1;
      var p := Drain(w, requests[..n]);
      if p.live then Handle(w, n, requests[n], p) else p
  }

  /** `held` is the disconnect receiver, if this pipe holds it, with what the worker sent through it. */
  function Finish(w: World, held: Option<Option<DisconnectReason>>, p: Progress): Progress {
    if p.live && held.Some? then p.Yield(w, Disconnected(held.value.GetOr(Transport))) else p
  }

  class MessagePipe {
    var items: seq<Item>
    var responses: seq<(nat, Response)>

    constructor ()
      ensures items == [] && responses == []
    {
      items, responses := [], [];
    }

    method Send(w: World, item: Item) returns (ok: bool)
      modifies this`items
      ensures ok == w.accepts(|old(items)|) && items == if ok then old(items) + [item] else old(items)
    {
      ok := w.accepts(|items|);
      if ok { items := items + [item]; }
    }

    method ProcessRequest(w: World, i: nat, r: Request) returns (result: Result<Option<Incoming>, ServiceError>)
      modifies this`responses
      ensures result == Process(w, i, r).0
      ensures responses == old(responses) + if Process(w, i, r).1 then [(i, FromRequest(r))] else []
    {
      var response := FromRequest(r);
      var found: Option<Incoming> := None;
      if IsSignalServiceEnvelope(r) {
        if r.body.None? { return Err(NoBody); }
        var envelope := w.decode(r.body.value);
        if envelope.None? { return Err(Undecodable); }
        found := Some(IncomingEnvelope(envelope.value));
      } else if IsQueueEmpty(r) {
        found := Some(QueueEmpty);
      }
      if !w.listens(i) { return Err(WsClosing); }
      responses := responses + [(i, response)];
      return Ok(found);
    }

    method Run(w: World, stream: seq<Request>, held: Option<Option<DisconnectReason>>) returns (live: bool)
      requires items == [] && responses == []
      modifies this
      ensures Progress(items, responses, live) == Finish(w, held, Drain(w, stream))
    {
      for i := 0 to |stream|
        invariant Progress(items, responses, true) == Drain(w, stream[..i])
      {
        assert stream[..i + 1][..i] == stream[..i];
        var result := ProcessRequest(w, i, stream[i]);
        if result.Err? || result.value.Some? {
          var item := if result.Err? then Item(i, Err(result.error)) else Item(i, Ok(result.value.value));
          var sent := Send(w, item);
          if !sent {
            DrainStops(w, stream, i + 1);
            return false;
          }
        }
      }
      assert stream[..|stream|] == stream;
      if held.Some? {
        live := Send(w, Disconnected(held.value.GetOr(Transport)));
        return live;
      }
      return true;
    }
  }

  lemma {:induction false} DrainStops(w: World, requests: seq<Request>, n: nat)
    requires n <= |requests| && !Drain(w, requests[..n]).live
    ensures Drain(w, requests) == Drain(w, requests[..n])
    decreases |requests| - n
  {
    if n < |requests| {
      assert requests[..n + 1][..n] == requests[..n];
      DrainStops(w, requests, n + 1);
    } else {
      assert requests[..n] == requests;
    }
  }

  // -- properties ------------------------------------------------------------------

  /** Items and responses come from distinct requests, in arrival order. */
  ghost predicate InOrder(p: Progress, n: nat) {
    && (forall k :: 0 <= k < |p.items| ==> p.items[k].Item? && p.items[k].from < n)
    && (forall k, l :: 0 <= k < l < |p.items| ==> p.items[k].from < p.items[l].from)
    && (forall k :: 0 <= k < |p.responses| ==> p.responses[k].0 < n)
    && (forall k, l :: 0 <= k < l < |p.responses| ==> p.responses[k].0 < p.responses[l].0)
  }

  /** Request `i`'s envelope or queue-empty marker was yielded. */
  ghost predicate Yields(p: Progress, i: nat) {
    exists k :: 0 <= k < |p.items| && p.items[k].Item? && p.items[k].from == i && p.items[k].result.Ok?
  }

  ghost predicate Acknowledged(p: Progress, i: nat, r: Request) {
    (i, Response(r.id, Some(200))) in p.responses
  }

  /** `x` is what request `r` carried. */
  ghost predicate Carries(w: World, r: Request, x: Incoming) {
    match x
    case IncomingEnvelope(e) => IsSignalServiceEnvelope(r) && r.body.Some? && w.decode(r.body.value) == Some(e)
    case QueueEmpty => IsQueueEmpty(r)
  }

  /** What was yielded for a request is what it carried. */
  ghost predicate Truthful(w: World, requests: seq<Request>, p: Progress) {
    forall k :: 0 <= k < |p.items| && p.items[k].Item? && p.items[k].from < |requests| && p.items[k].result.Ok? ==>
      Carries(w, requests[p.items[k].from], p.items[k].result.value)
  }

  ghost predicate DrainOk(w: World, requests: seq<Request>, p: Progress) {
    InOrder(p, |requests|) && Truthful(w, requests, p) && ResponsesMatch(requests, p)
  }

  ghost predicate ResponsesMatch(requests: seq<Request>, p: Progress) {
    forall k :: 0 <= k < |p.responses| && p.responses[k].0 < |requests| ==>
      p.responses[k].1 == FromRequest(requests[p.responses[k].0])
  }

  /** `items` and perhaps one more, which belongs to request `n`. */
  ghost predicate OneMore(w: World, n: nat, r: Request, items: seq<Item>, items': seq<Item>) {
    || items' == items
    || (&& |items'| == |items| + 1 && items'[..|items|] == items
        && items'[|items|].Item? && items'[|items|].from == n
        && (items'[|items|].result.Ok? ==> Carries(w, r, items'[|items|].result.value)))
  }

  /** What one request adds: at most one item and at most one response, both its own. */
  lemma HandleAppends(w: World, n: nat, r: Request, p: Progress)
    requires p.live
    ensures var p' := Handle(w, n, r, p);
            && OneMore(w, n, r, p.items, p'.items)
            && (p'.responses == p.responses || p'.responses == p.responses + [(n, FromRequest(r))])
  {
  }

  lemma HandleKeepsOk(w: World, requests: seq<Request>, n: nat, p: Progress)
    requires n < |requests| && p.live && DrainOk(w, requests[..n], p)
    ensures DrainOk(w, requests[..n + 1], Handle(w, n, requests[n], p))
  {
    var p' := Handle(w, n, requests[n], p);
    HandleAppends(w, n, requests[n], p);
    assert requests[..n + 1] == requests[..n] + [requests[n]];
    HandleKeepsTruth(w, requests, n, p, p');
  }

  lemma HandleKeepsTruth(w: World, requests: seq<Request>, n: nat, p: Progress, p': Progress)
    requires n < |requests| && Truthful(w, requests[..n], p) && InOrder(p, n)
    requires OneMore(w, n, requests[n], p.items, p'.items)
    ensures Truthful(w, requests[..n + 1], p')
  {
    forall k | 0 <= k < |p'.items| && p'.items[k].Item? && p'.items[k].from < n + 1 && p'.items[k].result.Ok?
      ensures Carries(w, requests[..n + 1][p'.items[k].from], p'.items[k].result.value)
    {
      if k < |p.items| {
        assert p'.items[k] == p'.items[..|p.items|][k] == p.items[k] by {
          if p'.items == p.items {
            assert p'.items[..|p.items|] == p.items;
          }
        }
        assert requests[..n + 1][p.items[k].from] == requests[..n][p.items[k].from];
      }
    }
  }

  lemma {:induction false} DrainIsOk(w: World, requests: seq<Request>)
    ensures DrainOk(w, requests, Drain(w, requests))
  {
    if requests != [] {
      var n := |requests| - 1;
      var p := Drain(w, requests[..n]);
      DrainIsOk(w, requests[..n]);
      if p.live {
        HandleKeepsOk(w, requests, n, p);
        assert requests[..n + 1] == requests;
      } else {
        assert forall i :: 0 <= i < n ==> requests[..n][i] == requests[i];
      }
    }
  }

  /** One more request: its item and its acknowledgement go together, unless the consumer left. */
  lemma HandleKeepsPairing(w: World, n: nat, r: Request, p: Progress)
    requires InOrder(p, n) && p.live
    ensures var p' := Handle(w, n, r, p);
            && (forall i: nat :: i < n ==> (Yields(p', i) <==> Yields(p, i)))
            && (forall i: nat, q :: i < n ==> (Acknowledged(p', i, q) <==> Acknowledged(p, i, q)))
            && (Yields(p', n) ==> Acknowledged(p', n, r))
            && (Acknowledged(p', n, r) && p'.live ==> Yields(p', n))
  {
    var p' := Handle(w, n, r, p);
    assert p'.items == p.items || (|p'.items| == |p.items| + 1 && p'.items[..|p.items|] == p.items
                                   && p'.items[|p.items|].Item? && p'.items[|p.items|].from == n);
    forall i: nat | i < n ensures Yields(p', i) <==> Yields(p, i) {
      if Yields(p, i) {
        var k :| 0 <= k < |p.items| && p.items[k].from == i && p.items[k].result.Ok?;
        assert p'.items[k] == p.items[k];
      }
      if Yields(p', i) {
        var k :| 0 <= k < |p'.items| && p'.items[k].Item? && p'.items[k].from == i && p'.items[k].result.Ok?;
        assert k < |p.items| && p'.items[k] == p.items[k];
      }
    }
    var (result, responded) := Process(w, n, r);
    if p'.live && responded && result.value.Some? {
      assert p'.items[|p.items|].from == n && p'.items[|p.items|].result.Ok?;
    }
  }

  /** Acknowledge and yield: the two happen for the same requests, except for the one at which the consumer left. */
  lemma {:induction false} YieldedIffAcknowledged(w: World, requests: seq<Request>, i: nat)
    requires i < |requests|
    ensures var p := Drain(w, requests);
            && (Yields(p, i) ==> Acknowledged(p, i, requests[i]))
            && (Acknowledged(p, i, requests[i]) && !Yields(p, i) ==>
                  !p.live && forall j :: i < j < |requests| ==> !Acknowledged(p, j, requests[j]))
  {
    var n := |requests| - 1;
    var before := Drain(w, requests[..n]);
    DrainIsOk(w, requests[..n]);
    if i < n { YieldedIffAcknowledged(w, requests[..n], i); }
    assert forall j :: 0 <= j < n ==> requests[..n][j] == requests[j];
    if before.live { HandleKeepsPairing(w, n, requests[n], before); }
  }

  /** While the consumer stays, an envelope or queue-empty marker is yielded iff its request got a 200. */
  lemma LivePipe(w: World, requests: seq<Request>, i: nat)
    requires (forall n {:trigger w.accepts(n)} :: w.accepts(n)) && i < |requests|
    ensures var p := Drain(w, requests);
            p.live && (Yields(p, i) <==> Acknowledged(p, i, requests[i]))
  {
    StaysLive(w, requests);
    YieldedIffAcknowledged(w, requests, i);
  }

  lemma {:induction false} StaysLive(w: World, requests: seq<Request>)
    requires forall n {:trigger w.accepts(n)} :: w.accepts(n)
    ensures Drain(w, requests).live
  {
    if requests != [] { StaysLive(w, requests[..|requests| - 1]); }
  }

  // -- what becomes of every request ---------------------------------------------------

  /** A response to request `i` was handed to the worker. */
  ghost predicate Responded(p: Progress, i: nat) {
    exists k :: 0 <= k < |p.responses| && p.responses[k].0 == i
  }

  /** The failure `e` was yielded for request `i`. */
  ghost predicate Fails(p: Progress, i: nat, e: ServiceError) {
    exists k :: 0 <= k < |p.items| && p.items[k] == Item(i, Err(e))
  }

  predicate NoEnvelopeIn(w: World, r: Request) {
    IsSignalServiceEnvelope(r) && (r.body.None? || w.decode(r.body.value).None?)
  }

  /** Request `i` met with `e` first: a missing body, then one that does not decode, then a worker that has gone. */
  predicate FailsFirst(w: World, i: nat, r: Request, e: ServiceError) {
    match e
    case NoBody => IsSignalServiceEnvelope(r) && r.body.None?
    case Undecodable => IsSignalServiceEnvelope(r) && r.body.Some? && w.decode(r.body.value).None?
    case WsClosing => !NoEnvelopeIn(w, r) && !w.listens(i)
  }

  /** What is due to request `i`, before which `p` holds: a response, an item, or the reason for neither. */
  ghost predicate Due(w: World, i: nat, r: Request, p: Progress, p': Progress) {
    var served := p.live && w.listens(i) && !NoEnvelopeIn(w, r);
    && (Responded(p', i) <==> served)
    && (Yields(p', i) <==> served && (IsSignalServiceEnvelope(r) || IsQueueEmpty(r)) && w.accepts(|p.items|))
    && (forall e :: Fails(p', i, e) <==> p.live && FailsFirst(w, i, r, e) && w.accepts(|p.items|))
  }

  lemma HandleDoesWhatIsDue(w: World, n: nat, r: Request, p: Progress)
    requires InOrder(p, n) && p.live
    ensures Due(w, n, r, p, Handle(w, n, r, p))
  {
    var p' := Handle(w, n, r, p);
    var (result, responded) := Process(w, n, r);
    if responded {
      assert p'.responses[|p.responses|].0 == n;
    }
    if |p'.items| > |p.items| {
      assert p'.items[|p.items|].from == n;
    }
    forall e
      ensures Fails(p', n, e) <==> FailsFirst(w, n, r, e) && w.accepts(|p.items|)
    {
      if FailsFirst(w, n, r, e) && w.accepts(|p.items|) {
        assert p'.items[|p.items|] == Item(n, Err(e));
      }
    }
  }

  lemma NothingForLater(w: World, i: nat, r: Request, p: Progress)
    requires InOrder(p, i)
    ensures !Responded(p, i) && !Yields(p, i) && forall e :: !Fails(p, i, e)
  {
  }

  /** A later request leaves it at that. */
  lemma LaterRequestsLeave(w: World, n: nat, r: Request, p: Progress, i: nat)
    requires p.live && i < n
    ensures var p' := Handle(w, n, r, p);
            && (Responded(p', i) <==> Responded(p, i)) && (Yields(p', i) <==> Yields(p, i))
            && forall e :: Fails(p', i, e) <==> Fails(p, i, e)
  {
    var p' := Handle(w, n, r, p);
    HandleAppends(w, n, r, p);
    assert forall k :: 0 <= k < |p.items| ==> p'.items[k] == p'.items[..|p.items|][k] == p.items[k];
    assert forall k :: 0 <= k < |p.responses| ==> p'.responses[k] == p.responses[k];
    forall e
      ensures Fails(p', i, e) <==> Fails(p, i, e)
    {
      if Fails(p, i, e) {
        var k :| 0 <= k < |p.items| && p.items[k] == Item(i, Err(e));
        assert p'.items[k] == Item(i, Err(e));
      }
    }
    if Yields(p, i) {
      var k :| 0 <= k < |p.items| && p.items[k].Item? && p.items[k].from == i && p.items[k].result.Ok?;
      assert p'.items[k].from == i;
    }
    if Responded(p, i) {
      var k :| 0 <= k < |p.responses| && p.responses[k].0 == i;
      assert p'.responses[k].0 == i;
    }
  }

  /**
    Every request gets what is due to it, whoever leaves when: a response exactly if the worker
    listens and there is no envelope missing; an item exactly if it was so answered and carries
    something; and otherwise its first failure.
   */
  lemma {:induction false} EveryRequestGetsItsDue(w: World, requests: seq<Request>, i: nat)
    requires i < |requests|
    ensures Due(w, i, requests[i], Drain(w, requests[..i]), Drain(w, requests))
  {
    var n := |requests| - 1;
    var p := Drain(w, requests[..n]);
    DrainIsOk(w, requests[..n]);
    if i < n {
      EveryRequestGetsItsDue(w, requests[..n], i);
      assert requests[..n][..i] == requests[..i] && requests[..n][i] == requests[i];
      if p.live {
        LaterRequestsLeave(w, n, requests[n], p, i);
      }
    } else if p.live {
      HandleDoesWhatIsDue(w, n, requests[n], p);
    } else {
      NothingForLater(w, n, requests[n], p);
    }
  }

  /** With a consumer that stays, in terms of the requests alone. */
  lemma EveryRequestIsServed(w: World, requests: seq<Request>, i: nat)
    requires (forall n {:trigger w.accepts(n)} :: w.accepts(n)) && i < |requests|
    ensures var p, r := Drain(w, requests), requests[i];
            var served := w.listens(i) && !NoEnvelopeIn(w, r);
            && (Responded(p, i) <==> served)
            && (Yields(p, i) <==> served && (IsSignalServiceEnvelope(r) || IsQueueEmpty(r)))
            && forall e :: Fails(p, i, e) <==> FailsFirst(w, i, r, e)
  {
    StaysLive(w, requests[..i]);
    EveryRequestGetsItsDue(w, requests, i);
  }

  /** The pipe stops draining exactly when an item is offered to a consumer that has left. */
  lemma {:induction false} DrainsUntilRefused(w: World, requests: seq<Request>)
    ensures var p := Drain(w, requests);
            && (forall k :: 0 <= k < |p.items| ==> w.accepts(k))
            && (!p.live ==> !w.accepts(|p.items|))
  {
    if requests != [] {
      DrainsUntilRefused(w, requests[..|requests| - 1]);
    }
  }

  /** `Disconnected` comes once and last, exactly if the pipe held the receiver and the consumer stayed. */
  lemma DisconnectedOnceAndLast(w: World, requests: seq<Request>, held: Option<Option<DisconnectReason>>)
    ensures var p, end := Drain(w, requests), Finish(w, held, Drain(w, requests));
            && (forall k :: 0 <= k < |end.items| - 1 ==> !end.items[k].Disconnected?)
            && (held.None? ==> end == p && forall k :: 0 <= k < |end.items| ==> !end.items[k].Disconnected?)
            && (held.Some? && end.live ==>
                  end.items == p.items + [Disconnected(if held.value.Some? then held.value.value else Transport)])
            && (!end.live ==> end.items == p.items && forall k :: 0 <= k < |end.items| ==> !end.items[k].Disconnected?)
  {
    DrainIsOk(w, requests);
  }

  // -- pipe and worker together --------------------------------------------------------

  /** Every response the worker was given came from a pipe that drained what the worker passed on. */
  ghost predicate Fed(w: World, states: seq<Worker>, events: seq<Event>) {
    WebSocketRuns.IsRun(states, events) &&
    forall k {:trigger events[k]} :: 0 <= k < |events| && events[k].Responder? && events[k].response.Some? ==>
      (events[k].i, events[k].response.value) in Drain(w, states[k].incoming).responses
  }

  /**
    The last item of a pipe that held the receiver tells why the worker stopped: the reason of the
    event at which it did, or `Transport` where that event recorded none.
   */
  lemma DisconnectedTellsWhy(w: World, states: seq<Worker>, events: seq<Event>) returns (i: nat)
    requires Fed(w, states, events) && states[|events|].status.Exited?
    requires Finish(w, Some(states[|events|].reason), Drain(w, states[|events|].incoming)).live
    ensures var end := Finish(w, Some(states[|events|].reason), Drain(w, states[|events|].incoming));
            && i < |events| && states[i].status.Running? && states[i + 1].status.Exited?
            && end.items != [] && end.items[|end.items| - 1]
                                  == Disconnected(WebSocketRuns.ReasonFor(states[i], events[i]).GetOr(Transport))
  {
    i := WebSocketRuns.ReasonSaysWhatHappened(states, events, |events|);
    DisconnectedOnceAndLast(w, states[|events|].incoming, Some(states[|events|].reason));
  }

  /** A response handed over was made from the request it belongs to. */
  lemma ResponsesMatchRequests(w: World, requests: seq<Request>, i: nat, response: Response)
    requires (i, response) in Drain(w, requests).responses
    ensures i < |requests| && response == FromRequest(requests[i])
  {
    DrainIsOk(w, requests);
    var p := Drain(w, requests);
    var k :| 0 <= k < |p.responses| && p.responses[k] == (i, response);
  }

  /**
    End to end: a response on the wire is the one made from the `incoming`th request frame to
    arrive, so it carries that request's id, and status 200 iff that request was an envelope or
    queue-empty marker.
   */
  lemma {:induction false} ResponsesOnTheWire(w: World, states: seq<Worker>, events: seq<Event>, n: nat, k: nat)
    requires Fed(w, states, events) && n < |states| && k < |states[n].wire| && states[n].wire[k].SentResponse?
    ensures var i, arrived := states[n].wire[k].incoming, states[n].incoming;
            && i < |arrived|
            && states[n].wire[k].response
               == Response(arrived[i].id,
                           Some(if arrived[i].verb == Some("PUT")
                                   && (arrived[i].path == Some("/api/v1/message") || arrived[i].path == Some("/api/v1/queue/empty"))
                                then 200 else 400))
    ensures states[n].incoming == WebSocketRuns.RequestsIn(events[..n])
  {
    WebSocketRuns.ServerRequests(states, events, n);
    var s, e := states[n - 1], events[n - 1];
    assert WebSocketRuns.Steps(states, events, n - 1);
    WireGrows(s, e);
    if k < |s.wire| {
      ResponsesOnTheWire(w, states, events, n - 1, k);
    } else {
      ResponsesMatchRequests(w, s.incoming, e.i, e.response.value);
    }
  }

  lemma WireGrows(s: Worker, e: Event)
    requires Enabled(s, e)
    ensures var s' := Step(s, e);
            && s.wire <= s'.wire && s.incoming <= s'.incoming && |s'.wire| <= |s.wire| + 1
            && (|s'.wire| > |s.wire| && s'.wire[|s.wire|].SentResponse? ==>
                  e.Responder? && e.response.Some? && s'.wire[|s.wire|] == SentResponse(e.i, e.response.value))
  {
  }
}
