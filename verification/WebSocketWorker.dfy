/**
  The WebSocket worker (src/websocket/mod.rs): one task that multiplexes application requests,
  server requests, keep-alives and responses over one socket. Every `select!` arm is a method of
  the worker and a step of the state machine that WebSocketRuns reasons about.
 */
module WebSocketWorker {
  import opened Prelude

  datatype Request = Request(id: Option<nat>, verb: Option<string>, path: Option<string>, body: Option<Bytes>)

  datatype Response = Response(id: Option<nat>, status: Option<nat>)

  datatype FrameType = UnknownType | RequestType | ResponseType

  datatype Frame = Frame(kind: FrameType, request: Option<Request>, response: Option<Response>)

  datatype DisconnectReason =
    | ConnectedElsewhere
    | ConnectionInvalidated
    | KeepaliveTimeout
    | ServerClosed(code: nat)
    | Transport

  function FromClose(code: nat): DisconnectReason {
    if code == 4409 then ConnectedElsewhere
    else if code == 4401 then ConnectionInvalidated
    else ServerClosed(code)
  }

  /** What went out on the socket; `handle` and `incoming` say on whose behalf. */
  datatype Sent =
    | SentRequest(id: nat, handle: nat)
    | SentKeepAlive(id: nat)
    | SentResponse(incoming: nat, response: Response)

  datatype Status = Running | Exited(clean: bool)

  /**
    `submitted` are the ids on the application's requests so far; a request's index is its handle
    and `wireIds[h]` the id it went out under, for the requests the worker has taken.
    `outgoing` maps wire ids to the handles still waiting; `answered` holds delivered responses.
    `incoming` are the server's requests handed to the consumer, `responders` those not yet answered.
   */
  datatype Worker = Worker(
    submitted: seq<Option<nat>>,
    wireIds: seq<nat>,
    outgoing: map<nat, nat>,
    answered: map<nat, Response>,
    keepAlive: set<nat>,
    incoming: seq<Request>,
    responders: set<nat>,
    reason: Option<DisconnectReason>,
    wire: seq<Sent>,
    status: Status)
  {
    /** `set_disconnect_reason`: only the first reason is kept. */
    function WithReason(r: DisconnectReason): Worker {
      if reason.None? then this.(reason := Some(r)) else this
    }

    function Exit(clean: bool): Worker { this.(status := Exited(clean)) }

    /** A failed send ends the worker; `clean` tells `break` from `?`. */
    function Send(s: Sent, ok: bool, clean: bool): Worker {
      if ok then this.(wire := wire + [s]) else Exit(clean)
    }
  }

  datatype Event =
    | Submit(id: Option<nat>)
    | Tick(drawn: nat, sent: bool)
    | AppRequest(drawn: nat, sent: bool)
    | AppClosed
    | Binary(frame: Option<Frame>, consumer: bool)
    | Close(code: nat)
    | SocketError
    | SocketEnd
    | Ignored
    | Responder(i: nat, response: Option<Response>, sent: bool)

  predicate Enabled(s: Worker, e: Event) {
    match e
    case Submit(_) => true
    case Tick(drawn, _) => s.status.Running? && drawn !in s.outgoing
    case AppRequest(drawn, _) => s.status.Running? && |s.wireIds| < |s.submitted| && drawn !in s.outgoing
    case AppClosed => s.status.Running? && |s.wireIds| == |s.submitted|
    case Responder(i, _, _) => s.status.Running? && i in s.responders
    case _ => s.status.Running?
  }

  /** The id an application request goes out under: its own unless that is taken. */
  function WireId(s: Worker, drawn: nat): nat
    requires |s.wireIds| < |s.submitted|
  {
    var id := s.submitted[|s.wireIds|];
    if id.Some? && id.value !in s.outgoing then id.value else drawn
  }

  /** `StatusCode::from_u16(status as u16)`: truncated to 16 bits, three digits required. */
  predicate Success(response: Response) {
    var status := (match response.status case Some(n) => n case None => 0) % 0x1_0000;
    200 <= status < 300
  }

  function OnResponse(s: Worker, response: Response): Worker {
    match response.id
    case None => s
    case Some(id) =>
      if id in s.outgoing then
        s.(outgoing := s.outgoing - {id}, answered := s.answered[s.outgoing[id] := response])
      else if id in s.keepAlive then
        var s' := s.(keepAlive := s.keepAlive - {id});
        if Success(response) then s' else s'.Exit(false)
      else s
  }

  function OnFrame(s: Worker, frame: Option<Frame>, consumer: bool): Worker {
    match frame
    case None => s.Exit(false)
    case Some(Frame(UnknownType, _, _)) => s.Exit(false)
    case Some(Frame(RequestType, None, _)) => s.Exit(false)
    case Some(Frame(RequestType, Some(request), _)) =>
      if consumer then s.(incoming := s.incoming + [request], responders := s.responders + {|s.incoming|})
      else s.Exit(false)
    case Some(Frame(ResponseType, _, None)) => s.Exit(false)
    case Some(Frame(ResponseType, _, Some(response))) => OnResponse(s, response)
  }

  function OnTick(s: Worker, drawn: nat, sent: bool): Worker {
    if s.keepAlive != {} then s.WithReason(KeepaliveTimeout).(keepAlive := {}).Exit(true)
    else s.(keepAlive := s.keepAlive + {drawn}).Send(SentKeepAlive(drawn), sent, true)
  }

  function OnAppRequest(s: Worker, drawn: nat, sent: bool): Worker
    requires |s.wireIds| < |s.submitted|
  {
    var id, handle := WireId(s, drawn), |s.wireIds|;
    s.(wireIds := s.wireIds + [id], outgoing := s.outgoing[id := handle]).Send(SentRequest(id, handle), sent, false)
  }

  function OnResponder(s: Worker, i: nat, response: Option<Response>, sent: bool): Worker {
    var s' := s.(responders := s.responders - {i});
    if response.Some? then s'.Send(SentResponse(i, response.value), sent, false) else s'
  }

  function Step(s: Worker, e: Event): Worker
    requires Enabled(s, e)
  {
    match e
    case Submit(id) => s.(submitted := s.submitted + [id])
    case Tick(drawn, sent) => OnTick(s, drawn, sent)
    case AppRequest(drawn, sent) => OnAppRequest(s, drawn, sent)
    case AppClosed => s.Exit(true)
    case Binary(frame, consumer) => OnFrame(s, frame, consumer)
    case Close(code) => s.WithReason(FromClose(code)).Exit(true)
    case SocketError => s.WithReason(Transport).Exit(false)
    case SocketEnd => s.WithReason(Transport).Exit(false)
    case Ignored => s
    case Responder(i, response, sent) => OnResponder(s, i, response, sent)
  }

  const START := Worker([], [], map[], map[], {}, [], {}, None, [], Running)

  // -- the worker itself -------------------------------------------------------

  class SignalWebSocketProcess {
    var outgoingRequests: map<nat, nat>
    var outgoingKeepAliveSet: set<nat>
    var outgoingResponses: set<nat>
    var disconnectReason: Option<DisconnectReason>
    // both ends of the channels, and what became of them
    var submitted: seq<Option<nat>>
    var wireIds: seq<nat>
    var answered: map<nat, Response>
    var incoming: seq<Request>
    var wire: seq<Sent>
    var status: Status

    constructor ()
      ensures State() == START
    {
      outgoingRequests, outgoingKeepAliveSet, outgoingResponses, disconnectReason := map[], {}, {}, None;
      submitted, wireIds, answered, incoming, wire, status := [], [], map[], [], [], Running;
    }

    function State(): Worker
      reads this
    {
      Worker(submitted, wireIds, outgoingRequests, answered, outgoingKeepAliveSet, incoming, outgoingResponses,
             disconnectReason, wire, status)
    }

    method SetDisconnectReason(r: DisconnectReason)
      modifies this`disconnectReason
      ensures State() == old(State()).WithReason(r)
    {
      if disconnectReason.None? { disconnectReason := Some(r); }
    }

    /** Draws until an id is free; `n` is some draw that is. */
    method NextRequestId(draw: nat -> nat, ghost n: nat) returns (id: nat)
      requires draw(n) !in outgoingRequests
      ensures id !in outgoingRequests
      ensures exists k: nat :: k <= n && draw(k) == id && forall j: nat :: j < k ==> draw(j) in outgoingRequests
    {
      var k: nat := 0;
      id := draw(0);
      while id in outgoingRequests
        invariant k <= n && id == draw(k)
        invariant forall j: nat :: j < k ==> draw(j) in outgoingRequests
        decreases n - k
      {
        k := k + 1;
        id := draw(k);
      }
    }

    /** The keep-alive timer fired. */
    method OnKeepAliveTick(drawn: nat, sent: bool)
      requires Enabled(State(), Tick(drawn, sent))
      modifies this
      ensures State() == Step(old(State()), Tick(drawn, sent))
    {
      if outgoingKeepAliveSet != {} {
        SetDisconnectReason(KeepaliveTimeout);
        outgoingKeepAliveSet := {};
        status := Exited(true);
        return;
      }
      outgoingKeepAliveSet := outgoingKeepAliveSet + {drawn};
      if !sent { status := Exited(true); return; }
      wire := wire + [SentKeepAlive(drawn)];
    }

    /** The next request of the application is taken from its channel. */
    method OnNextRequest(drawn: nat, sent: bool)
      requires Enabled(State(), AppRequest(drawn, sent))
      modifies this
      ensures State() == Step(old(State()), AppRequest(drawn, sent))
    {
      var responder := |wireIds|;
      var id := submitted[responder];
      var wireId := if id.Some? && id.value !in outgoingRequests then id.value else drawn;
      wireIds := wireIds + [wireId];
      outgoingRequests := outgoingRequests[wireId := responder];
      if !sent { status := Exited(false); return; }
      wire := wire + [SentRequest(wireId, responder)];
    }

    method ProcessFrame(frame: Option<Frame>, consumer: bool)
      requires Enabled(State(), Binary(frame, consumer))
      modifies this
      ensures State() == Step(old(State()), Binary(frame, consumer))
    {
      match frame {
        case Some(Frame(RequestType, Some(request), _)) =>
          if !consumer { status := Exited(false); return; }
          outgoingResponses := outgoingResponses + {|incoming|};
          incoming := incoming + [request];
        case Some(Frame(ResponseType, _, Some(response))) =>
          if response.id.Some? {
            var id := response.id.value;
            if id in outgoingRequests {
              var responder := outgoingRequests[id];
              outgoingRequests := outgoingRequests - {id};
              answered := answered[responder := response];
            } else if id in outgoingKeepAliveSet {
              outgoingKeepAliveSet := outgoingKeepAliveSet - {id};
              if !Success(response) { status := Exited(false); }
            }
          }
        case _ => status := Exited(false);
      }
    }

    method OnClose(code: nat)
      requires Enabled(State(), Close(code))
      modifies this
      ensures State() == Step(old(State()), Close(code))
    {
      SetDisconnectReason(FromClose(code));
      status := Exited(true);
    }

    method OnSocketLost(e: Event)
      requires (e.SocketError? || e.SocketEnd?) && Enabled(State(), e)
      modifies this
      ensures State() == Step(old(State()), e)
    {
      SetDisconnectReason(Transport);
      status := Exited(false);
    }

    /** A consumer answered, or dropped, the server's request `i`. */
    method OnOutgoingResponse(i: nat, response: Option<Response>, sent: bool)
      requires Enabled(State(), Responder(i, response, sent))
      modifies this
      ensures State() == Step(old(State()), Responder(i, response, sent))
    {
      outgoingResponses := outgoingResponses - {i};
      if response.Some? {
        if !sent { status := Exited(false); return; }
        wire := wire + [SentResponse(i, response.value)];
      }
    }
  }
}
