/** What holds over every run of the WebSocket worker (src/websocket/mod.rs). */
module WebSocketRuns {
  import opened Prelude
  import opened WebSocketWorker

  ghost predicate IsRun(states: seq<Worker>, events: seq<Event>) {
    && |states| == |events| + 1 && states[0] == START
    && forall i :: 0 <= i < |events| ==> Steps(states, events, i)
  }

  /** State `i + 1` comes from state `i` by event `i`. */
  ghost predicate Steps(states: seq<Worker>, events: seq<Event>, i: nat)
    requires |states| == |events| + 1 && i < |events|
  {
    Enabled(states[i], events[i]) && states[i + 1] == Step(states[i], events[i])
  }

  // -- requests of the application ------------------------------------------------

  /** Taken requests are either waiting under their wire id or answered under it, never both. */
  ghost predicate RequestsOk(s: Worker) {
    && |s.wireIds| <= |s.submitted|
    && (forall h :: h in s.answered ==> h < |s.wireIds| && s.answered[h].id == Some(s.wireIds[h]))
    && (forall id :: id in s.outgoing ==>
          s.outgoing[id] < |s.wireIds| && s.wireIds[s.outgoing[id]] == id && s.outgoing[id] !in s.answered)
    && (forall h :: 0 <= h < |s.wireIds| && h !in s.answered ==> s.wireIds[h] in s.outgoing && s.outgoing[s.wireIds[h]] == h)
  }

  lemma TakingKeepsRequests(s: Worker, e: Event)
    requires RequestsOk(s) && Enabled(s, e) && e.AppRequest?
    ensures RequestsOk(Step(s, e))
  {
    var id := WireId(s, e.drawn);
    assert id !in s.outgoing;
  }

  lemma ResponseKeepsRequests(s: Worker, response: Response)
    requires RequestsOk(s)
    ensures RequestsOk(OnResponse(s, response))
  {
  }

  predicate IsResponse(e: Event) {
    e.Binary? && e.frame.Some? && e.frame.value.kind.ResponseType? && e.frame.value.response.Some?
  }

  lemma OtherStepsLeaveTables(s: Worker, e: Event)
    requires Enabled(s, e) && !e.AppRequest? && !IsResponse(e)
    ensures var s' := Step(s, e);
            s'.wireIds == s.wireIds && s'.outgoing == s.outgoing && s'.answered == s.answered && s.submitted <= s'.submitted
  {
  }

  lemma StepKeepsRequests(s: Worker, e: Event)
    requires RequestsOk(s) && Enabled(s, e)
    ensures RequestsOk(Step(s, e))
  {
    if e.AppRequest? {
      TakingKeepsRequests(s, e);
    } else if IsResponse(e) {
      ResponseKeepsRequests(s, e.frame.value.response.value);
    } else {
      OtherStepsLeaveTables(s, e);
    }
  }

  lemma {:induction false} RunKeepsRequests(states: seq<Worker>, events: seq<Event>, i: nat)
    requires IsRun(states, events) && i < |states|
    ensures RequestsOk(states[i])
  {
    if i > 0 {
      RunKeepsRequests(states, events, i - 1);
      assert Steps(states, events, i - 1);
      StepKeepsRequests(states[i - 1], events[i - 1]);
    }
  }

  /** Requests, by handle: answered, still waiting, and submitted but not yet taken. */
  function Answered(s: Worker): set<nat> { s.answered.Keys }

  function Pending(s: Worker): set<nat> { set id | id in s.outgoing :: s.outgoing[id] }

  /**
    Exactly once. At every point the accepted requests split into answered and pending ones; each
    pending one waits under exactly one id; every delivered response names the request it
    completes; and a new request never displaces a waiting one.
   */
  lemma ExactlyOnce(states: seq<Worker>, events: seq<Event>, i: nat)
    requires IsRun(states, events) && i < |states|
    ensures var s := states[i];
            && (forall h: nat :: h in Answered(s) || h in Pending(s) <==> h < |s.wireIds|) && Answered(s) !! Pending(s)
            && (forall a, b :: a in s.outgoing && b in s.outgoing && s.outgoing[a] == s.outgoing[b] ==> a == b)
            && (forall h :: h in s.answered ==> s.answered[h].id == Some(s.wireIds[h]))
            && (i < |events| && events[i].AppRequest? ==>
                  |states[i + 1].wireIds| == |s.wireIds| + 1 &&
                  var id := states[i + 1].wireIds[|s.wireIds|];
                  id !in s.outgoing && states[i + 1].outgoing == s.outgoing[id := |s.wireIds|])
  {
    RunKeepsRequests(states, events, i);
    assert i < |events| ==> Steps(states, events, i);
    var s := states[i];
    forall h: nat ensures h in Answered(s) || h in Pending(s) <==> h < |s.wireIds| {
      if h < |s.wireIds| && h !in s.answered {
        assert s.wireIds[h] in s.outgoing;
      }
    }
  }

  datatype Outcome = Delivered(response: Response) | WsClosing | Unresolved

  /** What the future returned by `request` resolves to: a dropped sender reads as closing. */
  function OutcomeOf(s: Worker, h: nat): Outcome {
    if h in s.answered then Delivered(s.answered[h])
    else if s.status.Exited? then WsClosing
    else Unresolved
  }

  lemma StepResolvesForGood(s: Worker, e: Event, s': Worker, h: nat)
    requires RequestsOk(s) && Enabled(s, e) && s' == Step(s, e)
    ensures s.status.Exited? ==> s'.status.Exited?
    ensures !OutcomeOf(s, h).Unresolved? ==> OutcomeOf(s', h) == OutcomeOf(s, h)
  {
    if IsResponse(e) {
      var r := e.frame.value.response.value;
      if r.id.Some? && r.id.value in s.outgoing { assert s.outgoing[r.id.value] !in s.answered; }
    } else {
      assert s'.answered == s.answered;
    }
  }

  lemma RunResolvesStepwise(states: seq<Worker>, events: seq<Event>, k: nat, h: nat)
    requires IsRun(states, events) && k < |events|
    ensures states[k].status.Exited? ==> states[k + 1].status.Exited?
    ensures !OutcomeOf(states[k], h).Unresolved? ==> OutcomeOf(states[k + 1], h) == OutcomeOf(states[k], h)
  {
    RunKeepsRequests(states, events, k);
    assert Steps(states, events, k);
    StepResolvesForGood(states[k], events[k], states[k + 1], h);
  }

  /** Once the worker has exited every request is resolved, read or not, and stays as it is. */
  lemma {:induction false} ResolvedForGood(states: seq<Worker>, events: seq<Event>, i: nat, j: nat, h: nat)
    requires IsRun(states, events) && i <= j < |states|
    ensures states[i].status.Exited? ==> states[j].status.Exited? && !OutcomeOf(states[i], h).Unresolved?
    ensures !OutcomeOf(states[i], h).Unresolved? ==> OutcomeOf(states[j], h) == OutcomeOf(states[i], h)
    decreases j - i
  {
    if i < j {
      ResolvedForGood(states, events, i, j - 1, h);
      RunResolvesStepwise(states, events, j - 1, h);
    }
  }

  /** A response reaches a request only as a frame that carries its wire id, and only one request. */
  lemma DeliveryComesFromAFrame(states: seq<Worker>, events: seq<Event>, i: nat, h: nat)
    requires IsRun(states, events) && i < |events|
    requires h !in states[i].answered && h in states[i + 1].answered
    ensures var response := states[i + 1].answered[h];
            && IsResponse(events[i]) && events[i].frame.value.response == Some(response)
            && h < |states[i].wireIds| && response.id == Some(states[i].wireIds[h])
            && states[i + 1].answered == states[i].answered[h := response]
            && states[i + 1].outgoing == states[i].outgoing - {states[i].wireIds[h]}
  {
    RunKeepsRequests(states, events, i);
    assert Steps(states, events, i);
  }

  // -- keep-alive -------------------------------------------------------------------

  /** An outstanding keep-alive was outstanding before and not answered, or has just been sent. */
  lemma HowOutstanding(s: Worker, e: Event, id: nat)
    requires Enabled(s, e) && id in Step(s, e).keepAlive
    ensures if id in s.keepAlive then !e.Tick? && !Answers(s, e, id) else e.Tick? && s.keepAlive == {} && e.drawn == id
  {
  }

  lemma {:induction false} AtMostOneKeepAlive(states: seq<Worker>, events: seq<Event>, i: nat)
    requires IsRun(states, events) && i < |states|
    ensures forall a, b :: a in states[i].keepAlive && b in states[i].keepAlive ==> a == b
  {
    if i > 0 {
      AtMostOneKeepAlive(states, events, i - 1);
      assert Steps(states, events, i - 1);
      forall a, b | a in states[i].keepAlive && b in states[i].keepAlive ensures a == b {
        HowOutstanding(states[i - 1], events[i - 1], a);
        HowOutstanding(states[i - 1], events[i - 1], b);
      }
    }
  }

  lemma StepRecordsOneReason(s: Worker, e: Event)
    requires (s.reason.Some? ==> s.status.Exited?) && Enabled(s, e)
    ensures var s' := Step(s, e); (s'.reason.Some? ==> s'.status.Exited?) && (s.reason.Some? ==> s'.reason == s.reason)
  {
  }

  /** The reason for closing is recorded at most once, as the worker stops. */
  lemma {:induction false} OneReason(states: seq<Worker>, events: seq<Event>, i: nat, j: nat)
    requires IsRun(states, events) && i <= j < |states|
    ensures states[j].reason.Some? ==> states[j].status.Exited?
    ensures states[i].reason.Some? ==> states[j].reason == states[i].reason
    decreases j
  {
    if j > 0 {
      OneReason(states, events, if i < j then i else j - 1, j - 1);
      assert Steps(states, events, j - 1);
      StepRecordsOneReason(states[j - 1], events[j - 1]);
    }
  }

  /** `KeepaliveTimeout` is recorded exactly when a tick finds the last keep-alive unanswered. */
  lemma TimeoutExactlyAtAnUnansweredTick(states: seq<Worker>, events: seq<Event>, i: nat)
    requires IsRun(states, events) && i < |events| && states[i].reason != Some(KeepaliveTimeout)
    ensures states[i + 1].reason == Some(KeepaliveTimeout) <==> events[i].Tick? && states[i].keepAlive != {}
  {
    OneReason(states, events, i, i);
    assert Steps(states, events, i);
  }

  /** This event answers keep-alive `id`: a response frame that no application request claims first. */
  predicate Answers(s: Worker, e: Event, id: nat) {
    && IsResponse(e) && e.frame.value.response.value.id == Some(id)
    && id !in s.outgoing
  }

  /** The tick at `i` sent keep-alive `events[i].drawn` and nothing before `j` has answered it. */
  predicate SentAndUnanswered(states: seq<Worker>, events: seq<Event>, i: nat, j: nat)
    requires |states| == |events| + 1
  {
    && i < j <= |events| && events[i].Tick? && states[i].keepAlive == {}
    && forall m :: i < m < j ==> !Answers(states[m], events[m], events[i].drawn)
  }

  /** Where the outstanding keep-alive of state `j` was sent. */
  lemma {:induction false} WhereSent(states: seq<Worker>, events: seq<Event>, j: nat, id: nat) returns (i: nat)
    requires IsRun(states, events) && j < |states| && id in states[j].keepAlive
    ensures SentAndUnanswered(states, events, i, j) && events[i].drawn == id
    ensures forall m :: i < m < j ==> !events[m].Tick?
  {
    assert Steps(states, events, j - 1);
    HowOutstanding(states[j - 1], events[j - 1], id);
    if id in states[j - 1].keepAlive {
      i := WhereSent(states, events, j - 1, id);
    } else {
      i := j - 1;
    }
  }

  /** A tick with nothing outstanding sends a keep-alive; only a tick or an answer takes one away. */
  lemma StepAndKeepAlive(states: seq<Worker>, events: seq<Event>, k: nat, id: nat)
    requires IsRun(states, events) && k < |events|
    ensures events[k].Tick? && states[k].keepAlive == {} ==> events[k].drawn in states[k + 1].keepAlive
    ensures id in states[k].keepAlive && !events[k].Tick? && !Answers(states[k], events[k], id) ==> id in states[k + 1].keepAlive
  {
    var s, e := states[k], events[k];
    assert Steps(states, events, k);
    if IsResponse(e) {
      assert Step(s, e) == OnResponse(s, e.frame.value.response.value);
    }
  }

  /** Nothing else takes an outstanding keep-alive away while the worker runs. */
  lemma {:induction false} StaysOutstanding(states: seq<Worker>, events: seq<Event>, i: nat, j: nat)
    requires IsRun(states, events) && j < |states| && SentAndUnanswered(states, events, i, j)
    requires forall m :: i < m < j ==> !events[m].Tick?
    ensures events[i].drawn in states[j].keepAlive
    decreases j
  {
    if j > i + 1 {
      StaysOutstanding(states, events, i, j - 1);
    }
    StepAndKeepAlive(states, events, j - 1, events[i].drawn);
  }

  /**
    A tick closes the socket for a missed keep-alive iff the tick before it sent one and no
    response to it was processed in between.
   */
  lemma TimeoutIffUnanswered(states: seq<Worker>, events: seq<Event>, j: nat)
    requires IsRun(states, events) && j < |events| && events[j].Tick?
    ensures states[j].keepAlive != {} <==>
            exists i: nat :: SentAndUnanswered(states, events, i, j) && forall m :: i < m < j ==> !events[m].Tick?
  {
    if states[j].keepAlive != {} {
      var id :| id in states[j].keepAlive;
      var i := WhereSent(states, events, j, id);
    }
    if i: nat :| SentAndUnanswered(states, events, i, j) && forall m :: i < m < j ==> !events[m].Tick? {
      StaysOutstanding(states, events, i, j);
    }
  }

  // -- the same on the wire ---------------------------------------------------------

  /** A response frame with this id arrives, whatever the worker makes of it. */
  predicate Responds(e: Event, id: nat) {
    IsResponse(e) && e.frame.value.response.value.id == Some(id)
  }

  /** An application request goes out under `id`. */
  predicate Takes(s: Worker, e: Event, id: nat) {
    e.AppRequest? && |s.wireIds| < |s.submitted| && WireId(s, e.drawn) == id
  }

  /** Between `i` and `m` an application request took `id` and has had no response since. */
  predicate Claimed(states: seq<Worker>, events: seq<Event>, i: nat, m: nat, id: nat)
    requires |states| == |events| + 1 && m < |states|
  {
    exists l :: i < l < m && Takes(states[l], events[l], id) && forall n :: l < n < m ==> !Responds(events[n], id)
  }

  lemma StepAndId(states: seq<Worker>, events: seq<Event>, k: nat, id: nat)
    requires IsRun(states, events) && k < |events|
    ensures id in states[k + 1].outgoing <==>
              Takes(states[k], events[k], id) || (id in states[k].outgoing && !Responds(events[k], id))
    ensures events[k].Tick? ==> events[k].drawn !in states[k].outgoing
  {
    var s, e := states[k], events[k];
    assert Steps(states, events, k);
    if IsResponse(e) {
      assert Step(s, e) == OnResponse(s, e.frame.value.response.value);
    } else if !e.AppRequest? {
      OtherStepsLeaveTables(s, e);
    }
  }

  /** Since a tick drew `id`, it is the id of a pending request exactly when one has claimed it. */
  lemma {:induction false} PendingIffClaimed(states: seq<Worker>, events: seq<Event>, i: nat, m: nat)
    requires IsRun(states, events) && i < m < |states| && events[i].Tick?
    ensures events[i].drawn in states[m].outgoing <==> Claimed(states, events, i, m, events[i].drawn)
    decreases m
  {
    var id := events[i].drawn;
    StepAndId(states, events, m - 1, id);
    if m > i + 1 {
      PendingIffClaimed(states, events, i, m - 1);
      ClaimedStep(states, events, i, m, id);
    }
  }

  lemma ClaimedStep(states: seq<Worker>, events: seq<Event>, i: nat, m: nat, id: nat)
    requires |states| == |events| + 1 && i + 1 < m < |states|
    ensures Claimed(states, events, i, m, id) <==>
              Takes(states[m - 1], events[m - 1], id)
              || (Claimed(states, events, i, m - 1, id) && !Responds(events[m - 1], id))
  {
    if Claimed(states, events, i, m, id) {
      var l :| i < l < m && Takes(states[l], events[l], id) && forall n :: l < n < m ==> !Responds(events[n], id);
      if l < m - 1 {
        assert Claimed(states, events, i, m - 1, id);
      }
    }
    if Claimed(states, events, i, m - 1, id) && !Responds(events[m - 1], id) {
      var l :| i < l < m - 1 && Takes(states[l], events[l], id) && forall n :: l < n < m - 1 ==> !Responds(events[n], id);
      assert forall n :: l < n < m ==> !Responds(events[n], id);
    }
  }

  /** The tick at `i` sent the last keep-alive before `j`. */
  predicate LastSent(states: seq<Worker>, events: seq<Event>, i: nat, j: nat)
    requires |states| == |events| + 1
  {
    i < j <= |events| && events[i].Tick? && states[i].keepAlive == {} && forall m :: i < m < j ==> !events[m].Tick?
  }

  /** Every response frame with its id, if there was one, went to an application request instead. */
  predicate AllClaimed(states: seq<Worker>, events: seq<Event>, i: nat, j: nat)
    requires |states| == |events| + 1 && i < j <= |events| && events[i].Tick?
  {
    forall m :: i < m < j && Responds(events[m], events[i].drawn) ==> Claimed(states, events, i, m, events[i].drawn)
  }

  /**
    In terms of the wire: a tick gives the socket up exactly when every response frame with the last
    keep-alive's id, if any came, went to an application request that had taken that id meanwhile.
   */
  lemma TimeoutIffSilentOrClaimed(states: seq<Worker>, events: seq<Event>, j: nat)
    requires IsRun(states, events) && j < |events| && events[j].Tick?
    ensures states[j].keepAlive != {} <==> exists i: nat :: LastSent(states, events, i, j) && AllClaimed(states, events, i, j)
  {
    if states[j].keepAlive != {} {
      TimeoutIffUnanswered(states, events, j);
      var i: nat :| SentAndUnanswered(states, events, i, j) && forall m :: i < m < j ==> !events[m].Tick?;
      forall m | i < m < j && Responds(events[m], events[i].drawn)
        ensures Claimed(states, events, i, m, events[i].drawn)
      {
        assert !Answers(states[m], events[m], events[i].drawn);
        PendingIffClaimed(states, events, i, m);
      }
      assert LastSent(states, events, i, j) && AllClaimed(states, events, i, j);
    }
    if i: nat :| LastSent(states, events, i, j) && AllClaimed(states, events, i, j) {
      forall m | i < m < j
        ensures !Answers(states[m], events[m], events[i].drawn)
      {
        PendingIffClaimed(states, events, i, m);
      }
      assert SentAndUnanswered(states, events, i, j);
      StaysOutstanding(states, events, i, j);
    }
  }

  /** The server sends a response to each keep-alive before the next tick. */
  ghost predicate KeepsUp(events: seq<Event>) {
    forall i, j :: 0 <= i < j < |events| && events[i].Tick? && events[j].Tick? ==>
      exists m :: i < m < j && Responds(events[m], events[i].drawn)
  }

  /** No application request is taken under the id of an outstanding keep-alive. */
  ghost predicate IdsKeptApart(states: seq<Worker>, events: seq<Event>)
    requires |states| == |events| + 1
  {
    forall m, id {:trigger Takes(states[m], events[m], id)} ::
      0 <= m < |events| && id in states[m].keepAlive ==> !Takes(states[m], events[m], id)
  }

  /** A server that keeps up is never dropped for missing keep-alives, while ids are kept apart. */
  lemma {:induction false} NoTimeoutWhenAnswered(states: seq<Worker>, events: seq<Event>, i: nat)
    requires IsRun(states, events) && KeepsUp(events) && IdsKeptApart(states, events) && i < |states|
    ensures states[i].reason != Some(KeepaliveTimeout)
  {
    if i > 0 {
      NoTimeoutWhenAnswered(states, events, i - 1);
      TimeoutExactlyAtAnUnansweredTick(states, events, i - 1);
      if events[i - 1].Tick? && states[i - 1].keepAlive != {} {
        TimeoutIffUnanswered(states, events, i - 1);
        var k: nat :| SentAndUnanswered(states, events, k, i - 1) && forall m :: k < m < i - 1 ==> !events[m].Tick?;
        var m :| k < m < i - 1 && Responds(events[m], events[k].drawn);
        NotClaimed(states, events, k, m, i - 1);
        assert false;
      }
    }
  }

  lemma NotClaimed(states: seq<Worker>, events: seq<Event>, k: nat, m: nat, j: nat)
    requires IsRun(states, events) && IdsKeptApart(states, events) && k < m < j <= |events|
    requires SentAndUnanswered(states, events, k, j) && forall n :: k < n < j ==> !events[n].Tick?
    ensures !Responds(events[m], events[k].drawn)
  {
    var id := events[k].drawn;
    PendingIffClaimed(states, events, k, m);
    if l :| k < l < m && Takes(states[l], events[l], id) {
      StaysOutstanding(states, events, k, l);
      assert false;
    }
    assert !Answers(states[m], events[m], id);
  }

  /** A run of `n` ticks in which the server answers each at once. */
  function Punctual(n: nat): seq<Event> {
    seq(2 * n, i requires 0 <= i < 2 * n =>
      if i % 2 == 0 then Tick(i, true)
      else Binary(Some(Frame(ResponseType, None, Some(Response(Some(i - 1), Some(200))))), true))
  }

  lemma RunGoesOn(states: seq<Worker>, events: seq<Event>, e: Event)
    requires IsRun(states, events) && Enabled(states[|events|], e)
    ensures IsRun(states + [Step(states[|events|], e)], events + [e])
  {
    forall i | 0 <= i <= |events|
      ensures Steps(states + [Step(states[|events|], e)], events + [e], i)
    {
      assert i < |events| ==> Steps(states, events, i);
    }
  }

  /** A tick and its answer leave a worker with nothing outstanding as it was. */
  lemma TickAndAnswer(s: Worker, id: nat)
    requires s.status.Running? && s.keepAlive == {} && s.outgoing == map[]
    ensures var s1 := Step(s, Tick(id, true));
            var answer := Binary(Some(Frame(ResponseType, None, Some(Response(Some(id), Some(200))))), true);
            Enabled(s1, answer)
            && var s2 := Step(s1, answer); s2.status.Running? && s2.keepAlive == {} && s2.outgoing == map[]
  {
    assert Step(s, Tick(id, true)).keepAlive == {id};
  }

  lemma PunctualKeepsUp(n: nat)
    ensures KeepsUp(Punctual(n))
  {
    var events := Punctual(n);
    forall i, j | 0 <= i < j < |events| && events[i].Tick? && events[j].Tick?
      ensures exists m :: i < m < j && Responds(events[m], events[i].drawn)
    {
      assert Responds(events[i + 1], events[i].drawn);
    }
  }

  /** Both assumptions can be met, over any number of ticks. */
  lemma {:induction false} PunctualServersExist(n: nat) returns (states: seq<Worker>)
    ensures IsRun(states, Punctual(n)) && KeepsUp(Punctual(n)) && IdsKeptApart(states, Punctual(n))
    ensures states[2 * n].status.Running? && states[2 * n].keepAlive == {} && states[2 * n].outgoing == map[]
  {
    PunctualKeepsUp(n);
    if n == 0 {
      states := [START];
    } else {
      var events := Punctual(n - 1);
      var tick, answer := Punctual(n)[2 * n - 2], Punctual(n)[2 * n - 1];
      states := PunctualServersExist(n - 1);
      TickAndAnswer(states[2 * n - 2], 2 * n - 2);
      RunGoesOn(states, events, tick);
      states := states + [Step(states[2 * n - 2], tick)];
      RunGoesOn(states, events + [tick], answer);
      states := states + [Step(states[2 * n - 1], answer)];
      assert events + [tick] + [answer] == Punctual(n);
    }
  }

  /**
    The freshness check of an application request looks at pending requests only, so a request may
    go out under the outstanding keep-alive's id. The first response with that id completes the
    request, and unless a second one comes the next tick closes the socket.
   */
  lemma IdCollision(id: nat, later: nat, response: Response, again: bool)
    requires response.id == Some(id) && later != id && Success(response)
    ensures var answer := Binary(Some(Frame(ResponseType, None, Some(response))), true);
            var events := [Tick(id, true), Submit(Some(id)), AppRequest(later, true), answer,
                           if again then answer else Ignored, Tick(later, true)];
            exists states: seq<Worker> ::
              && IsRun(states, events)
              && states[4].answered == map[0 := response] && states[4].keepAlive == {id}
              && (states[6].reason == Some(KeepaliveTimeout) <==> !again)
  {
    var answer := Binary(Some(Frame(ResponseType, None, Some(response))), true);
    var events := [Tick(id, true), Submit(Some(id)), AppRequest(later, true), answer,
                   if again then answer else Ignored, Tick(later, true)];
    var s1 := Step(START, events[0]);
    var s2 := Step(s1, events[1]);
    var s3 := Step(s2, events[2]);
    assert s3.outgoing == map[id := 0];
    var s4 := Step(s3, events[3]);
    assert s4.outgoing == map[] && s4.keepAlive == {id};
    var s5 := Step(s4, events[4]);
    assert s5.keepAlive == if again then {} else {id};
    var s6 := Step(s5, events[5]);
    var states := [START, s1, s2, s3, s4, s5, s6];
    assert Steps(states, events, 0) && Steps(states, events, 1) && Steps(states, events, 2);
    assert Steps(states, events, 3) && Steps(states, events, 4) && Steps(states, events, 5);
    assert IsRun(states, events);
  }

  // -- why the worker stopped ---------------------------------------------------------

  /** What the event that stops the worker records as the reason. */
  function ReasonFor(s: Worker, e: Event): Option<DisconnectReason> {
    match e
    case Tick(_, _) => if s.keepAlive != {} then Some(KeepaliveTimeout) else None
    case Close(code) =>
      Some(if code == 4409 then ConnectedElsewhere else if code == 4401 then ConnectionInvalidated else ServerClosed(code))
    case SocketError => Some(Transport)
    case SocketEnd => Some(Transport)
    case _ => None
  }

  lemma StepReason(s: Worker, e: Event)
    requires Enabled(s, e) && (s.reason.Some? ==> s.status.Exited?)
    ensures var s' := Step(s, e);
            if s.status.Exited? then s'.reason == s.reason
            else s'.status.Exited? ==> s'.reason == ReasonFor(s, e)
  {
  }

  /** The recorded reason is that of the event at which the worker stopped. */
  lemma {:induction false} ReasonSaysWhatHappened(states: seq<Worker>, events: seq<Event>, n: nat) returns (i: nat)
    requires IsRun(states, events) && n < |states| && states[n].status.Exited?
    ensures i < n && states[i].status.Running? && states[i + 1].status.Exited?
    ensures states[n].reason == ReasonFor(states[i], events[i])
  {
    OneReason(states, events, n - 1, n - 1);
    assert Steps(states, events, n - 1);
    StepReason(states[n - 1], events[n - 1]);
    if states[n - 1].status.Exited? {
      i := ReasonSaysWhatHappened(states, events, n - 1);
    } else {
      i := n - 1;
    }
  }

  // -- requests of the server ----------------------------------------------------------

  function RequestsIn(events: seq<Event>): seq<Request> {
    if events == [] then []
    else
      var rest, e := RequestsIn(events[..|events| - 1]), events[|events| - 1];
      if e.Binary? && e.consumer && e.frame.Some? && e.frame.value.kind.RequestType? && e.frame.value.request.Some?
      then rest + [e.frame.value.request.value] else rest
  }

  predicate IsResponseTo(w: Sent, i: nat) { w.SentResponse? && w.incoming == i }

  ghost predicate RespondersOk(s: Worker) {
    && (forall i :: i in s.responders ==> i < |s.incoming|)
    && (forall k :: 0 <= k < |s.wire| && s.wire[k].SentResponse? ==>
          s.wire[k].incoming < |s.incoming| && s.wire[k].incoming !in s.responders)
    && (forall k, l :: 0 <= k < l < |s.wire| && s.wire[k].SentResponse? ==> !IsResponseTo(s.wire[l], s.wire[k].incoming))
  }

  lemma OnResponderKeepsResponders(s: Worker, i: nat, response: Option<Response>, sent: bool)
    requires RespondersOk(s) && i in s.responders
    ensures RespondersOk(OnResponder(s, i, response, sent))
  {
  }

  lemma StepKeepsResponders(s: Worker, e: Event)
    requires RespondersOk(s) && Enabled(s, e)
    ensures RespondersOk(Step(s, e))
  {
    if e.Responder? {
      OnResponderKeepsResponders(s, e.i, e.response, e.sent);
    } else {
      OnlyRespondersRespond(s, e);
    }
  }

  lemma OnlyRespondersRespond(s: Worker, e: Event)
    requires Enabled(s, e) && !e.Responder?
    ensures var s' := Step(s, e);
            && s.wire <= s'.wire && |s'.wire| <= |s.wire| + 1
            && (|s'.wire| > |s.wire| ==> !s'.wire[|s.wire|].SentResponse?)
            && |s.incoming| <= |s'.incoming| && s.responders <= s'.responders
            && forall i :: i in s'.responders ==> i in s.responders || |s.incoming| == i < |s'.incoming|
  {
  }

  lemma StepTakesRequests(s: Worker, events: seq<Event>, e: Event)
    requires Enabled(s, e) && s.incoming == RequestsIn(events)
    ensures Step(s, e).incoming == RequestsIn(events + [e])
  {
    assert (events + [e])[..|events|] == events;
  }

  /** Server requests reach the consumer in frame order, and each gets at most one response. */
  lemma {:induction false} ServerRequests(states: seq<Worker>, events: seq<Event>, i: nat)
    requires IsRun(states, events) && i < |states|
    ensures states[i].incoming == RequestsIn(events[..i])
    ensures RespondersOk(states[i])
  {
    if i > 0 {
      ServerRequests(states, events, i - 1);
      assert Steps(states, events, i - 1);
      StepKeepsResponders(states[i - 1], events[i - 1]);
      StepTakesRequests(states[i - 1], events[..i - 1], events[i - 1]);
      assert events[..i] == events[..i - 1] + [events[i - 1]];
    }
  }
}
