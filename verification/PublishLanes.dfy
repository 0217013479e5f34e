/**
 The worker publisher: callers hand requests to lanes chosen by hashing the DID, and one worker per
 lane calls the delegate. Callers, workers, cancellations and Close interleave in any order.

 The module proves that the delegate sees each DID's accepted requests in the order they were
 accepted and one at a time, that every answer is the delegate's answer to the caller's own request,
 and that Close leaves nothing unanswered.
 */
module PublishLanes {
  import opened Wrappers

  const LANE_CAPACITY := 256

  datatype Did = Did(bytes: seq<bv8>)

  /** Every Publish call makes one request, which `id` identifies. */
  datatype Request = Request(id: nat, did: Did)

  type Response = Result<string>

  datatype Caller =
    | Sending(req: Request)
    | Waiting(req: Request)
    | Answered(req: Request, response: Response)
    | Cancelled(req: Request)

  datatype Lane = Lane(queue: seq<Request>, running: Option<Request>, closed: bool, stopped: bool)

  /** The delegate's side of the story: when each call began and when it returned. */
  datatype Event = Started(req: Request) | Ended(req: Request, response: Response)

  /**
   `accepted` lists requests in the order their lanes took them; `answers` are the response channels;
   `lanesClosed` is how far Close has got, and `closeReturned` whether it has returned.
   */
  datatype State = State(
    lanes: seq<Lane>,
    callers: map<nat, Caller>,
    answers: map<nat, Response>,
    accepted: seq<Request>,
    events: seq<Event>,
    lanesClosed: nat,
    closeReturned: bool,
    crashed: bool)

  datatype Step =
    | Publish(id: nat, did: Did)
    | Send(id: nat)
    | SendOnClosed(id: nat)
    | CancelSend(id: nat)
    | CancelWait(id: nat)
    | Receive(id: nat)
    | Take(lane: nat)
    | Finish(lane: nat, response: Response)
    | Stop(lane: nat)
    | CloseNext
    | CloseReturn

  /** The 32-bit FNV-1a hash. */
  function Fnv32a(bytes: seq<bv8>): bv32 {
    if bytes == [] then 2166136261
    else (Fnv32a(bytes[..|bytes| - 1]) ^ (bytes[|bytes| - 1] as bv32)) * 16777619
  }

  function LaneIndex(did: Did, workers: nat): (lane: nat)
    requires workers > 0
    ensures lane < workers
  {
    if workers <= 1 then 0 else (Fnv32a(did.bytes) as nat) % workers
  }

  function Init(workers: int): State {
    var n := if workers <= 0 then 1 else workers;
    State(seq(n, _ => Lane([], None, false, false)), map[], map[], [], [], 0, false, false)
  }

  function LaneOf(s: State, did: Did): nat
    requires s.lanes != []
  {
    LaneIndex(did, |s.lanes|)
  }

  predicate Enabled(s: State, step: Step) {
    && s.lanes != []
    && !s.crashed
    && match step
       case Publish(id, did) => id !in s.callers
       case Send(id) =>
         && id in s.callers && s.callers[id].Sending?
         && !s.lanes[LaneOf(s, s.callers[id].req.did)].closed
         && |s.lanes[LaneOf(s, s.callers[id].req.did)].queue| < LANE_CAPACITY
       case SendOnClosed(id) =>
         id in s.callers && s.callers[id].Sending? && s.lanes[LaneOf(s, s.callers[id].req.did)].closed
       case CancelSend(id) => id in s.callers && s.callers[id].Sending?
       case CancelWait(id) => id in s.callers && s.callers[id].Waiting?
       case Receive(id) => id in s.callers && s.callers[id].Waiting? && s.callers[id].req.id in s.answers
       case Take(i) =>
         i < |s.lanes| && s.lanes[i].running.None? && s.lanes[i].queue != [] && !s.lanes[i].stopped
       case Finish(i, response) => i < |s.lanes| && s.lanes[i].running.Some?
       case Stop(i) =>
         && i < |s.lanes| && s.lanes[i].closed && !s.lanes[i].stopped
         && s.lanes[i].queue == [] && s.lanes[i].running.None?
       case CloseNext => s.lanesClosed < |s.lanes|
       case CloseReturn =>
         s.lanesClosed == |s.lanes| && !s.closeReturned && forall i :: 0 <= i < |s.lanes| ==> s.lanes[i].stopped
  }

  function Apply(s: State, step: Step): State
    requires Enabled(s, step)
  {
    match step
    case Publish(id, did) => s.(callers := s.callers[id := Sending(Request(id, did))])
    case Send(id) =>
      var req := s.callers[id].req;
      var i := LaneOf(s, req.did);
      s.(lanes := s.lanes[i := s.lanes[i].(queue := s.lanes[i].queue + [req])],
         callers := s.callers[id := Waiting(req)],
         accepted := s.accepted + [req])
    case SendOnClosed(id) => s.(crashed := true)
    case CancelSend(id) => s.(callers := s.callers[id := Cancelled(s.callers[id].req)])
    case CancelWait(id) => s.(callers := s.callers[id := Cancelled(s.callers[id].req)])
    case Receive(id) =>
      var req := s.callers[id].req;
      s.(callers := s.callers[id := Answered(req, s.answers[req.id])])
    case Take(i) =>
      var req := s.lanes[i].queue[0];
      s.(lanes := s.lanes[i := s.lanes[i].(queue := s.lanes[i].queue[1..], running := Some(req))],
         events := s.events + [Started(req)])
    case Finish(i, response) =>
      var req := s.lanes[i].running.value;
      s.(lanes := s.lanes[i := s.lanes[i].(running := None)],
         answers := s.answers[req.id := response],
         events := s.events + [Ended(req, response)])
    case Stop(i) => s.(lanes := s.lanes[i := s.lanes[i].(stopped := true)])
    case CloseNext =>
      s.(lanes := s.lanes[s.lanesClosed := s.lanes[s.lanesClosed].(closed := true)],
         lanesClosed := s.lanesClosed + 1)
    case CloseReturn => s.(closeReturned := true)
  }

  ghost function Exec(workers: int, steps: seq<Step>): Option<State> {
    if steps == [] then Some(Init(workers))
    else
      match Exec(workers, steps[..|steps| - 1])
      case None => None
      case Some(s) =>
        var step := steps[|steps| - 1];
        if Enabled(s, step) then Some(Apply(s, step)) else None
  }

  ghost predicate Reachable(workers: int, s: State) {
    exists steps :: Exec(workers, steps) == Some(s)
  }

  // ---------------------------------------------------------------- what the delegate saw

  /** The requests the delegate was called with, in order. */
  function Calls(events: seq<Event>): seq<Request> {
    if events == [] then []
    else
      var last := events[|events| - 1];
      Calls(events[..|events| - 1]) + (if last.Started? then [last.req] else [])
  }

  function OfDid(reqs: seq<Request>, did: Did): seq<Request> {
    if reqs == [] then []
    else
      var last := reqs[|reqs| - 1];
      OfDid(reqs[..|reqs| - 1], did) + (if last.did == did then [last] else [])
  }

  lemma {:induction false} OfDidAppend(a: seq<Request>, b: seq<Request>, did: Did)
    ensures OfDid(a + b, did) == OfDid(a, did) + OfDid(b, did)
    decreases |b|
  {
    if b == [] {
      assert a + b == a;
    } else {
      var n := |b| - 1;
      assert (a + b)[..|a + b| - 1] == a + b[..n];
      OfDidAppend(a, b[..n], did);
    }
  }

  lemma OfDidOne(r: Request, did: Did)
    ensures OfDid([r], did) == if r.did == did then [r] else []
  {
    assert [r][..0] == [];
  }

  lemma ConcatAssociative(a: seq<Request>, b: seq<Request>, c: seq<Request>)
    ensures a + (b + c) == (a + b) + c
  {
  }

  lemma {:induction false} OfDidMembers(reqs: seq<Request>, did: Did, r: Request)
    ensures r in OfDid(reqs, did) <==> r in reqs && r.did == did
  {
    if reqs != [] {
      var n := |reqs| - 1;
      OfDidMembers(reqs[..n], did, r);
      assert reqs == reqs[..n] + [reqs[n]];
    }
  }

  lemma {:induction false} CallsMembers(events: seq<Event>, r: Request)
    ensures r in Calls(events) <==> Started(r) in events
  {
    if events != [] {
      var n := |events| - 1;
      CallsMembers(events[..n], r);
      assert events == events[..n] + [events[n]];
    }
  }

  lemma CallsAppend(events: seq<Event>, e: Event)
    ensures Calls(events + [e]) == Calls(events) + (if e.Started? then [e.req] else [])
  {
    assert (events + [e])[..|events + [e]| - 1] == events;
  }

  // ---------------------------------------------------------------- invariant

  ghost predicate EndedAfter(events: seq<Event>, i: nat, r: Request) {
    exists k :: i < k < |events| && events[k].Ended? && events[k].req == r
  }

  ghost predicate EndedBetween(events: seq<Event>, i: nat, j: nat, r: Request) {
    exists k :: i < k < j < |events| && events[k].Ended? && events[k].req == r
  }

  /** Each DID's calls so far, followed by what still waits in its lane, are its accepted requests. */
  ghost predicate InOrder(s: State, did: Did)
    requires s.lanes != []
  {
    OfDid(s.accepted, did) == OfDid(Calls(s.events), did) + OfDid(s.lanes[LaneOf(s, did)].queue, did)
  }

  ghost predicate LaneOk(s: State, i: nat)
    requires i < |s.lanes|
  {
    var lane := s.lanes[i];
    && (forall r <- lane.queue :: LaneOf(s, r.did) == i)
    && (lane.running.Some? ==>
          && LaneOf(s, lane.running.value.did) == i
          && Started(lane.running.value) in s.events
          && lane.running.value.id !in s.answers)
    && (lane.stopped ==> lane.closed && lane.queue == [] && lane.running.None?)
    && (lane.closed <==> i < s.lanesClosed)
  }

  /** A call has returned by now unless its lane is running it. */
  ghost predicate CallOver(s: State, i: nat)
    requires s.lanes != [] && i < |s.events| && s.events[i].Started?
  {
    var r := s.events[i].req;
    EndedAfter(s.events, i, r) || s.lanes[LaneOf(s, r.did)].running == Some(r)
  }

  ghost predicate Exclusive(s: State, i: nat, j: nat)
    requires s.lanes != [] && i < j < |s.events| && s.events[i].Started? && s.events[j].Started?
  {
    LaneOf(s, s.events[i].req.did) == LaneOf(s, s.events[j].req.did) ==> EndedBetween(s.events, i, j, s.events[i].req)
  }

  /** The calls that ended were begun and answered. */
  ghost predicate EndsAnswered(s: State) {
    forall e <- s.events :: e.Ended? ==>
      Started(e.req) in s.events && e.req.id in s.answers && s.answers[e.req.id] == e.response
  }

  ghost predicate EventsOk(s: State)
    requires s.lanes != []
  {
    && (forall i :: 0 <= i < |s.events| && s.events[i].Started? ==> CallOver(s, i))
    && (forall i, j :: 0 <= i < j < |s.events| && s.events[i].Started? && s.events[j].Started? ==> Exclusive(s, i, j))
    && EndsAnswered(s)
    && (forall id <- s.answers :: exists r :: Ended(r, s.answers[id]) in s.events && r.id == id)
  }

  ghost predicate CallerOk(s: State, id: nat)
    requires id in s.callers
  {
    var c := s.callers[id];
    && c.req.id == id
    && (c.Sending? ==> c.req !in s.accepted)
    && (c.Waiting? || c.Answered? ==> c.req in s.accepted)
    && (c.Answered? ==> id in s.answers && s.answers[id] == c.response)
  }

  ghost predicate NoRepeats(reqs: seq<Request>) {
    forall i, j :: 0 <= i < j < |reqs| ==> reqs[i].id != reqs[j].id
  }

  ghost predicate AcceptedOk(s: State) {
    && NoRepeats(s.accepted)
    && (forall r <- s.accepted :: r.id in s.callers && s.callers[r.id].req == r)
  }

  ghost predicate Inv(s: State) {
    && s.lanes != []
    && s.lanesClosed <= |s.lanes|
    && (forall did :: InOrder(s, did))
    && (forall i :: 0 <= i < |s.lanes| ==> LaneOk(s, i))
    && EventsOk(s)
    && AcceptedOk(s)
    && (forall id <- s.callers :: CallerOk(s, id))
    && (s.closeReturned ==> forall i :: 0 <= i < |s.lanes| ==> s.lanes[i].stopped)
  }

  /** What a send adds: the request joins those accepted and the end of its lane. */
  lemma SendAddsRequest(s: State, id: nat)
    requires s.lanes != [] && Enabled(s, Send(id))
    ensures var (t, req) := (Apply(s, Send(id)), s.callers[id].req);
      && t.accepted == s.accepted + [req] && t.events == s.events && |t.lanes| == |s.lanes|
      && t.lanes[LaneOf(s, req.did)].queue == s.lanes[LaneOf(s, req.did)].queue + [req]
      && forall k :: 0 <= k < |s.lanes| && k != LaneOf(s, req.did) ==> t.lanes[k].queue == s.lanes[k].queue
  {
  }

  lemma RequestJoins(s: State, t: State, req: Request, did: Did)
    requires s.lanes != [] && InOrder(s, did) && |t.lanes| == |s.lanes|
    requires t.accepted == s.accepted + [req] && t.events == s.events
    requires t.lanes[LaneOf(s, req.did)].queue == s.lanes[LaneOf(s, req.did)].queue + [req]
    requires forall k :: 0 <= k < |s.lanes| && k != LaneOf(s, req.did) ==> t.lanes[k].queue == s.lanes[k].queue
    ensures InOrder(t, did)
  {
    var queue := s.lanes[LaneOf(s, did)].queue;
    OfDidAppend(s.accepted, [req], did);
    OfDidAppend(queue, [req], did);
    OfDidOne(req, did);
    ConcatAssociative(OfDid(Calls(s.events), did), OfDid(queue, did), OfDid([req], did));
  }

  lemma SendKeepsOrder(s: State, id: nat, did: Did)
    requires s.lanes != [] && InOrder(s, did) && Enabled(s, Send(id))
    ensures InOrder(Apply(s, Send(id)), did)
  {
    SendAddsRequest(s, id);
    RequestJoins(s, Apply(s, Send(id)), s.callers[id].req, did);
  }

  lemma SendKeepsCallers(s: State, id: nat)
    requires Inv(s) && Enabled(s, Send(id))
    ensures AcceptedOk(Apply(s, Send(id)))
    ensures forall c <- Apply(s, Send(id)).callers :: CallerOk(Apply(s, Send(id)), c)
  {
    var t := Apply(s, Send(id));
    var req := s.callers[id].req;
    assert CallerOk(s, id);
    forall r <- s.accepted ensures r.id != req.id {
      assert r.id in s.callers && s.callers[r.id].req == r;
    }
    forall c <- t.callers ensures CallerOk(t, c) {
      assert CallerOk(s, c);
    }
  }

  lemma SendKeepsInv(s: State, id: nat)
    requires Inv(s) && Enabled(s, Send(id))
    ensures Inv(Apply(s, Send(id)))
  {
    var t := Apply(s, Send(id));
    forall did ensures InOrder(t, did) {
      assert InOrder(s, did);
      SendKeepsOrder(s, id, did);
    }
    forall i | 0 <= i < |t.lanes| ensures LaneOk(t, i) {
      assert LaneOk(s, i);
    }
    SameEvents(s, t);
    SendKeepsCallers(s, id);
  }

  /** Nothing the delegate saw changes while lanes keep running the same requests. */
  lemma SameEvents(s: State, t: State)
    requires s.lanes != [] && EventsOk(s)
    requires t.events == s.events && t.answers == s.answers && |t.lanes| == |s.lanes|
    requires forall i :: 0 <= i < |s.lanes| ==> t.lanes[i].running == s.lanes[i].running
    ensures EventsOk(t)
  {
    forall i | 0 <= i < |t.events| && t.events[i].Started? ensures CallOver(t, i) {
      assert CallOver(s, i);
    }
    forall i, j | 0 <= i < j < |t.events| && t.events[i].Started? && t.events[j].Started? ensures Exclusive(t, i, j) {
      assert Exclusive(s, i, j);
    }
  }

  lemma EndedStaysEnded(events: seq<Event>, more: seq<Event>, i: nat, r: Request)
    requires EndedAfter(events, i, r)
    ensures EndedAfter(events + more, i, r)
    ensures forall j :: |events| <= j < |events + more| ==> EndedBetween(events + more, i, j, r)
  {
    var k :| i < k < |events| && events[k].Ended? && events[k].req == r;
    assert (events + more)[k] == events[k];
  }

  lemma BetweenStaysBetween(events: seq<Event>, more: seq<Event>, i: nat, j: nat, r: Request)
    requires EndedBetween(events, i, j, r)
    ensures EndedBetween(events + more, i, j, r)
  {
    var k :| i < k < j < |events| && events[k].Ended? && events[k].req == r;
    assert (events + more)[k] == events[k];
  }

  lemma TakeKeepsExclusive(s: State, i: nat, a: nat, b: nat)
    requires Inv(s) && Enabled(s, Take(i))
    requires a < b <= |s.events| && s.events[a].Started? && (b < |s.events| ==> s.events[b].Started?)
    ensures Exclusive(Apply(s, Take(i)), a, b)
  {
    var t := Apply(s, Take(i));
    var last := [t.events[|s.events|]];
    if b < |s.events| {
      assert Exclusive(s, a, b);
      if EndedBetween(s.events, a, b, s.events[a].req) {
        BetweenStaysBetween(s.events, last, a, b, s.events[a].req);
      }
    } else {
      assert LaneOk(s, i) && last[0].req in s.lanes[i].queue;
      assert CallOver(s, a);
      if EndedAfter(s.events, a, s.events[a].req) {
        EndedStaysEnded(s.events, last, a, s.events[a].req);
      }
    }
  }

  lemma TakeKeepsCallOver(s: State, i: nat, a: nat)
    requires Inv(s) && Enabled(s, Take(i)) && a <= |s.events|
    requires a < |s.events| ==> s.events[a].Started?
    ensures CallOver(Apply(s, Take(i)), a)
  {
    var t := Apply(s, Take(i));
    assert LaneOk(s, i);
    if a < |s.events| {
      assert CallOver(s, a);
      if EndedAfter(s.events, a, s.events[a].req) {
        EndedStaysEnded(s.events, [t.events[|s.events|]], a, s.events[a].req);
      }
    }
  }

  lemma TakeKeepsEvents(s: State, i: nat)
    requires Inv(s) && Enabled(s, Take(i))
    ensures EventsOk(Apply(s, Take(i)))
  {
    var t := Apply(s, Take(i));
    forall a | 0 <= a < |t.events| && t.events[a].Started? ensures CallOver(t, a) {
      TakeKeepsCallOver(s, i, a);
    }
    forall a, b | 0 <= a < b < |t.events| && t.events[a].Started? && t.events[b].Started? ensures Exclusive(t, a, b) {
      TakeKeepsExclusive(s, i, a, b);
    }
    TakeKeepsAnswers(s, t, s.lanes[i].queue[0]);
    TakeKeepsEnds(s, t, s.lanes[i].queue[0]);
  }

  lemma TakeKeepsAnswers(s: State, t: State, r: Request)
    requires t.answers == s.answers && t.events == s.events + [Started(r)]
    requires forall id <- s.answers :: exists r :: Ended(r, s.answers[id]) in s.events && r.id == id
    ensures forall id <- t.answers :: exists r :: Ended(r, t.answers[id]) in t.events && r.id == id
  {
    forall id <- t.answers ensures exists r :: Ended(r, t.answers[id]) in t.events && r.id == id {
      var r :| Ended(r, s.answers[id]) in s.events && r.id == id;
      assert Ended(r, t.answers[id]) in s.events;
    }
  }

  lemma TakeKeepsEnds(s: State, t: State, r: Request)
    requires t.answers == s.answers && t.events == s.events + [Started(r)] && EndsAnswered(s)
    ensures EndsAnswered(t)
  {
    forall e <- t.events | e.Ended? ensures Started(e.req) in t.events && e.req.id in t.answers && t.answers[e.req.id] == e.response {
      assert e in s.events;
    }
  }

  lemma {:induction false} OfDidNoRepeats(reqs: seq<Request>, did: Did)
    requires NoRepeats(reqs)
    ensures NoRepeats(OfDid(reqs, did))
  {
    if reqs != [] {
      var n := |reqs| - 1;
      OfDidNoRepeats(reqs[..n], did);
      forall i | 0 <= i < |OfDid(reqs[..n], did)| ensures OfDid(reqs[..n], did)[i].id != reqs[n].id {
        OfDidMembers(reqs[..n], did, OfDid(reqs[..n], did)[i]);
      }
    }
  }

  lemma SharedElementRepeats(a: seq<Request>, b: seq<Request>, r: Request)
    requires r in a && r in b
    ensures !NoRepeats(a + b)
  {
    var i :| 0 <= i < |a| && a[i] == r;
    var j :| 0 <= j < |b| && b[j] == r;
    assert (a + b)[i] == r && (a + b)[|a| + j] == r;
  }

  lemma PrefixRepeats(a: seq<Request>, b: seq<Request>)
    requires !NoRepeats(a)
    ensures !NoRepeats(a + b)
  {
    var i, j :| 0 <= i < j < |a| && a[i].id == a[j].id;
    assert (a + b)[i] == a[i] && (a + b)[j] == a[j];
  }

  /** A request is accepted exactly when it was passed to the delegate or still waits in its lane. */
  lemma AcceptedIffCalledOrQueued(s: State, r: Request)
    requires Inv(s)
    ensures r in s.accepted <==> Started(r) in s.events || r in s.lanes[LaneOf(s, r.did)].queue
    ensures !(Started(r) in s.events && r in s.lanes[LaneOf(s, r.did)].queue)
  {
    var called, queued := OfDid(Calls(s.events), r.did), OfDid(s.lanes[LaneOf(s, r.did)].queue, r.did);
    assert InOrder(s, r.did);
    OfDidMembers(s.accepted, r.did, r);
    OfDidMembers(Calls(s.events), r.did, r);
    OfDidMembers(s.lanes[LaneOf(s, r.did)].queue, r.did, r);
    CallsMembers(s.events, r);
    OfDidNoRepeats(s.accepted, r.did);
    if r in called && r in queued {
      SharedElementRepeats(called, queued, r);
    }
  }

  /** An answer belongs to a request the delegate was called with. */
  lemma AnswersWereCalled(s: State, r: Request)
    requires Inv(s) && r in s.accepted && r.id in s.answers
    ensures Started(r) in s.events
  {
    var e :| Ended(e, s.answers[r.id]) in s.events && e.id == r.id;
    AcceptedIffCalledOrQueued(s, e);
    assert s.callers[e.id].req == e && s.callers[r.id].req == r;
  }

  lemma OfDidOfHead(queue: seq<Request>, did: Did)
    requires queue != []
    ensures OfDid(queue, did) == OfDid([queue[0]], did) + OfDid(queue[1..], did)
  {
    assert queue == [queue[0]] + queue[1..];
    OfDidAppend([queue[0]], queue[1..], did);
  }

  /** Moving a request from the head of its lane to the end of the calls keeps the order of its DID. */
  lemma HeadMovesInOrder(accepted: seq<Request>, calls: seq<Request>, queue: seq<Request>, did: Did)
    requires queue != [] && OfDid(accepted, did) == OfDid(calls, did) + OfDid(queue, did)
    ensures OfDid(accepted, did) == OfDid(calls + [queue[0]], did) + OfDid(queue[1..], did)
  {
    var head, rest := [queue[0]], queue[1..];
    OfDidAppend(calls, head, did);
    OfDidOfHead(queue, did);
    ConcatAssociative(OfDid(calls, did), OfDid(head, did), OfDid(rest, did));
  }

  lemma OtherCallKeepsOrder(calls: seq<Request>, r: Request, did: Did)
    requires r.did != did
    ensures OfDid(calls + [r], did) == OfDid(calls, did)
  {
    OfDidAppend(calls, [r], did);
    OfDidOne(r, did);
  }

  /** What taking a request moves: it goes from the head of its lane to the end of the calls. */
  lemma TakeMovesHead(s: State, i: nat)
    requires s.lanes != [] && Enabled(s, Take(i))
    ensures var t := Apply(s, Take(i));
      && t.accepted == s.accepted && |t.lanes| == |s.lanes|
      && Calls(t.events) == Calls(s.events) + [s.lanes[i].queue[0]]
      && t.lanes[i].queue == s.lanes[i].queue[1..]
      && forall k :: 0 <= k < |s.lanes| && k != i ==> t.lanes[k].queue == s.lanes[k].queue
  {
    CallsAppend(s.events, Started(s.lanes[i].queue[0]));
  }

  lemma TakeKeepsOrder(s: State, i: nat, did: Did)
    requires s.lanes != [] && InOrder(s, did) && Enabled(s, Take(i)) && LaneOk(s, i)
    ensures InOrder(Apply(s, Take(i)), did)
  {
    TakeMovesHead(s, i);
    HeadMoves(s, Apply(s, Take(i)), i, did);
  }

  lemma HeadMoves(s: State, t: State, i: nat, did: Did)
    requires s.lanes != [] && i < |s.lanes| && s.lanes[i].queue != [] && InOrder(s, did) && LaneOk(s, i)
    requires t.accepted == s.accepted && |t.lanes| == |s.lanes|
    requires Calls(t.events) == Calls(s.events) + [s.lanes[i].queue[0]] && t.lanes[i].queue == s.lanes[i].queue[1..]
    requires forall k :: 0 <= k < |s.lanes| && k != i ==> t.lanes[k].queue == s.lanes[k].queue
    ensures InOrder(t, did)
  {
    var queue := s.lanes[i].queue;
    if LaneOf(s, did) == i {
      HeadMovesInOrder(s.accepted, Calls(s.events), queue, did);
    } else {
      assert queue[0] in queue && queue[0].did != did;
      OtherCallKeepsOrder(Calls(s.events), queue[0], did);
    }
  }

  lemma TakeKeepsLanes(s: State, i: nat, k: nat)
    requires Inv(s) && Enabled(s, Take(i)) && k < |s.lanes|
    ensures LaneOk(Apply(s, Take(i)), k)
  {
    var req := s.lanes[i].queue[0];
    assert LaneOk(s, i) && LaneOk(s, k);
    assert req in s.lanes[i].queue;
    AcceptedIffCalledOrQueued(s, req);
    if req.id in s.answers {
      AnswersWereCalled(s, req);
    }
  }

  lemma TakeKeepsInv(s: State, i: nat)
    requires Inv(s) && Enabled(s, Take(i))
    ensures Inv(Apply(s, Take(i)))
  {
    var t := Apply(s, Take(i));
    forall did ensures InOrder(t, did) {
      assert InOrder(s, did) && LaneOk(s, i);
      TakeKeepsOrder(s, i, did);
    }
    forall k | 0 <= k < |t.lanes| ensures LaneOk(t, k) {
      TakeKeepsLanes(s, i, k);
    }
    TakeKeepsEvents(s, i);
    forall c <- t.callers ensures CallerOk(t, c) {
      assert CallerOk(s, c);
    }
  }

  lemma FinishKeepsEvents(s: State, i: nat, response: Response)
    requires Inv(s) && Enabled(s, Finish(i, response))
    ensures EventsOk(Apply(s, Finish(i, response)))
  {
    var t := Apply(s, Finish(i, response));
    var n := |s.events|;
    var req := s.lanes[i].running.value;
    assert LaneOk(s, i);
    assert t.events[n] == Ended(req, response);
    forall a | 0 <= a < |t.events| && t.events[a].Started? ensures CallOver(t, a) {
      assert CallOver(s, a);
      if EndedAfter(s.events, a, s.events[a].req) {
        EndedStaysEnded(s.events, [t.events[n]], a, s.events[a].req);
      }
    }
    forall a, b | 0 <= a < b < |t.events| && t.events[a].Started? && t.events[b].Started? ensures Exclusive(t, a, b) {
      assert Exclusive(s, a, b);
      if EndedBetween(s.events, a, b, s.events[a].req) {
        BetweenStaysBetween(s.events, [t.events[n]], a, b, s.events[a].req);
      }
    }
    forall id <- t.answers ensures exists r :: Ended(r, t.answers[id]) in t.events && r.id == id {
      if id == req.id {
        assert Ended(req, t.answers[id]) in t.events;
      } else {
        var r :| Ended(r, s.answers[id]) in s.events && r.id == id;
        assert Ended(r, t.answers[id]) in t.events;
      }
    }
    forall e <- t.events | e.Ended?
      ensures Started(e.req) in t.events && e.req.id in t.answers && t.answers[e.req.id] == e.response
    {
      if e in s.events {
        assert e.req.id in s.answers;
      } else {
        assert e == t.events[n];
      }
    }
  }

  lemma FinishKeepsLanes(s: State, i: nat, response: Response, k: nat)
    requires Inv(s) && Enabled(s, Finish(i, response)) && k < |s.lanes|
    ensures LaneOk(Apply(s, Finish(i, response)), k)
  {
    var req := s.lanes[i].running.value;
    assert LaneOk(s, i) && LaneOk(s, k);
    AcceptedIffCalledOrQueued(s, req);
    if k != i && s.lanes[k].running.Some? {
      var other := s.lanes[k].running.value;
      AcceptedIffCalledOrQueued(s, other);
      assert s.callers[other.id].req == other && s.callers[req.id].req == req;
    }
  }

  lemma FinishKeepsInv(s: State, i: nat, response: Response)
    requires Inv(s) && Enabled(s, Finish(i, response))
    ensures Inv(Apply(s, Finish(i, response)))
  {
    var t := Apply(s, Finish(i, response));
    CallsAppend(s.events, Ended(s.lanes[i].running.value, response));
    assert Calls(t.events) == Calls(s.events);
    SameQueues(s, t);
    forall k | 0 <= k < |t.lanes| ensures LaneOk(t, k) {
      FinishKeepsLanes(s, i, response, k);
    }
    FinishKeepsEvents(s, i, response);
    FinishKeepsCallers(s, i, response);
  }

  lemma FinishKeepsCallers(s: State, i: nat, response: Response)
    requires Inv(s) && Enabled(s, Finish(i, response))
    ensures AcceptedOk(Apply(s, Finish(i, response)))
    ensures forall c <- Apply(s, Finish(i, response)).callers :: CallerOk(Apply(s, Finish(i, response)), c)
  {
    var t := Apply(s, Finish(i, response));
    assert LaneOk(s, i);
    forall c <- t.callers ensures CallerOk(t, c) {
      assert CallerOk(s, c);
    }
  }

  lemma SameQueues(s: State, t: State)
    requires s.lanes != [] && |t.lanes| == |s.lanes| && t.accepted == s.accepted && Calls(t.events) == Calls(s.events)
    requires forall i :: 0 <= i < |s.lanes| ==> t.lanes[i].queue == s.lanes[i].queue
    requires forall did :: InOrder(s, did)
    ensures forall did :: InOrder(t, did)
  {
    forall did ensures InOrder(t, did) {
      assert InOrder(s, did);
    }
  }

  /** Steps that only move callers: new ones, cancelled ones, and ones that pick up their answer. */
  lemma CallerStepKeepsInv(s: State, step: Step)
    requires Inv(s) && Enabled(s, step)
    requires step.Publish? || step.CancelSend? || step.CancelWait? || step.Receive? || step.SendOnClosed?
    ensures Inv(Apply(s, step))
  {
    var t := Apply(s, step);
    forall c <- t.callers ensures CallerOk(t, c) {
      CallerStepKeepsCaller(s, step, c);
    }
    OnlyCallersChange(s, t);
  }

  lemma OnlyCallersChange(s: State, t: State)
    requires Inv(s) && t == s.(callers := t.callers, crashed := t.crashed) && AcceptedOk(t)
    requires forall c <- t.callers :: CallerOk(t, c)
    ensures Inv(t)
  {
    SameQueues(s, t);
    SameEvents(s, t);
    forall k | 0 <= k < |t.lanes| ensures LaneOk(t, k) {
      assert LaneOk(s, k);
    }
  }

  lemma CallerStepKeepsCaller(s: State, step: Step, c: nat)
    requires Inv(s) && Enabled(s, step) && c in Apply(s, step).callers
    requires step.Publish? || step.CancelSend? || step.CancelWait? || step.Receive? || step.SendOnClosed?
    ensures CallerOk(Apply(s, step), c)
  {
    if c in s.callers {
      assert CallerOk(s, c);
    }
  }

  /** Steps that only close lanes, stop workers or let Close return. */
  lemma ShutdownStepKeepsInv(s: State, step: Step)
    requires Inv(s) && Enabled(s, step)
    requires step.Stop? || step.CloseNext? || step.CloseReturn?
    ensures Inv(Apply(s, step))
  {
    var t := Apply(s, step);
    SameQueues(s, t);
    SameEvents(s, t);
    forall k | 0 <= k < |t.lanes| ensures LaneOk(t, k) {
      assert LaneOk(s, k);
    }
    forall c <- t.callers ensures CallerOk(t, c) {
      assert CallerOk(s, c);
    }
  }

  lemma StepKeepsInv(s: State, step: Step)
    requires Inv(s) && Enabled(s, step)
    ensures Inv(Apply(s, step))
  {
    match step
    case Send(id) => SendKeepsInv(s, id);
    case Take(i) => TakeKeepsInv(s, i);
    case Finish(i, response) => FinishKeepsInv(s, i, response);
    case Stop(_) => ShutdownStepKeepsInv(s, step);
    case CloseNext => ShutdownStepKeepsInv(s, step);
    case CloseReturn => ShutdownStepKeepsInv(s, step);
    case _ => CallerStepKeepsInv(s, step);
  }

  lemma {:induction false} ExecKeepsInv(workers: int, steps: seq<Step>, s: State)
    requires Exec(workers, steps) == Some(s)
    ensures Inv(s)
    decreases |steps|
  {
    if steps != [] {
      var n := |steps| - 1;
      var p := Exec(workers, steps[..n]).value;
      ExecKeepsInv(workers, steps[..n], p);
      StepKeepsInv(p, steps[n]);
    }
  }

  lemma ReachableInv(workers: int, s: State)
    requires Reachable(workers, s)
    ensures Inv(s)
  {
    var steps :| Exec(workers, steps) == Some(s);
    ExecKeepsInv(workers, steps, s);
  }

  // ---------------------------------------------------------------- guarantees

  /**
   In every interleaving, the delegate calls made for a DID, followed by its requests still in the
   lane, are its accepted requests in the order they were accepted.
   */
  lemma PerDidOrder(workers: int, s: State, did: Did)
    requires Reachable(workers, s)
    ensures s.lanes != []
    ensures OfDid(s.accepted, did)
         == OfDid(Calls(s.events), did) + OfDid(s.lanes[LaneOf(s, did)].queue, did)
  {
    ReachableInv(workers, s);
    assert InOrder(s, did);
  }

  /** A call for a DID begins only after every earlier call for that DID has returned. */
  lemma CallsOfOneDidNeverOverlap(workers: int, s: State, i: nat, j: nat)
    requires Reachable(workers, s) && i < j < |s.events|
    requires s.events[i].Started? && s.events[j].Started? && s.events[i].req.did == s.events[j].req.did
    ensures s.events[i].req != s.events[j].req
    ensures exists k :: i < k < j && s.events[k].Ended? && s.events[k].req == s.events[i].req
  {
    ReachableInv(workers, s);
    assert Exclusive(s, i, j);
    CalledOnce(s, i, j);
  }

  lemma {:induction false} CallsPositions(events: seq<Event>, i: nat, j: nat)
    requires i < j < |events| && events[i].Started? && events[j].Started?
    ensures exists a, b :: 0 <= a < b < |Calls(events)| && Calls(events)[a] == events[i].req && Calls(events)[b] == events[j].req
    decreases |events|
  {
    var n := |events| - 1;
    var calls := Calls(events[..n]);
    if j < n {
      CallsPositions(events[..n], i, j);
      var a, b :| 0 <= a < b < |calls| && calls[a] == events[i].req && calls[b] == events[j].req;
      assert Calls(events)[a] == calls[a] && Calls(events)[b] == calls[b];
    } else {
      CallsMembers(events[..n], events[i].req);
      assert events[i] in events[..n];
      var a :| 0 <= a < |calls| && calls[a] == events[i].req;
      assert Calls(events)[a] == events[i].req && Calls(events)[|calls|] == events[j].req;
    }
  }

  lemma {:induction false} OfDidPositions(reqs: seq<Request>, a: nat, b: nat)
    requires a < b < |reqs| && reqs[a] == reqs[b]
    ensures !NoRepeats(OfDid(reqs, reqs[a].did))
    decreases |reqs|
  {
    var n := |reqs| - 1;
    var did := reqs[a].did;
    var front := OfDid(reqs[..n], did);
    if b < n {
      OfDidPositions(reqs[..n], a, b);
      var i, j :| 0 <= i < j < |front| && front[i].id == front[j].id;
      assert OfDid(reqs, did)[i] == front[i] && OfDid(reqs, did)[j] == front[j];
    } else {
      assert reqs[a] in reqs[..n];
      OfDidMembers(reqs[..n], did, reqs[a]);
      var i :| 0 <= i < |front| && front[i] == reqs[a];
      assert OfDid(reqs, did)[i] == reqs[a] && OfDid(reqs, did)[|front|] == reqs[a];
    }
  }

  lemma CalledOnce(s: State, i: nat, j: nat)
    requires Inv(s) && i < j < |s.events| && s.events[i].Started? && s.events[j].Started?
    ensures s.events[i].req != s.events[j].req
  {
    if s.events[i].req == s.events[j].req {
      var r := s.events[i].req;
      CallsPositions(s.events, i, j);
      var a, b :| 0 <= a < b < |Calls(s.events)| && Calls(s.events)[a] == r && Calls(s.events)[b] == r;
      OfDidPositions(Calls(s.events), a, b);
      assert InOrder(s, r.did);
      OfDidNoRepeats(s.accepted, r.did);
      PrefixRepeats(OfDid(Calls(s.events), r.did), OfDid(s.lanes[LaneOf(s, r.did)].queue, r.did));
    }
  }

  /** Whatever a Publish call returned without cancellation is the delegate's answer to its request. */
  lemma CallerGetsOwnAnswer(workers: int, s: State, id: nat)
    requires Reachable(workers, s) && id in s.callers && s.callers[id].Answered?
    ensures s.callers[id].req.id == id && Ended(s.callers[id].req, s.callers[id].response) in s.events
  {
    ReachableInv(workers, s);
    assert CallerOk(s, id);
    var req := s.callers[id].req;
    var e :| Ended(e, s.answers[id]) in s.events && e.id == id;
    AcceptedIffCalledOrQueued(s, e);
    assert s.callers[e.id].req == e;
  }

  /**
   Once Close has returned, the lanes are empty and each accepted request, the cancelled ones
   included, was passed to the delegate exactly once and has its answer.
   */
  lemma CloseLeavesNothingBehind(workers: int, s: State, r: Request)
    requires Reachable(workers, s) && s.closeReturned
    ensures forall i :: 0 <= i < |s.lanes| ==> s.lanes[i].queue == [] && s.lanes[i].running.None?
    ensures r in s.accepted <==> Started(r) in s.events
    ensures r in s.accepted ==> r.id in s.answers && Ended(r, s.answers[r.id]) in s.events
    ensures forall i, j :: 0 <= i < j < |s.events| && s.events[i] == Started(r) ==> s.events[j] != Started(r)
  {
    ReachableInv(workers, s);
    forall i | 0 <= i < |s.lanes| ensures s.lanes[i].queue == [] && s.lanes[i].running.None? {
      assert LaneOk(s, i);
    }
    AcceptedIffCalledOrQueued(s, r);
    if r in s.accepted {
      var i :| 0 <= i < |s.events| && s.events[i] == Started(r);
      assert CallOver(s, i);
      var k :| i < k < |s.events| && s.events[k].Ended? && s.events[k].req == r;
      assert s.events[k] in s.events;
    }
    forall i, j | 0 <= i < j < |s.events| && s.events[i] == Started(r) ensures s.events[j] != Started(r) {
      if s.events[j] == Started(r) {
        CalledOnce(s, i, j);
      }
    }
  }

  // ---------------------------------------------------------------- Close terminates

  /** What the workers still have to do before they have all stopped. */
  function LaneWork(lane: Lane): nat {
    2 * |lane.queue| + (if lane.running.Some? then 1 else 0) + (if lane.stopped then 0 else 1)
  }

  function Work(lanes: seq<Lane>): nat {
    if lanes == [] then 0 else LaneWork(lanes[0]) + Work(lanes[1..])
  }

  lemma {:induction false} WorkUpdate(lanes: seq<Lane>, i: nat, lane: Lane)
    requires i < |lanes|
    ensures Work(lanes[i := lane]) == Work(lanes) - LaneWork(lanes[i]) + LaneWork(lane)
  {
    if i > 0 {
      WorkUpdate(lanes[1..], i - 1, lane);
      assert lanes[i := lane][1..] == lanes[1..][i - 1 := lane];
    } else {
      assert lanes[0 := lane][1..] == lanes[1..];
    }
  }

  lemma {:induction false} NoWorkMeansStopped(lanes: seq<Lane>)
    ensures Work(lanes) == 0 ==> forall i :: 0 <= i < |lanes| ==> lanes[i].stopped
    ensures Work(lanes) > 0 ==> exists i :: 0 <= i < |lanes| && LaneWork(lanes[i]) > 0
  {
    if lanes != [] {
      NoWorkMeansStopped(lanes[1..]);
      if Work(lanes) > 0 && LaneWork(lanes[0]) == 0 {
        var i :| 0 <= i < |lanes[1..]| && LaneWork(lanes[1..][i]) > 0;
        assert LaneWork(lanes[i + 1]) > 0;
      }
      if Work(lanes) == 0 {
        forall i | 0 <= i < |lanes| ensures lanes[i].stopped {
          assert i > 0 ==> lanes[i] == lanes[1..][i - 1];
        }
      }
    }
  }

  lemma WorkerStepReducesWork(s: State, step: Step)
    requires Enabled(s, step) && (step.Take? || step.Finish? || step.Stop?)
    ensures Work(Apply(s, step).lanes) < Work(s.lanes)
  {
    WorkUpdate(s.lanes, step.lane, Apply(s, step).lanes[step.lane]);
  }

  /** A closed lane with work left always has a worker step, whatever the callers do. */
  lemma ClosedLaneMoves(s: State, i: nat)
    requires s.lanes != [] && !s.crashed && i < |s.lanes| && LaneOk(s, i)
    requires s.lanes[i].closed && LaneWork(s.lanes[i]) > 0
    ensures Enabled(s, Take(i)) || Enabled(s, Stop(i)) || forall response :: Enabled(s, Finish(i, response))
  {
  }

  ghost predicate WorkerCanMove(s: State) {
    exists i :: Enabled(s, Take(i)) || Enabled(s, Stop(i)) || forall response :: Enabled(s, Finish(i, response))
  }

  /**
   After Close has closed every lane, no step adds work and each worker step removes some; while work
   is left some worker can move whatever the callers do, and when none is left Close can return.
   */
  lemma CloseTerminates(workers: int, s: State, step: Step)
    requires Reachable(workers, s) && s.lanesClosed == |s.lanes| && !s.crashed
    ensures Enabled(s, step) ==> Work(Apply(s, step).lanes) <= Work(s.lanes)
    ensures Enabled(s, step) && (step.Take? || step.Finish? || step.Stop?) ==> Work(Apply(s, step).lanes) < Work(s.lanes)
    ensures Work(s.lanes) > 0 ==> WorkerCanMove(s)
    ensures Work(s.lanes) == 0 && !s.closeReturned ==> Enabled(s, CloseReturn)
  {
    ReachableInv(workers, s);
    NoWorkMeansStopped(s.lanes);
    forall i | 0 <= i < |s.lanes| ensures LaneOk(s, i) && s.lanes[i].closed {
      assert LaneOk(s, i);
    }
    if Work(s.lanes) > 0 {
      var i :| 0 <= i < |s.lanes| && LaneWork(s.lanes[i]) > 0;
      ClosedLaneMoves(s, i);
    }
    if Enabled(s, step) {
      if step.Take? || step.Finish? || step.Stop? {
        WorkerStepReducesWork(s, step);
      } else {
        assert Apply(s, step).lanes == s.lanes;
      }
    }
  }
}
