// The main loop of `run_cbor_mode`: admission, queueing, routing, cancellation, reaping.
module Scheduler {
  import opened Prelude
  import opened Wire

  datatype Queued = Queued(id: MessageId, xid: Option<MessageId>)

  // The requests' input: `fed` holds the frames sent into each request's channel, `open` the requests
  // whose channel the loop still writes, `deaf` the channels nobody reads any more.
  datatype Channels = Channels(open: set<MessageId>, fed: map<MessageId, seq<WireFrame>>, deaf: set<MessageId>)

  // The spawned handlers; `taps` counts the open live feeds of each.
  datatype Hands = Hands(
    handlers: set<MessageId>,
    routing: map<MessageId, Option<MessageId>>,
    taps: map<MessageId, nat>,
    cancelled: set<MessageId>,
    running: nat)

  // Waiting peer calls, with the request each was made for, and the frames sent to them.
  datatype Calls = Calls(peers: map<MessageId, MessageId>, replies: map<MessageId, seq<WireFrame>>)

  // What the loop knows, and what it has done: `started` are the handlers spawned, in order, and `out`
  // everything sent to the writer.
  datatype LoopState = LoopState(
    input: Channels,
    hands: Hands,
    calls: Calls,
    queue: seq<Queued>,
    capacity: nat,
    started: seq<Queued>,
    out: seq<WireFrame>)

  function Initial(capacity: nat): LoopState {
    LoopState(Channels({}, map[], {}), Hands({}, map[], map[], {}, 0), Calls(map[], map[]), [], capacity, [], [])
  }

  function Send(s: LoopState, f: WireFrame): LoopState {
    s.(out := s.out + [f])
  }

  // A free slot; capacity 0 means no limit.
  predicate Room(s: LoopState) {
    s.capacity == 0 || s.hands.running < s.capacity
  }

  function Hire(h: Hands, q: Queued): Hands {
    Hands(h.handlers + {q.id}, h.routing[q.id := q.xid], h.taps[q.id := 0], h.cancelled, h.running + 1)
  }

  function Dismiss(h: Hands, id: MessageId): Hands {
    Hands(h.handlers - {id}, h.routing - {id}, h.taps - {id}, h.cancelled - {id}, if h.running == 0 then 0 else h.running - 1)
  }

  function Spawn(s: LoopState, q: Queued): LoopState {
    s.(hands := Hire(s.hands, q), started := s.started + [q])
  }

  function Dequeue(s: LoopState): LoopState
    requires s.queue != []
  {
    var q := s.queue[0];
    Spawn(Send(s.(queue := s.queue[1..]), Plain(Log, q.id, q.xid, "dequeued")), q)
  }

  function Drain(s: LoopState): LoopState
    decreases |s.queue|
  {
    if s.queue == [] || !Room(s) then s else Drain(Dequeue(s))
  }

  function RoutingOf(h: Hands, id: MessageId): Option<MessageId> {
    if id in h.routing then h.routing[id] else None
  }

  function Reap(s: LoopState, id: MessageId): LoopState {
    s.(hands := Dismiss(s.hands, id),
       out := if id in s.hands.cancelled then s.out + [Plain(Err, id, RoutingOf(s.hands, id), "CANCELLED")] else s.out)
  }

  // Why a REQ is turned away, if it is.
  function Rejection(f: WireFrame, finds: string -> bool): Option<string> {
    if f.urn.None? then Some("INVALID_REQUEST")
    else if !finds(f.urn.value) then Some("NO_HANDLER")
    else if f.payload.Some? && f.payload.value != [] then Some("PROTOCOL_ERROR")
    else None
  }

  function NewChannel(c: Channels, id: MessageId): Channels {
    Channels(c.open + {id}, c.fed[id := []], c.deaf - {id})
  }

  // An accepted request gets its channel at once, and a handler or a place in the queue.
  function Admit(s: LoopState, q: Queued): LoopState {
    var admitted := s.(input := NewChannel(s.input, q.id));
    if Room(s) then Spawn(admitted, q)
    else Send(admitted, Plain(Log, q.id, q.xid, "queued")).(queue := s.queue + [q])
  }

  function Request(s: LoopState, f: WireFrame, finds: string -> bool): LoopState {
    var rejection := Rejection(f, finds);
    if rejection.Some? then Send(s, Plain(Err, f.id, f.xid, rejection.value))
    else Admit(s, Queued(f.id, f.xid))
  }

  function Extend(logs: map<MessageId, seq<WireFrame>>, id: MessageId, f: WireFrame): map<MessageId, seq<WireFrame>> {
    logs[id := (if id in logs then logs[id] else []) + [f]]
  }

  // A frame for an open channel; a channel found without a reader is given up.
  function Feed(c: Channels, id: MessageId, f: WireFrame): Channels {
    if id in c.deaf then Shut(c, id) else c.(fed := Extend(c.fed, id, f))
  }

  function Shut(c: Channels, id: MessageId): Channels {
    c.(open := c.open - {id})
  }

  function Reply(c: Calls, id: MessageId, f: WireFrame): Calls {
    c.(replies := Extend(c.replies, id, f))
  }

  function Route(s: LoopState, f: WireFrame): LoopState {
    if f.id in s.input.open then s.(input := Feed(s.input, f.id, f))
    else if f.id in s.calls.peers then s.(calls := Reply(s.calls, f.id, f))
    else s
  }

  function RouteLast(s: LoopState, f: WireFrame): LoopState {
    if f.id in s.input.open then s.(input := Shut(Feed(s.input, f.id, f), f.id))
    else if f.id in s.calls.peers then s.(calls := Reply(s.calls, f.id, f).(peers := s.calls.peers - {f.id}))
    else s
  }

  predicate Waits(queue: seq<Queued>, id: MessageId) {
    exists i :: 0 <= i < |queue| && queue[i].id == id
  }

  // Nothing is under way for this id.
  predicate Free(s: LoopState, id: MessageId) {
    id !in s.hands.handlers && !Waits(s.queue, id)
  }

  // Where the first entry for `id` stands; the length when there is none.
  function Position(queue: seq<Queued>, id: MessageId): (p: nat)
    ensures p <= |queue|
    ensures p < |queue| <==> Waits(queue, id)
    ensures p < |queue| ==> queue[p].id == id
    ensures forall i :: 0 <= i < p ==> queue[i].id != id
  {
    if queue == [] || queue[0].id == id then 0
    else
      var p := 1 + Position(queue[1..], id);
      assert Waits(queue, id) ==> Waits(queue[1..], id) by {
        if Waits(queue, id) {
          var i :| 0 <= i < |queue| && queue[i].id == id;
          assert queue[1..][i - 1].id == id;
        }
      }
      assert p < |queue| ==> queue[p].id == id;
      p
  }

  function Without<T>(queue: seq<T>, p: nat): seq<T>
    requires p < |queue|
  {
    queue[..p] + queue[p + 1..]
  }

  // The peer calls made on behalf of `id`.
  function CallsOf(peers: map<MessageId, MessageId>, id: MessageId): set<MessageId> {
    set p | p in peers && peers[p] == id
  }

  function CancelFrames(order: seq<MessageId>, force: bool): seq<WireFrame> {
    seq(|order|, i requires 0 <= i < |order| => Plain(Kind.Cancel, order[i], None, "").(force := Some(force)))
  }

  predicate Forced(f: WireFrame) {
    f.force.Some? && f.force.value
  }

  // A non-forced cancel of a request with open live feeds closes them and leaves it to drain.
  predicate Stops(s: LoopState, f: WireFrame) {
    !Forced(f) && f.id in s.hands.taps && s.hands.taps[f.id] > 0
  }

  // An unforced cancel forgets the feeds of its request.
  function Untap(s: LoopState, f: WireFrame): LoopState {
    if Forced(f) then s else s.(hands := s.hands.(taps := s.hands.taps - {f.id}))
  }

  function Withdraw(s: LoopState, p: nat): LoopState
    requires p < |s.queue|
  {
    var q := s.queue[p];
    Send(s.(queue := Without(s.queue, p), input := Shut(s.input, q.id)), Plain(Err, q.id, q.xid, "CANCELLED"))
  }

  // `order` is the order in which the pending peer calls happen to be walked.
  function Abort(s: LoopState, id: MessageId, force: bool, order: seq<MessageId>): LoopState {
    s.(hands := s.hands.(cancelled := s.hands.cancelled + {id}),
       input := Shut(s.input, id),
       calls := s.calls.(peers := s.calls.peers - CallsOf(s.calls.peers, id)),
       out := s.out + CancelFrames(order, force))
  }

  function CancelRequest(s: LoopState, f: WireFrame, order: seq<MessageId>): LoopState {
    if f.id in s.hands.cancelled then s
    else if Stops(s, f) then Untap(s, f)
    else if Waits(s.queue, f.id) then Withdraw(Untap(s, f), Position(s.queue, f.id))
    else if f.id in s.hands.handlers then Abort(Untap(s, f), f.id, Forced(f), order)
    else Untap(s, f)
  }

  // One frame from the host; relay frames end the loop and are not dispatched.
  function Dispatch(s: LoopState, f: WireFrame, order: seq<MessageId>, finds: string -> bool): LoopState {
    match f.kind
    case Req => Request(s, f, finds)
    case StreamStart => Route(s, f)
    case Chunk => Route(s, f)
    case StreamEnd => Route(s, f)
    case Log => Route(s, f)
    case End => RouteLast(s, f)
    case Err => RouteLast(s, f)
    case Cancel => CancelRequest(s, f, order)
    case Heartbeat => Send(s, Plain(Heartbeat, f.id, None, ""))
    case Hello => Send(s, Plain(Err, f.id, None, "PROTOCOL_ERROR"))
    case _ => s
  }

  predicate Lists(order: seq<MessageId>, ids: set<MessageId>) {
    && (forall i :: 0 <= i < |order| ==> order[i] in ids)
    && (forall id :: id in ids ==> id in order)
    && (forall i, j :: 0 <= i < j < |order| ==> order[i] != order[j])
  }

  predicate Visits(order: seq<MessageId>, s: LoopState, f: WireFrame) {
    if Aborts(s, f) then Lists(order, CallsOf(s.calls.peers, f.id)) else order == []
  }

  // What a cancel comes to: a queued request withdrawn, or a running handler told to give up.
  predicate Withdraws(s: LoopState, f: WireFrame) {
    f.id !in s.hands.cancelled && !Stops(s, f) && Waits(s.queue, f.id)
  }

  predicate Aborts(s: LoopState, f: WireFrame) {
    f.id !in s.hands.cancelled && !Stops(s, f) && !Waits(s.queue, f.id) && f.id in s.hands.handlers
  }

  class MainLoop {
    var activeRequests: set<MessageId>
    var fed: map<MessageId, seq<WireFrame>>
    var deaf: set<MessageId>
    var activeHandlers: set<MessageId>
    var handlerRoutingIds: map<MessageId, Option<MessageId>>
    var liveFeeds: map<MessageId, nat>
    var cancelledRequests: set<MessageId>
    var requestQueue: seq<Queued>
    var runningHandlerCount: nat
    var pendingPeerRequests: map<MessageId, MessageId>
    var replies: map<MessageId, seq<WireFrame>>
    var capacity: nat
    var started: seq<Queued>
    var output: seq<WireFrame>
    const finds: string -> bool

    ghost function State(): LoopState
      reads this
    {
      LoopState(Channels(activeRequests, fed, deaf),
                Hands(activeHandlers, handlerRoutingIds, liveFeeds, cancelledRequests, runningHandlerCount),
                Calls(pendingPeerRequests, replies), requestQueue, capacity, started, output)
    }

    constructor (capacity: nat, finds: string -> bool)
      ensures State() == Initial(capacity) && this.finds == finds
    {
      activeRequests, fed, deaf, activeHandlers, handlerRoutingIds := {}, map[], {}, {}, map[];
      liveFeeds, cancelledRequests, requestQueue, runningHandlerCount := map[], {}, [], 0;
      pendingPeerRequests, replies, started, output := map[], map[], [], [];
      this.capacity, this.finds := capacity, finds;
    }

    method SpawnHandler(q: Queued)
      modifies `activeHandlers, `handlerRoutingIds, `liveFeeds, `runningHandlerCount, `started
      ensures State() == Spawn(old(State()), q)
    {
      liveFeeds := liveFeeds[q.id := 0];
      started := started + [q];
      activeHandlers := activeHandlers + {q.id};
      handlerRoutingIds := handlerRoutingIds[q.id := q.xid];
      runningHandlerCount := runningHandlerCount + 1;
    }

    method DrainQueue()
      modifies this
      ensures State() == Drain(old(State()))
    {
      var cap := capacity;
      while requestQueue != [] && (cap == 0 || runningHandlerCount < cap)
        invariant capacity == cap
        invariant Drain(State()) == Drain(old(State()))
        decreases |requestQueue|
      {
        var q := requestQueue[0];
        requestQueue := requestQueue[1..];
        output := output + [Plain(Log, q.id, q.xid, "dequeued")];
        SpawnHandler(q);
      }
    }

    method RemoveHandler(id: MessageId)
      modifies `activeHandlers, `handlerRoutingIds, `liveFeeds, `cancelledRequests, `runningHandlerCount
      ensures State().hands == Dismiss(old(State()).hands, id)
    {
      activeHandlers := activeHandlers - {id};
      if runningHandlerCount > 0 {
        runningHandlerCount := runningHandlerCount - 1;
      }
      liveFeeds := liveFeeds - {id};
      cancelledRequests := cancelledRequests - {id};
      handlerRoutingIds := handlerRoutingIds - {id};
    }

    method OnHandlerDone(id: MessageId)
      modifies this
      ensures State() == Reap(old(State()), id)
    {
      hide Dismiss;
      var routing := if id in handlerRoutingIds then handlerRoutingIds[id] else None;
      var wasCancelled := id in cancelledRequests;
      RemoveHandler(id);
      if wasCancelled {
        output := output + [Plain(Err, id, routing, "CANCELLED")];
      }
    }

    method OnRequest(f: WireFrame)
      modifies this
      ensures State() == Request(old(State()), f, finds)
    {
      hide Admit;
      if f.urn.None? {
        output := output + [Plain(Err, f.id, f.xid, "INVALID_REQUEST")];
        return;
      }
      if !finds(f.urn.value) {
        output := output + [Plain(Err, f.id, f.xid, "NO_HANDLER")];
        return;
      }
      if f.payload.Some? && f.payload.value != [] {
        output := output + [Plain(Err, f.id, f.xid, "PROTOCOL_ERROR")];
        return;
      }
      AdmitRequest(Queued(f.id, f.xid));
    }

    method AdmitRequest(q: Queued)
      modifies this
      ensures State() == Admit(old(State()), q)
    {
      hide Hire;
      activeRequests := activeRequests + {q.id};
      fed := fed[q.id := []];
      deaf := deaf - {q.id};
      var cap := capacity;
      if cap > 0 && runningHandlerCount >= cap {
        output := output + [Plain(Log, q.id, q.xid, "queued")];
        requestQueue := requestQueue + [q];
      } else {
        SpawnHandler(q);
      }
    }

    method OnStreamFrame(f: WireFrame)
      modifies `activeRequests, `fed, `replies
      ensures State() == Route(old(State()), f)
    {
      if f.id in activeRequests {
        if f.id in deaf {
          activeRequests := activeRequests - {f.id};
        } else {
          fed := Extend(fed, f.id, f);
        }
      } else if f.id in pendingPeerRequests {
        replies := Extend(replies, f.id, f);
      }
    }

    method OnLastFrame(f: WireFrame)
      modifies `activeRequests, `fed, `replies, `pendingPeerRequests
      ensures State() == RouteLast(old(State()), f)
    {
      if f.id in activeRequests {
        activeRequests := activeRequests - {f.id};
        if f.id !in deaf {
          fed := Extend(fed, f.id, f);
        }
      } else if f.id in pendingPeerRequests {
        pendingPeerRequests := pendingPeerRequests - {f.id};
        replies := Extend(replies, f.id, f);
      }
    }

    // `order` is the list the pending peer calls of the request were collected into, in whatever order
    // their map was walked: all are told first, then all are forgotten.
    method CancelPeers(order: seq<MessageId>, force: bool)
      modifies `pendingPeerRequests, `output
      ensures pendingPeerRequests == old(pendingPeerRequests) - (set id | id in order)
      ensures output == old(output) + CancelFrames(order, force)
    {
      for i := 0 to |order|
        invariant pendingPeerRequests == old(pendingPeerRequests)
        invariant output == old(output) + CancelFrames(order[..i], force)
      {
        output := output + [Plain(Kind.Cancel, order[i], None, "").(force := Some(force))];
        assert CancelFrames(order[..i + 1], force) ==
               CancelFrames(order[..i], force) + [Plain(Kind.Cancel, order[i], None, "").(force := Some(force))];
      }
      assert order[..|order|] == order;
      for i := 0 to |order|
        invariant pendingPeerRequests == old(pendingPeerRequests) - (set id | id in order[..i])
        invariant output == old(output) + CancelFrames(order, force)
      {
        pendingPeerRequests := pendingPeerRequests - {order[i]};
      }
    }

    // The open feeds of a request being cancelled, closed and forgotten; whether there were any.
    method CloseFeeds(f: WireFrame) returns (stopped: bool)
      modifies `liveFeeds
      ensures stopped == Stops(old(State()), f)
      ensures State() == Untap(old(State()), f)
    {
      stopped := false;
      if !(f.force.Some? && f.force.value) && f.id in liveFeeds {
        stopped := liveFeeds[f.id] > 0;
        liveFeeds := liveFeeds - {f.id};
      }
      assert liveFeeds == if Forced(f) then old(liveFeeds) else old(liveFeeds) - {f.id};
    }

    method WithdrawQueued(pos: nat)
      requires pos < |requestQueue|
      modifies `requestQueue, `activeRequests, `output
      ensures State() == Withdraw(old(State()), pos)
    {
      var queued := requestQueue[pos];
      requestQueue := Without(requestQueue, pos);
      activeRequests := activeRequests - {queued.id};
      output := output + [Plain(Err, queued.id, queued.xid, "CANCELLED")];
    }

    method AbortHandler(id: MessageId, force: bool, order: seq<MessageId>)
      requires Lists(order, CallsOf(pendingPeerRequests, id))
      modifies `cancelledRequests, `activeRequests, `pendingPeerRequests, `output
      ensures State() == Abort(old(State()), id, force, order)
    {
      assert (set p | p in order) == CallsOf(pendingPeerRequests, id);
      hide Lists, CancelFrames, CallsOf;
      cancelledRequests := cancelledRequests + {id};
      activeRequests := activeRequests - {id};
      CancelPeers(order, force);
    }

    method OnCancel(f: WireFrame, order: seq<MessageId>)
      requires Visits(order, State(), f)
      modifies this
      ensures State() == CancelRequest(old(State()), f, order)
    {
      hide Lists, Stops, Withdraw, Abort;
      if f.id in cancelledRequests {
        return;
      }
      var stopped := CloseFeeds(f);
      if stopped {
        return;
      }
      var pos := Position(requestQueue, f.id);
      if pos < |requestQueue| {
        WithdrawQueued(pos);
      } else if f.id in activeHandlers {
        AbortHandler(f.id, f.force.Some? && f.force.value, order);
      }
    }

    method OnFrame(f: WireFrame, order: seq<MessageId>)
      requires f.kind.Cancel? ==> Visits(order, State(), f)
      modifies this
      ensures State() == Dispatch(old(State()), f, order, finds)
    {
      match f.kind {
        case Req => OnRequest(f);
        case StreamStart => OnStreamFrame(f);
        case Chunk => OnStreamFrame(f);
        case StreamEnd => OnStreamFrame(f);
        case Log => OnStreamFrame(f);
        case End => OnLastFrame(f);
        case Err => OnLastFrame(f);
        case Cancel => OnCancel(f, order);
        case Heartbeat => output := output + [Plain(Heartbeat, f.id, None, "")];
        case Hello => output := output + [Plain(Err, f.id, None, "PROTOCOL_ERROR")];
        case _ =>
      }
    }
  }
}
