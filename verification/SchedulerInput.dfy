// What a request's handler and a peer call are given to read: the frames the host sent for them.
module SchedulerInput {
  import opened Prelude
  import opened Wire
  import opened Scheduler
  import opened SchedulerRuns

  predicate IsInput(f: WireFrame) {
    f.kind.StreamStart? || f.kind.Chunk? || f.kind.StreamEnd? || f.kind.Log? || f.kind.End? || f.kind.Err?
  }

  // What is owed to a reader, and whether there may be more.
  datatype Due = Due(frames: seq<WireFrame>, open: bool)

  // One more frame from the host: another piece of it, the last if it is END or ERR.
  function More(due: Due, f: WireFrame): Due {
    Due(due.frames + [f], !(f.kind.End? || f.kind.Err?))
  }

  // The input owed to request `id` by what the host sent: the frames with its id after its REQ, through
  // the first END or ERR, or up to a cancel that took hold. `cancels` numbers those. Nothing is owed
  // before the REQ is accepted, and a later one starts anew.
  function Owed(arrivals: seq<WireFrame>, cancels: set<nat>, id: MessageId, finds: string -> bool): Option<Due> {
    if arrivals == [] then None
    else
      var n := |arrivals| - 1;
      OwedNext(Owed(arrivals[..n], cancels, id, finds), arrivals[n], n in cancels, id, finds)
  }

  function OwedNext(owed: Option<Due>, f: WireFrame, cancels: bool, id: MessageId, finds: string -> bool): Option<Due> {
    if Accepted(f, finds) && f.id == id then Some(Due([], true))
    else if owed.None? || !owed.value.open || f.id != id then owed
    else if IsInput(f) then Some(More(owed.value, f))
    else if cancels then Some(owed.value.(open := false))
    else owed
  }

  lemma {:induction false} OwedBefore(arrivals: seq<WireFrame>, cancels: set<nat>, n: nat, id: MessageId, finds: string -> bool)
    requires n >= |arrivals|
    ensures Owed(arrivals, cancels + {n}, id, finds) == Owed(arrivals, cancels, id, finds)
  {
    if arrivals != [] {
      OwedBefore(arrivals[..|arrivals| - 1], cancels, n, id, finds);
    }
  }

  function OwedIn(w: World, id: MessageId, finds: string -> bool): Option<Due> {
    Owed(w.arrivals, w.withdrawals + w.aborts, id, finds)
  }

  // What had come when the channel lost its reader.
  function OwedAtLoss(w: World, id: MessageId, finds: string -> bool): Option<Due>
    requires id in w.lost
  {
    if w.lost[id] <= |w.arrivals| then Owed(w.arrivals[..w.lost[id]], w.withdrawals + w.aborts, id, finds) else None
  }

  // What stands in the channel of request `id`, and who still reads and writes it.
  datatype Channel = Channel(fed: Option<seq<WireFrame>>, open: bool, deaf: bool)

  function ChannelOf(s: LoopState, id: MessageId): Channel {
    Channel(if id in s.input.fed then Some(s.input.fed[id]) else None, id in s.input.open, id in s.input.deaf)
  }

  // A channel with its reader holds exactly what is owed, and is open as long as more may be. One that
  // lost its reader holds what was owed by then.
  predicate Accounts(c: Channel, owed: Option<Due>, lost: bool, before: Option<Due>) {
    if owed.None? then c.fed.None? && !c.open && !c.deaf
    else if lost then c.deaf && before.Some? && c.fed == Some(before.value.frames) && (c.open ==> owed.value.open)
    else c == Channel(Some(owed.value.frames), owed.value.open, false)
  }

  predicate Fair(w: World, id: MessageId, finds: string -> bool) {
    && Accounts(ChannelOf(w.s, id), OwedIn(w, id, finds), id in w.lost, if id in w.lost then OwedAtLoss(w, id, finds) else None)
    && (id in w.lost ==> w.lost[id] <= |w.arrivals|)
    && id !in w.s.calls.peers
  }

  lemma {:induction false} DrainKeepsInput(s: LoopState)
    ensures Drain(s).input == s.input && Drain(s).calls == s.calls
    decreases |s.queue|
  {
    if s.queue != [] && Room(s) {
      DrainKeepsInput(Dequeue(s));
    }
  }

  // A frame with this id reaches the channel while it is open and heard.
  function Fed(c: Channel, f: WireFrame): Channel {
    if c.open && c.deaf then c.(open := false)
    else if c.open then c.(fed := Some((if c.fed.Some? then c.fed.value else []) + [f]), open := !IsTerminal(f))
    else c
  }

  lemma {:induction false} RouteOne(s: LoopState, f: WireFrame, id: MessageId)
    requires id !in s.calls.peers && !IsTerminal(f)
    ensures ChannelOf(Route(s, f), id) == if f.id == id then Fed(ChannelOf(s, id), f) else ChannelOf(s, id)
    ensures id !in Route(s, f).calls.peers
  {
  }

  lemma {:induction false} RouteLastOne(s: LoopState, f: WireFrame, id: MessageId)
    requires id !in s.calls.peers && IsTerminal(f)
    ensures ChannelOf(RouteLast(s, f), id) == if f.id == id then Fed(ChannelOf(s, id), f) else ChannelOf(s, id)
    ensures id !in RouteLast(s, f).calls.peers
  {
  }

  lemma {:induction false} RouteChannel(s: LoopState, f: WireFrame, order: seq<MessageId>, finds: string -> bool, id: MessageId)
    requires IsInput(f) && id !in s.calls.peers
    ensures var t := Dispatch(s, f, order, finds);
      ChannelOf(t, id) == (if f.id == id then Fed(ChannelOf(s, id), f) else ChannelOf(s, id)) && id !in t.calls.peers
  {
    hide Request, CancelRequest, Route, RouteLast, ChannelOf, Fed;
    if IsTerminal(f) {
      RouteLastOne(s, f, id);
    } else {
      RouteOne(s, f, id);
    }
  }

  lemma {:induction false} FedAccounts(c: Channel, f: WireFrame, owed: Option<Due>, lost: bool, before: Option<Due>, finds: string -> bool)
    requires IsInput(f) && Accounts(c, owed, lost, before)
    ensures Accounts(Fed(c, f), OwedNext(owed, f, false, f.id, finds), lost, before)
  {
  }

  lemma {:induction false} RequestChannel(s: LoopState, f: WireFrame, finds: string -> bool, id: MessageId)
    ensures var t := Request(s, f, finds);
      && ChannelOf(t, id) == (if f.id == id && Rejection(f, finds).None? then Channel(Some([]), true, false) else ChannelOf(s, id))
      && t.calls == s.calls
  {
  }

  lemma {:induction false} WithdrawChannel(s: LoopState, p: nat, id: MessageId)
    requires p < |s.queue|
    ensures var t := Withdraw(s, p);
      && ChannelOf(t, id) == (if id == s.queue[p].id then ChannelOf(s, id).(open := false) else ChannelOf(s, id))
      && t.calls == s.calls
  {
  }

  lemma {:induction false} AbortChannel(s: LoopState, gone: MessageId, force: bool, order: seq<MessageId>, id: MessageId)
    ensures var t := Abort(s, gone, force, order);
      && ChannelOf(t, id) == (if id == gone then ChannelOf(s, id).(open := false) else ChannelOf(s, id))
      && t.calls.replies == s.calls.replies && t.calls.peers == s.calls.peers - CallsOf(s.calls.peers, gone)
  {
  }

  lemma {:induction false} CancelChannel(s: LoopState, f: WireFrame, order: seq<MessageId>, id: MessageId)
    ensures var t := CancelRequest(s, f, order);
      && ChannelOf(t, id) == (if f.id == id && (Withdraws(s, f) || Aborts(s, f)) then ChannelOf(s, id).(open := false)
                              else ChannelOf(s, id))
      && t.calls.replies == s.calls.replies
      && t.calls.peers == (if Aborts(s, f) then s.calls.peers - CallsOf(s.calls.peers, f.id) else s.calls.peers)
  {
    hide Withdraw, Abort, Stops, Position;
    var u := Untap(s, f);
    assert ChannelOf(u, id) == ChannelOf(s, id) && u.calls == s.calls && u.queue == s.queue;
    hide ChannelOf, CallsOf;
    if Withdraws(s, f) {
      WithdrawChannel(u, Position(s.queue, f.id), id);
    } else if Aborts(s, f) {
      AbortChannel(u, f.id, Forced(f), order, id);
    }
  }

  // ---- Requests ----

  // The history numbers frames that have come.
  predicate Dated(w: World) {
    forall n :: n in w.withdrawals + w.aborts ==> n < |w.arrivals|
  }

  // What is owed after one more frame from the host.
  lemma {:induction false} OwedAfter(w: World, f: WireFrame, order: seq<MessageId>, finds: string -> bool, id: MessageId)
    requires Dated(w)
    ensures var t := Receive(w, f, order, finds); var cancels := f.kind.Cancel? && (Withdraws(w.s, f) || Aborts(w.s, f));
      && OwedIn(t, id, finds) == OwedNext(OwedIn(w, id, finds), f, cancels, id, finds)
      && (id in w.lost && id in t.lost && w.lost[id] <= |w.arrivals| ==> OwedAtLoss(t, id, finds) == OwedAtLoss(w, id, finds))
  {
    hide Dispatch, Withdraws, Aborts;
    var t := Receive(w, f, order, finds);
    var n := |w.arrivals|;
    assert t.arrivals[..n] == w.arrivals;
    var before := w.withdrawals + w.aborts;
    assert n !in before;
    OwedBefore(w.arrivals, before, n, id, finds);
    assert t.withdrawals + t.aborts == before || t.withdrawals + t.aborts == before + {n};
    if id in w.lost && w.lost[id] <= n {
      assert t.arrivals[..w.lost[id]] == w.arrivals[..w.lost[id]];
      OwedBefore(w.arrivals[..w.lost[id]], before, n, id, finds);
    }
  }

  lemma {:induction false} RequestFair(w: World, f: WireFrame, order: seq<MessageId>, finds: string -> bool, ids: set<MessageId>, id: MessageId)
    requires Allowed(w, Arrived(f, order), ids) && id in ids && Fair(w, id, finds) && f.kind.Req? && Dated(w)
    ensures Fair(Receive(w, f, order, finds), id, finds)
  {
    OwedAfter(w, f, order, finds, id);
    RequestChannel(w.s, f, finds, id);
    hide Owed, Request, OwedIn, OwedAtLoss, ChannelOf;
  }

  lemma {:induction false} InputFair(w: World, f: WireFrame, order: seq<MessageId>, finds: string -> bool, ids: set<MessageId>, id: MessageId)
    requires Allowed(w, Arrived(f, order), ids) && id in ids && Fair(w, id, finds) && IsInput(f) && Dated(w)
    ensures Fair(Receive(w, f, order, finds), id, finds)
  {
    hide Owed, Dispatch, ChannelOf, OwedIn, OwedAtLoss, Fed;
    OwedAfter(w, f, order, finds, id);
    RouteChannel(w.s, f, order, finds, id);
    if f.id == id {
      FedAccounts(ChannelOf(w.s, id), f, OwedIn(w, id, finds), id in w.lost, if id in w.lost then OwedAtLoss(w, id, finds) else None, finds);
    }
    hide Accounts;
  }

  lemma {:induction false} CancelFair(w: World, f: WireFrame, order: seq<MessageId>, finds: string -> bool, ids: set<MessageId>, id: MessageId)
    requires Allowed(w, Arrived(f, order), ids) && id in ids && Fair(w, id, finds) && f.kind.Cancel? && Dated(w)
    ensures Fair(Receive(w, f, order, finds), id, finds)
  {
    OwedAfter(w, f, order, finds, id);
    CancelChannel(w.s, f, order, id);
    hide Owed, CancelRequest, OwedIn, OwedAtLoss, ChannelOf, Withdraws, Aborts, CallsOf;
  }

  lemma {:induction false} ReceiveFair(w: World, f: WireFrame, order: seq<MessageId>, finds: string -> bool, ids: set<MessageId>, id: MessageId)
    requires Allowed(w, Arrived(f, order), ids) && id in ids && Fair(w, id, finds) && Dated(w)
    ensures Fair(Receive(w, f, order, finds), id, finds)
  {
    if IsInput(f) {
      InputFair(w, f, order, finds, ids, id);
    } else if f.kind.Req? {
      RequestFair(w, f, order, finds, ids, id);
    } else if f.kind.Cancel? {
      CancelFair(w, f, order, finds, ids, id);
    } else {
      OwedAfter(w, f, order, finds, id);
      hide Owed, OwedIn, OwedAtLoss, Request, CancelRequest, Route, RouteLast;
    }
  }

  lemma {:induction false} StepFair(w: World, step: Step, ids: set<MessageId>, finds: string -> bool, id: MessageId)
    requires Allowed(w, step, ids) && id in ids && Fair(w, id, finds) && Dated(w)
    ensures Fair(After(w, step, ids, finds), id, finds)
  {
    hide Owed;
    match step
    case Drained => DrainKeepsInput(w.s);
    case Arrived(f, order) => ReceiveFair(w, f, order, finds, ids, id);
    case Deafened(_) => assert w.arrivals[..|w.arrivals|] == w.arrivals;
    case _ =>
  }

  lemma {:induction false} StepDated(w: World, step: Step, ids: set<MessageId>, finds: string -> bool)
    requires Allowed(w, step, ids) && Dated(w)
    ensures Dated(After(w, step, ids, finds))
  {
    hide Drain, Dispatch, Reap, Withdraws, Aborts;
  }

  lemma {:induction false} RunFair(w: World, steps: seq<Step>, ids: set<MessageId>, finds: string -> bool, id: MessageId)
    requires Go(w, steps, ids, finds).Some? && id in ids && Fair(w, id, finds) && Dated(w)
    ensures Fair(Go(w, steps, ids, finds).value, id, finds)
    decreases |steps|
  {
    hide Fair, Allowed, After, Dated;
    if steps != [] {
      StepFair(w, steps[0], ids, finds, id);
      StepDated(w, steps[0], ids, finds);
      RunFair(After(w, steps[0], ids, finds), steps[1..], ids, finds, id);
    }
  }

  // A request's channel holds exactly what the host sent for it, in order, through the first END or ERR or
  // up to the cancel that took hold, and is open for more exactly until then. If it lost its reader, it
  // holds what had come by that time.
  lemma {:induction false} InputArrives(steps: seq<Step>, capacity: nat, ids: set<MessageId>, finds: string -> bool, id: MessageId)
    requires Reach(steps, capacity, ids, finds).Some? && id in ids
    ensures var w := Reach(steps, capacity, ids, finds).value; var owed := OwedIn(w, id, finds);
      && (owed.Some? <==> id in w.s.input.fed)
      && (owed.Some? && id !in w.lost ==> w.s.input.fed[id] == owed.value.frames && (id in w.s.input.open <==> owed.value.open))
      && (owed.Some? && id in w.lost ==> OwedAtLoss(w, id, finds).Some? && w.s.input.fed[id] == OwedAtLoss(w, id, finds).value.frames)
  {
    RunFair(Boot(capacity), steps, ids, finds, id);
  }

  // Waiting is invisible: runs in which the host sends the same frames, and the same of them cancel, give
  // a request the same input, whatever the capacities, the moments of dispatch and the doings of others.
  lemma {:induction false} QueueingIsTransparent(one: seq<Step>, oneCapacity: nat, other: seq<Step>, otherCapacity: nat,
                                                 ids: set<MessageId>, finds: string -> bool, id: MessageId)
    requires Reach(one, oneCapacity, ids, finds).Some? && Reach(other, otherCapacity, ids, finds).Some? && id in ids
    requires var a := Reach(one, oneCapacity, ids, finds).value; var b := Reach(other, otherCapacity, ids, finds).value;
      && a.arrivals == b.arrivals && id !in a.lost && id !in b.lost
      && forall n :: 0 <= n < |a.arrivals| && a.arrivals[n].id == id ==>
           (n in a.withdrawals + a.aborts <==> n in b.withdrawals + b.aborts)
    ensures var a := Reach(one, oneCapacity, ids, finds).value.s.input; var b := Reach(other, otherCapacity, ids, finds).value.s.input;
      && (id in a.fed <==> id in b.fed) && (id in a.open <==> id in b.open)
      && (id in a.fed ==> a.fed[id] == b.fed[id])
  {
    var a := Reach(one, oneCapacity, ids, finds).value;
    var b := Reach(other, otherCapacity, ids, finds).value;
    RunFair(Boot(oneCapacity), one, ids, finds, id);
    RunFair(Boot(otherCapacity), other, ids, finds, id);
    hide Reach, Go;
    SameOwed(a.arrivals, a.withdrawals + a.aborts, b.withdrawals + b.aborts, id, finds);
  }

  lemma {:induction false} SameOwed(arrivals: seq<WireFrame>, one: set<nat>, other: set<nat>, id: MessageId, finds: string -> bool)
    requires forall n :: 0 <= n < |arrivals| && arrivals[n].id == id ==> (n in one <==> n in other)
    ensures Owed(arrivals, one, id, finds) == Owed(arrivals, other, id, finds)
  {
    if arrivals != [] {
      var n := |arrivals| - 1;
      assert forall i :: 0 <= i < n ==> arrivals[..n][i] == arrivals[i];
      SameOwed(arrivals[..n], one, other, id, finds);
      assert arrivals[n].id == id ==> (n in one <==> n in other);
    }
  }

  // ---- Peer calls ----

  // The response owed to a peer call by what the host sent since it was made: the frames with its id,
  // through the first END or ERR, or up to a cancel that told the request it was made for to give up.
  // `aborts` numbers those.
  function Response(arrivals: seq<WireFrame>, aborts: set<nat>, peer: MessageId, call: Call): Due
    decreases |arrivals|
  {
    if |arrivals| <= call.from then Due([], true)
    else
      var n := |arrivals| - 1;
      ResponseNext(Response(arrivals[..n], aborts, peer, call), arrivals[n], n in aborts, peer, call)
  }

  function ResponseNext(due: Due, f: WireFrame, aborts: bool, peer: MessageId, call: Call): Due {
    if !due.open then due
    else if f.id == peer && IsInput(f) then More(due, f)
    else if f.id == call.origin && aborts then due.(open := false)
    else due
  }

  lemma {:induction false} ResponseBefore(arrivals: seq<WireFrame>, aborts: set<nat>, n: nat, peer: MessageId, call: Call)
    requires n >= |arrivals|
    ensures Response(arrivals, aborts + {n}, peer, call) == Response(arrivals, aborts, peer, call)
  {
    if |arrivals| > call.from {
      ResponseBefore(arrivals[..|arrivals| - 1], aborts, n, peer, call);
    }
  }

  // The call waits exactly as long as more may come, and has been given exactly what came.
  predicate Replied(c: Calls, peer: MessageId, origin: MessageId, due: Due) {
    && peer in c.replies && c.replies[peer] == due.frames
    && (peer in c.peers <==> due.open) && (peer in c.peers ==> c.peers[peer] == origin)
  }

  predicate PeerFair(w: World, peer: MessageId) {
    && (peer in w.asked ==>
          && w.asked[peer].from <= |w.arrivals|
          && Replied(w.s.calls, peer, w.asked[peer].origin, Response(w.arrivals, w.aborts, peer, w.asked[peer])))
    && (peer !in w.asked ==> peer !in w.s.calls.peers && peer !in w.s.calls.replies)
    && peer !in w.s.input.open
  }

  lemma {:induction false} RoutePeer(s: LoopState, f: WireFrame, order: seq<MessageId>, finds: string -> bool, peer: MessageId, origin: MessageId, due: Due)
    requires IsInput(f) && peer !in s.input.open && Replied(s.calls, peer, origin, due)
    ensures var t := Dispatch(s, f, order, finds);
      && peer !in t.input.open
      && Replied(t.calls, peer, origin, if f.id == peer && due.open then More(due, f) else due)
  {
    hide Request, CancelRequest;
    if f.kind.End? || f.kind.Err? {
      RouteLastPeer(s, f, peer, origin, due);
    } else {
      RoutePeerOne(s, f, peer, origin, due);
    }
    hide Replied, Route, RouteLast;
  }

  lemma {:induction false} RoutePeerOne(s: LoopState, f: WireFrame, peer: MessageId, origin: MessageId, due: Due)
    requires peer !in s.input.open && Replied(s.calls, peer, origin, due) && !f.kind.End? && !f.kind.Err?
    ensures peer !in Route(s, f).input.open
    ensures Replied(Route(s, f).calls, peer, origin, if f.id == peer && due.open then More(due, f) else due)
  {
  }

  lemma {:induction false} RouteLastPeer(s: LoopState, f: WireFrame, peer: MessageId, origin: MessageId, due: Due)
    requires peer !in s.input.open && Replied(s.calls, peer, origin, due) && (f.kind.End? || f.kind.Err?)
    ensures peer !in RouteLast(s, f).input.open
    ensures Replied(RouteLast(s, f).calls, peer, origin, if f.id == peer && due.open then More(due, f) else due)
  {
  }

  lemma {:induction false} RouteNobody(s: LoopState, f: WireFrame, order: seq<MessageId>, finds: string -> bool, peer: MessageId)
    requires IsInput(f) && peer !in s.input.open && peer !in s.calls.peers && peer !in s.calls.replies
    ensures var t := Dispatch(s, f, order, finds);
      peer !in t.input.open && peer !in t.calls.peers && peer !in t.calls.replies
  {
    hide Request, CancelRequest;
  }

  // What is owed after one more frame.
  lemma {:induction false} ResponseAfter(w: World, f: WireFrame, order: seq<MessageId>, finds: string -> bool, peer: MessageId)
    requires peer in w.asked && w.asked[peer].from <= |w.arrivals| && Dated(w)
    ensures var t := Receive(w, f, order, finds);
      t.asked == w.asked &&
      Response(t.arrivals, t.aborts, peer, w.asked[peer]) ==
      ResponseNext(Response(w.arrivals, w.aborts, peer, w.asked[peer]), f, f.kind.Cancel? && Aborts(w.s, f), peer, w.asked[peer])
  {
    hide Dispatch, Withdraws, Aborts;
    var t := Receive(w, f, order, finds);
    assert t.arrivals[..|w.arrivals|] == w.arrivals;
    assert |w.arrivals| !in w.withdrawals + w.aborts;
    ResponseBefore(w.arrivals, w.aborts, |w.arrivals|, peer, w.asked[peer]);
  }

  lemma {:induction false} CancelPeer(s: LoopState, f: WireFrame, order: seq<MessageId>, peer: MessageId, origin: MessageId, due: Due)
    requires Replied(s.calls, peer, origin, due)
    ensures Replied(CancelRequest(s, f, order).calls, peer, origin, if due.open && f.id == origin && Aborts(s, f) then due.(open := false) else due)
  {
    CancelChannel(s, f, order, peer);
    hide CancelRequest, Aborts, Withdraws, ChannelOf;
  }

  lemma {:induction false} AskedFair(w: World, f: WireFrame, order: seq<MessageId>, finds: string -> bool, ids: set<MessageId>, peer: MessageId)
    requires Allowed(w, Arrived(f, order), ids) && peer !in ids && PeerFair(w, peer) && Dated(w) && peer in w.asked
    ensures PeerFair(Receive(w, f, order, finds), peer)
  {
    hide Response, Route, RouteLast, Request, CancelRequest, Withdraws, Aborts;
    ResponseAfter(w, f, order, finds, peer);
    var call := w.asked[peer];
    var due := Response(w.arrivals, w.aborts, peer, call);
    if IsInput(f) {
      RoutePeer(w.s, f, order, finds, peer, call.origin, due);
    } else if f.kind.Cancel? {
      CancelPeer(w.s, f, order, peer, call.origin, due);
      CancelChannel(w.s, f, order, peer);
    } else if f.kind.Req? {
      RequestChannel(w.s, f, finds, peer);
    }
    hide Replied, Dispatch;
  }

  lemma {:induction false} UnaskedFair(w: World, f: WireFrame, order: seq<MessageId>, finds: string -> bool, ids: set<MessageId>, peer: MessageId)
    requires Allowed(w, Arrived(f, order), ids) && peer !in ids && PeerFair(w, peer) && peer !in w.asked
    ensures PeerFair(Receive(w, f, order, finds), peer)
  {
    hide Response, Route, RouteLast, Request, CancelRequest, Withdraws, Aborts;
    if IsInput(f) {
      RouteNobody(w.s, f, order, finds, peer);
    } else if f.kind.Cancel? {
      CancelChannel(w.s, f, order, peer);
    } else if f.kind.Req? {
      RequestChannel(w.s, f, finds, peer);
    }
  }

  lemma {:induction false} StepPeerFair(w: World, step: Step, ids: set<MessageId>, finds: string -> bool, peer: MessageId)
    requires Allowed(w, step, ids) && peer !in ids && PeerFair(w, peer) && Dated(w)
    ensures PeerFair(After(w, step, ids, finds), peer)
  {
    hide Response;
    match step
    case Drained => DrainKeepsInput(w.s);
    case Arrived(f, order) =>
      if peer in w.asked {
        AskedFair(w, f, order, finds, ids, peer);
      } else {
        UnaskedFair(w, f, order, finds, ids, peer);
      }
    case PeerCalled(called, origin) =>
      if called == peer {
        NothingYet(w.arrivals, w.aborts, peer, Call(origin, |w.arrivals|));
      }
    case _ =>
  }

  lemma {:induction false} NothingYet(arrivals: seq<WireFrame>, aborts: set<nat>, peer: MessageId, call: Call)
    requires call.from == |arrivals|
    ensures Response(arrivals, aborts, peer, call) == Due([], true)
  {
  }

  lemma {:induction false} RunPeerFair(w: World, steps: seq<Step>, ids: set<MessageId>, finds: string -> bool, peer: MessageId)
    requires Go(w, steps, ids, finds).Some? && peer !in ids && PeerFair(w, peer) && Dated(w)
    ensures PeerFair(Go(w, steps, ids, finds).value, peer)
    decreases |steps|
  {
    hide PeerFair, Allowed, After, Dated;
    if steps != [] {
      StepPeerFair(w, steps[0], ids, finds, peer);
      StepDated(w, steps[0], ids, finds);
      RunPeerFair(After(w, steps[0], ids, finds), steps[1..], ids, finds, peer);
    }
  }

  // A peer call is given exactly the frames the host sends with its id after it was made, in order, through
  // the first END or ERR, or up to the cancel of the request it was made for; and it waits exactly until
  // then.
  lemma {:induction false} RepliesArrive(steps: seq<Step>, capacity: nat, ids: set<MessageId>, finds: string -> bool, peer: MessageId)
    requires Reach(steps, capacity, ids, finds).Some? && peer !in ids
    requires peer in Reach(steps, capacity, ids, finds).value.asked
    ensures var w := Reach(steps, capacity, ids, finds).value;
      var due := Response(w.arrivals, w.aborts, peer, w.asked[peer]);
      && peer in w.s.calls.replies && w.s.calls.replies[peer] == due.frames
      && (peer in w.s.calls.peers <==> due.open)
  {
    RunPeerFair(Boot(capacity), steps, ids, finds, peer);
  }
}
