// Runs of the scheduler together with what surrounds it: handlers, the host, capacity changes.
module SchedulerRuns {
  import opened Prelude
  import opened Wire
  import opened Scheduler

  datatype Step =
    | Drained                                          // the top of the loop
    | Reaped                                           // the select takes a handler-done signal
    | Arrived(frame: WireFrame, order: seq<MessageId>)     // the select takes a frame from the host
    | Stopped                                          // end of input, a read error or a relay frame
    | Emitted(sent: WireFrame)                             // a handler, or a sender detached from one, sends
    | Concluded(id: MessageId, kind: Kind, note: string) // a handler sends its END or ERR
    | Signalled(finished: MessageId)                   // and then its done signal
    | CapacitySet(capacity: nat)
    | TapOpened(tapped: MessageId)
    | Deafened(lost: MessageId)                        // a request's channel loses its reader
    | PeerCalled(peer: MessageId, origin: MessageId)

  // The accepted requests by number, in order of arrival: those begun, those waiting, those withdrawn.
  datatype Tickets = Tickets(begun: seq<nat>, waiting: seq<nat>, withdrawn: set<nat>)

  // What is on record about each id since the host last used it: the routing id it came with, how much
  // had been sent by then, the terminal its handler has concluded with, whether its handler has been
  // told to give up, whether an unforced cancel has come for it, and the live feeds opened before that.
  datatype Ledger = Ledger(
    xids: map<MessageId, Option<MessageId>>,
    since: map<MessageId, nat>,
    conclusions: map<MessageId, WireFrame>,
    aborted: set<MessageId>,
    stopped: set<MessageId>,
    feeds: map<MessageId, nat>)

  // A peer call: the request it was made for, and how many frames had come from the host by then.
  datatype Call = Call(origin: MessageId, from: nat)

  // The loop, the handler-done channel, and the history of the run. `withdrawals` and `aborts` number
  // the frames from the host that cancelled a queued and a running request; `lost` tells at which frame
  // a request's channel lost its reader.
  datatype World = World(
    s: LoopState,
    selecting: bool,
    halted: bool,
    done: seq<MessageId>,
    arrivals: seq<WireFrame>,
    withdrawals: set<nat>,
    aborts: set<nat>,
    accepted: seq<Queued>,
    tickets: Tickets,
    book: Ledger,
    lost: map<MessageId, nat>,
    asked: map<MessageId, Call>)

  function Boot(capacity: nat): World {
    World(Initial(capacity), false, false, [], [], {}, {}, [], Tickets([], [], {}),
          Ledger(map[], map[], map[], {}, {}, map[]), map[], map[])
  }

  // `ids` are the ids the host uses; it uses one again only when nothing is under way for it. Peer calls
  // have ids of their own.
  predicate Allowed(w: World, step: Step, ids: set<MessageId>) {
    match step
    case Drained => !w.halted && !w.selecting
    case Reaped => !w.halted && w.selecting && w.done != []
    case Arrived(f, order) =>
      && !w.halted && w.selecting && !f.kind.RelayNotify? && !f.kind.RelayState?
      && (f.kind.Req? || f.kind.Hello? ==> f.id in ids && Free(w.s, f.id))
      && (f.kind.Cancel? ==> Visits(order, w.s, f))
    case Stopped => !w.halted && w.selecting
    case Emitted(f) => IsTerminal(f) ==> f.id !in ids
    case Concluded(id, kind, _) => id in w.s.hands.handlers && id !in w.book.conclusions && (kind.End? || kind.Err?)
    case Signalled(id) => id in w.s.hands.handlers && id in w.book.conclusions && id !in w.done
    case CapacitySet(_) => true
    case TapOpened(id) => id in w.s.hands.handlers
    case Deafened(id) => id in w.s.input.fed && !Waits(w.s.queue, id)
    case PeerCalled(peer, _) => peer !in ids
  }

  // All but the last `left` of those waiting begin.
  function Advance(t: Tickets, left: nat): Tickets {
    if left <= |t.waiting| then
      t.(begun := t.begun + t.waiting[..|t.waiting| - left], waiting := t.waiting[|t.waiting| - left..])
    else t
  }

  function Join(t: Tickets, n: nat, starts: bool): Tickets {
    if starts then t.(begun := t.begun + [n]) else t.(waiting := t.waiting + [n])
  }

  function Leave(t: Tickets, p: nat): Tickets {
    if p < |t.waiting| then t.(waiting := Without(t.waiting, p), withdrawn := t.withdrawn + {t.waiting[p]}) else t
  }

  // The host uses an id.
  function Open(b: Ledger, id: MessageId, xid: Option<MessageId>, sent: nat): Ledger {
    Ledger(b.xids[id := xid], b.since[id := sent], b.conclusions - {id}, b.aborted - {id}, b.stopped - {id}, b.feeds - {id})
  }

  // A cancel comes for an id.
  function Told(b: Ledger, s: LoopState, f: WireFrame): Ledger {
    b.(aborted := if Aborts(s, f) then b.aborted + {f.id} else b.aborted,
       stopped := if !Forced(f) && f.id !in b.aborted then b.stopped + {f.id} else b.stopped)
  }

  function FeedsOf(b: Ledger, id: MessageId): nat {
    if id in b.feeds then b.feeds[id] else 0
  }

  predicate Accepted(f: WireFrame, finds: string -> bool) {
    f.kind.Req? && Rejection(f, finds).None?
  }

  function Conclusion(w: World, id: MessageId, kind: Kind, note: string): WireFrame {
    Plain(kind, id, RoutingOf(w.s.hands, id), note)
  }

  function Receive(w: World, f: WireFrame, order: seq<MessageId>, finds: string -> bool): World {
    w.(s := Dispatch(w.s, f, order, finds),
       selecting := false,
       arrivals := w.arrivals + [f],
       withdrawals := if f.kind.Cancel? && Withdraws(w.s, f) then w.withdrawals + {|w.arrivals|} else w.withdrawals,
       aborts := if f.kind.Cancel? && Aborts(w.s, f) then w.aborts + {|w.arrivals|} else w.aborts,
       accepted := if Accepted(f, finds) then w.accepted + [Queued(f.id, f.xid)] else w.accepted,
       tickets := if Accepted(f, finds) then Join(w.tickets, |w.accepted|, Room(w.s))
                  else if f.kind.Cancel? && Withdraws(w.s, f) then Leave(w.tickets, Position(w.s.queue, f.id))
                  else w.tickets,
       book := if f.kind.Req? then Open(w.book, f.id, f.xid, |w.s.out|)
               else if f.kind.Hello? then Open(w.book, f.id, None, |w.s.out|)
               else if f.kind.Cancel? then Told(w.book, w.s, f)
               else w.book,
       lost := if Accepted(f, finds) then w.lost - {f.id} else w.lost)
  }

  // A feed is opened; one opened after the record was closed by an unforced cancel is nobody's.
  function TapOn(w: World, id: MessageId): World {
    w.(s := w.s.(hands := w.s.hands.(taps := if id in w.s.hands.taps then w.s.hands.taps[id := w.s.hands.taps[id] + 1] else w.s.hands.taps)),
       book := if id in w.book.stopped then w.book else w.book.(feeds := w.book.feeds[id := FeedsOf(w.book, id) + 1]))
  }

  // A peer call gets a channel of its own for its response.
  function AskPeer(w: World, peer: MessageId, origin: MessageId): World {
    w.(s := w.s.(calls := Calls(w.s.calls.peers[peer := origin], w.s.calls.replies[peer := []])),
       asked := w.asked[peer := Call(origin, |w.arrivals|)])
  }

  function After(w: World, step: Step, ids: set<MessageId>, finds: string -> bool): World
    requires Allowed(w, step, ids)
  {
    match step
    case Drained => w.(s := Drain(w.s), selecting := true, tickets := Advance(w.tickets, |Drain(w.s).queue|))
    case Reaped => w.(s := Reap(w.s, w.done[0]), done := w.done[1..], selecting := false)
    case Arrived(f, order) => Receive(w, f, order, finds)
    case Stopped => w.(halted := true)
    case Emitted(f) => w.(s := Send(w.s, f))
    case Concluded(id, kind, note) =>
      var t := Conclusion(w, id, kind, note);
      w.(s := Send(w.s, t), book := w.book.(conclusions := w.book.conclusions[id := t]))
    case Signalled(id) => w.(done := w.done + [id])
    case CapacitySet(n) => w.(s := w.s.(capacity := n))
    case TapOpened(id) => TapOn(w, id)
    case Deafened(id) =>
      w.(s := w.s.(input := w.s.input.(deaf := w.s.input.deaf + {id})), lost := if id in w.lost then w.lost else w.lost[id := |w.arrivals|])
    case PeerCalled(peer, origin) => AskPeer(w, peer, origin)
  }

  // Where a sequence of steps leads from `w`, if every one of them can be taken.
  function Go(w: World, steps: seq<Step>, ids: set<MessageId>, finds: string -> bool): Option<World>
    decreases |steps|
  {
    if steps == [] then Some(w)
    else if Allowed(w, steps[0], ids) then Go(After(w, steps[0], ids, finds), steps[1..], ids, finds)
    else None
  }

  function Reach(steps: seq<Step>, capacity: nat, ids: set<MessageId>, finds: string -> bool): Option<World> {
    Go(Boot(capacity), steps, ids, finds)
  }

  // The loop object, driven through any run, is in the state the run leads to. The steps of the
  // handlers, the capacity and the channels are taken on its behalf.
  method Play(loop: MainLoop, steps: seq<Step>, ghost capacity: nat, ghost ids: set<MessageId>)
    requires loop.State() == Initial(capacity) && Reach(steps, capacity, ids, loop.finds).Some?
    modifies loop
    ensures loop.State() == Reach(steps, capacity, ids, loop.finds).value.s
  {
    hide Go, Allowed, After, Drain, Reap, Dispatch;
    ghost var w := Boot(capacity);
    var done: seq<MessageId> := [];
    var i := 0;
    assert steps[0..] == steps;
    while i < |steps|
      invariant 0 <= i <= |steps|
      invariant loop.State() == w.s && done == w.done
      invariant Go(w, steps[i..], ids, loop.finds) == Reach(steps, capacity, ids, loop.finds)
    {
      OneStep(w, steps, i, ids, loop.finds);
      done := Take(loop, done, steps[i], w, ids);
      w := After(w, steps[i], ids, loop.finds);
      i := i + 1;
    }
    Arrival(w, steps, ids, loop.finds);
  }

  lemma {:induction false} OneStep(w: World, steps: seq<Step>, i: nat, ids: set<MessageId>, finds: string -> bool)
    requires i < |steps| && Go(w, steps[i..], ids, finds).Some?
    ensures Allowed(w, steps[i], ids)
    ensures Go(After(w, steps[i], ids, finds), steps[i + 1..], ids, finds) == Go(w, steps[i..], ids, finds)
  {
    assert steps[i..][1..] == steps[i + 1..];
  }

  lemma {:induction false} Arrival(w: World, steps: seq<Step>, ids: set<MessageId>, finds: string -> bool)
    ensures Go(w, steps[|steps|..], ids, finds) == Some(w)
  {
  }

  // One step; returns what is left in the handler-done channel.
  method Take(loop: MainLoop, done: seq<MessageId>, step: Step, ghost w: World, ghost ids: set<MessageId>) returns (left: seq<MessageId>)
    requires loop.State() == w.s && done == w.done && Allowed(w, step, ids)
    modifies loop
    ensures loop.State() == After(w, step, ids, loop.finds).s && left == After(w, step, ids, loop.finds).done
  {
    hide Drain, Reap, Dispatch;
    left := done;
    match step {
      case Drained => loop.DrainQueue();
      case Reaped =>
        loop.OnHandlerDone(done[0]);
        left := done[1..];
      case Arrived(f, order) => loop.OnFrame(f, order);
      case Stopped =>
      case Emitted(f) => loop.output := loop.output + [f];
      case Concluded(id, kind, note) =>
        var xid := if id in loop.handlerRoutingIds then loop.handlerRoutingIds[id] else None;
        loop.output := loop.output + [Plain(kind, id, xid, note)];
      case Signalled(id) => left := done + [id];
      case CapacitySet(n) => loop.capacity := n;
      case TapOpened(id) =>
        if id in loop.liveFeeds {
          loop.liveFeeds := loop.liveFeeds[id := loop.liveFeeds[id] + 1];
        }
      case Deafened(id) => loop.deaf := loop.deaf + {id};
      case PeerCalled(peer, origin) =>
        loop.pendingPeerRequests := loop.pendingPeerRequests[peer := origin];
        loop.replies := loop.replies[peer := []];
    }
  }

  // ---- Representation ----

  // The queue holds each id once, and none that has a handler.
  predicate Apart(queue: seq<Queued>, handlers: set<MessageId>) {
    && (forall i, j :: 0 <= i < j < |queue| ==> queue[i].id != queue[j].id)
    && (forall i :: 0 <= i < |queue| ==> queue[i].id !in handlers)
  }

  // The counter, the routing ids and the cancelled set agree with the handlers; the queue is apart.
  predicate Sound(s: LoopState) {
    && s.hands.running == |s.hands.handlers|
    && s.hands.routing.Keys == s.hands.handlers
    && s.hands.taps.Keys <= s.hands.handlers
    && s.hands.cancelled <= s.hands.handlers
    && Apart(s.queue, s.hands.handlers)
  }

  predicate SoundDone(w: World) {
    && (forall i :: 0 <= i < |w.done| ==> w.done[i] in w.s.hands.handlers && w.done[i] in w.book.conclusions)
    && (forall i, j :: 0 <= i < j < |w.done| ==> w.done[i] != w.done[j])
  }

  lemma {:induction false} ApartHead(queue: seq<Queued>, handlers: set<MessageId>)
    requires queue != [] && Apart(queue, handlers)
    ensures Apart(queue[1..], handlers + {queue[0].id}) && !Waits(queue[1..], queue[0].id)
  {
    assert forall i :: 0 <= i < |queue[1..]| ==> queue[1..][i] == queue[i + 1];
  }

  lemma {:induction false} ApartTail(queue: seq<Queued>, handlers: set<MessageId>, q: Queued)
    requires Apart(queue, handlers) && !Waits(queue, q.id) && q.id !in handlers
    ensures Apart(queue + [q], handlers) && Apart(queue, handlers + {q.id})
  {
    assert forall i :: 0 <= i < |queue| ==> queue[i].id != q.id;
  }

  lemma {:induction false} ApartWithout(queue: seq<Queued>, handlers: set<MessageId>, p: nat)
    requires p < |queue| && Apart(queue, handlers)
    ensures Apart(Without(queue, p), handlers) && !Waits(Without(queue, p), queue[p].id)
    ensures forall id :: id != queue[p].id ==> (Waits(Without(queue, p), id) <==> Waits(queue, id))
  {
    var r := Without(queue, p);
    assert forall i :: 0 <= i < |r| ==> r[i] == queue[if i < p then i else i + 1];
    forall id | id != queue[p].id && Waits(queue, id) ensures Waits(r, id) {
      var i :| 0 <= i < |queue| && queue[i].id == id;
      assert r[if i < p then i else i - 1].id == id;
    }
  }

  lemma {:induction false} SpawnSound(s: LoopState, q: Queued)
    requires Sound(s) && q.id !in s.hands.handlers && !Waits(s.queue, q.id)
    ensures Sound(Spawn(s, q))
  {
    ApartTail(s.queue, s.hands.handlers, q);
    hide Apart, Waits;
  }

  lemma {:induction false} DequeueSound(s: LoopState)
    requires Sound(s) && s.queue != []
    ensures Sound(Dequeue(s)) && s.hands.handlers <= Dequeue(s).hands.handlers
  {
    ApartHead(s.queue, s.hands.handlers);
    hide Apart, Waits;
    assert s.queue[0].id !in s.hands.handlers by { ApartElement(s.queue, s.hands.handlers, 0); }
  }

  lemma {:induction false} ApartElement(queue: seq<Queued>, handlers: set<MessageId>, i: nat)
    requires i < |queue| && Apart(queue, handlers)
    ensures queue[i].id !in handlers && Waits(queue, queue[i].id)
  {
  }

  lemma {:induction false} DrainSound(s: LoopState)
    requires Sound(s)
    ensures Sound(Drain(s)) && s.hands.handlers <= Drain(s).hands.handlers
    decreases |s.queue|
  {
    if s.queue != [] && Room(s) {
      DequeueSound(s);
      DrainSound(Dequeue(s));
    }
  }

  lemma {:induction false} ReapSound(s: LoopState, id: MessageId)
    requires Sound(s) && id in s.hands.handlers
    ensures Sound(Reap(s, id)) && Reap(s, id).hands.handlers == s.hands.handlers - {id}
  {
    hide Apart;
    assert Apart(s.queue, s.hands.handlers - {id}) by { ApartFewer(s.queue, s.hands.handlers, s.hands.handlers - {id}); }
  }

  lemma {:induction false} ApartFewer(queue: seq<Queued>, handlers: set<MessageId>, fewer: set<MessageId>)
    requires Apart(queue, handlers) && fewer <= handlers
    ensures Apart(queue, fewer)
  {
  }

  lemma {:induction false} RequestSound(s: LoopState, f: WireFrame, finds: string -> bool)
    requires Sound(s) && Free(s, f.id)
    ensures Sound(Request(s, f, finds)) && s.hands.handlers <= Request(s, f, finds).hands.handlers
  {
    var q := Queued(f.id, f.xid);
    ApartTail(s.queue, s.hands.handlers, q);
    hide Apart, Waits;
    var admitted := s.(input := NewChannel(s.input, f.id));
    assert Sound(admitted);
    if Room(s) {
      SpawnSound(admitted, q);
    }
  }

  // An accepted request leaves the bookkeeping right if and only if nothing is under way for its id.
  lemma {:induction false} RequestSoundIff(s: LoopState, f: WireFrame, finds: string -> bool)
    requires Sound(s) && Rejection(f, finds).None?
    ensures Sound(Request(s, f, finds)) <==> Free(s, f.id)
  {
    var q := Queued(f.id, f.xid);
    var t := Request(s, f, finds);
    if Free(s, f.id) {
      RequestSound(s, f, finds);
    } else if Room(s) {
      assert t == Spawn(s.(input := NewChannel(s.input, f.id)), q);
      if f.id in s.hands.handlers {
        assert t.hands.handlers == s.hands.handlers && t.hands.running == s.hands.running + 1;
      } else {
        assert t.queue[Position(s.queue, f.id)].id in t.hands.handlers;
      }
    } else {
      assert t.queue == s.queue + [q] && t.hands.handlers == s.hands.handlers;
      assert t.queue[|s.queue|].id == f.id;
      if f.id !in s.hands.handlers {
        assert t.queue[Position(s.queue, f.id)].id == f.id;
      }
    }
  }

  lemma {:induction false} UntapSound(s: LoopState, f: WireFrame)
    requires Sound(s)
    ensures Sound(Untap(s, f)) && Untap(s, f).hands.handlers == s.hands.handlers && Untap(s, f).queue == s.queue
  {
    hide Apart;
  }

  lemma {:induction false} WithdrawSound(s: LoopState, p: nat)
    requires Sound(s) && p < |s.queue|
    ensures Sound(Withdraw(s, p)) && Withdraw(s, p).hands.handlers == s.hands.handlers
  {
    ApartWithout(s.queue, s.hands.handlers, p);
    hide Apart, Waits, Without;
  }

  lemma {:induction false} AbortSound(s: LoopState, id: MessageId, force: bool, order: seq<MessageId>)
    requires Sound(s) && id in s.hands.handlers
    ensures Sound(Abort(s, id, force, order)) && Abort(s, id, force, order).hands.handlers == s.hands.handlers
  {
    hide Apart, CancelFrames, CallsOf;
  }

  lemma {:induction false} CancelSound(s: LoopState, f: WireFrame, order: seq<MessageId>)
    requires Sound(s)
    ensures Sound(CancelRequest(s, f, order)) && CancelRequest(s, f, order).hands.handlers == s.hands.handlers
  {
    hide Sound, Untap, Withdraw, Abort, Stops;
    var u := Untap(s, f);
    UntapSound(s, f);
    if Waits(s.queue, f.id) {
      WithdrawSound(u, Position(s.queue, f.id));
    } else if f.id in s.hands.handlers {
      AbortSound(u, f.id, Forced(f), order);
    }
  }
}
