// What each event makes the main loop do, told without the functions that do it.
module SchedulerActions {
  import opened Prelude
  import opened Wire
  import opened Scheduler
  import opened SchedulerRuns
  import opened SchedulerTerminals

  // ---- Requests and starts ----

  // A request is accepted exactly when it names a cap with a handler and carries no payload,
  predicate Acceptable(f: WireFrame, finds: string -> bool) {
    f.urn.Some? && finds(f.urn.value) && (f.payload.None? || f.payload.value == [])
  }

  // and is told why not otherwise.
  function Complaint(f: WireFrame, finds: string -> bool): string {
    if f.urn.None? then "INVALID_REQUEST"
    else if !finds(f.urn.value) then "NO_HANDLER"
    else "PROTOCOL_ERROR"
  }

  function LogFrame(q: Queued, level: string): WireFrame {
    WireFrame(Log, q.id, q.xid, 0, None, None, None, level)
  }

  // A request is complained about and otherwise ignored, or starts a handler at once when the capacity
  // leaves room for it, or joins the end of the queue with a "queued" log.
  lemma {:induction false} RequestDoes(s: LoopState, f: WireFrame, finds: string -> bool)
    ensures var t := Request(s, f, finds); var q := Queued(f.id, f.xid);
      if !Acceptable(f, finds) then t == s.(out := s.out + [WireFrame(Err, f.id, f.xid, 0, None, None, None, Complaint(f, finds))])
      else if s.capacity == 0 || s.hands.running < s.capacity then
        && t.started == s.started + [q] && t.queue == s.queue && t.out == s.out
        && t.hands.running == s.hands.running + 1
      else
        && t.started == s.started && t.queue == s.queue + [q] && t.out == s.out + [LogFrame(q, "queued")]
        && t.hands == s.hands
  {
  }

  // Every handler started from the queue is announced by a "dequeued" log, in order.
  lemma {:induction false} StartsAreAnnounced(s: LoopState) returns (n: nat)
    ensures var t := Drain(s);
      && n <= |s.queue| && t.started == s.started + s.queue[..n] && t.queue == s.queue[n..]
      && t.out == s.out + seq(n, i requires 0 <= i < n => LogFrame(s.queue[i], "dequeued"))
    decreases |s.queue|
  {
    if s.queue == [] || !Room(s) {
      n := 0;
      assert s.out + [] == s.out;
    } else {
      var next := Dequeue(s);
      var rest := StartsAreAnnounced(next);
      n := rest + 1;
      assert next.out == s.out + [LogFrame(s.queue[0], "dequeued")];
      assert [LogFrame(s.queue[0], "dequeued")] + seq(rest, i requires 0 <= i < rest => LogFrame(next.queue[i], "dequeued")) ==
             seq(n, i requires 0 <= i < n => LogFrame(s.queue[i], "dequeued"));
      assert s.queue[..n] == [s.queue[0]] + next.queue[..rest];
    }
  }

  // A heartbeat is answered in kind; a greeting after the handshake is a protocol error.
  lemma {:induction false} HeartbeatAndHelloDo(s: LoopState, f: WireFrame, order: seq<MessageId>, finds: string -> bool)
    ensures f.kind.Heartbeat? ==>
      Dispatch(s, f, order, finds) == s.(out := s.out + [WireFrame(Heartbeat, f.id, None, 0, None, None, None, "")])
    ensures f.kind.Hello? ==>
      Dispatch(s, f, order, finds) == s.(out := s.out + [WireFrame(Err, f.id, None, 0, None, None, None, "PROTOCOL_ERROR")])
  {
  }

  // ---- Cancels ----

  // A running handler's feeds are on record until an unforced cancel comes for it.
  predicate Tapped(s: LoopState, book: Ledger, id: MessageId) {
    && (id in s.hands.handlers ==>
          && (id in s.hands.taps <==> id !in book.stopped)
          && (id in s.hands.taps ==> s.hands.taps[id] == FeedsOf(book, id)))
    && (Waits(s.queue, id) ==> id !in book.stopped && FeedsOf(book, id) == 0)
  }

  lemma {:induction false} DequeueTapped(s: LoopState, book: Ledger, id: MessageId)
    requires Sound(s) && s.queue != [] && Tapped(s, book, id)
    ensures Tapped(Dequeue(s), book, id)
  {
    OnlyAt(s.queue, s.hands.handlers, 0);
    PositionHead(s.queue, s.hands.handlers, id);
    ApartHead(s.queue, s.hands.handlers);
    hide Apart, Waits;
  }

  lemma {:induction false} DrainTapped(s: LoopState, book: Ledger, id: MessageId)
    requires Sound(s) && Tapped(s, book, id)
    ensures Tapped(Drain(s), book, id)
    decreases |s.queue|
  {
    hide Sound, Tapped;
    if s.queue != [] && Room(s) {
      DequeueSound(s);
      DequeueTapped(s, book, id);
      DequeueShorter(s);
      DrainTapped(Dequeue(s), book, id);
    }
  }

  lemma {:induction false} DequeueShorter(s: LoopState)
    requires s.queue != []
    ensures |Dequeue(s).queue| < |s.queue|
  {
  }

  lemma {:induction false} RequestTapped(s: LoopState, f: WireFrame, finds: string -> bool, book: Ledger, id: MessageId)
    requires Free(s, f.id) && Tapped(s, book, id)
    ensures Tapped(Request(s, f, finds), Open(book, f.id, f.xid, |s.out|), id)
  {
    AppendWaits(s.queue, Queued(f.id, f.xid), id);
    hide Waits;
  }

  lemma {:induction false} UntapTapped(s: LoopState, f: WireFrame, book: Ledger, id: MessageId)
    requires Tapped(s, book, id) && !Waits(s.queue, f.id)
    ensures Tapped(Untap(s, f), book.(stopped := if Forced(f) then book.stopped else book.stopped + {f.id}), id)
  {
    hide Waits;
  }

  lemma {:induction false} WithdrawTapped(s: LoopState, f: WireFrame, book: Ledger, stopped: set<MessageId>, id: MessageId)
    requires Sound(s) && Tapped(s, book, id) && Waits(s.queue, f.id)
    requires stopped == book.stopped || stopped == book.stopped + {f.id}
    ensures Tapped(Withdraw(Untap(s, f), Position(s.queue, f.id)), book.(stopped := stopped), id)
  {
    var p := Position(s.queue, f.id);
    ApartWithout(s.queue, s.hands.handlers, p);
    ApartElement(s.queue, s.hands.handlers, p);
    hide Apart, Waits, Without;
  }

  lemma {:induction false} QueuedIsNotTapped(s: LoopState, id: MessageId)
    requires Sound(s) && Waits(s.queue, id)
    ensures id !in s.hands.handlers && id !in s.hands.taps && id !in s.hands.cancelled
  {
  }

  // The loop's own note of the cancel agrees with the record.
  predicate Noted(s: LoopState, book: Ledger, id: MessageId) {
    && (id in s.hands.handlers ==> (id in s.hands.cancelled <==> id in book.aborted))
    && (Waits(s.queue, id) ==> id !in book.aborted)
  }

  lemma {:induction false} BookedIsNoted(s: LoopState, book: Ledger, id: MessageId)
    requires Sound(s) && Booked(s, book, id)
    ensures Noted(s, book, id)
  {
    if id in s.hands.handlers {
      NotWaiting(s, id);
    }
    hide Since, Apart;
  }

  lemma {:induction false} OtherCancelLeaves(s: LoopState, f: WireFrame, order: seq<MessageId>, id: MessageId)
    requires Sound(s) && f.id != id
    ensures var t := CancelRequest(s, f, order);
      && (id in t.hands.handlers <==> id in s.hands.handlers) && (id in t.hands.taps <==> id in s.hands.taps)
      && (id in s.hands.taps ==> t.hands.taps[id] == s.hands.taps[id])
      && (Waits(t.queue, id) <==> Waits(s.queue, id))
  {
    hide CallsOf, CancelFrames, Stops, Without;
    if Waits(s.queue, f.id) {
      WithoutKeeps(s.queue, s.hands.handlers, Position(s.queue, f.id), id);
    }
    hide Waits, Apart, Sound;
  }

  lemma {:induction false} OtherCancelTapped(s: LoopState, f: WireFrame, order: seq<MessageId>, book: Ledger, id: MessageId)
    requires Sound(s) && Tapped(s, book, id) && f.id != id
    ensures Tapped(CancelRequest(s, f, order), Told(book, s, f), id)
  {
    OtherCancelLeaves(s, f, order, id);
    hide CancelRequest, Waits, Sound, Aborts;
  }

  lemma {:induction false} CancelTapped(s: LoopState, f: WireFrame, order: seq<MessageId>, book: Ledger, id: MessageId)
    requires Sound(s) && Tapped(s, book, id) && Noted(s, book, id)
    ensures Tapped(CancelRequest(s, f, order), Told(book, s, f), id)
  {
    if f.id != id {
      OtherCancelTapped(s, f, order, book, id);
    } else if Waits(s.queue, id) {
      hide Apart, Withdraw, Without, CallsOf, CancelFrames;
      WithdrawTapped(s, f, book, Told(book, s, f).stopped, id);
      QueuedIsNotTapped(s, id);
    } else {
      hide Apart, Withdraw, Without, CallsOf, CancelFrames;
      UntapTapped(s, f, book, id);
      hide Waits;
    }
  }

  lemma {:induction false} SameTapped(s: LoopState, t: LoopState, book: Ledger, id: MessageId)
    requires Tapped(s, book, id)
    requires t.hands.handlers == s.hands.handlers && t.hands.taps == s.hands.taps && t.queue == s.queue
    ensures Tapped(t, book, id)
  {
  }

  lemma {:induction false} StepTapped(w: World, step: Step, ids: set<MessageId>, finds: string -> bool, id: MessageId)
    requires Kept(w, ids) && Allowed(w, step, ids) && id in ids && Tapped(w.s, w.book, id)
    ensures var t := After(w, step, ids, finds); Tapped(t.s, t.book, id)
  {
    hide Sound, Booked, Waits, SoundDone, Drain, Receive;
    match step
    case Drained => DrainTapped(w.s, w.book, id);
    case Arrived(f, order) => ReceiveTapped(w, f, order, ids, finds, id);
    case Reaped =>
    case TapOpened(tapped) => NotWaiting(w.s, tapped);
    case _ => SameTapped(w.s, After(w, step, ids, finds).s, w.book, id);
  }

  lemma {:induction false} ReceiveTapped(w: World, f: WireFrame, order: seq<MessageId>, ids: set<MessageId>, finds: string -> bool, id: MessageId)
    requires Kept(w, ids) && Allowed(w, Arrived(f, order), ids) && id in ids && Tapped(w.s, w.book, id)
    ensures var t := Receive(w, f, order, finds); Tapped(t.s, t.book, id)
  {
    hide Request, CancelRequest, Route, RouteLast, Free, Sound, Booked;
    match f.kind
    case Req => RequestTapped(w.s, f, finds, w.book, id);
    case Hello => HelloTapped(w.s, f, w.book, id);
    case Cancel =>
      BookedIsNoted(w.s, w.book, id);
      CancelTapped(w.s, f, order, w.book, id);
    case Heartbeat => SameTapped(w.s, Dispatch(w.s, f, order, finds), w.book, id);
    case _ =>
      RoutingIsQuiet(w.s, f);
      SameTapped(w.s, Dispatch(w.s, f, order, finds), w.book, id);
  }

  lemma {:induction false} HelloTapped(s: LoopState, f: WireFrame, book: Ledger, id: MessageId)
    requires Free(s, f.id) && Tapped(s, book, id)
    ensures Tapped(Send(s, Plain(Err, f.id, None, "PROTOCOL_ERROR")), Open(book, f.id, None, |s.out|), id)
  {
    hide Waits;
  }

  lemma {:induction false} RunTapped(w: World, steps: seq<Step>, ids: set<MessageId>, finds: string -> bool, id: MessageId)
    requires Kept(w, ids) && id in ids && Tapped(w.s, w.book, id) && Go(w, steps, ids, finds).Some?
    ensures Kept(Go(w, steps, ids, finds).value, ids)
    ensures var t := Go(w, steps, ids, finds).value; Tapped(t.s, t.book, id)
    decreases |steps|
  {
    hide Kept, Tapped, Allowed, After;
    if steps != [] {
      StepTapped(w, steps[0], ids, finds, id);
      StepKept(w, steps[0], ids, finds);
      RunTapped(After(w, steps[0], ids, finds), steps[1..], ids, finds, id);
    }
  }

  // What a cancel comes to, by where its request stands and what is on record about it.
  datatype Outcome = Ignored | FeedsClosed | TakenFromQueue | ToldToGiveUp

  function OutcomeOf(place: Place, book: Ledger, f: WireFrame): Outcome {
    match place
    case Waiting(_) => TakenFromQueue
    case Running(_, _) =>
      if f.id in book.aborted then Ignored
      else if f.force != Some(true) && f.id !in book.stopped && FeedsOf(book, f.id) > 0 then FeedsClosed
      else ToldToGiveUp
    case Absent => Ignored
  }

  // The CANCEL frames for the peer calls made on behalf of `id`: one for each, and no other.
  predicate TellsCalls(news: seq<WireFrame>, peers: map<MessageId, MessageId>, id: MessageId, force: bool) {
    && (forall i :: 0 <= i < |news| ==> news[i] == WireFrame(Cancel, news[i].id, None, 0, None, None, Some(force), ""))
    && (forall i :: 0 <= i < |news| ==> news[i].id in peers && peers[news[i].id] == id)
    && (forall i, j :: 0 <= i < j < |news| ==> news[i].id != news[j].id)
    && (forall p :: p in peers && peers[p] == id ==> exists i :: 0 <= i < |news| && news[i].id == p)
  }

  // Nothing but the record of feeds has changed.
  predicate OnlyTaps(s: LoopState, t: LoopState) {
    t == s.(hands := s.hands.(taps := t.hands.taps))
  }

  ghost predicate Does(s: LoopState, t: LoopState, f: WireFrame, outcome: Outcome) {
    match outcome
    case Ignored => OnlyTaps(s, t) && t.hands.taps == s.hands.taps
    case FeedsClosed => OnlyTaps(s, t) && t.hands.taps.Keys == s.hands.taps.Keys - {f.id}
    case TakenFromQueue =>
      && !Waits(t.queue, f.id) && |t.queue| == |s.queue| - 1 && f.id !in t.input.open
      && t.hands.handlers == s.hands.handlers && t.hands.cancelled == s.hands.cancelled && t.started == s.started
      && exists p :: 0 <= p < |s.queue| && s.queue[p].id == f.id
           && t.out == s.out + [WireFrame(Err, f.id, s.queue[p].xid, 0, None, None, None, "CANCELLED")]
    case ToldToGiveUp =>
      && t.hands.cancelled == s.hands.cancelled + {f.id} && t.hands.handlers == s.hands.handlers && t.queue == s.queue
      && t.input.open == s.input.open - {f.id} && t.started == s.started
      && (forall p :: p in t.calls.peers <==> p in s.calls.peers && s.calls.peers[p] != f.id)
      && |s.out| <= |t.out| && t.out[..|s.out|] == s.out
      && TellsCalls(t.out[|s.out|..], s.calls.peers, f.id, f.force == Some(true))
  }

  lemma {:induction false} CancelDoes(s: LoopState, f: WireFrame, order: seq<MessageId>, book: Ledger)
    requires Sound(s) && Booked(s, book, f.id) && Tapped(s, book, f.id) && Visits(order, s, f)
    ensures Does(s, CancelRequest(s, f, order), f, OutcomeOf(PlaceOf(s, f.id), book, f))
  {
    BookedIsNoted(s, book, f.id);
    hide Booked;
    match PlaceOf(s, f.id)
    case Waiting(_) => QueuedCancelDoes(s, f, order);
    case Running(_, _) =>
      NotWaiting(s, f.id);
      RunningCancelDoes(s, f, order, book);
    case Absent =>
      hide CancelFrames, CallsOf, Without, Withdraw, Abort, Apart, Visits, Lists, Waits;
      assert s.hands.taps - {f.id} == s.hands.taps;
  }

  lemma {:induction false} QueuedCancelDoes(s: LoopState, f: WireFrame, order: seq<MessageId>)
    requires Sound(s) && Waits(s.queue, f.id)
    ensures Does(s, CancelRequest(s, f, order), f, TakenFromQueue)
  {
    QueuedIsNotTapped(s, f.id);
    var p := Position(s.queue, f.id);
    ApartWithout(s.queue, s.hands.handlers, p);
    hide CancelFrames, CallsOf, Abort, Apart, Visits, Lists, Waits;
  }

  lemma {:induction false} RunningCancelDoes(s: LoopState, f: WireFrame, order: seq<MessageId>, book: Ledger)
    requires f.id in s.hands.handlers && !Waits(s.queue, f.id) && Noted(s, book, f.id) && Tapped(s, book, f.id) && Visits(order, s, f)
    ensures Does(s, CancelRequest(s, f, order), f,
                 if f.id in book.aborted then Ignored
                 else if f.force != Some(true) && f.id !in book.stopped && FeedsOf(book, f.id) > 0 then FeedsClosed
                 else ToldToGiveUp)
  {
    hide Waits, Withdraw, Position, Without;
    if f.id !in book.aborted && !Stops(s, f) {
      AbortDoes(Untap(s, f), f, order);
      hide Abort, CallsOf, CancelFrames, TellsCalls;
    }
  }

  lemma {:induction false} AbortDoes(s: LoopState, f: WireFrame, order: seq<MessageId>)
    requires Lists(order, CallsOf(s.calls.peers, f.id))
    ensures Does(s, Abort(s, f.id, Forced(f), order), f, ToldToGiveUp)
  {
    var t := Abort(s, f.id, Forced(f), order);
    var news := CancelFrames(order, Forced(f));
    assert t.out[|s.out|..] == news;
    forall p | p in s.calls.peers && s.calls.peers[p] == f.id ensures exists i :: 0 <= i < |news| && news[i].id == p {
      assert p in CallsOf(s.calls.peers, f.id);
      var i :| 0 <= i < |order| && order[i] == p;
      assert news[i].id == p;
    }
  }

  // In every reachable state a cancel does what the record says: the first unforced one of a request with
  // open feeds closes them and leaves it to drain, and the next tells it to give up; a queued request is
  // withdrawn; a request told to give up, over or unknown is left alone.
  lemma {:induction false} EveryCancelDoes(steps: seq<Step>, capacity: nat, ids: set<MessageId>, finds: string -> bool,
                                           f: WireFrame, order: seq<MessageId>)
    requires Reach(steps, capacity, ids, finds).Some? && f.kind.Cancel? && f.id in ids
    requires Visits(order, Reach(steps, capacity, ids, finds).value.s, f)
    ensures var w := Reach(steps, capacity, ids, finds).value;
      Does(w.s, Dispatch(w.s, f, order, finds), f, OutcomeOf(PlaceOf(w.s, f.id), w.book, f))
  {
    hide Does, CancelRequest, OutcomeOf, Kept, Tapped, Dispatch, Visits, After, Allowed;
    var boot := Boot(capacity);
    assert Reach([], capacity, ids, finds) == Some(boot);
    EveryRunKept([], capacity, ids, finds);
    NothingTapped(capacity, f.id);
    RunTapped(boot, steps, ids, finds, f.id);
    var w := Reach(steps, capacity, ids, finds).value;
    hide Go, Reach;
    KeptCancelDoes(w, ids, f, order);
    CancelIsDispatched(w.s, f, order, finds);
  }

  lemma {:induction false} CancelIsDispatched(s: LoopState, f: WireFrame, order: seq<MessageId>, finds: string -> bool)
    requires f.kind.Cancel?
    ensures Dispatch(s, f, order, finds) == CancelRequest(s, f, order)
  {
    hide CancelRequest;
  }

  lemma {:induction false} NothingTapped(capacity: nat, id: MessageId)
    ensures Tapped(Boot(capacity).s, Boot(capacity).book, id)
  {
  }

  lemma {:induction false} KeptCancelDoes(w: World, ids: set<MessageId>, f: WireFrame, order: seq<MessageId>)
    requires Kept(w, ids) && f.id in ids && Tapped(w.s, w.book, f.id) && Visits(order, w.s, f)
    ensures Does(w.s, CancelRequest(w.s, f, order), f, OutcomeOf(PlaceOf(w.s, f.id), w.book, f))
  {
    assert Booked(w.s, w.book, f.id);
    hide Does, CancelRequest, OutcomeOf, Booked, Sound, Tapped, Visits;
    CancelDoes(w.s, f, order, w.book);
  }
}
