// What every request has been answered with at each point of a run.
module SchedulerTerminals {
  import opened Prelude
  import opened Wire
  import opened Scheduler
  import opened SchedulerRuns

  // The END and ERR frames sent for a request id.
  function TerminalsOf(fs: seq<WireFrame>, id: MessageId): seq<WireFrame> {
    if fs == [] then []
    else
      var rest := TerminalsOf(fs[..|fs| - 1], id);
      var last := fs[|fs| - 1];
      if IsTerminal(last) && last.id == id then rest + [last] else rest
  }

  lemma {:induction false} OneMore(fs: seq<WireFrame>, f: WireFrame, id: MessageId)
    ensures TerminalsOf(fs + [f], id) == if IsTerminal(f) && f.id == id then TerminalsOf(fs, id) + [f] else TerminalsOf(fs, id)
  {
    assert (fs + [f])[..|fs|] == fs;
  }

  lemma {:induction false} NoneMore(fs: seq<WireFrame>, more: seq<WireFrame>, id: MessageId)
    requires forall i :: 0 <= i < |more| ==> !IsTerminal(more[i])
    ensures TerminalsOf(fs + more, id) == TerminalsOf(fs, id)
    decreases |more|
  {
    if more == [] {
      assert fs + more == fs;
    } else {
      assert (fs + more)[..|fs + more| - 1] == fs + more[..|more| - 1];
      NoneMore(fs, more[..|more| - 1], id);
    }
  }

  // The answers sent for an id after the first `from` frames.
  function Since(out: seq<WireFrame>, from: nat, id: MessageId): seq<WireFrame> {
    if from <= |out| then TerminalsOf(out[from..], id) else []
  }

  lemma {:induction false} OneMoreSince(out: seq<WireFrame>, from: nat, f: WireFrame, id: MessageId)
    requires from <= |out|
    ensures Since(out + [f], from, id) == if IsTerminal(f) && f.id == id then Since(out, from, id) + [f] else Since(out, from, id)
  {
    assert (out + [f])[from..] == out[from..] + [f];
    OneMore(out[from..], f, id);
  }

  lemma {:induction false} NoneMoreSince(out: seq<WireFrame>, from: nat, more: seq<WireFrame>, id: MessageId)
    requires from <= |out| && forall i :: 0 <= i < |more| ==> !IsTerminal(more[i])
    ensures Since(out + more, from, id) == Since(out, from, id)
  {
    assert (out + more)[from..] == out[from..] + more;
    NoneMore(out[from..], more, id);
  }

  function Deferred(id: MessageId, xid: Option<MessageId>): WireFrame {
    Plain(Err, id, xid, "CANCELLED")
  }

  // A request that is over has been answered once, and then, exactly if its handler had been told to
  // give up, by a deferred CANCELLED after the handler's own terminal.
  predicate Settled(ts: seq<WireFrame>, id: MessageId, xid: Option<MessageId>, own: Option<WireFrame>, aborted: bool) {
    && ts != [] && ts[0].xid == xid
    && (own.Some? ==> ts[0] == own.value)
    && (aborted ==> own.Some?)
    && ts == [ts[0]] + (if aborted then [Deferred(id, xid)] else [])
  }

  function Own(conclusions: map<MessageId, WireFrame>, id: MessageId): Option<WireFrame> {
    if id in conclusions then Some(conclusions[id]) else None
  }

  // Where a request stands: waiting, running, or neither, with the routing id it will be answered under.
  datatype Place = Waiting(xid: Option<MessageId>) | Running(xid: Option<MessageId>, cancelled: bool) | Absent

  function PlaceOf(s: LoopState, id: MessageId): Place {
    if Waits(s.queue, id) then Waiting(s.queue[Position(s.queue, id)].xid)
    else if id in s.hands.handlers then Running(if id in s.hands.routing then s.hands.routing[id] else None, id in s.hands.cancelled)
    else Absent
  }

  // The answers `ts` sent since the host used an id, according to where its request stands. An id not
  // used yet has no request and no answers.
  predicate Answered(place: Place, ts: seq<WireFrame>, id: MessageId, xids: map<MessageId, Option<MessageId>>,
                     own: Option<WireFrame>, aborted: bool) {
    if id !in xids then place.Absent? && own.None? && ts == [] && !aborted
    else match place
      case Waiting(xid) => xid == xids[id] && own.None? && ts == [] && !aborted
      case Running(xid, cancelled) =>
        && xid == xids[id] && (own.Some? ==> own.value.xid == xid) && ts == (if own.Some? then [own.value] else [])
        && cancelled == aborted
      case Absent => Settled(ts, id, xids[id], own, aborted)
  }

  function From(book: Ledger, id: MessageId): nat {
    if id in book.since then book.since[id] else 0
  }

  predicate Booked(s: LoopState, book: Ledger, id: MessageId) {
    && From(book, id) <= |s.out|
    && Answered(PlaceOf(s, id), Since(s.out, From(book, id), id), id, book.xids, Own(book.conclusions, id), id in book.aborted)
  }

  // ---- Where requests stand after each operation ----

  lemma {:induction false} OnlyAt(queue: seq<Queued>, handlers: set<MessageId>, p: nat)
    requires p < |queue| && Apart(queue, handlers)
    ensures Waits(queue, queue[p].id) && Position(queue, queue[p].id) == p && queue[p].id !in handlers
  {
  }

  lemma {:induction false} PositionHead(queue: seq<Queued>, handlers: set<MessageId>, id: MessageId)
    requires queue != [] && Apart(queue, handlers)
    ensures Waits(queue, id) <==> queue[0].id == id || Waits(queue[1..], id)
    ensures Waits(queue[1..], id) ==> queue[0].id != id && queue[1..][Position(queue[1..], id)] == queue[Position(queue, id)]
  {
    OnlyAt(queue, handlers, 0);
    ApartHead(queue, handlers);
    if Waits(queue, id) && queue[0].id != id {
      var i :| 0 <= i < |queue| && queue[i].id == id;
      assert queue[1..][i - 1].id == id;
    }
    if Waits(queue[1..], id) {
      OnlyAt(queue, handlers, Position(queue[1..], id) + 1);
    }
  }

  lemma {:induction false} DequeuePlace(s: LoopState, id: MessageId, from: nat)
    requires from <= |s.out| && Sound(s) && s.queue != []
    ensures PlaceOf(s, s.queue[0].id) == Waiting(s.queue[0].xid) && |Dequeue(s).queue| < |s.queue|
    ensures PlaceOf(Dequeue(s), id) == if id == s.queue[0].id then Running(s.queue[0].xid, false) else PlaceOf(s, id)
    ensures Since(Dequeue(s).out, from, id) == Since(s.out, from, id)
  {
    hide Since, Apart, Waits;
    var q := s.queue[0];
    OneMoreSince(s.out, from, Plain(Log, q.id, q.xid, "dequeued"), id);
    PositionHead(s.queue, s.hands.handlers, id);
    OnlyAt(s.queue, s.hands.handlers, 0);
    ApartHead(s.queue, s.hands.handlers);
  }

  lemma {:induction false} ReapPlace(s: LoopState, gone: MessageId, id: MessageId, from: nat)
    requires from <= |s.out| && Sound(s) && gone in s.hands.handlers
    ensures PlaceOf(s, gone) == Running(s.hands.routing[gone], gone in s.hands.cancelled)
    ensures PlaceOf(Reap(s, gone), id) == if id == gone then Absent else PlaceOf(s, id)
    ensures Since(Reap(s, gone).out, from, id) ==
            Since(s.out, from, id) + if id == gone && gone in s.hands.cancelled then [Deferred(id, s.hands.routing[gone])] else []
  {
    NotWaiting(s, gone);
    hide Since, Waits;
    OneMoreSince(s.out, from, Deferred(gone, s.hands.routing[gone]), id);
  }

  lemma {:induction false} NotWaiting(s: LoopState, id: MessageId)
    requires Sound(s) && id in s.hands.handlers
    ensures !Waits(s.queue, id)
  {
  }

  lemma {:induction false} AppendWaits(queue: seq<Queued>, q: Queued, id: MessageId)
    requires !Waits(queue, q.id)
    ensures Waits(queue + [q], id) <==> Waits(queue, id) || id == q.id
    ensures Waits(queue, id) ==> (queue + [q])[Position(queue + [q], id)] == queue[Position(queue, id)]
    ensures id == q.id ==> (queue + [q])[Position(queue + [q], id)] == q
  {
    var longer := queue + [q];
    assert longer[|queue|] == q;
    assert forall i :: 0 <= i < |queue| ==> longer[i] == queue[i];
    if Waits(queue, id) {
      assert longer[Position(queue, id)].id == id;
      var p := Position(longer, id);
      assert p <= Position(queue, id);
      assert queue[p].id == id;
    }
  }

  lemma {:induction false} RequestPlace(s: LoopState, f: WireFrame, finds: string -> bool, id: MessageId, from: nat)
    requires from <= |s.out| && Sound(s) && PlaceOf(s, f.id).Absent?
    ensures var rejection := Rejection(f, finds);
      && PlaceOf(Request(s, f, finds), id) ==
         (if id != f.id || rejection.Some? then PlaceOf(s, id) else if Room(s) then Running(f.xid, false) else Waiting(f.xid))
      && Since(Request(s, f, finds).out, from, id) ==
         Since(s.out, from, id) + (if id == f.id && rejection.Some? then [Plain(Err, f.id, f.xid, rejection.value)] else [])
  {
    hide Since, Waits, Apart;
    var rejection := Rejection(f, finds);
    if rejection.Some? {
      OneMoreSince(s.out, from, Plain(Err, f.id, f.xid, rejection.value), id);
    } else {
      OneMoreSince(s.out, from, Plain(Log, f.id, f.xid, "queued"), id);
      AppendWaits(s.queue, Queued(f.id, f.xid), id);
    }
  }

  lemma {:induction false} WithoutKeeps(queue: seq<Queued>, handlers: set<MessageId>, p: nat, id: MessageId)
    requires p < |queue| && Apart(queue, handlers)
    ensures Waits(Without(queue, p), id) <==> Waits(queue, id) && id != queue[p].id
    ensures Waits(Without(queue, p), id) ==> Without(queue, p)[Position(Without(queue, p), id)] == queue[Position(queue, id)]
  {
    hide Apart, Waits;
    var at := Position(queue, id);
    var r := Without(queue, p);
    ApartWithout(queue, handlers, p);
    if at < |queue| && id != queue[p].id {
      var i := if at < p then at else at - 1;
      assert r[i] == queue[at];
      hide Without;
      OnlyAt(r, handlers, i);
    }
  }

  lemma {:induction false} WithdrawPlace(s: LoopState, gone: MessageId, id: MessageId, from: nat)
    requires from <= |s.out| && Sound(s) && Waits(s.queue, gone)
    ensures var p := Position(s.queue, gone);
      && PlaceOf(s, gone) == Waiting(s.queue[p].xid)
      && PlaceOf(Withdraw(s, p), id) == (if id == gone then Absent else PlaceOf(s, id))
      && Since(Withdraw(s, p).out, from, id) ==
         Since(s.out, from, id) + if id == gone then [Plain(Err, gone, s.queue[p].xid, "CANCELLED")] else []
  {
    var p := Position(s.queue, gone);
    ApartElement(s.queue, s.hands.handlers, p);
    WithoutKeeps(s.queue, s.hands.handlers, p, id);
    hide Since, Waits, Apart, Without;
    OneMoreSince(s.out, from, Deferred(gone, s.queue[p].xid), id);
  }

  // ---- The answers after each operation ----

  lemma {:induction false} DrainBooked(s: LoopState, book: Ledger, id: MessageId)
    requires Sound(s) && Booked(s, book, id)
    ensures Booked(Drain(s), book, id)
    decreases |s.queue|
  {
    hide Sound, Since, PlaceOf, Settled;
    if s.queue != [] && Room(s) {
      DequeueSound(s);
      DequeuePlace(s, id, From(book, id));
      DrainBooked(Dequeue(s), book, id);
    }
  }

  // A handler is reaped only after its own terminal: the deferred CANCELLED always comes second.
  lemma {:induction false} ReapBooked(s: LoopState, gone: MessageId, book: Ledger, id: MessageId)
    requires Sound(s) && gone in s.hands.handlers && gone in book.conclusions && Booked(s, book, id)
    ensures Booked(Reap(s, gone), book, id)
  {
    ReapPlace(s, gone, id, From(book, id));
    assert |Reap(s, gone).out| >= |s.out|;
    hide Since, PlaceOf, Reap;
  }

  lemma {:induction false} RequestSends(s: LoopState, f: WireFrame, finds: string -> bool)
    ensures |Request(s, f, finds).out| >= |s.out|
  {
  }

  // A request starts a new record for its id, whatever stood there before,
  lemma {:induction false} RequestOpens(s: LoopState, f: WireFrame, finds: string -> bool, book: Ledger)
    requires Sound(s) && Free(s, f.id)
    ensures Booked(Request(s, f, finds), Open(book, f.id, f.xid, |s.out|), f.id)
  {
    RequestSends(s, f, finds);
    AbsentIsFree(s, f.id);
    RequestPlace(s, f, finds, f.id, |s.out|);
    assert Since(s.out, |s.out|, f.id) == [];
    hide Since, PlaceOf, Request, Sound, Rejection, Free, Room;
  }

  // and touches no other.
  lemma {:induction false} RequestBooked(s: LoopState, f: WireFrame, finds: string -> bool, book: Ledger, id: MessageId)
    requires Sound(s) && Free(s, f.id) && (id != f.id ==> Booked(s, book, id))
    ensures Booked(Request(s, f, finds), Open(book, f.id, f.xid, |s.out|), id)
  {
    if id == f.id {
      RequestOpens(s, f, finds, book);
    } else {
      OthersStay(s, f, finds, book, id);
    }
  }

  lemma {:induction false} OthersStay(s: LoopState, f: WireFrame, finds: string -> bool, book: Ledger, id: MessageId)
    requires Sound(s) && Free(s, f.id) && id != f.id && Booked(s, book, id)
    ensures Booked(Request(s, f, finds), Open(book, f.id, f.xid, |s.out|), id)
  {
    hide Since, PlaceOf, Request, Sound, Rejection, Free, Settled, Room;
    RequestSends(s, f, finds);
    AbsentIsFree(s, f.id);
    RequestPlace(s, f, finds, id, From(book, id));
    var t := Request(s, f, finds);
    var next := Open(book, f.id, f.xid, |s.out|);
    assert From(next, id) == From(book, id) && Own(next.conclusions, id) == Own(book.conclusions, id);
    assert Since(t.out, From(book, id), id) == Since(s.out, From(book, id), id);
  }

  lemma {:induction false} AbsentIsFree(s: LoopState, id: MessageId)
    ensures PlaceOf(s, id).Absent? <==> Free(s, id)
  {
  }

  lemma {:induction false} WithdrawBooked(s: LoopState, gone: MessageId, book: Ledger, id: MessageId)
    requires Sound(s) && Waits(s.queue, gone) && Booked(s, book, id)
    ensures Booked(Withdraw(s, Position(s.queue, gone)), book, id)
  {
    WithdrawPlace(s, gone, id, From(book, id));
    assert |Withdraw(s, Position(s.queue, gone)).out| >= |s.out|;
    hide Since, PlaceOf, Withdraw;
  }

  lemma {:induction false} CancelBooked(s: LoopState, f: WireFrame, order: seq<MessageId>, book: Ledger, id: MessageId)
    requires Sound(s) && Booked(s, book, id)
    ensures Booked(CancelRequest(s, f, order), Told(book, s, f), id)
  {
    hide Since, Sound, Answered, Stops, Withdraw;
    var u := Untap(s, f);
    UntapSound(s, f);
    assert PlaceOf(u, id) == PlaceOf(s, id);
    if Withdraws(s, f) {
      WithdrawBooked(u, f.id, book, id);
    } else if Aborts(s, f) {
      AbortBooked(u, f.id, Forced(f), order, book, id);
    }
  }

  lemma {:induction false} AbortBooked(s: LoopState, gone: MessageId, force: bool, order: seq<MessageId>, book: Ledger, id: MessageId)
    requires gone in s.hands.handlers && !Waits(s.queue, gone) && gone !in s.hands.cancelled && Booked(s, book, id)
    ensures Booked(Abort(s, gone, force, order), book.(aborted := book.aborted + {gone}), id)
  {
    hide Since, CancelFrames, PlaceOf, Waits, Abort;
    AbortPlace(s, gone, force, order, id, From(book, id));
  }

  lemma {:induction false} AbortPlace(s: LoopState, gone: MessageId, force: bool, order: seq<MessageId>, id: MessageId, from: nat)
    requires from <= |s.out| && gone in s.hands.handlers && !Waits(s.queue, gone)
    ensures var t := Abort(s, gone, force, order);
      && PlaceOf(t, id) == (if id == gone then Running(PlaceOf(s, id).xid, true) else PlaceOf(s, id))
      && |t.out| >= |s.out| && Since(t.out, from, id) == Since(s.out, from, id)
    ensures PlaceOf(s, gone).Running?
  {
    NoneMoreSince(s.out, from, CancelFrames(order, force), id);
    hide Since, CancelFrames, CallsOf, Waits;
  }

  // ---- Every reachable world ----

  ghost predicate Kept(w: World, ids: set<MessageId>) {
    && Sound(w.s) && SoundDone(w)
    && forall id :: id in ids ==> Booked(w.s, w.book, id)
  }

  // Two states alike in everything that admission, queueing and answering go by.
  predicate SameStanding(s: LoopState, t: LoopState) {
    && t.hands.handlers == s.hands.handlers && t.hands.routing == s.hands.routing && t.hands.taps == s.hands.taps && t.hands.cancelled == s.hands.cancelled
    && t.queue == s.queue && t.hands.running == s.hands.running
  }

  lemma {:induction false} StandingSound(s: LoopState, t: LoopState)
    requires Sound(s) && SameStanding(s, t)
    ensures Sound(t)
  {
  }

  lemma {:induction false} RoutingIsQuiet(s: LoopState, f: WireFrame)
    ensures SameStanding(s, Route(s, f)) && SameStanding(s, RouteLast(s, f)) && Route(s, f).out == s.out && RouteLast(s, f).out == s.out
  {
  }

  lemma {:induction false} DispatchSound(s: LoopState, f: WireFrame, order: seq<MessageId>, finds: string -> bool)
    requires Sound(s) && (f.kind.Req? ==> Free(s, f.id))
    ensures var t := Dispatch(s, f, order, finds); Sound(t) && s.hands.handlers <= t.hands.handlers
  {
    hide Request, CancelRequest, Sound, Free;
    if f.kind.Req? {
      RequestSound(s, f, finds);
    } else if f.kind.Cancel? {
      CancelSound(s, f, order);
    } else {
      hide Sound, Route, RouteLast;
      RoutingIsQuiet(s, f);
      StandingSound(s, Dispatch(s, f, order, finds));
    }
  }

  lemma {:induction false} StepSound(w: World, step: Step, ids: set<MessageId>, finds: string -> bool)
    requires Sound(w.s) && SoundDone(w) && Allowed(w, step, ids)
    ensures var t := After(w, step, ids, finds); Sound(t.s) && SoundDone(t)
  {
    hide Drain, Reap, Dispatch, Apart;
    match step
    case Drained =>
      DrainSound(w.s);
      hide Sound;
    case Reaped =>
      ReapSound(w.s, w.done[0]);
      hide Sound;
    case Arrived(f, order) =>
      ArrivedSound(w, f, order, ids, finds);
      hide Sound, SoundDone;
    case _ =>
      OutsideSound(w, step, ids, finds);
      hide Sound, SoundDone;
  }

  lemma {:induction false} OutsideSound(w: World, step: Step, ids: set<MessageId>, finds: string -> bool)
    requires Sound(w.s) && SoundDone(w) && Allowed(w, step, ids) && !step.Drained? && !step.Reaped? && !step.Arrived?
    ensures var t := After(w, step, ids, finds); Sound(t.s) && SoundDone(t)
  {
    hide Apart;
  }

  lemma {:induction false} ArrivedSound(w: World, f: WireFrame, order: seq<MessageId>, ids: set<MessageId>, finds: string -> bool)
    requires Sound(w.s) && SoundDone(w) && Allowed(w, Arrived(f, order), ids)
    ensures var t := Receive(w, f, order, finds); Sound(t.s) && SoundDone(t)
  {
    hide Sound, Dispatch;
    DispatchSound(w.s, f, order, finds);
  }

  lemma {:induction false} DispatchBooked(w: World, f: WireFrame, order: seq<MessageId>, finds: string -> bool,
                                          ids: set<MessageId>, id: MessageId)
    requires Kept(w, ids) && Allowed(w, Arrived(f, order), ids) && id in ids
    ensures var t := Receive(w, f, order, finds); Booked(t.s, t.book, id)
  {
    hide Request, CancelRequest, Sound, Route, RouteLast, PlaceOf, Since, Answered, Free, Open;
    match f.kind
    case Req => RequestBooked(w.s, f, finds, w.book, id);
    case Cancel => CancelBooked(w.s, f, order, w.book, id);
    case Hello => HelloBooked(w.s, f.id, w.book, id);
    case Heartbeat =>
      OneMoreSince(w.s.out, From(w.book, id), Plain(Heartbeat, f.id, None, ""), id);
      SamePlace(w.s, Dispatch(w.s, f, order, finds), id);
    case _ =>
      RoutingIsQuiet(w.s, f);
      SamePlace(w.s, Dispatch(w.s, f, order, finds), id);
  }

  lemma {:induction false} SamePlace(s: LoopState, t: LoopState, id: MessageId)
    requires t.hands.handlers == s.hands.handlers && t.hands.routing == s.hands.routing && t.queue == s.queue
    requires t.hands.cancelled == s.hands.cancelled
    ensures PlaceOf(t, id) == PlaceOf(s, id)
  {
  }

  lemma {:induction false} HelloBooked(s: LoopState, used: MessageId, book: Ledger, id: MessageId)
    requires Free(s, used) && (id != used ==> Booked(s, book, id))
    ensures Booked(Send(s, Plain(Err, used, None, "PROTOCOL_ERROR")), Open(book, used, None, |s.out|), id)
  {
    var t := Send(s, Plain(Err, used, None, "PROTOCOL_ERROR"));
    AbsentIsFree(s, used);
    OneMoreSince(s.out, if id == used then |s.out| else From(book, id), Plain(Err, used, None, "PROTOCOL_ERROR"), id);
    assert Since(s.out, |s.out|, id) == [];
    SamePlace(s, t, id);
    hide PlaceOf, Since, Free;
  }

  lemma {:induction false} StepBooked(w: World, step: Step, ids: set<MessageId>, finds: string -> bool, id: MessageId)
    requires Kept(w, ids) && Allowed(w, step, ids) && id in ids
    ensures var t := After(w, step, ids, finds); Booked(t.s, t.book, id)
  {
    hide Since, PlaceOf, Sound, Drain, Reap, Dispatch, Receive, Answered;
    match step
    case Drained => DrainBooked(w.s, w.book, id);
    case Reaped => ReapBooked(w.s, w.done[0], w.book, id);
    case Arrived(f, order) => DispatchBooked(w, f, order, finds, ids, id);
    case Emitted(f) =>
      OneMoreSince(w.s.out, From(w.book, id), f, id);
      SamePlace(w.s, Send(w.s, f), id);
    case Concluded(who, kind, note) => ConclusionBooked(w, who, kind, note, ids, id);
    case _ => SamePlace(w.s, After(w, step, ids, finds).s, id);
  }

  lemma {:induction false} ConclusionBooked(w: World, who: MessageId, kind: Kind, note: string, ids: set<MessageId>, id: MessageId)
    requires Kept(w, ids) && Allowed(w, Concluded(who, kind, note), ids) && id in ids
    ensures var t := Conclusion(w, who, kind, note);
      Booked(Send(w.s, t), w.book.(conclusions := w.book.conclusions[who := t]), id)
  {
    var t := Conclusion(w, who, kind, note);
    OneMoreSince(w.s.out, From(w.book, id), t, id);
    SamePlace(w.s, Send(w.s, t), id);
    NotWaiting(w.s, who);
    hide Since, Waits, Sound;
  }

  lemma {:induction false} StepKept(w: World, step: Step, ids: set<MessageId>, finds: string -> bool)
    requires Kept(w, ids) && Allowed(w, step, ids)
    ensures Kept(After(w, step, ids, finds), ids)
  {
    hide After, Booked, Sound, SoundDone;
    StepSound(w, step, ids, finds);
    var t := After(w, step, ids, finds);
    forall id | id in ids ensures Booked(t.s, t.book, id) {
      StepBooked(w, step, ids, finds, id);
    }
  }

  lemma {:induction false} RunKept(w: World, steps: seq<Step>, ids: set<MessageId>, finds: string -> bool)
    requires Kept(w, ids) && Go(w, steps, ids, finds).Some?
    ensures Kept(Go(w, steps, ids, finds).value, ids)
    decreases |steps|
  {
    hide Kept, After;
    if steps != [] {
      StepKept(w, steps[0], ids, finds);
      RunKept(After(w, steps[0], ids, finds), steps[1..], ids, finds);
    }
  }

  // In every reachable state the maps, the counter and the queue agree, and every request has been
  // answered according to where it stands.
  lemma {:induction false} EveryRunKept(steps: seq<Step>, capacity: nat, ids: set<MessageId>, finds: string -> bool)
    requires Reach(steps, capacity, ids, finds).Some?
    ensures Kept(Reach(steps, capacity, ids, finds).value, ids)
  {
    RunKept(Boot(capacity), steps, ids, finds);
  }

  // No less is asked of the host than that takes: a request whose id is in use spoils it at once.
  lemma {:induction false} RequestKeptIff(w: World, f: WireFrame, order: seq<MessageId>, finds: string -> bool, ids: set<MessageId>)
    requires Kept(w, ids) && !w.halted && w.selecting && f.kind.Req? && f.id in ids
    ensures Kept(Receive(w, f, order, finds), ids) <==> Free(w.s, f.id)
  {
    hide Sound, SoundDone, Free, Request;
    var t := Receive(w, f, order, finds);
    if Free(w.s, f.id) {
      assert After(w, Arrived(f, order), ids, finds) == t;
      StepKept(w, Arrived(f, order), ids, finds);
    } else if Rejection(f, finds).None? {
      RequestSoundIff(w.s, f, finds);
    } else {
      hide Booked;
      RejectedInUse(w.s, f, finds, w.book);
    }
  }

  lemma {:induction false} RejectedInUse(s: LoopState, f: WireFrame, finds: string -> bool, book: Ledger)
    requires !Free(s, f.id) && Rejection(f, finds).Some?
    ensures !Booked(Request(s, f, finds), Open(book, f.id, f.xid, |s.out|), f.id)
  {
    AbsentIsFree(s, f.id);
    var err := Plain(Err, f.id, f.xid, Rejection(f, finds).value);
    OneMoreSince(s.out, |s.out|, err, f.id);
    assert Since(s.out, |s.out|, f.id) == [];
    SamePlace(s, Send(s, err), f.id);
    hide Since, PlaceOf, Free;
  }
}
