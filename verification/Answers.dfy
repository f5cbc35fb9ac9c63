// One request, one terminal: the scheduler's answers as they pass the writer's gate.
module Answers {
  import opened Prelude
  import opened Wire
  import opened Scheduler
  import opened SchedulerRuns
  import opened SchedulerTerminals
  import opened WriterTheorems

  predicate AllUnder(ts: seq<WireFrame>, xid: Option<MessageId>) {
    forall i :: 0 <= i < |ts| ==> ts[i].xid == xid
  }

  function FirstOf(ts: seq<WireFrame>): seq<WireFrame> {
    if ts == [] then [] else [ts[0]]
  }

  lemma {:induction false} TerminatedById(w: seq<WireFrame>, id: MessageId, xid: Option<MessageId>)
    requires AllUnder(TerminalsOf(w, id), xid)
    ensures FlowKey(id, xid) in Terminals(w) <==> TerminalsOf(w, id) != []
  {
    if w != [] {
      var rest := TerminalsOf(w[..|w| - 1], id);
      assert forall i :: 0 <= i < |rest| ==> rest[i] == TerminalsOf(w, id)[i];
      TerminatedById(w[..|w| - 1], id, xid);
      var last := w[|w| - 1];
      if IsTerminal(last) && last.id == id {
        assert TerminalsOf(w, id)[|rest|] == last;
      }
    }
  }

  // ---- The part of the wire a use of an id can claim ----

  // What reaches the wire of the frames `fs`, sent when `w` stands on it.
  function AdmittedAfter(w: seq<WireFrame>, fs: seq<WireFrame>, cap: nat): seq<WireFrame> {
    if fs == [] then []
    else
      var before := AdmittedAfter(w, fs[..|fs| - 1], cap);
      if Moot(w + before, fs[|fs| - 1], cap) then before else before + [fs[|fs| - 1]]
  }

  lemma {:induction false} AdmittedInTwo(a: seq<WireFrame>, b: seq<WireFrame>, cap: nat)
    ensures Admitted(a + b, cap) == Admitted(a, cap) + AdmittedAfter(Admitted(a, cap), b, cap)
    decreases |b|
  {
    hide Moot;
    if b == [] {
      assert a + b == a;
    } else {
      assert (a + b)[..|a + b| - 1] == a + b[..|b| - 1];
      AdmittedInTwo(a, b[..|b| - 1], cap);
    }
  }

  lemma {:induction false} UnderBefore(front: seq<WireFrame>, f: WireFrame, id: MessageId, xid: Option<MessageId>)
    requires AllUnder(TerminalsOf(front + [f], id), xid)
    ensures AllUnder(TerminalsOf(front, id), xid)
    ensures IsTerminal(f) && f.id == id ==> f.xid == xid
  {
    OneMore(front, f, id);
    var ts := TerminalsOf(front, id);
    assert forall i :: 0 <= i < |ts| ==> ts[i] == TerminalsOf(front + [f], id)[i];
    if IsTerminal(f) && f.id == id {
      assert TerminalsOf(front + [f], id)[|ts|] == f;
    }
  }

  // The flow has been terminated on the wire by `w` or by an answer since.
  lemma {:induction false} TerminatedSince(w: seq<WireFrame>, more: seq<WireFrame>, id: MessageId, xid: Option<MessageId>)
    requires AllUnder(TerminalsOf(more, id), xid)
    ensures FlowKey(id, xid) in Terminals(w + more) <==> FlowKey(id, xid) in Terminals(w) || TerminalsOf(more, id) != []
  {
    TerminalsAppend(w, more);
    TerminatedById(more, id, xid);
    hide Terminals, TerminalsOf;
  }

  // What has been claimed so far. Of the answers `sent`, those on the wire are `shown`.
  predicate Claims(sent: seq<WireFrame>, shown: seq<WireFrame>, xid: Option<MessageId>, spent: bool, remembered: bool) {
    && AllUnder(shown, xid)
    && (!spent ==> FirstOf(shown) == FirstOf(sent))
    && (remembered ==> shown == if spent then [] else FirstOf(sent))
  }

  // On a flow not terminated before, the first answer sent is the first on the wire, and the only one
  // while the gate remembers the flow. On a flow terminated before and remembered, none gets through.
  lemma {:induction false} FirstAnswerStands(w: seq<WireFrame>, fs: seq<WireFrame>, id: MessageId, xid: Option<MessageId>, cap: nat)
    requires cap > 0 && AllUnder(TerminalsOf(fs, id), xid)
    ensures var news := AdmittedAfter(w, fs, cap); var k := FlowKey(id, xid);
      Claims(TerminalsOf(fs, id), TerminalsOf(news, id), xid, k in Terminals(w), Remembers(w + news, k, cap))
  {
    hide Remembers, Terminals;
    if fs != [] {
      var front, f := fs[..|fs| - 1], fs[|fs| - 1];
      assert fs == front + [f];
      UnderBefore(front, f, id, xid);
      FirstAnswerStands(w, front, id, xid, cap);
      NextAnswer(w, front, f, id, xid, cap);
    }
  }

  lemma {:induction false} RememberedBefore(w: seq<WireFrame>, f: WireFrame, k: FlowKey, cap: nat)
    requires Remembers(w + [f], k, cap)
    ensures Remembers(w, k, cap)
  {
    assert (w + [f])[..|w|] == w;
    FirstAtAppend(Terminals(w), k, KeyOf(f));
  }

  lemma {:induction false} NextAnswer(w: seq<WireFrame>, front: seq<WireFrame>, f: WireFrame, id: MessageId, xid: Option<MessageId>, cap: nat)
    requires var news := AdmittedAfter(w, front, cap); var k := FlowKey(id, xid);
      && AllUnder(TerminalsOf(news, id), xid)
      && Claims(TerminalsOf(front, id), TerminalsOf(news, id), xid, k in Terminals(w), Remembers(w + news, k, cap))
      && (IsTerminal(f) && f.id == id ==> f.xid == xid)
    ensures var news := AdmittedAfter(w, front + [f], cap); var k := FlowKey(id, xid);
      Claims(TerminalsOf(front + [f], id), TerminalsOf(news, id), xid, k in Terminals(w), Remembers(w + news, k, cap))
  {
    assert (front + [f])[..|front|] == front;
    hide TerminalsOf, Remembers, Terminals, Moot, Claims;
    var news, k := AdmittedAfter(w, front, cap), FlowKey(id, xid);
    var sent, shown := TerminalsOf(front, id), TerminalsOf(news, id);
    var answers, moot := IsTerminal(f) && f.id == id, Moot(w + news, f, cap);
    OneMore(news, f, id);
    OneMore(front, f, id);
    GateOnAnswer(w, news, f, id, xid, cap);
    var later := AdmittedAfter(w, front + [f], cap);
    assert later == if moot then news else news + [f];
    assert w + (news + [f]) == (w + news) + [f];
    if Remembers(w + later, k, cap) && !moot {
      RememberedBefore(w + news, f, k, cap);
    }
    ClaimsNext(sent, shown, f, xid, k in Terminals(w), Remembers(w + news, k, cap), Remembers(w + later, k, cap), answers, moot);
  }

  // Whether the gate lets an answer through.
  lemma {:induction false} GateOnAnswer(w: seq<WireFrame>, news: seq<WireFrame>, f: WireFrame, id: MessageId, xid: Option<MessageId>, cap: nat)
    requires AllUnder(TerminalsOf(news, id), xid) && (IsTerminal(f) && f.id == id ==> f.xid == xid)
    ensures var k := FlowKey(id, xid); var gone := k in Terminals(w) || TerminalsOf(news, id) != [];
      IsTerminal(f) && f.id == id ==>
        && (!gone ==> !Moot(w + news, f, cap))
        && (Remembers(w + news, k, cap) ==> (Moot(w + news, f, cap) <==> gone))
  {
    var k := FlowKey(id, xid);
    TerminatedSince(w, news, id, xid);
    if InFlow(f, k) && k !in Terminals(w + news) {
      FreshIsNotMoot(w + news, f, cap);
    }
    if InFlow(f, k) && Remembers(w + news, k, cap) {
      MootIffTerminated(w + news, f, k, cap);
    }
    hide TerminalsOf, Remembers, Terminals, Moot;
  }

  lemma {:induction false} ClaimsNext(sent: seq<WireFrame>, shown: seq<WireFrame>, f: WireFrame, xid: Option<MessageId>,
                                      spent: bool, remembered: bool, still: bool, answers: bool, moot: bool)
    requires Claims(sent, shown, xid, spent, remembered) && (answers ==> f.xid == xid) && (still ==> remembered)
    requires answers && !(spent || shown != []) ==> !moot
    requires answers && remembered ==> (moot <==> spent || shown != [])
    ensures Claims(if answers then sent + [f] else sent, if answers && !moot then shown + [f] else shown, xid, spent, still)
  {
  }

  lemma {:induction false} FreshIsNotMoot(w: seq<WireFrame>, f: WireFrame, cap: nat)
    requires KeyOf(f) !in Terminals(w)
    ensures !Moot(w, f, cap)
  {
  }

  // ---- Ids used once ----

  function Uses(arrivals: seq<WireFrame>, id: MessageId): nat {
    if arrivals == [] then 0
    else
      var last := arrivals[|arrivals| - 1];
      Uses(arrivals[..|arrivals| - 1], id) + if (last.kind.Req? || last.kind.Hello?) && last.id == id then 1 else 0
  }

  predicate Extends(a: seq<WireFrame>, b: seq<WireFrame>) {
    |a| <= |b| && b[..|a|] == a
  }

  lemma {:induction false} DrainExtends(s: LoopState)
    ensures Extends(s.out, Drain(s).out)
    decreases |s.queue|
  {
    if s.queue != [] && Room(s) {
      var next := Dequeue(s);
      DrainExtends(next);
      assert next.out[..|s.out|] == s.out;
      assert Drain(s).out[..|s.out|] == Drain(s).out[..|next.out|][..|s.out|];
    }
  }

  lemma {:induction false} DispatchExtends(s: LoopState, f: WireFrame, order: seq<MessageId>, finds: string -> bool)
    ensures Extends(s.out, Dispatch(s, f, order, finds).out)
  {
    hide CancelFrames, CallsOf, Without, Position, Waits, Stops, Extend, Rejection, Lists;
  }

  lemma {:induction false} StepExtends(w: World, step: Step, ids: set<MessageId>, finds: string -> bool)
    requires Allowed(w, step, ids)
    ensures Extends(w.s.out, After(w, step, ids, finds).s.out)
  {
    hide Drain, Dispatch;
    match step
    case Drained => DrainExtends(w.s);
    case Arrived(f, order) => DispatchExtends(w.s, f, order, finds);
    case _ =>
  }

  // Before the first use of an id nothing has been answered under it.
  predicate Unspoiled(w: World, id: MessageId) {
    && (Uses(w.arrivals, id) == 0 ==> id !in w.book.xids)
    && (Uses(w.arrivals, id) <= 1 && From(w.book, id) <= |w.s.out| ==> TerminalsOf(w.s.out[..From(w.book, id)], id) == [])
  }

  // What a step does to the record of uses.
  lemma {:induction false} StepUses(w: World, step: Step, ids: set<MessageId>, finds: string -> bool)
    requires Allowed(w, step, ids)
    ensures var t := After(w, step, ids, finds);
      if step.Arrived? && (step.frame.kind.Req? || step.frame.kind.Hello?) then
        && t.arrivals == w.arrivals + [step.frame] && t.book.since == w.book.since[step.frame.id := |w.s.out|]
        && t.book.xids.Keys == w.book.xids.Keys + {step.frame.id}
      else
        && t.arrivals == (if step.Arrived? then w.arrivals + [step.frame] else w.arrivals)
        && t.book.since == w.book.since && t.book.xids == w.book.xids
  {
    hide Drain, Dispatch, Reap, Withdraws, Aborts, Rejection;
  }

  lemma {:induction false} StepUnspoiled(w: World, step: Step, ids: set<MessageId>, finds: string -> bool, id: MessageId)
    requires Booked(w.s, w.book, id) && Unspoiled(w, id) && Allowed(w, step, ids)
    requires id !in w.book.xids ==> id !in w.book.since
    ensures Unspoiled(After(w, step, ids, finds), id)
    ensures var t := After(w, step, ids, finds); id !in t.book.xids ==> id !in t.book.since
  {
    StepExtends(w, step, ids, finds);
    StepUses(w, step, ids, finds);
    var t := After(w, step, ids, finds);
    var from := From(w.book, id);
    assert t.s.out[..|w.s.out|] == w.s.out;
    assert t.s.out[..from] == w.s.out[..from];
    hide After, Allowed, TerminalsOf, PlaceOf, Settled;
    if step.Arrived? {
      assert (w.arrivals + [step.frame])[..|w.arrivals|] == w.arrivals;
      if (step.frame.kind.Req? || step.frame.kind.Hello?) && step.frame.id == id && Uses(w.arrivals, id) == 0 {
        assert w.s.out[0..] == w.s.out;
      }
    }
  }

  lemma {:induction false} RunUnspoiled(w: World, steps: seq<Step>, ids: set<MessageId>, finds: string -> bool, id: MessageId)
    requires Kept(w, ids) && id in ids && Unspoiled(w, id) && Go(w, steps, ids, finds).Some?
    requires id !in w.book.xids ==> id !in w.book.since
    ensures Unspoiled(Go(w, steps, ids, finds).value, id)
    decreases |steps|
  {
    if steps != [] {
      assert Booked(w.s, w.book, id);
      StepKept(w, steps[0], ids, finds);
      hide Allowed, After, Kept, Unspoiled;
      StepUnspoiled(w, steps[0], ids, finds, id);
      RunUnspoiled(After(w, steps[0], ids, finds), steps[1..], ids, finds, id);
    }
  }

  lemma {:induction false} UnansweredIsUnspent(fs: seq<WireFrame>, id: MessageId, xid: Option<MessageId>, cap: nat)
    requires cap > 0 && TerminalsOf(fs, id) == []
    ensures FlowKey(id, xid) !in Terminals(Admitted(fs, cap))
  {
    assert [] + fs == fs && Admitted([], cap) == [] && Terminals([]) == [];
    AdmittedInTwo([], fs, cap);
    FirstAnswerStands([], fs, id, xid, cap);
    assert [] + AdmittedAfter([], fs, cap) == AdmittedAfter([], fs, cap);
    TerminatedById(Admitted(fs, cap), id, xid);
  }

  // ---- Every request ----

  lemma {:induction false} FirstAnswer(place: Place, ts: seq<WireFrame>, id: MessageId, xids: map<MessageId, Option<MessageId>>, own: Option<WireFrame>, aborted: bool)
    requires Answered(place, ts, id, xids, own, aborted) && id in xids
    ensures AllUnder(ts, xids[id])
    ensures if place.Absent? || own.Some? then |FirstOf(ts)| == 1 else FirstOf(ts) == []
    ensures own.Some? ==> FirstOf(ts) == [own.value]
  {
  }

  // The wire before the host's last use of an id, and what the answers to that use show on it.
  function WireBefore(w: World, id: MessageId, cap: nat): seq<WireFrame> {
    if From(w.book, id) <= |w.s.out| then Admitted(w.s.out[..From(w.book, id)], cap) else []
  }

  function Shown(w: World, id: MessageId, cap: nat): seq<WireFrame> {
    if From(w.book, id) <= |w.s.out| then TerminalsOf(AdmittedAfter(WireBefore(w, id, cap), w.s.out[From(w.book, id)..], cap), id) else []
  }

  // The request is over, or its handler has sent its own terminal.
  predicate Due(w: World, id: MessageId) {
    PlaceOf(w.s, id).Absent? || id in w.book.conclusions
  }

  function KeyFor(w: World, id: MessageId): FlowKey
    requires id in w.book.xids
  {
    FlowKey(id, w.book.xids[id])
  }

  // A request whose flow had not been terminated on the wire before is answered there once it is over or
  // its handler has concluded, and not before; what comes first is the handler's own terminal.
  predicate AnsweredFirst(w: World, id: MessageId, cap: nat) {
    var shown := Shown(w, id, cap);
    && (Due(w, id) <==> shown != [])
    && (id in w.book.conclusions && shown != [] ==> shown[0] == w.book.conclusions[id])
  }

  // The answers to the host's last use of an id, as the wire shows them.
  predicate OnTheWire(w: World, id: MessageId, cap: nat)
    requires id in w.book.xids
  {
    && From(w.book, id) <= |w.s.out|
    && Admitted(w.s.out, cap) == WireBefore(w, id, cap) + AdmittedAfter(WireBefore(w, id, cap), w.s.out[From(w.book, id)..], cap)
    && (KeyFor(w, id) !in Terminals(WireBefore(w, id, cap)) ==> AnsweredFirst(w, id, cap))
    && (Remembers(Admitted(w.s.out, cap), KeyFor(w, id), cap) ==>
          |Shown(w, id, cap)| == if Due(w, id) && KeyFor(w, id) !in Terminals(WireBefore(w, id, cap)) then 1 else 0)
  }

  lemma {:induction false} BookedOnTheWire(w: World, id: MessageId, cap: nat)
    requires cap > 0 && id in w.book.xids && Booked(w.s, w.book, id)
    ensures OnTheWire(w, id, cap)
  {
    var from := From(w.book, id);
    var sent := TerminalsOf(w.s.out[from..], id);
    FirstAnswer(PlaceOf(w.s, id), sent, id, w.book.xids, Own(w.book.conclusions, id), id in w.book.aborted);
    hide PlaceOf, TerminalsOf, Admitted, AdmittedAfter, Remembers, Answered, Terminals, Booked, Since, AllUnder, Claims, FirstOf, Shown, AnsweredFirst;
    assert w.s.out[..from] + w.s.out[from..] == w.s.out;
    AdmittedInTwo(w.s.out[..from], w.s.out[from..], cap);
    var before := WireBefore(w, id, cap);
    FirstAnswerStands(before, w.s.out[from..], id, w.book.xids[id], cap);
    ShownIs(w, id, cap);
    ClaimsAnswer(sent, Shown(w, id, cap), w.book.xids[id], KeyFor(w, id) in Terminals(before),
                 Remembers(Admitted(w.s.out, cap), KeyFor(w, id), cap), Due(w, id), Own(w.book.conclusions, id));
    AnsweredFirstIs(w, id, cap);
  }

  lemma {:induction false} ShownIs(w: World, id: MessageId, cap: nat)
    requires From(w.book, id) <= |w.s.out|
    ensures Shown(w, id, cap) == TerminalsOf(AdmittedAfter(WireBefore(w, id, cap), w.s.out[From(w.book, id)..], cap), id)
  {
  }

  lemma {:induction false} AnsweredFirstIs(w: World, id: MessageId, cap: nat)
    ensures var shown := Shown(w, id, cap); var own := Own(w.book.conclusions, id);
      AnsweredFirst(w, id, cap) <==> (Due(w, id) <==> shown != []) && (own.Some? && shown != [] ==> FirstOf(shown) == [own.value])
  {
  }

  lemma {:induction false} ClaimsAnswer(sent: seq<WireFrame>, shown: seq<WireFrame>, xid: Option<MessageId>, spent: bool, remembered: bool,
                                        due: bool, own: Option<WireFrame>)
    requires Claims(sent, shown, xid, spent, remembered)
    requires (if due then |FirstOf(sent)| == 1 else FirstOf(sent) == []) && (own.Some? ==> FirstOf(sent) == [own.value])
    ensures !spent ==> (due <==> shown != []) && (own.Some? && shown != [] ==> FirstOf(shown) == [own.value])
    ensures remembered ==> |shown| == if due && !spent then 1 else 0
  {
  }

  lemma {:induction false} EveryRequestOnTheWire(steps: seq<Step>, capacity: nat, ids: set<MessageId>, finds: string -> bool,
                                                 id: MessageId, cap: nat)
    requires cap > 0 && id in ids && Reach(steps, capacity, ids, finds).Some?
    requires id in Reach(steps, capacity, ids, finds).value.book.xids
    ensures OnTheWire(Reach(steps, capacity, ids, finds).value, id, cap)
  {
    EveryRunKept(steps, capacity, ids, finds);
    hide OnTheWire, Reach, Go, Booked;
    BookedOnTheWire(Reach(steps, capacity, ids, finds).value, id, cap);
  }

  // An id the host has used once, on a flow the gate remembers: exactly one END or ERR on the wire, once
  // the request is over or its handler has concluded, and none before. A handler's request gets the
  // handler's own terminal, never the CANCELLED deferred behind it.
  lemma {:induction false} ExactlyOneTerminal(steps: seq<Step>, capacity: nat, ids: set<MessageId>, finds: string -> bool,
                                              id: MessageId, cap: nat)
    requires cap > 0 && id in ids && Reach(steps, capacity, ids, finds).Some?
    requires var w := Reach(steps, capacity, ids, finds).value;
      && id in w.book.xids && Uses(w.arrivals, id) == 1
      && Remembers(Admitted(w.s.out, cap), KeyFor(w, id), cap)
    ensures var w := Reach(steps, capacity, ids, finds).value;
      var answers := TerminalsOf(Admitted(w.s.out, cap), id);
      && |answers| == (if Due(w, id) then 1 else 0)
      && (id in w.book.conclusions ==> answers == [w.book.conclusions[id]])
  {
    var w := Reach(steps, capacity, ids, finds).value;
    EveryRequestOnTheWire(steps, capacity, ids, finds, id, cap);
    assert Kept(Boot(capacity), ids) by { EveryRunKept([], capacity, ids, finds); }
    RunUnspoiled(Boot(capacity), steps, ids, finds, id);
    hide Reach, Go, Kept, Boot;
    var from := From(w.book, id);
    UnansweredIsUnspent(w.s.out[..from], id, w.book.xids[id], cap);
    NoneShownBefore(w.s.out[..from], id, cap);
    TerminalsInTwo(WireBefore(w, id, cap), AdmittedAfter(WireBefore(w, id, cap), w.s.out[from..], cap), id);
    hide TerminalsOf, Admitted, AdmittedAfter, Terminals, Remembers, Due;
  }

  lemma {:induction false} NoneShownBefore(fs: seq<WireFrame>, id: MessageId, cap: nat)
    requires cap > 0 && TerminalsOf(fs, id) == []
    ensures TerminalsOf(Admitted(fs, cap), id) == []
  {
    assert [] + fs == fs && Admitted([], cap) == [];
    AdmittedInTwo([], fs, cap);
    FirstAnswerStands([], fs, id, None, cap);
    assert Terminals([]) == [];
    assert [] + AdmittedAfter([], fs, cap) == AdmittedAfter([], fs, cap);
  }

  lemma {:induction false} TerminalsInTwo(a: seq<WireFrame>, b: seq<WireFrame>, id: MessageId)
    ensures TerminalsOf(a + b, id) == TerminalsOf(a, id) + TerminalsOf(b, id)
    decreases |b|
  {
    if b == [] {
      assert a + b == a;
    } else {
      assert (a + b)[..|a + b| - 1] == a + b[..|b| - 1];
      TerminalsInTwo(a, b[..|b| - 1], id);
    }
  }
}
