// The scheduler never stalls: what is queued waits for a handler that runs, and every run can end
// with every request answered.
module SchedulerProgress {
  import opened Prelude
  import opened Wire
  import opened Scheduler
  import opened SchedulerRuns
  import opened SchedulerTerminals
  import Answers

  // While the loop waits for something to happen, a queued request means a running handler.
  predicate Busy(w: World) {
    w.selecting && w.s.queue != [] ==> w.s.hands.running > 0
  }

  lemma {:induction false} DrainLeaves(s: LoopState)
    ensures var t := Drain(s);
      && (t.queue != [] ==> t.hands.running > 0)
      && |t.queue| + t.hands.running == |s.queue| + s.hands.running
    decreases |s.queue|
  {
    if s.queue != [] && Room(s) {
      DrainLeaves(Dequeue(s));
    }
  }

  lemma {:induction false} StepBusy(w: World, step: Step, ids: set<MessageId>, finds: string -> bool)
    requires Allowed(w, step, ids) && Busy(w)
    ensures Busy(After(w, step, ids, finds))
  {
    hide Drain, Dispatch, Reap;
    DrainLeaves(w.s);
  }

  lemma {:induction false} RunBusy(w: World, steps: seq<Step>, ids: set<MessageId>, finds: string -> bool)
    requires Go(w, steps, ids, finds).Some? && Busy(w)
    ensures Busy(Go(w, steps, ids, finds).value)
    decreases |steps|
  {
    hide Busy, Allowed, After;
    if steps != [] {
      StepBusy(w, steps[0], ids, finds);
      RunBusy(After(w, steps[0], ids, finds), steps[1..], ids, finds);
    }
  }

  // However the capacity is changed, a request waits at the select only behind a handler that runs.
  lemma {:induction false} QueueNeverStalls(steps: seq<Step>, capacity: nat, ids: set<MessageId>, finds: string -> bool)
    requires Reach(steps, capacity, ids, finds).Some?
    ensures var w := Reach(steps, capacity, ids, finds).value;
      w.selecting && w.s.queue != [] ==> w.s.hands.handlers != {}
  {
    RunBusy(Boot(capacity), steps, ids, finds);
    EveryRunKept(steps, capacity, ids, finds);
    hide Go, Kept;
    assert Sound(Reach(steps, capacity, ids, finds).value.s) by {
      assert Kept(Reach(steps, capacity, ids, finds).value, ids);
    }
  }

  // ---- Every run comes to rest ----

  // What the loop and its handlers do of themselves, without the host.
  predicate Internal(step: Step) {
    step.Drained? || step.Reaped? || step.Concluded? || step.Signalled?
  }

  predicate WithoutHost(steps: seq<Step>) {
    forall i :: 0 <= i < |steps| ==> !steps[i].Arrived? && !steps[i].Stopped?
  }

  function Internals(steps: seq<Step>): nat {
    if steps == [] then 0 else (if Internal(steps[0]) then 1 else 0) + Internals(steps[1..])
  }

  // Four internal steps for every request: its handler concludes, signals and is reaped, and the loop
  // comes round. Fewer for those that have concluded or signalled.
  function Weight(w: World): int {
    4 * (|w.s.queue| + w.s.hands.running) - |Concluding(w)| - |w.done|
    + if w.selecting then 0 else 1
  }

  predicate Quiet(w: World) {
    w.s.hands.handlers == {} && w.s.queue == []
  }

  ghost predicate AtRest(w: World, ids: set<MessageId>) {
    forall step :: Allowed(w, step, ids) ==> !Internal(step)
  }

  lemma {:induction false} SubsetIsFewer(a: set<MessageId>, b: set<MessageId>)
    requires a <= b
    ensures |a| <= |b|
  {
    assert b == a + (b - a);
  }

  lemma {:induction false} DistinctAreFew(ids: seq<MessageId>, all: set<MessageId>)
    requires forall i :: 0 <= i < |ids| ==> ids[i] in all
    requires forall i, j :: 0 <= i < j < |ids| ==> ids[i] != ids[j]
    ensures |ids| <= |all|
  {
    if ids != [] {
      var last := ids[|ids| - 1];
      DistinctAreFew(ids[..|ids| - 1], all - {last});
    }
  }

  lemma {:induction false} WeightIsNatural(w: World)
    requires Sound(w.s) && SoundDone(w)
    ensures Weight(w) >= 0
  {
    DistinctAreFew(w.done, w.s.hands.handlers);
    SubsetIsFewer(Concluding(w), w.s.hands.handlers);
  }

  function Concluding(w: World): set<MessageId> {
    w.s.hands.handlers * w.book.conclusions.Keys
  }

  lemma {:induction false} DrainWeighs(w: World, ids: set<MessageId>, finds: string -> bool)
    requires Sound(w.s) && Allowed(w, Drained, ids)
    ensures Weight(After(w, Drained, ids, finds)) < Weight(w)
  {
    DrainLeaves(w.s);
    DrainSound(w.s);
    hide Drain, Sound;
    var t := After(w, Drained, ids, finds);
    SubsetIsFewer(Concluding(w), Concluding(t));
  }

  lemma {:induction false} ReapWeighs(w: World, ids: set<MessageId>, finds: string -> bool)
    requires Sound(w.s) && SoundDone(w) && Allowed(w, Reaped, ids)
    ensures Weight(After(w, Reaped, ids, finds)) < Weight(w)
  {
    var t := After(w, Reaped, ids, finds);
    assert w.done[0] in Concluding(w);
    assert Concluding(t) == Concluding(w) - {w.done[0]};
    assert w.s.hands.running > 0;
    hide Sound, SoundDone;
  }

  lemma {:induction false} ConcludeWeighs(w: World, id: MessageId, kind: Kind, note: string, ids: set<MessageId>, finds: string -> bool)
    requires Allowed(w, Concluded(id, kind, note), ids)
    ensures Weight(After(w, Concluded(id, kind, note), ids, finds)) < Weight(w)
  {
    var t := After(w, Concluded(id, kind, note), ids, finds);
    assert Concluding(t) == Concluding(w) + {id};
  }

  lemma {:induction false} StepWeighs(w: World, step: Step, ids: set<MessageId>, finds: string -> bool)
    requires Sound(w.s) && SoundDone(w) && Allowed(w, step, ids) && !step.Arrived? && !step.Stopped?
    ensures Weight(After(w, step, ids, finds)) <= Weight(w) - if Internal(step) then 1 else 0
  {
    hide Sound, SoundDone;
    match step
    case Drained => DrainWeighs(w, ids, finds);
    case Reaped => ReapWeighs(w, ids, finds);
    case Concluded(id, kind, note) => ConcludeWeighs(w, id, kind, note, ids, finds);
    case _ =>
  }

  // Without the host, a run has no more internal steps than its weight allows.
  lemma {:induction false} InternalStepsAreFew(w: World, steps: seq<Step>, ids: set<MessageId>, finds: string -> bool)
    requires Kept(w, ids) && Go(w, steps, ids, finds).Some? && WithoutHost(steps)
    ensures Internals(steps) <= Weight(w) - Weight(Go(w, steps, ids, finds).value)
    decreases |steps|
  {
    if steps != [] {
      StepWeighs(w, steps[0], ids, finds);
      StepKept(w, steps[0], ids, finds);
      hide Kept, Allowed, After, Weight;
      assert forall i :: 0 <= i < |steps[1..]| ==> steps[1..][i] == steps[i + 1];
      InternalStepsAreFew(After(w, steps[0], ids, finds), steps[1..], ids, finds);
    }
  }

  // What the handlers, the done channel or the loop can do next.
  lemma {:induction false} NextStep(w: World, ids: set<MessageId>) returns (step: Step)
    requires Sound(w.s) && SoundDone(w) && Busy(w) && !w.halted && !(w.selecting && Quiet(w))
    ensures Allowed(w, step, ids) && Internal(step)
  {
    if !w.selecting {
      step := Drained;
    } else if w.done != [] {
      step := Reaped;
    } else {
      assert w.s.hands.handlers != {};
      if id :| id in w.s.hands.handlers && id in w.book.conclusions {
        step := Signalled(id);
      } else {
        var id :| id in w.s.hands.handlers;
        step := Concluded(id, End, "");
      }
    }
  }

  lemma {:induction false} RestIsQuiet(w: World, ids: set<MessageId>)
    requires Sound(w.s) && SoundDone(w) && Busy(w) && !w.halted && AtRest(w, ids)
    ensures Quiet(w)
  {
    if !(w.selecting && Quiet(w)) {
      hide Sound, SoundDone, Busy, Allowed, Quiet;
      var step := NextStep(w, ids);
      assert false;
    }
  }

  lemma {:induction false} NothingArrives(w: World, steps: seq<Step>, ids: set<MessageId>, finds: string -> bool)
    requires Go(w, steps, ids, finds).Some? && WithoutHost(steps)
    ensures var t := Go(w, steps, ids, finds).value;
      t.arrivals == w.arrivals && t.book.xids == w.book.xids && t.book.since == w.book.since && t.halted == w.halted
    decreases |steps|
  {
    if steps != [] {
      assert forall i :: 0 <= i < |steps[1..]| ==> steps[1..][i] == steps[i + 1];
      NothingArrives(After(w, steps[0], ids, finds), steps[1..], ids, finds);
    }
  }

  // A run can always be brought to rest.
  lemma {:induction false} WindsDown(w: World, ids: set<MessageId>, finds: string -> bool) returns (steps: seq<Step>)
    requires Kept(w, ids) && Busy(w) && !w.halted
    ensures Go(w, steps, ids, finds).Some? && WithoutHost(steps)
    ensures Quiet(Go(w, steps, ids, finds).value)
    decreases Weight(w)
  {
    WeightIsNatural(w);
    if w.selecting && Quiet(w) {
      steps := [];
    } else {
      assert Sound(w.s) && SoundDone(w);
      var step := NextStep(w, ids);
      StepWeighs(w, step, ids, finds);
      StepKept(w, step, ids, finds);
      StepBusy(w, step, ids, finds);
      var t := After(w, step, ids, finds);
      assert !t.halted;
      hide Sound, SoundDone, Kept, Busy, After, Allowed, Weight, Quiet;
      var rest := WindsDown(t, ids, finds);
      steps := [step] + rest;
    }
  }

  lemma {:induction false} GoAppend(w: World, first: seq<Step>, more: seq<Step>, ids: set<MessageId>, finds: string -> bool)
    requires Go(w, first, ids, finds).Some?
    ensures Go(w, first + more, ids, finds) == Go(Go(w, first, ids, finds).value, more, ids, finds)
    decreases |first|
  {
    hide Allowed, After;
    if first == [] {
      assert first + more == more;
    } else {
      assert (first + more)[1..] == first[1..] + more;
      GoAppend(After(w, first[0], ids, finds), first[1..], more, ids, finds);
    }
  }

  // Every request the host has made has been answered: once, or by its handler's own terminal and a
  // deferred CANCELLED; and on the wire, unless its flow had been terminated there before, by one END or
  // ERR at least, and no other while the gate remembers the flow.
  predicate Served(w: World, id: MessageId, cap: nat)
    requires id in w.book.xids
  {
    && Settled(Since(w.s.out, From(w.book, id), id), id, w.book.xids[id], Own(w.book.conclusions, id), id in w.book.aborted)
    && Answers.OnTheWire(w, id, cap)
    && Answers.Due(w, id)
  }

  // However a run goes on without the host, it takes only so many internal steps, and once it can take
  // no more, nothing is queued or running and every request is answered.
  lemma {:induction false} EveryRequestIsAnswered(steps: seq<Step>, more: seq<Step>, capacity: nat, ids: set<MessageId>,
                                                  finds: string -> bool, cap: nat)
    requires cap > 0 && Reach(steps, capacity, ids, finds).Some? && !Reach(steps, capacity, ids, finds).value.halted
    requires WithoutHost(more) && Go(Reach(steps, capacity, ids, finds).value, more, ids, finds).Some?
    ensures var w := Reach(steps, capacity, ids, finds).value;
      var t := Go(w, more, ids, finds).value;
      && Reach(steps + more, capacity, ids, finds) == Some(t)
      && Internals(more) <= Weight(w)
      && (AtRest(t, ids) ==> Quiet(t) && forall id :: id in ids && id in w.book.xids ==> id in t.book.xids && Served(t, id, cap))
  {
    var w := Reach(steps, capacity, ids, finds).value;
    EveryRunKept(steps, capacity, ids, finds);
    RunBusy(Boot(capacity), steps, ids, finds);
    var t := Go(w, more, ids, finds).value;
    InternalStepsAreFew(w, more, ids, finds);
    RunKept(w, more, ids, finds);
    RunBusy(w, more, ids, finds);
    NothingArrives(w, more, ids, finds);
    GoAppend(Boot(capacity), steps, more, ids, finds);
    assert Sound(t.s) && SoundDone(t);
    WeightIsNatural(t);
    hide Go, Busy, Weight, Sound, SoundDone, AtRest, Booked, Quiet, Served;
    if AtRest(t, ids) {
      RestIsQuiet(t, ids);
      forall id | id in ids && id in w.book.xids ensures Served(t, id, cap) {
        assert Booked(t.s, t.book, id);
        QuietIsServed(t, id, cap);
      }
    }
  }

  lemma {:induction false} QuietIsServed(w: World, id: MessageId, cap: nat)
    requires cap > 0 && Quiet(w) && id in w.book.xids && Booked(w.s, w.book, id)
    ensures Served(w, id, cap)
  {
    Answers.BookedOnTheWire(w, id, cap);
    AbsentIsFree(w.s, id);
    hide Answers.OnTheWire, Since, Settled, PlaceOf;
  }

  // The bookkeeping rests on ids being fresh: one id used twice runs two handlers under one entry.
  lemma {:induction false} SharedIdMiscounts(f: WireFrame, finds: string -> bool)
    requires Rejection(f, finds).None?
    ensures var s := Request(Request(Initial(0), f, finds), f, finds);
      s.hands.running == 2 && |s.hands.handlers| == 1 && |Reap(s, f.id).hands.handlers| == 0 && Reap(s, f.id).hands.running == 1
  {
    var s := Request(Request(Initial(0), f, finds), f, finds);
    assert s.hands.handlers == {f.id};
  }
}
