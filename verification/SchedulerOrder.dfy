// Capacity, order of dispatch, and progress of the scheduler over whole runs.
module SchedulerOrder {
  import opened Prelude
  import opened Wire
  import opened Scheduler
  import opened SchedulerRuns
  import opened SchedulerTerminals

  // ---- Capacity ----

  predicate Steady(steps: seq<Step>) {
    forall i :: 0 <= i < |steps| ==> !steps[i].CapacitySet?
  }

  // With a fixed capacity: never exceeded, and used up whenever something waits at the select.
  predicate Bounded(w: World, capacity: nat) {
    && w.s.capacity == capacity
    && (capacity > 0 ==> w.s.hands.running <= capacity)
    && (w.selecting && w.s.queue != [] ==> capacity > 0 && w.s.hands.running == capacity)
  }

  lemma {:induction false} DrainFills(s: LoopState)
    requires s.capacity > 0 ==> s.hands.running <= s.capacity
    ensures var t := Drain(s);
      && t.capacity == s.capacity && (s.capacity > 0 ==> t.hands.running <= s.capacity)
      && (t.queue != [] ==> s.capacity > 0 && t.hands.running == s.capacity)
    decreases |s.queue|
  {
    if s.queue != [] && Room(s) {
      DrainFills(Dequeue(s));
    }
  }

  predicate SameLine(s: LoopState, t: LoopState) {
    t.capacity == s.capacity && t.hands.running == s.hands.running && t.started == s.started
  }

  lemma {:induction false} WithdrawLeaves(s: LoopState, p: nat)
    requires p < |s.queue|
    ensures SameLine(s, Withdraw(s, p)) && Withdraw(s, p).queue == Without(s.queue, p)
  {
  }

  lemma {:induction false} CancelLeaves(s: LoopState, f: WireFrame, order: seq<MessageId>)
    ensures var t := CancelRequest(s, f, order);
      && SameLine(s, t)
      && t.queue == if Withdraws(s, f) then Without(s.queue, Position(s.queue, f.id)) else s.queue
  {
    hide CancelFrames, CallsOf, Without, Stops, Withdraw, Position;
    assert SameLine(s, Untap(s, f)) && Untap(s, f).queue == s.queue;
    if Withdraws(s, f) {
      WithdrawLeaves(Untap(s, f), Position(s.queue, f.id));
    }
  }

  lemma {:induction false} RouteLeaves(s: LoopState, f: WireFrame)
    ensures SameLine(s, Route(s, f)) && Route(s, f).queue == s.queue
    ensures SameLine(s, RouteLast(s, f)) && RouteLast(s, f).queue == s.queue
  {
  }

  lemma {:induction false} RequestLine(s: LoopState, f: WireFrame, finds: string -> bool)
    ensures var t := Request(s, f, finds);
      var q := Queued(f.id, f.xid);
      var starts := Rejection(f, finds).None? && Room(s);
      && t.capacity == s.capacity
      && t.hands.running == (if starts then s.hands.running + 1 else s.hands.running)
      && t.started == (if starts then s.started + [q] else s.started)
      && t.queue == (if Rejection(f, finds).None? && !Room(s) then s.queue + [q] else s.queue)
      && t.hands.handlers == (if starts then s.hands.handlers + {f.id} else s.hands.handlers)
  {
  }

  lemma {:induction false} DispatchCounts(s: LoopState, f: WireFrame, order: seq<MessageId>, finds: string -> bool)
    ensures var t := Dispatch(s, f, order, finds);
      && t.capacity == s.capacity
      && (t.hands.running == s.hands.running || (t.hands.running == s.hands.running + 1 && Room(s)))
  {
    hide Request, CancelRequest, Route, RouteLast;
    match f.kind
    case Req => RequestLine(s, f, finds);
    case Cancel => CancelLeaves(s, f, order);
    case _ => RouteLeaves(s, f);
  }

  lemma {:induction false} StepBounded(w: World, step: Step, capacity: nat, ids: set<MessageId>, finds: string -> bool)
    requires Allowed(w, step, ids) && !step.CapacitySet? && Bounded(w, capacity)
    ensures Bounded(After(w, step, ids, finds), capacity)
  {
    hide Allowed;
    match step
    case Drained => DrainFills(w.s);
    case Arrived(f, order) =>
      DispatchCounts(w.s, f, order, finds);
      hide Dispatch;
    case _ =>
  }

  lemma {:induction false} RunBounded(w: World, steps: seq<Step>, capacity: nat, ids: set<MessageId>, finds: string -> bool)
    requires Go(w, steps, ids, finds).Some? && Steady(steps) && Bounded(w, capacity)
    ensures Bounded(Go(w, steps, ids, finds).value, capacity)
    decreases |steps|
  {
    hide Bounded, Allowed, After;
    if steps != [] {
      StepBounded(w, steps[0], capacity, ids, finds);
      RunBounded(After(w, steps[0], ids, finds), steps[1..], capacity, ids, finds);
    }
  }

  // No more handlers than the capacity, and no request waits while there is a slot for it.
  lemma {:induction false} WithinCapacity(steps: seq<Step>, capacity: nat, ids: set<MessageId>, finds: string -> bool)
    requires Reach(steps, capacity, ids, finds).Some? && Steady(steps)
    ensures var w := Reach(steps, capacity, ids, finds).value;
      && (capacity > 0 ==> |w.s.hands.handlers| <= capacity)
      && (w.selecting && w.s.queue != [] ==> |w.s.hands.handlers| == capacity > 0)
  {
    RunBounded(Boot(capacity), steps, capacity, ids, finds);
    EveryRunKept(steps, capacity, ids, finds);
    hide Go;
  }

  // ---- Order ----

  // The numbers below `n` of the requests not withdrawn, in order of arrival.
  function Left(n: nat, withdrawn: set<nat>): seq<nat> {
    if n == 0 then []
    else if n - 1 in withdrawn then Left(n - 1, withdrawn)
    else Left(n - 1, withdrawn) + [n - 1]
  }

  predicate Match(numbers: seq<nat>, line: seq<Queued>, accepted: seq<Queued>) {
    |numbers| == |line| && forall i :: 0 <= i < |line| ==> numbers[i] < |accepted| && line[i] == accepted[numbers[i]]
  }

  // The tickets tell which accepted requests have been started and which wait.
  ghost predicate Ticketed(w: World) {
    && Match(w.tickets.begun, w.s.started, w.accepted) && Match(w.tickets.waiting, w.s.queue, w.accepted)
    && AllBelow(w.tickets.withdrawn, |w.accepted|)
  }

  ghost predicate AllBelow(numbers: set<nat>, n: nat) {
    forall k :: k in numbers ==> k < n
  }

  // Started and waiting requests together are the accepted ones in order of arrival, less those
  // cancelled while they waited.
  predicate InLine(w: World) {
    w.tickets.begun + w.tickets.waiting == Left(|w.accepted|, w.tickets.withdrawn)
  }

  predicate Accepts(step: Step, finds: string -> bool) {
    step.Arrived? && Accepted(step.frame, finds)
  }

  // The new request would start although older ones wait.
  predicate Overtakes(w: World, step: Step, finds: string -> bool) {
    Accepts(step, finds) && w.s.queue != [] && Room(w.s)
  }

  lemma {:induction false} LeftBelow(n: nat, withdrawn: set<nat>)
    ensures forall i :: 0 <= i < |Left(n, withdrawn)| ==> Left(n, withdrawn)[i] < n
  {
    if n > 0 {
      LeftBelow(n - 1, withdrawn);
    }
  }

  lemma {:induction false} LeftUntouched(n: nat, withdrawn: set<nat>, gone: nat)
    requires gone >= n
    ensures Left(n, withdrawn + {gone}) == Left(n, withdrawn)
  {
    if n > 0 {
      LeftUntouched(n - 1, withdrawn, gone);
    }
  }

  lemma {:induction false} LeftLess(n: nat, withdrawn: set<nat>, p: nat)
    requires p < |Left(n, withdrawn)|
    ensures Left(n, withdrawn + {Left(n, withdrawn)[p]}) == Without(Left(n, withdrawn), p)
  {
    var rest := Left(n - 1, withdrawn);
    LeftBelow(n - 1, withdrawn);
    if n - 1 in withdrawn || p < |rest| {
      LeftLess(n - 1, withdrawn, p);
    } else {
      LeftUntouched(n - 1, withdrawn, n - 1);
    }
  }

  lemma {:induction false} DrainTakes(s: LoopState)
    ensures var t := Drain(s);
      && |t.queue| <= |s.queue|
      && t.queue == s.queue[|s.queue| - |t.queue|..]
      && t.started == s.started + s.queue[..|s.queue| - |t.queue|]
    decreases |s.queue|
  {
    if s.queue != [] && Room(s) {
      DrainTakes(Dequeue(s));
    }
  }

  lemma {:induction false} MatchSplit(numbers: seq<nat>, line: seq<Queued>, accepted: seq<Queued>, k: nat)
    requires Match(numbers, line, accepted) && k <= |line|
    ensures Match(numbers[..k], line[..k], accepted) && Match(numbers[k..], line[k..], accepted)
  {
  }

  lemma {:induction false} MatchJoin(a: seq<nat>, x: seq<Queued>, b: seq<nat>, y: seq<Queued>, accepted: seq<Queued>)
    requires Match(a, x, accepted) && Match(b, y, accepted)
    ensures Match(a + b, x + y, accepted)
  {
  }

  lemma {:induction false} MatchMore(numbers: seq<nat>, line: seq<Queued>, accepted: seq<Queued>, q: Queued)
    requires Match(numbers, line, accepted)
    ensures Match(numbers, line, accepted + [q]) && Match(numbers + [|accepted|], line + [q], accepted + [q])
  {
  }

  lemma {:induction false} MatchWithout(numbers: seq<nat>, line: seq<Queued>, accepted: seq<Queued>, p: nat)
    requires Match(numbers, line, accepted) && p < |line|
    ensures Match(Without(numbers, p), Without(line, p), accepted)
  {
  }

  lemma {:induction false} DrainTicketed(w: World)
    requires Ticketed(w)
    ensures var t := Advance(w.tickets, |Drain(w.s).queue|);
      && Match(t.begun, Drain(w.s).started, w.accepted) && Match(t.waiting, Drain(w.s).queue, w.accepted)
      && t.begun + t.waiting == w.tickets.begun + w.tickets.waiting && t.withdrawn == w.tickets.withdrawn
  {
    DrainTakes(w.s);
    var k := |w.s.queue| - |Drain(w.s).queue|;
    hide Match, Drain;
    assert |w.tickets.waiting| == |w.s.queue| by { MatchLength(w.tickets.waiting, w.s.queue, w.accepted); }
    MatchSplit(w.tickets.waiting, w.s.queue, w.accepted, k);
    MatchJoin(w.tickets.begun, w.s.started, w.tickets.waiting[..k], w.s.queue[..k], w.accepted);
  }

  lemma {:induction false} MatchLength(numbers: seq<nat>, line: seq<Queued>, accepted: seq<Queued>)
    requires Match(numbers, line, accepted)
    ensures |numbers| == |line|
  {
  }

  lemma {:induction false} AcceptedTickets(w: World, f: WireFrame, order: seq<MessageId>, finds: string -> bool)
    requires f.kind.Req?
    ensures var t := Receive(w, f, order, finds); var q := Queued(f.id, f.xid);
      if Accepted(f, finds) then
        && t.accepted == w.accepted + [q] && t.tickets == Join(w.tickets, |w.accepted|, Room(w.s))
        && t.s.started == (if Room(w.s) then w.s.started + [q] else w.s.started)
        && t.s.queue == (if Room(w.s) then w.s.queue else w.s.queue + [q])
      else t.accepted == w.accepted && t.tickets == w.tickets && t.s.started == w.s.started && t.s.queue == w.s.queue
  {
    RequestLine(w.s, f, finds);
    hide Request, Rejection, Room;
  }

  // A request keeps its place in line exactly when it does not overtake.
  lemma {:induction false} RequestInLineIff(w: World, f: WireFrame, order: seq<MessageId>, finds: string -> bool)
    requires Ticketed(w) && InLine(w) && f.kind.Req?
    ensures Ticketed(Receive(w, f, order, finds))
    ensures InLine(Receive(w, f, order, finds)) <==> !Overtakes(w, Arrived(f, order), finds)
  {
    RequestTicketed(w, f, order, finds);
    AcceptedTickets(w, f, order, finds);
    MatchLength(w.tickets.waiting, w.s.queue, w.accepted);
    if Accepted(f, finds) {
      OneMoreLeft(w.tickets, |w.accepted|, Room(w.s));
    }
    hide Receive, Match, Accepted, Left, Room;
  }

  lemma {:induction false} RequestTicketed(w: World, f: WireFrame, order: seq<MessageId>, finds: string -> bool)
    requires Ticketed(w) && f.kind.Req?
    ensures Ticketed(Receive(w, f, order, finds))
  {
    AcceptedTickets(w, f, order, finds);
    hide Receive, Match, Accepted, Left, Room;
    if Accepted(f, finds) {
      var q := Queued(f.id, f.xid);
      MatchMore(w.tickets.begun, w.s.started, w.accepted, q);
      MatchMore(w.tickets.waiting, w.s.queue, w.accepted, q);
    }
  }

  lemma {:induction false} OneMoreLeft(t: Tickets, n: nat, starts: bool)
    requires t.begun + t.waiting == Left(n, t.withdrawn) && AllBelow(t.withdrawn, n)
    ensures var u := Join(t, n, starts);
      u.begun + u.waiting == Left(n + 1, u.withdrawn) <==> !(starts && t.waiting != [])
  {
    LeftBelow(n, t.withdrawn);
    var line, u := t.begun + t.waiting, Join(t, n, starts);
    hide Left;
    LeftNext(n, t.withdrawn);
    if starts && t.waiting != [] {
      assert (u.begun + u.waiting)[|t.begun|] == n;
      assert (line + [n])[|t.begun|] == line[|t.begun|] < n;
    } else {
      assert u.begun + u.waiting == line + [n];
    }
  }

  lemma {:induction false} LeftNext(n: nat, withdrawn: set<nat>)
    ensures Left(n + 1, withdrawn) == if n in withdrawn then Left(n, withdrawn) else Left(n, withdrawn) + [n]
  {
  }

  lemma {:induction false} WithdrawInLine(w: World, p: nat)
    requires Ticketed(w) && p < |w.s.queue|
    ensures Match(Leave(w.tickets, p).waiting, Without(w.s.queue, p), w.accepted)
    ensures AllBelow(Leave(w.tickets, p).withdrawn, |w.accepted|) && Leave(w.tickets, p).begun == w.tickets.begun
    ensures var t := Leave(w.tickets, p);
      InLine(w) ==> t.begun + t.waiting == Left(|w.accepted|, t.withdrawn)
  {
    MatchWithout(w.tickets.waiting, w.s.queue, w.accepted, p);
    if InLine(w) {
      var at := |w.tickets.begun| + p;
      LeftLess(|w.accepted|, w.tickets.withdrawn, at);
      assert w.tickets.begun + Without(w.tickets.waiting, p) == Without(w.tickets.begun + w.tickets.waiting, at);
    }
  }

  lemma {:induction false} DispatchTicketed(w: World, f: WireFrame, order: seq<MessageId>, finds: string -> bool)
    requires Ticketed(w)
    ensures Ticketed(Receive(w, f, order, finds))
    ensures !f.kind.Req? && InLine(w) ==> InLine(Receive(w, f, order, finds))
  {
    if f.kind.Req? {
      RequestTicketed(w, f, order, finds);
    } else {
      hide Request, CancelRequest, Route, RouteLast, Left, Match, Leave;
      match f.kind
      case Cancel =>
        CancelLeaves(w.s, f, order);
        if Withdraws(w.s, f) {
          WithdrawInLine(w, Position(w.s.queue, f.id));
        }
      case _ => RouteLeaves(w.s, f);
    }
  }

  lemma {:induction false} ReapLeaves(s: LoopState, id: MessageId)
    ensures Reap(s, id).started == s.started && Reap(s, id).queue == s.queue
  {
  }

  // Any step keeps the line, but one that lets a request overtake.
  lemma {:induction false} StepInLineIff(w: World, step: Step, ids: set<MessageId>, finds: string -> bool)
    requires Allowed(w, step, ids) && Ticketed(w) && InLine(w)
    ensures Ticketed(After(w, step, ids, finds))
    ensures InLine(After(w, step, ids, finds)) <==> !Overtakes(w, step, finds)
  {
    hide Drain, Reap, Receive, Left, Match;
    match step
    case Drained => DrainTicketed(w);
    case Reaped => ReapLeaves(w.s, w.done[0]);
    case Arrived(f, order) =>
      if f.kind.Req? {
        RequestInLineIff(w, f, order, finds);
      } else {
        DispatchTicketed(w, f, order, finds);
      }
    case _ =>
  }

  // No step lets a new request start ahead of waiting ones.
  predicate Calm(w: World, steps: seq<Step>, ids: set<MessageId>, finds: string -> bool)
    requires Go(w, steps, ids, finds).Some?
    decreases |steps|
  {
    steps == [] || (!Overtakes(w, steps[0], finds) && Calm(After(w, steps[0], ids, finds), steps[1..], ids, finds))
  }

  predicate InLineThroughout(w: World, steps: seq<Step>, ids: set<MessageId>, finds: string -> bool)
    requires Go(w, steps, ids, finds).Some?
    decreases |steps|
  {
    InLine(w) && (steps == [] || InLineThroughout(After(w, steps[0], ids, finds), steps[1..], ids, finds))
  }

  // The order of arrival is kept at every moment of a run if and only if nothing overtakes in it.
  lemma {:induction false} InLineThroughoutIff(w: World, steps: seq<Step>, ids: set<MessageId>, finds: string -> bool)
    requires Go(w, steps, ids, finds).Some? && Ticketed(w) && InLine(w)
    ensures InLineThroughout(w, steps, ids, finds) <==> Calm(w, steps, ids, finds)
    ensures Calm(w, steps, ids, finds) ==> InLine(Go(w, steps, ids, finds).value)
    decreases |steps|
  {
    hide Ticketed, InLine, Allowed, After, Overtakes;
    if steps != [] {
      StepInLineIff(w, steps[0], ids, finds);
      if !Overtakes(w, steps[0], finds) {
        InLineThroughoutIff(After(w, steps[0], ids, finds), steps[1..], ids, finds);
      } else {
        NotInLineNow(After(w, steps[0], ids, finds), steps[1..], ids, finds);
      }
    }
  }

  lemma {:induction false} NotInLineNow(w: World, steps: seq<Step>, ids: set<MessageId>, finds: string -> bool)
    requires Go(w, steps, ids, finds).Some? && !InLine(w)
    ensures !InLineThroughout(w, steps, ids, finds)
  {
  }

  // The capacity is raised while the loop waits for something to happen; capacity 0 is no limit.
  predicate Raises(w: World, step: Step) {
    step.CapacitySet? && w.selecting && w.s.capacity != 0 && (step.capacity == 0 || step.capacity > w.s.capacity)
  }

  predicate NeverRaised(w: World, steps: seq<Step>, ids: set<MessageId>, finds: string -> bool)
    requires Go(w, steps, ids, finds).Some?
    decreases |steps|
  {
    steps == [] || (!Raises(w, steps[0]) && NeverRaised(After(w, steps[0], ids, finds), steps[1..], ids, finds))
  }

  // What waits at the select has found no room.
  predicate Full(w: World) {
    w.selecting && w.s.queue != [] ==> !Room(w.s)
  }

  lemma {:induction false} DrainFull(s: LoopState)
    ensures Drain(s).queue != [] ==> !Room(Drain(s))
    decreases |s.queue|
  {
    if s.queue != [] && Room(s) {
      DrainFull(Dequeue(s));
    }
  }

  lemma {:induction false} StepFull(w: World, step: Step, ids: set<MessageId>, finds: string -> bool)
    requires Allowed(w, step, ids) && Full(w) && !Raises(w, step)
    ensures Full(After(w, step, ids, finds)) && !Overtakes(w, step, finds)
  {
    hide Drain, Dispatch, Reap;
    DrainFull(w.s);
  }

  lemma {:induction false} NeverRaisedIsCalm(w: World, steps: seq<Step>, ids: set<MessageId>, finds: string -> bool)
    requires Go(w, steps, ids, finds).Some? && NeverRaised(w, steps, ids, finds) && Full(w)
    ensures Calm(w, steps, ids, finds)
    decreases |steps|
  {
    hide Allowed, After, Overtakes, Full, Raises;
    if steps != [] {
      StepFull(w, steps[0], ids, finds);
      NeverRaisedIsCalm(After(w, steps[0], ids, finds), steps[1..], ids, finds);
    }
  }

  // Handlers start in order of arrival, less those cancelled while waiting, whenever the capacity is
  // not raised between the top of the loop and the next thing to happen.
  lemma {:induction false} FirstComeFirstServed(steps: seq<Step>, capacity: nat, ids: set<MessageId>, finds: string -> bool)
    requires Reach(steps, capacity, ids, finds).Some? && NeverRaised(Boot(capacity), steps, ids, finds)
    ensures var w := Reach(steps, capacity, ids, finds).value; Ticketed(w) && InLine(w)
  {
    hide Go;
    NeverRaisedIsCalm(Boot(capacity), steps, ids, finds);
    assert Left(0, {}) == [];
    InLineThroughoutIff(Boot(capacity), steps, ids, finds);
    EveryRunTicketed(Boot(capacity), steps, ids, finds);
  }

  lemma {:induction false} EveryRunTicketed(w: World, steps: seq<Step>, ids: set<MessageId>, finds: string -> bool)
    requires Go(w, steps, ids, finds).Some? && Ticketed(w)
    ensures Ticketed(Go(w, steps, ids, finds).value)
    decreases |steps|
  {
    if steps != [] {
      StepTicketed(w, steps[0], ids, finds);
      hide Ticketed, Allowed, After;
      EveryRunTicketed(After(w, steps[0], ids, finds), steps[1..], ids, finds);
    }
  }

  lemma {:induction false} StepTicketed(w: World, step: Step, ids: set<MessageId>, finds: string -> bool)
    requires Allowed(w, step, ids) && Ticketed(w)
    ensures Ticketed(After(w, step, ids, finds))
  {
    hide Drain, Reap, Receive, Left, Match;
    match step
    case Drained => DrainTicketed(w);
    case Reaped => ReapLeaves(w.s, w.done[0]);
    case Arrived(f, order) => DispatchTicketed(w, f, order, finds);
    case _ =>
  }

  lemma {:induction false} GoOn(w: World, first: seq<Step>, step: Step, ids: set<MessageId>, finds: string -> bool)
    requires Go(w, first, ids, finds).Some? && Allowed(Go(w, first, ids, finds).value, step, ids)
    ensures Go(w, first + [step], ids, finds) == Some(After(Go(w, first, ids, finds).value, step, ids, finds))
    decreases |first|
  {
    hide Allowed, After;
    if first == [] {
      assert (first + [step])[1..] == [];
    } else {
      assert (first + [step])[1..] == first[1..] + [step];
      GoOn(After(w, first[0], ids, finds), first[1..], step, ids, finds);
    }
  }

  // The top of the loop, when nothing can be started there.
  lemma {:induction false} PassTop(steps: seq<Step>, capacity: nat, ids: set<MessageId>, finds: string -> bool)
    requires Reach(steps, capacity, ids, finds).Some?
    requires var w := Reach(steps, capacity, ids, finds).value; !w.halted && !w.selecting && (w.s.queue == [] || !Room(w.s))
    ensures var r := Reach(steps + [Drained], capacity, ids, finds);
      r.Some? && r.value.selecting && !r.value.halted && r.value.s == Reach(steps, capacity, ids, finds).value.s
  {
    hide Go;
    GoOn(Boot(capacity), steps, Drained, ids, finds);
  }

  // A new request at the select.
  lemma {:induction false} Ask(steps: seq<Step>, f: WireFrame, capacity: nat, ids: set<MessageId>, finds: string -> bool)
    requires Reach(steps, capacity, ids, finds).Some?
    requires var w := Reach(steps, capacity, ids, finds).value; !w.halted && w.selecting && f.id in ids && Free(w.s, f.id)
    requires f.kind.Req? && Rejection(f, finds).None?
    ensures var w := Reach(steps, capacity, ids, finds).value;
      var r := Reach(steps + [Arrived(f, [])], capacity, ids, finds);
      var q := Queued(f.id, f.xid);
      && r.Some? && !r.value.halted && !r.value.selecting
      && r.value.s.hands.handlers == (if Room(w.s) then w.s.hands.handlers + {f.id} else w.s.hands.handlers)
      && r.value.s.capacity == w.s.capacity
      && r.value.s.hands.running == (if Room(w.s) then w.s.hands.running + 1 else w.s.hands.running)
      && r.value.s.started == (if Room(w.s) then w.s.started + [q] else w.s.started)
      && r.value.s.queue == (if Room(w.s) then w.s.queue else w.s.queue + [q])
  {
    hide Go, Request, Free;
    RequestLine(Reach(steps, capacity, ids, finds).value.s, f, finds);
    GoOn(Boot(capacity), steps, Arrived(f, []), ids, finds);
  }

  // Raising the capacity between the look at the queue and the next request lets that request start
  // before an older one.
  lemma {:induction false} RaisedCapacityOvertakes(a: WireFrame, b: WireFrame, c: WireFrame, finds: string -> bool) returns (steps: seq<Step>)
    requires a.kind.Req? && b.kind.Req? && c.kind.Req? && a.id != b.id && a.id != c.id && b.id != c.id
    requires Rejection(a, finds).None? && Rejection(b, finds).None? && Rejection(c, finds).None?
    ensures var w := Reach(steps, 1, {a.id, b.id, c.id}, finds);
      w.Some? && w.value.s.started == [Queued(a.id, a.xid), Queued(c.id, c.xid)] && w.value.s.queue == [Queued(b.id, b.xid)]
  {
    var ids := {a.id, b.id, c.id};
    assert Reach([], 1, ids, finds) == Some(Boot(1));
    hide Go, Rejection, Reach;
    PassTop([], 1, ids, finds);
    Ask([] + [Drained], a, 1, ids, finds);
    steps := [] + [Drained] + [Arrived(a, [])];
    PassTop(steps, 1, ids, finds);
    Ask(steps + [Drained], b, 1, ids, finds);
    steps := steps + [Drained] + [Arrived(b, [])];
    PassTop(steps, 1, ids, finds);
    steps := steps + [Drained];
    Raise(steps, 2, 1, ids, finds);
    steps := steps + [CapacitySet(2)];
    Ask(steps, c, 1, ids, finds);
    steps := steps + [Arrived(c, [])];
  }

  lemma {:induction false} Raise(steps: seq<Step>, n: nat, capacity: nat, ids: set<MessageId>, finds: string -> bool)
    requires Reach(steps, capacity, ids, finds).Some?
    ensures var w := Reach(steps, capacity, ids, finds).value;
      Reach(steps + [CapacitySet(n)], capacity, ids, finds) == Some(w.(s := w.s.(capacity := n)))
  {
    hide Go;
    GoOn(Boot(capacity), steps, CapacitySet(n), ids, finds);
  }
}
