// What every run of a credited stream guarantees: no violation, no livelock, and exactly how far it gets.
module CreditTheorems {
  import opened InputStream
  import opened CreditLink

  // ---- What a prefix of the frames amounts to ----

  // The items a reader gets from the frames `fs`.
  function Slots(fs: seq<LinkFrame>): seq<Slot> {
    if fs == [] then []
    else
      var f := fs[|fs| - 1];
      Slots(fs[..|fs| - 1]) + (if f.broken then [Bad] else if f.last then [Good(f.item)] else [])
  }

  // The items they begin.
  function Begun(fs: seq<LinkFrame>): nat {
    if fs == [] then 0 else Begun(fs[..|fs| - 1]) + (if fs[|fs| - 1].first then 1 else 0)
  }

  // The credits that do not come back once they have all arrived and been read.
  function Debt(fs: seq<LinkFrame>, granting: bool): nat {
    Lost(Slots(fs), granting) + (if Mid(fs) then 1 else 0)
  }

  lemma {:induction false} CutShape(item: nat, fragments: nat, from: nat)
    requires from <= fragments
    ensures var fs := Cut(item, fragments, from);
      && |fs| == fragments - from
      && forall i :: 0 <= i < |fs| ==> fs[i] == LinkFrame(item, from + i == 0, from + i + 1 == fragments, false)
    decreases fragments - from
  {
    if from < fragments {
      CutShape(item, fragments, from + 1);
    }
  }

  lemma {:induction false} FramesWellCut(items: seq<Item>)
    requires ValidItems(items)
    ensures WellCut(LinkFrames(items)) && !Mid(LinkFrames(items))
    ensures items != [] ==> LinkFrames(items) != []
  {
    if items != [] {
      var k := |items| - 1;
      FramesWellCut(items[..k]);
      if items[k].Whole? {
        CutShape(k, items[k].fragments, 0);
      }
      WellCutAppend(LinkFrames(items[..k]), ItemFrames(items[k], k));
    }
  }

  lemma {:induction false} WellCutAppend(a: seq<LinkFrame>, b: seq<LinkFrame>)
    requires WellCut(a) && WellCut(b) && !Mid(a)
    ensures WellCut(a + b)
  {
    forall i | 0 <= i < |a + b|
      ensures CutAt(a + b, i)
    {
      if i < |a| {
        assert CutAt(a, i);
      } else {
        assert CutAt(b, i - |a|);
        assert i > 0 ==> (a + b)[i - 1] == if i == |a| then a[i - 1] else b[i - 1 - |a|];
      }
    }
  }

  lemma {:induction false} SlotsSnoc(fs: seq<LinkFrame>, f: LinkFrame)
    ensures Slots(fs + [f]) == Slots(fs) + (if f.broken then [Bad] else if f.last then [Good(f.item)] else [])
    ensures Begun(fs + [f]) == Begun(fs) + (if f.first then 1 else 0)
    ensures Mid(fs + [f]) == !f.last
  {
    assert (fs + [f])[..|fs|] == fs;
  }

  lemma {:induction false} SlotsOfCut(fs: seq<LinkFrame>, item: nat, fragments: nat, from: nat)
    requires from < fragments
    ensures Slots(fs + Cut(item, fragments, from)) == Slots(fs) + [Good(item)]
    decreases fragments - from
  {
    var f := LinkFrame(item, from == 0, from + 1 == fragments, false);
    SlotsSnoc(fs, f);
    var rest := Cut(item, fragments, from + 1);
    assert fs + Cut(item, fragments, from) == (fs + [f]) + rest by {
      assert Cut(item, fragments, from) == [f] + rest;
    }
    if from + 1 < fragments {
      assert Slots(fs + [f]) == Slots(fs);
      SlotsOfCut(fs + [f], item, fragments, from + 1);
    } else {
      assert (fs + [f]) + rest == fs + [f];
    }
  }

  lemma {:induction false} SlotsOfItem(fs: seq<LinkFrame>, item: Item, index: nat)
    requires item.Whole? ==> item.fragments >= 1
    ensures Slots(fs + ItemFrames(item, index)) == Slots(fs) + [if item.Whole? then Good(index) else Bad]
  {
    match item
    case Whole(fragments) => SlotsOfCut(fs, index, fragments, 0);
    case Broken => SlotsSnoc(fs, LinkFrame(index, true, true, true));
  }

  lemma {:induction false} ExpectedSnoc(items: seq<Item>)
    requires items != []
    ensures var k := |items| - 1;
      Expected(items) == Expected(items[..k]) + [if items[k].Whole? then Good(k) else Bad]
  {
  }

  lemma {:induction false} SlotsOfFrames(items: seq<Item>)
    requires ValidItems(items)
    ensures Slots(LinkFrames(items)) == Expected(items)
  {
    if items != [] {
      var k := |items| - 1;
      SlotsOfFrames(items[..k]);
      SlotsOfItem(LinkFrames(items[..k]), items[k], k);
      ExpectedSnoc(items);
    }
  }

  lemma {:induction false} DebtSnoc(fs: seq<LinkFrame>, f: LinkFrame, granting: bool)
    requires f.broken ==> f.last
    ensures Debt(fs + [f], granting) <= Debt(fs, granting) + 1
  {
    SlotsSnoc(fs, f);
    assert Slots(fs) + [] == Slots(fs);
    if f.broken || f.last {
      LostSnoc(Slots(fs), if f.broken then Bad else Good(f.item), granting);
    }
  }

  lemma {:induction false} DebtGrowsSlowly(fs: seq<LinkFrame>, a: nat, b: nat, granting: bool)
    requires a <= b <= |fs| && WellCut(fs)
    ensures Debt(fs[..b], granting) <= Debt(fs[..a], granting) + (b - a)
    decreases b
  {
    if a < b {
      DebtGrowsSlowly(fs, a, b - 1, granting);
      assert fs[..b] == fs[..b - 1] + [fs[b - 1]];
      assert CutAt(fs, b - 1);
      DebtSnoc(fs[..b - 1], fs[b - 1], granting);
    }
  }

  // ---- As long as the window is respected ----

  // The reader has been given exactly what the arrived frames amount to.
  predicate Faithful(c: Config, l: Link) {
    && l.arrived <= |c.frames|
    && var seen := c.frames[..l.arrived];
    && l.mid == Mid(seen)
    && l.taken + l.reader.queue == Slots(seen)
    && l.reader.emission.window >= c.receiverWindow - Begun(seen)
  }

  lemma {:induction false} FirstUnlessMid(fs: seq<LinkFrame>, n: nat)
    requires WellCut(fs) && n < |fs|
    ensures fs[n].first == !Mid(fs[..n])
  {
    if n > 0 {
      assert fs[..n][n - 1] == fs[n - 1];
    }
    assert CutAt(fs, n);
  }

  lemma {:induction false} ArriveFaithful(l: Link, fs: seq<LinkFrame>, wr: nat)
    requires WellCut(fs) && l.arrived < |fs|
    requires var seen := fs[..l.arrived];
      l.mid == Mid(seen) && l.taken + l.reader.queue == Slots(seen) && l.reader.emission.window >= wr - Begun(seen)
    requires l.reader.emission.window > 0
    ensures var n := ArriveFrame(l, fs[l.arrived]); var seen := fs[..l.arrived + 1];
      && n.violations == l.violations
      && n.mid == Mid(seen) && n.taken + n.reader.queue == Slots(seen) && n.reader.emission.window >= wr - Begun(seen)
  {
    var f := fs[l.arrived];
    var seen := fs[..l.arrived];
    assert fs[..l.arrived + 1] == seen + [f];
    SlotsSnoc(seen, f);
    FirstUnlessMid(fs, l.arrived);
    assert CutAt(fs, l.arrived);
    var n := ArriveFrame(l, f);
    if f.broken {
      assert n.taken + n.reader.queue == (l.taken + l.reader.queue) + [Bad];
    } else if f.last {
      assert n.taken + n.reader.queue == (l.taken + l.reader.queue) + [Good(f.item)];
    }
  }

  lemma {:induction false} StepFaithful(c: Config, l: Link, e: Event)
    requires ValidConfig(c) && Conserved(c, l) && Faithful(c, l) && Enabled(c, l, e)
    requires e == Arrive ==> l.reader.emission.window > 0
    ensures Faithful(c, Step(c, l, e)) && Step(c, l, e).violations == l.violations
  {
    match e
    case Send =>
    case Arrive =>
        ArriveFaithful(l, c.frames, c.receiverWindow);
    case Recv =>
      var n := Receive(l, c.batch, c.granting);
      ConsumedConserves(l.reader.emission, c.batch);
      assert n.taken + n.reader.queue == l.taken + l.reader.queue;
    case Block => FlushConserves(l.reader.emission);
    case CreditArrives =>
  }

  // The two ways a sender stays inside the receiver's window.
  predicate WithinWindow(c: Config) {
    || c.senderWindow <= c.receiverWindow
    || c.frames == []
    || Begun(c.frames[..|c.frames| - 1]) < c.receiverWindow
  }

  lemma {:induction false} BegunMonotone(fs: seq<LinkFrame>, a: nat, b: nat)
    requires a <= b <= |fs|
    ensures Begun(fs[..a]) <= Begun(fs[..b])
    decreases b
  {
    if a < b {
      assert fs[..b] == fs[..b - 1] + [fs[b - 1]];
      SlotsSnoc(fs[..b - 1], fs[b - 1]);
      BegunMonotone(fs, a, b - 1);
    }
  }

  lemma {:induction false} WindowOpen(c: Config, l: Link)
    requires ValidConfig(c) && Conserved(c, l) && Faithful(c, l) && WithinWindow(c) && Enabled(c, l, Arrive)
    ensures l.reader.emission.window > 0
  {
    if c.senderWindow > c.receiverWindow {
      BegunMonotone(c.frames, l.arrived, |c.frames| - 1);
    }
  }

  lemma {:induction false} NoViolation(c: Config, l: Link, run: seq<Event>)
    requires ValidConfig(c) && WithinWindow(c) && Conserved(c, l) && Faithful(c, l) && Legal(c, l, run)
    ensures Conserved(c, Run(c, l, run)) && Faithful(c, Run(c, l, run))
    ensures Run(c, l, run).violations == l.violations
    decreases |run|
  {
    if run != [] {
      if run[0] == Arrive {
        WindowOpen(c, l);
      }
      StepConserves(c, l, run[0]);
      StepFaithful(c, l, run[0]);
      NoViolation(c, Step(c, l, run[0]), run[1..]);
    }
  }

  lemma {:induction false} ViolationsGrow(c: Config, l: Link, run: seq<Event>)
    requires Legal(c, l, run)
    ensures Run(c, l, run).violations >= l.violations
    decreases |run|
  {
    if run != [] {
      ViolationsGrow(c, Step(c, l, run[0]), run[1..]);
    }
  }

  // A run without a violation found the window open whenever a frame arrived.
  lemma {:induction false} OpenAtArrival(c: Config, l: Link, run: seq<Event>)
    requires Legal(c, l, run) && run != [] && Run(c, l, run).violations == l.violations
    ensures run[0] == Arrive ==> l.reader.emission.window > 0
    ensures Run(c, Step(c, l, run[0]), run[1..]).violations == Step(c, l, run[0]).violations
  {
    ViolationsGrow(c, Step(c, l, run[0]), run[1..]);
  }

  // ---- Overrunning a window that is too small ----

  // Nothing has been read: every frame so far has been sent and has arrived, its continuation
  // credits are back at the sender, and the rest of the credit is on the receiving side.
  predicate Unread(c: Config, l: Link, n: nat) {
    && n <= |c.frames|
    && l.sent == l.arrived == n
    && l.gate == c.senderWindow - Begun(c.frames[..n])
    && l.reader.emission.window == c.receiverWindow - Begun(c.frames[..n])
    && l.reader.emission.grants == []
    && l.mid == Mid(c.frames[..n])
  }

  // One more unread frame, sent and arrived, with its continuation credit back if it has one.
  lemma {:induction false} OneMoreUnread(c: Config, l: Link, n: nat) returns (run: seq<Event>)
    requires ValidConfig(c) && Unread(c, l, n) && n < |c.frames|
    requires Begun(c.frames[..n]) < c.receiverWindow < c.senderWindow
    ensures Legal(c, l, run) && Unread(c, Run(c, l, run), n + 1) && Run(c, l, run).violations == l.violations
  {
    var f := c.frames[n];
    FirstUnlessMid(c.frames, n);
    var sent := Step(c, l, Send);
    UnreadArrives(c.frames, sent, n, c.receiverWindow);
    if f.first {
      run := [Send, Arrive];
      assert run[1..] == [Arrive] && run[1..][1..] == [];
    } else {
      run := [Send, Arrive, CreditArrives];
      assert run[1..] == [Arrive, CreditArrives] && run[1..][1..] == [CreditArrives] && run[1..][1..][1..] == [];
    }
  }

  lemma {:induction false} UnreadArrives(fs: seq<LinkFrame>, l: Link, n: nat, wr: nat)
    requires n < |fs| && l.arrived == n && Begun(fs[..n]) < wr && fs[n].first == !l.mid && CutAt(fs, n)
    requires l.reader.emission.window == wr - Begun(fs[..n]) && l.reader.emission.grants == []
    ensures var m := ArriveFrame(l, fs[n]);
      && m.sent == l.sent && m.arrived == n + 1 && m.gate == l.gate && m.violations == l.violations
      && Begun(fs[..n + 1]) == Begun(fs[..n]) + (if fs[n].first then 1 else 0)
      && m.reader.emission.window == wr - Begun(fs[..n + 1])
      && m.reader.emission.grants == (if fs[n].first then [] else [1])
      && m.mid == Mid(fs[..n + 1])
  {
    assert fs[..n + 1] == fs[..n] + [fs[n]];
    SlotsSnoc(fs[..n], fs[n]);
  }

  lemma {:induction false} RunAppend(c: Config, l: Link, a: seq<Event>, b: seq<Event>)
    requires Legal(c, l, a) && Legal(c, Run(c, l, a), b)
    ensures Legal(c, l, a + b) && Run(c, l, a + b) == Run(c, Run(c, l, a), b)
    decreases |a|
  {
    if a == [] {
      assert a + b == b;
    } else {
      assert (a + b)[1..] == a[1..] + b;
      RunAppend(c, Step(c, l, a[0]), a[1..], b);
    }
  }

  lemma {:induction false} Overrun(c: Config, l: Link, n: nat) returns (run: seq<Event>)
    requires ValidConfig(c) && !WithinWindow(c) && Unread(c, l, n) && n < |c.frames|
    requires Begun(c.frames[..n]) <= c.receiverWindow
    ensures Legal(c, l, run) && Run(c, l, run).violations > l.violations
    decreases |c.frames| - n
  {
    var fs := c.frames;
    if Begun(fs[..n]) == c.receiverWindow {
      run := [Send, Arrive];
      assert run[1..] == [Arrive] && run[1..][1..] == [];
    } else {
      var first := OneMoreUnread(c, l, n);
      assert fs[..n + 1] == fs[..n] + [fs[n]];
      SlotsSnoc(fs[..n], fs[n]);
      var rest := Overrun(c, Run(c, l, first), n + 1);
      RunAppend(c, l, first, rest);
      run := first + rest;
    }
  }

  // CREDIT_VIOLATION can happen in some run if and only if the sender's window exceeds the
  // receiver's and the stream is long enough to use the difference.
  lemma {:induction false} ViolationIff(c: Config)
    requires ValidConfig(c)
    ensures (exists run :: Legal(c, Init(c), run) && Run(c, Init(c), run).violations > 0) <==> !WithinWindow(c)
  {
    InitConserves(c);
    if WithinWindow(c) {
      forall run | Legal(c, Init(c), run) ensures Run(c, Init(c), run).violations == 0 {
        NoViolation(c, Init(c), run);
      }
    } else {
      var run := Overrun(c, Init(c), 0);
      assert Legal(c, Init(c), run) && Run(c, Init(c), run).violations > 0;
    }
  }

  // ---- Every run ends, and where ----

  function Weight(c: Config, l: Link): int {
    var em := l.reader.emission;
    10 * (|c.frames| - l.sent) + 9 * (l.sent - l.arrived) + 5 * |l.reader.queue| + 3 * em.pending
    + 2 * |em.grants| + (if l.reader.parked then 0 else 1)
  }

  lemma {:induction false} StepIsProgress(c: Config, l: Link, e: Event)
    requires ValidConfig(c) && Enabled(c, l, e)
    ensures Weight(c, Step(c, l, e)) < Weight(c, l)
  {
    match e
    case Arrive => ArriveIsProgress(c, l, c.frames[l.arrived]);
    case _ =>
  }

  lemma {:induction false} ArriveIsProgress(c: Config, l: Link, f: LinkFrame)
    ensures Weight(c, ArriveFrame(l, f)) < Weight(c, l)
  {
  }

  // No interleaving runs forever: a stream of n frames is over after at most 10 n + 1 steps.
  lemma {:induction false} RunsEnd(c: Config, l: Link, run: seq<Event>)
    requires ValidConfig(c) && Conserved(c, l) && Legal(c, l, run)
    ensures |run| <= Weight(c, l)
    decreases |run|
  {
    if run != [] {
      StepIsProgress(c, l, run[0]);
      StepConserves(c, l, run[0]);
      RunsEnd(c, Step(c, l, run[0]), run[1..]);
    }
  }

  // The frame the sender waits before: the first one at which the whole window is owed.
  function StallAt(fs: seq<LinkFrame>, granting: bool, window: nat, from: nat): (r: nat)
    requires from <= |fs|
    ensures from <= r <= |fs|
    decreases |fs| - from
  {
    if from == |fs| || Debt(fs[..from], granting) >= window then from else StallAt(fs, granting, window, from + 1)
  }

  function Limit(c: Config): (r: nat)
    ensures r <= |c.frames|
  {
    StallAt(c.frames, c.granting, c.senderWindow, 0)
  }

  lemma {:induction false} StallAtIs(fs: seq<LinkFrame>, granting: bool, window: nat, from: nat, n: nat)
    requires from <= n <= |fs|
    requires forall k :: from <= k < n ==> Debt(fs[..k], granting) < window
    requires n == |fs| || Debt(fs[..n], granting) >= window
    ensures StallAt(fs, granting, window, from) == n
    decreases n - from
  {
    if from < n {
      assert Debt(fs[..from], granting) < window;
      StallAtIs(fs, granting, window, from + 1, n);
    }
  }

  lemma {:induction false} StallAtHolds(fs: seq<LinkFrame>, granting: bool, window: nat, from: nat)
    requires from <= |fs|
    ensures var r := StallAt(fs, granting, window, from);
      && (r < |fs| ==> Debt(fs[..r], granting) >= window)
      && forall n :: from <= n < r ==> Debt(fs[..n], granting) < window
    decreases |fs| - from
  {
    if from < |fs| && Debt(fs[..from], granting) < window {
      StallAtHolds(fs, granting, window, from + 1);
      assert StallAt(fs, granting, window, from) == StallAt(fs, granting, window, from + 1);
    }
  }

  lemma {:induction false} LostBound(a: seq<Slot>, b: seq<Slot>, granting: bool)
    ensures Lost(a + b, granting) <= Lost(a, granting) + |b|
    decreases |b|
  {
    if b == [] {
      assert a + b == a;
    } else {
      var k := |b| - 1;
      assert a + b == (a + b[..k]) + [b[k]];
      LostSnoc(a + b[..k], b[k], granting);
      LostBound(a, b[..k], granting);
    }
  }

  // Credit at the gate means that less than the window is owed.
  lemma {:induction false} GateAndDebt(c: Config, l: Link)
    requires ValidConfig(c) && Conserved(c, l) && Faithful(c, l)
    ensures l.gate + Debt(c.frames[..l.sent], c.granting) <= c.senderWindow
  {
    DebtGrowsSlowly(c.frames, l.arrived, l.sent, c.granting);
    LostBound(l.taken, l.reader.queue, c.granting);
  }

  // The sender never passes that frame.
  predicate NotPast(c: Config, l: Link) {
    && l.sent <= |c.frames|
    && forall n :: 0 <= n < l.sent ==> Debt(c.frames[..n], c.granting) < c.senderWindow
  }

  lemma {:induction false} RunNotPast(c: Config, l: Link, run: seq<Event>)
    requires ValidConfig(c) && Conserved(c, l) && Faithful(c, l) && Legal(c, l, run) && NotPast(c, l)
    requires Run(c, l, run).violations == l.violations
    ensures NotPast(c, Run(c, l, run)) && Conserved(c, Run(c, l, run)) && Faithful(c, Run(c, l, run))
    decreases |run|
  {
    if run != [] {
      OpenAtArrival(c, l, run);
      StepConserves(c, l, run[0]);
      StepFaithful(c, l, run[0]);
      StepNotPast(c, l, run[0]);
      RunNotPast(c, Step(c, l, run[0]), run[1..]);
    }
  }

  lemma {:induction false} SentStep(c: Config, l: Link, e: Event)
    requires Enabled(c, l, e)
    ensures Step(c, l, e).sent == (if e == Send then l.sent + 1 else l.sent)
  {
  }

  lemma {:induction false} StepNotPast(c: Config, l: Link, e: Event)
    requires ValidConfig(c) && Conserved(c, l) && Faithful(c, l) && Enabled(c, l, e) && NotPast(c, l)
    ensures NotPast(c, Step(c, l, e))
  {
    GateAndDebt(c, l);
    SentStep(c, l, e);
  }

  // A run that cannot go on, and that was charged with no violation, has sent the frames up to
  // `Limit`, whatever the order of its steps, and the reader has taken, in order and once each, exactly
  // the items those frames make up.
  lemma {:induction false} WhereRunsEnd(c: Config, run: seq<Event>)
    requires ValidConfig(c) && Legal(c, Init(c), run) && Quiet(c, Run(c, Init(c), run)) && Run(c, Init(c), run).violations == 0
    ensures var l := Run(c, Init(c), run);
      l.sent == Limit(c) && l.taken == Slots(c.frames[..Limit(c)])
  {
    InitConserves(c);
    RunNotPast(c, Init(c), run);
    var l := Run(c, Init(c), run);
    assert !Enabled(c, l, Send) && !Enabled(c, l, Arrive) && !Enabled(c, l, Recv) && !Enabled(c, l, Block)
           && !Enabled(c, l, CreditArrives);
    assert l.taken + l.reader.queue == l.taken;
    StallAtIs(c.frames, c.granting, c.senderWindow, 0, l.sent);
  }
}
