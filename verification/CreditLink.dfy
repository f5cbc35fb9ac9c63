// One credited stream end to end: sender gate, frames in flight, demultiplexer, delivered items,
// pending grants and grants in flight, under every interleaving of their steps.
module CreditLink {
  import opened Credit
  import opened InputStream

  // What the sender emits: a value of `fragments` frames, or a frame that cannot be delivered as a
  // value (bad checksum, not CBOR). A scalar stream has one frame per value.
  datatype Item = Whole(fragments: nat) | Broken

  datatype LinkFrame = LinkFrame(item: nat, first: bool, last: bool, broken: bool)

  datatype Config = Config(frames: seq<LinkFrame>, senderWindow: nat, receiverWindow: nat, batch: nat, granting: bool)

  function Cut(item: nat, fragments: nat, from: nat): seq<LinkFrame>
    requires from <= fragments
    decreases fragments - from
  {
    if from == fragments then []
    else [LinkFrame(item, from == 0, from + 1 == fragments, false)] + Cut(item, fragments, from + 1)
  }

  function ItemFrames(item: Item, index: nat): seq<LinkFrame> {
    match item
    case Whole(fragments) => Cut(index, fragments, 0)
    case Broken => [LinkFrame(index, true, true, true)]
  }

  function LinkFrames(items: seq<Item>): seq<LinkFrame> {
    if items == [] then [] else LinkFrames(items[..|items| - 1]) + ItemFrames(items[|items| - 1], |items| - 1)
  }

  predicate ValidItems(items: seq<Item>) {
    forall i :: 0 <= i < |items| && items[i].Whole? ==> items[i].fragments >= 1
  }

  // What a reader of all the items should get.
  function Expected(items: seq<Item>): seq<Slot> {
    seq(|items|, i requires 0 <= i < |items| => if items[i].Whole? then Good(i) else Bad)
  }

  // A frame begins an item exactly when the one before it ended one.
  predicate CutAt(fs: seq<LinkFrame>, i: nat)
    requires i < |fs|
  {
    && (fs[i].first <==> i == 0 || fs[i - 1].last)
    && (fs[i].broken ==> fs[i].first && fs[i].last)
  }

  predicate WellCut(fs: seq<LinkFrame>) {
    forall i :: 0 <= i < |fs| ==> CutAt(fs, i)
  }

  // Whether the frames end inside an item.
  predicate Mid(fs: seq<LinkFrame>) {
    fs != [] && !fs[|fs| - 1].last
  }

  predicate ValidConfig(c: Config) {
    WellCut(c.frames) && !Mid(c.frames) && c.batch >= 1 && c.senderWindow <= U64_MAX
  }

  // ---- The system ----

  // `sent` and `arrived` count frames of the stream, so those between them are in flight; `mid` says
  // that the reassembly buffer holds an unfinished item.
  datatype Link = Link(
    gate: nat,
    sent: nat,
    arrived: nat,
    mid: bool,
    reader: Reader,
    taken: seq<Slot>,
    violations: nat)

  function Init(c: Config): Link {
    Link(c.senderWindow, 0, 0, false, Reader([], false, Emission(0, c.receiverWindow, [])), [], 0)
  }

  datatype Event = Send | Arrive | Recv | Block | CreditArrives

  predicate Enabled(c: Config, l: Link, e: Event) {
    match e
    case Send => l.sent < |c.frames| && l.gate >= 1
    case Arrive => l.arrived < l.sent <= |c.frames|
    case Recv => l.reader.queue != []
    case Block => l.reader.queue == [] && !l.reader.parked
    case CreditArrives => l.reader.emission.grants != []
  }

  function Deliver(l: Link, slots: seq<Slot>): Link {
    l.(reader := l.reader.(queue := l.reader.queue + slots))
  }

  // The demultiplexer charges the window, then treats the frame by its reassembly state: the first
  // frame of an item keeps its credit until the item is consumed, a continuation is credited at once.
  function ArriveFrame(l: Link, f: LinkFrame): Link {
    var before := l.reader.emission.window;
    var charged := l.(arrived := l.arrived + 1,
                      reader := l.reader.(emission := l.reader.emission.(window := before - 1)));
    if before <= 0 then Deliver(charged, [Bad]).(violations := l.violations + 1)
    else if f.broken then Deliver(charged, [Bad])
    else
      var credited := if l.mid then charged.(reader := charged.reader.(emission := FragmentGrant(charged.reader.emission)))
                      else charged;
      if f.last then Deliver(credited, [Good(f.item)]).(mid := false) else credited.(mid := true)
  }

  // The fragment emitter has its own counter and a batch of one.
  function FragmentGrant(e: Emission): Emission {
    AfterConsumed(e.(pending := 0), 1).(pending := e.pending)
  }

  function Receive(l: Link, batch: nat, granting: bool): Link
    requires l.reader.queue != []
  {
    l.(reader := Take(l.reader, batch, granting), taken := l.taken + [l.reader.queue[0]])
  }

  function Step(c: Config, l: Link, e: Event): Link
    requires Enabled(c, l, e)
  {
    match e
    case Send => l.(gate := l.gate - 1, sent := l.sent + 1)
    case Arrive => ArriveFrame(l, c.frames[l.arrived])
    case Recv => Receive(l, c.batch, c.granting)
    case Block => l.(reader := Park(l.reader, c.granting))
    case CreditArrives =>
      var em := l.reader.emission;
      l.(gate := SaturatingAdd(l.gate, em.grants[0]),
         reader := l.reader.(emission := em.(grants := em.grants[1..])))
  }

  predicate Legal(c: Config, l: Link, run: seq<Event>)
    decreases |run|
  {
    run == [] || (Enabled(c, l, run[0]) && Legal(c, Step(c, l, run[0]), run[1..]))
  }

  function Run(c: Config, l: Link, run: seq<Event>): Link
    requires Legal(c, l, run)
    decreases |run|
  {
    if run == [] then l else Run(c, Step(c, l, run[0]), run[1..])
  }

  predicate Quiet(c: Config, l: Link) {
    forall e :: !Enabled(c, l, e)
  }

  // ---- Conservation ----

  function Sum(s: seq<nat>): nat {
    if s == [] then 0 else s[0] + Sum(s[1..])
  }

  lemma {:induction false} SumAppend(a: seq<nat>, b: seq<nat>)
    ensures Sum(a + b) == Sum(a) + Sum(b)
  {
    if a == [] {
      assert a + b == b;
    } else {
      assert (a + b)[1..] == a[1..] + b;
      SumAppend(a[1..], b);
    }
  }

  function Held(l: Link): nat {
    if l.mid then 1 else 0
  }

  // Items taken without their credit going back.
  function Lost(taken: seq<Slot>, granting: bool): nat {
    if taken == [] then 0
    else Lost(taken[..|taken| - 1], granting) + (if granting && taken[|taken| - 1].Good? then 0 else 1)
  }

  // Every credit of the window is somewhere, and the receiver's window is the sender's, shifted.
  predicate Balanced(l: Link, total: nat, shift: int, granting: bool) {
    var em := l.reader.emission;
    && l.arrived <= l.sent
    && l.gate + (l.sent - l.arrived) + Held(l) + |l.reader.queue| + em.pending + Sum(em.grants) + Lost(l.taken, granting) == total
    && em.window == shift + l.gate + (l.sent - l.arrived) + Sum(em.grants)
  }

  predicate Conserved(c: Config, l: Link) {
    var em := l.reader.emission;
    && l.sent <= |c.frames|
    && Balanced(l, c.senderWindow, c.receiverWindow - c.senderWindow, c.granting)
    && em.window >= c.receiverWindow - l.arrived
    && (l.reader.parked ==> em.pending == 0)
    && (em.pending > 0 ==> c.granting)
  }

  lemma {:induction false} FlushConserves(e: Emission)
    ensures var f := AfterFlush(e); f.pending == 0 && Sum(f.grants) == Sum(e.grants) + e.pending
                                    && f.window == e.window + e.pending
  {
    SumAppend(e.grants, [e.pending]);
  }

  lemma {:induction false} ConsumedConserves(e: Emission, batch: nat)
    ensures var f := AfterConsumed(e, batch);
      f.pending + Sum(f.grants) == e.pending + 1 + Sum(e.grants) && f.window - Sum(f.grants) == e.window - Sum(e.grants)
      && f.window >= e.window
  {
    FlushConserves(e.(pending := e.pending + 1));
  }

  lemma {:induction false} ArriveBalances(l: Link, f: LinkFrame, total: nat, shift: int, granting: bool)
    requires Balanced(l, total, shift, granting) && l.arrived < l.sent
    ensures var n := ArriveFrame(l, f);
      && Balanced(n, total, shift, granting)
      && n.arrived == l.arrived + 1 && n.sent == l.sent && n.gate == l.gate && n.taken == l.taken
      && n.reader.parked == l.reader.parked && n.reader.emission.pending == l.reader.emission.pending
      && n.reader.emission.window >= l.reader.emission.window - 1
  {
    var em := l.reader.emission;
    FragmentGrantIs(em.(window := em.window - 1));
  }

  lemma {:induction false} FragmentGrantIs(e: Emission)
    ensures var g := FragmentGrant(e);
      g.pending == e.pending && g.window == e.window + 1 && Sum(g.grants) == Sum(e.grants) + 1
  {
    SumAppend(e.grants, [1]);
  }

  lemma {:induction false} LostSnoc(taken: seq<Slot>, slot: Slot, granting: bool)
    ensures Lost(taken + [slot], granting) == Lost(taken, granting) + (if granting && slot.Good? then 0 else 1)
  {
    assert (taken + [slot])[..|taken|] == taken;
  }

  lemma {:induction false} RecvBalances(l: Link, batch: nat, total: nat, shift: int, granting: bool)
    requires Balanced(l, total, shift, granting) && l.reader.queue != []
    ensures var n := Receive(l, batch, granting);
      && Balanced(n, total, shift, granting)
      && n.reader.emission.window >= l.reader.emission.window
      && (n.reader.emission.pending > 0 ==> l.reader.emission.pending > 0 || granting)
  {
    ConsumedConserves(l.reader.emission, batch);
    LostSnoc(l.taken, l.reader.queue[0], granting);
  }

  lemma {:induction false} StepConserves(c: Config, l: Link, e: Event)
    requires ValidConfig(c) && Conserved(c, l) && Enabled(c, l, e)
    ensures Conserved(c, Step(c, l, e))
  {
    var total, shift := c.senderWindow, c.receiverWindow - c.senderWindow;
    match e
    case Send =>
    case Arrive => ArriveBalances(l, c.frames[l.arrived], total, shift, c.granting);
    case Recv => RecvBalances(l, c.batch, total, shift, c.granting);
    case Block => FlushConserves(l.reader.emission);
    case CreditArrives =>
  }

  // In every reachable state the credits of the sender's window are accounted for, one by one, and
  // the receiver's window is what the sender may still use, shifted by the difference of the two.
  lemma {:induction false} EveryRunConserves(c: Config, l: Link, run: seq<Event>)
    requires ValidConfig(c) && Conserved(c, l) && Legal(c, l, run)
    ensures Conserved(c, Run(c, l, run))
    decreases |run|
  {
    if run != [] {
      StepConserves(c, l, run[0]);
      EveryRunConserves(c, Step(c, l, run[0]), run[1..]);
    }
  }

  lemma {:induction false} InitConserves(c: Config)
    ensures Conserved(c, Init(c))
  {
  }
}
