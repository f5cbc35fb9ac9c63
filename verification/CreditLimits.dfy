// When a credited stream is delivered whole: the exact conditions on window, framing and reader.
module CreditLimits {
  import opened InputStream
  import opened CreditLink
  import opened CreditTheorems

  lemma {:induction false} SlotsGrow(fs: seq<LinkFrame>, a: nat, b: nat)
    requires a <= b <= |fs|
    ensures |Slots(fs[..a])| <= |Slots(fs[..b])|
    decreases b
  {
    if a < b {
      assert fs[..b] == fs[..b - 1] + [fs[b - 1]];
      SlotsSnoc(fs[..b - 1], fs[b - 1]);
      SlotsGrow(fs, a, b - 1);
    }
  }

  // The last frame of a stream completes its last item.
  lemma {:induction false} LastFrameDelivers(fs: seq<LinkFrame>, n: nat)
    requires WellCut(fs) && !Mid(fs) && n < |fs|
    ensures |Slots(fs[..n])| < |Slots(fs)|
  {
    var k := |fs| - 1;
    SlotsGrow(fs, n, k);
    assert fs == fs[..k] + [fs[k]];
    SlotsSnoc(fs[..k], fs[k]);
  }

  // A run that cannot go on, without a violation. Runs of a sender inside the receiver's window have
  // none (`NoViolation`).
  predicate Complete(c: Config, run: seq<Event>) {
    Legal(c, Init(c), run) && Quiet(c, Run(c, Init(c), run)) && Run(c, Init(c), run).violations == 0
  }

  // Any complete run delivers the whole stream if and only if the window is never owed in full
  // before the last frame.
  lemma {:induction false} DeliveredWholeIff(c: Config, run: seq<Event>)
    requires ValidConfig(c) && Complete(c, run)
    ensures Run(c, Init(c), run).taken == Slots(c.frames) <==>
            forall n :: 0 <= n < |c.frames| ==> Debt(c.frames[..n], c.granting) < c.senderWindow
  {
    WhereRunsEnd(c, run);
    var r := Limit(c);
    StallAtHolds(c.frames, c.granting, c.senderWindow, 0);
    if r == |c.frames| {
      assert c.frames[..r] == c.frames;
    } else {
      LastFrameDelivers(c.frames, r);
    }
  }

  // ---- `recv` and sound items: a window of two is what it takes ----

  predicate Sound(items: seq<Item>) {
    forall i :: 0 <= i < |items| ==> items[i].Whole?
  }

  predicate SingleFrames(items: seq<Item>) {
    forall i :: 0 <= i < |items| ==> items[i] == Whole(1)
  }

  predicate NoneBroken(fs: seq<LinkFrame>) {
    forall i :: 0 <= i < |fs| ==> !fs[i].broken
  }

  lemma {:induction false} SoundFrames(items: seq<Item>)
    requires Sound(items)
    ensures NoneBroken(LinkFrames(items))
  {
    if items != [] {
      SoundFrames(items[..|items| - 1]);
      CutShape(|items| - 1, items[|items| - 1].fragments, 0);
    }
  }

  lemma {:induction false} SoundOwesNothing(fs: seq<LinkFrame>)
    requires NoneBroken(fs)
    ensures Lost(Slots(fs), true) == 0
  {
    if fs != [] {
      SoundOwesNothing(fs[..|fs| - 1]);
      if fs[|fs| - 1].last {
        LostSnoc(Slots(fs[..|fs| - 1]), Good(fs[|fs| - 1].item), true);
      } else {
        assert Slots(fs) == Slots(fs[..|fs| - 1]);
      }
    }
  }

  // Somewhere before its last frame, the stream is inside an item.
  predicate Splits(fs: seq<LinkFrame>) {
    exists n :: 0 <= n < |fs| && Mid(fs[..n])
  }

  lemma {:induction false} SplitsIff(items: seq<Item>)
    requires Sound(items) && ValidItems(items)
    ensures Splits(LinkFrames(items)) <==> !SingleFrames(items)
  {
    if items != [] {
      var k := |items| - 1;
      var a, b := LinkFrames(items[..k]), ItemFrames(items[k], k);
      SplitsIff(items[..k]);
      FramesWellCut(items[..k]);
      CutShape(k, items[k].fragments, 0);
      SplitsAppend(a, b);
      if SingleFrames(items) {
        assert SingleFrames(items[..k]);
      } else if items[k] == Whole(1) {
        var i :| 0 <= i < |items| && items[i] != Whole(1);
        assert items[..k][i] == items[i];
      }
    }
  }

  lemma {:induction false} SplitsAppend(a: seq<LinkFrame>, b: seq<LinkFrame>)
    requires !Mid(a) && b != [] && b[0].last == (|b| == 1)
    ensures Splits(a + b) <==> Splits(a) || |b| > 1
  {
    if |b| > 1 {
      assert (a + b)[..|a| + 1] == a + [b[0]];
      assert Mid((a + b)[..|a| + 1]);
    } else if Splits(a) {
      var n :| 0 <= n < |a| && Mid(a[..n]);
      assert (a + b)[..n] == a[..n];
    } else {
      forall n | 0 <= n < |a + b| ensures !Mid((a + b)[..n]) {
        assert (a + b)[..n] == a[..n];
        assert n == |a| ==> a[..n] == a;
      }
    }
  }

  // A stream of sound values read with `recv` arrives whole in every complete run if and only if the
  // sender's window is at least 2, or is 1 with every value in a single frame.
  lemma {:induction false} RecvDeliversIff(c: Config, items: seq<Item>, run: seq<Event>)
    requires ValidConfig(c) && c.granting && ValidItems(items) && Sound(items) && c.frames == LinkFrames(items)
    requires Complete(c, run)
    ensures Run(c, Init(c), run).taken == Expected(items) <==>
            items == [] || c.senderWindow >= 2 || (c.senderWindow == 1 && SingleFrames(items))
  {
    var fs := c.frames;
    DeliveredWholeIff(c, run);
    SlotsOfFrames(items);
    SoundFrames(items);
    SplitsIff(items);
    FramesWellCut(items);
    forall n | 0 <= n < |fs| ensures Debt(fs[..n], true) == if Mid(fs[..n]) then 1 else 0 {
      SoundOwesNothing(fs[..n]);
    }
    if fs != [] {
      assert Debt(fs[..0], true) == 0;
    }
  }

  // ---- `recv_data`: the window is all there ever is ----

  lemma {:induction false} RecvDataOwesAll(fs: seq<LinkFrame>, n: nat)
    requires WellCut(fs) && n <= |fs|
    ensures Debt(fs[..n], false) == Begun(fs[..n])
    decreases n
  {
    if n > 0 {
      RecvDataOwesAll(fs, n - 1);
      assert fs[..n] == fs[..n - 1] + [fs[n - 1]];
      FirstUnlessMid(fs, n - 1);
      assert CutAt(fs, n - 1);
      OwesSnoc(fs[..n - 1], fs[n - 1]);
    }
  }

  lemma {:induction false} OwesSnoc(fs: seq<LinkFrame>, f: LinkFrame)
    requires Debt(fs, false) == Begun(fs) && f.first == !Mid(fs) && (f.broken ==> f.last)
    ensures Debt(fs + [f], false) == Begun(fs + [f])
  {
    SlotsSnoc(fs, f);
    if f.last {
      LostSnoc(Slots(fs), if f.broken then Bad else Good(f.item), false);
    } else {
      assert Slots(fs) + [] == Slots(fs);
    }
  }

  lemma {:induction false} BegunOfSingles(items: seq<Item>)
    requires SingleFrames(items)
    ensures |LinkFrames(items)| == |items| == Begun(LinkFrames(items))
  {
    if items != [] {
      var k := |items| - 1;
      BegunOfSingles(items[..k]);
      assert Cut(k, 1, 1) == [];
      SlotsSnoc(LinkFrames(items[..k]), LinkFrame(k, true, true, false));
    }
  }

  // Read with `recv_data`, as the identity handler does, a stream arrives whole if and only if it
  // begins no more items than the sender's first window has credits.
  lemma {:induction false} RecvDataDeliversIff(c: Config, run: seq<Event>)
    requires ValidConfig(c) && !c.granting && c.frames != []
    requires Complete(c, run)
    ensures Run(c, Init(c), run).taken == Slots(c.frames) <==> Begun(c.frames[..|c.frames| - 1]) < c.senderWindow
  {
    DeliveredWholeIff(c, run);
    OwedBeforeLast(c.frames);
  }

  lemma {:induction false} OwedBeforeLast(fs: seq<LinkFrame>)
    requires WellCut(fs) && fs != []
    ensures forall n :: 0 <= n < |fs| ==> Debt(fs[..n], false) <= Debt(fs[..|fs| - 1], false)
    ensures Debt(fs[..|fs| - 1], false) == Begun(fs[..|fs| - 1])
  {
    forall n | 0 <= n < |fs| ensures Debt(fs[..n], false) == Begun(fs[..n]) <= Begun(fs[..|fs| - 1]) {
      RecvDataOwesAll(fs, n);
      BegunMonotone(fs, n, |fs| - 1);
    }
  }

  // For scalar values: no more than the window, however long one waits.
  lemma {:induction false} RecvDataScalar(c: Config, items: seq<Item>, run: seq<Event>)
    requires ValidConfig(c) && !c.granting && SingleFrames(items) && c.frames == LinkFrames(items)
    requires Complete(c, run)
    ensures Run(c, Init(c), run).taken == Expected(items) <==> |items| <= c.senderWindow
  {
    SlotsOfFrames(items);
    BegunOfSingles(items);
    if items == [] {
      DeliveredWholeIff(c, run);
    } else {
      RecvDataDeliversIff(c, run);
      var k := |items| - 1;
      BegunOfSingles(items[..k]);
      assert Cut(k, 1, 1) == [];
      assert LinkFrames(items)[..k] == LinkFrames(items[..k]);
    }
  }
}
