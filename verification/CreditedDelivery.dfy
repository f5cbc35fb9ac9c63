// Credit and content together: what a sender inside its window emits is what the handler collects,
// whatever the interleaving of frames, grants and reads.
module CreditedDelivery {
  import opened Prelude
  import opened Cbor
  import opened Reassembly
  import opened Output
  import opened Lossless
  import opened Demux
  import opened EndToEnd
  import opened LinkRefinement
  import opened CreditLink
  import Credit
  import CreditLimits
  import CreditTheorems
  import Frames
  import ItemFraming

  function ThroughAll(a: Option<Partial>, chunks: seq<Frames.Frame>): Option<Partial>
    decreases |chunks|
  {
    if chunks == [] then a else ThroughAll(Through(a, chunks[0]), chunks[1..])
  }

  lemma {:induction false} PlaysAppend(a: Option<Partial>, fs: seq<LinkFrame>, chunks: seq<Frames.Frame>,
                                       more: seq<LinkFrame>, rest: seq<Frames.Frame>)
    requires Plays(a, fs, chunks) && Plays(ThroughAll(a, chunks), more, rest)
    ensures Plays(a, fs + more, chunks + rest) && ThroughAll(a, chunks + rest) == ThroughAll(ThroughAll(a, chunks), rest)
    decreases |fs|
  {
    hide Stands, Through;
    if fs == [] {
      assert fs + more == more && chunks + rest == rest;
    } else {
      assert (fs + more)[1..] == fs[1..] + more && (chunks + rest)[1..] == chunks[1..] + rest;
      PlaysAppend(Through(a, chunks[0]), fs[1..], chunks[1..], more, rest);
    }
  }

  function Chunks(index: nat, fs: seq<Fragment>, id: string, media: string): seq<Frames.Frame> {
    FramesFor(Numbered(index, fs), id, media)
  }

  lemma {:induction false} ChunksCons(index: nat, fs: seq<Fragment>, id: string, media: string)
    requires fs != []
    ensures Chunks(index, fs, id, media) == [ToFrame(Chunk(index, fs[0]), id, media)] + Chunks(index + 1, fs[1..], id, media)
  {
    hide Frames.Checksum;
  }

  lemma {:induction false} ChunksAppend(index: nat, a: seq<Fragment>, b: seq<Fragment>, id: string, media: string)
    ensures Chunks(index, a + b, id, media) == Chunks(index, a, id, media) + Chunks(index + |a|, b, id, media)
  {
    hide Frames.Checksum;
    NumberedConcat(index, a, b);
  }

  lemma {:induction false} AreChunks(index: nat, fs: seq<Fragment>, id: string, media: string)
    ensures AllChunksOf(Chunks(index, fs, id, media), id)
  {
    hide Frames.Checksum;
  }

  // ---- Sequence streams play their items ----

  // The fragments of an item still to come play the frames of it still to come.
  lemma {:induction false} ItemPlays(e: Bytes, v: Value, meta: Option<Meta>, k: nat, max: nat, index: nat, item: nat, from: nat,
                                     id: string, media: string)
    requires ItemFraming.IsWhole(e, v) && max >= 1 && k < |e| && (from == 0 <==> k == 0)
    ensures var fs := ItemFraming.Remaining(e, meta, k, max); var a := Some(ItemFraming.Received(e, meta, k));
      && fs != []
      && Plays(a, Cut(item, from + |fs|, from), Chunks(index, fs, id, media))
      && ThroughAll(a, Chunks(index, fs, id, media)) == Some(EMPTY)
    decreases |e| - k
  {
    hide ItemFraming.IsWhole, ItemFraming.Received, Push, Frames.Checksum, Stands, Through;
    var fs := ItemFraming.Remaining(e, meta, k, max);
    var k' := k + Min(|e| - k, max);
    var a := Some(ItemFraming.Received(e, meta, k));
    FragmentStands(e, v, meta, k, max, index, item, id, media);
    RemainingCons(e, meta, k, max);
    ChunksCons(index, fs, id, media);
    var chunk := ToFrame(Chunk(index, fs[0]), id, media);
    var f := LinkFrame(item, from == 0, from + 1 == from + |fs|, false);
    assert Stands(f, a, chunk);
    var rest := Chunks(index + 1, fs[1..], id, media);
    assert Cut(item, from + |fs|, from) == [f] + Cut(item, from + |fs|, from + 1);
    assert ([f] + Cut(item, from + |fs|, from + 1))[1..] == Cut(item, from + |fs|, from + 1);
    assert ([chunk] + rest)[1..] == rest;
    if k' < |e| {
      ItemPlays(e, v, meta, k', max, index + 1, item, from + 1, id, media);
    } else {
      assert Cut(item, from + |fs|, from + 1) == [] && rest == [];
    }
  }

  lemma {:induction false} RemainingCons(e: Bytes, meta: Option<Meta>, k: nat, max: nat)
    requires max >= 1 && k < |e|
    ensures var fs := ItemFraming.Remaining(e, meta, k, max); var k' := k + Min(|e| - k, max);
      && fs != [] && fs[1..] == ItemFraming.Remaining(e, meta, k', max)
      && (k' == |e| <==> |fs| == 1)
  {
    var k' := k + Min(|e| - k, max);
    assert e[k..][k' - k..] == e[k'..];
  }

  // One link item for every emission, with as many frames as it takes.
  function LinkItems(calls: seq<ItemCall>, max: nat): seq<Item>
    requires max >= 1
  {
    seq(|calls|, i requires 0 <= i < |calls| => Item.Whole(|ItemFraming.ItemFragments(Encode(calls[i].value), calls[i].meta, max)|))
  }

  lemma {:induction false} EmittedSnoc(items: seq<ItemFraming.ListItem>, item: ItemFraming.ListItem, max: nat)
    requires max >= 1
    ensures ItemFraming.Emitted(items + [item], max) ==
            ItemFraming.Emitted(items, max) + ItemFraming.ItemFragments(item.bytes, item.meta, max)
  {
    hide ItemFraming.ItemFragments;
    if items == [] {
      assert [item][1..] == [] && items + [item] == [item];
    } else {
      assert (items + [item])[1..] == items[1..] + [item];
      EmittedSnoc(items[1..], item, max);
    }
  }

  lemma {:induction false} SequencePlays(calls: seq<ItemCall>, max: nat, id: string, media: string)
    requires max >= 1 && AllCallsEncodable(calls)
    ensures ValidItems(LinkItems(calls, max)) && CreditLimits.Sound(LinkItems(calls, max))
    ensures var chunks := Chunks(0, ItemFraming.Emitted(ItemsOf(calls), max), id, media);
      Plays(Some(EMPTY), LinkFrames(LinkItems(calls, max)), chunks) && ThroughAll(Some(EMPTY), chunks) == Some(EMPTY)
  {
    hide Frames.Checksum, Encode, Encodable, Stands, Through, Plays, ThroughAll;
    if calls == [] {
      NothingPlays(Chunks(0, [], id, media));
    } else {
      var n := |calls| - 1;
      var front, last := calls[..n], calls[n];
      SequencePlays(front, max, id, media);
      var own := ItemFraming.ItemFragments(Encode(last.value), last.meta, max);
      var before := ItemFraming.Emitted(ItemsOf(front), max);
      hide ItemFraming.ItemFragments, Chunks;
      LastItem(calls, max);
      WholeItemPlays(last, max, |before|, n, id, media);
      ChunksAppend(0, before, own, id, media);
      PlaysAppend(Some(EMPTY), LinkFrames(LinkItems(front, max)), Chunks(0, before, id, media), Cut(n, |own|, 0), Chunks(|before|, own, id, media));
    }
  }

  lemma {:induction false} WholeItemPlays(call: ItemCall, max: nat, index: nat, item: nat, id: string, media: string)
    requires max >= 1 && Encodable(call.value)
    ensures var own := ItemFraming.ItemFragments(Encode(call.value), call.meta, max);
      && own != []
      && Plays(Some(EMPTY), Cut(item, |own|, 0), Chunks(index, own, id, media))
      && ThroughAll(Some(EMPTY), Chunks(index, own, id, media)) == Some(EMPTY)
  {
    hide Encode, Encodable, Plays, ThroughAll, Chunks, Cut;
    ItemFraming.EncodedIsWhole(call.value);
    var e := Encode(call.value);
    WholeIsNotEmpty(e, call.value);
    hide ItemFraming.IsWhole;
    assert e[0..] == e && ItemFraming.Remaining(e, call.meta, 0, max) == ItemFraming.ItemFragments(e, call.meta, max);
    assert e[..0] == [] && ItemFraming.Received(e, call.meta, 0) == EMPTY;
    ItemPlays(e, call.value, call.meta, 0, max, index, item, 0, id, media);
  }

  lemma {:induction false} NothingPlays(chunks: seq<Frames.Frame>)
    requires chunks == []
    ensures Plays(Some(EMPTY), [], chunks) && ThroughAll(Some(EMPTY), chunks) == Some(EMPTY)
  {
  }

  lemma {:induction false} WholeIsNotEmpty(e: Bytes, v: Value)
    requires ItemFraming.IsWhole(e, v)
    ensures |e| >= 1
  {
  }

  lemma {:induction false} LastItem(calls: seq<ItemCall>, max: nat)
    requires max >= 1 && calls != []
    ensures var n := |calls| - 1; var own := ItemFraming.ItemFragments(Encode(calls[n].value), calls[n].meta, max);
      && ItemFraming.Emitted(ItemsOf(calls), max) == ItemFraming.Emitted(ItemsOf(calls[..n]), max) + own
      && LinkItems(calls, max) == LinkItems(calls[..n], max) + [Item.Whole(|own|)]
      && LinkFrames(LinkItems(calls, max)) == LinkFrames(LinkItems(calls[..n], max)) + Cut(n, |own|, 0)
  {
    hide Encode, ItemFraming.ItemFragments, Cut;
    var n := |calls| - 1;
    assert ItemsOf(calls) == ItemsOf(calls[..n]) + [ItemFraming.EncodeItem(calls[n].value, calls[n].meta)];
    EmittedSnoc(ItemsOf(calls[..n]), ItemFraming.EncodeItem(calls[n].value, calls[n].meta), max);
    assert LinkItems(calls, max)[..n] == LinkItems(calls[..n], max);
  }

  // ---- Scalar streams play one frame for every value ----

  function Singles(n: nat): seq<Item> {
    seq(n, i requires 0 <= i < n => Item.Whole(1))
  }

  lemma {:induction false} ScalarPlays(vs: seq<Value>, id: string, media: string)
    requires forall i :: 0 <= i < |vs| ==> Encodable(vs[i])
    ensures var chunks := Chunks(0, Scalars(vs), id, media);
      Plays(None, LinkFrames(Singles(|vs|)), chunks) && ThroughAll(None, chunks) == None
  {
    hide Frames.Checksum, Encode, Encodable, Stands;
    if vs != [] {
      var n := |vs| - 1;
      ScalarPlays(vs[..n], id, media);
      var chunk := ToFrame(Chunk(n, Scalar(vs[n])), id, media);
      ScalarStands(vs[n], n, n, id, media);
      assert Scalars(vs) == Scalars(vs[..n]) + [Scalar(vs[n])];
      ChunksAppend(0, Scalars(vs[..n]), [Scalar(vs[n])], id, media);
      assert Chunks(n, [Scalar(vs[n])], id, media) == [chunk];
      assert Singles(n + 1)[..n] == Singles(n);
      assert Cut(n, 1, 1) == [] && Cut(n, 1, 0) == [LinkFrame(n, true, true, false)];
      OnePlays(LinkFrame(n, true, true, false), chunk);
      PlaysAppend(None, LinkFrames(Singles(n)), Chunks(0, Scalars(vs[..n]), id, media), [LinkFrame(n, true, true, false)], [chunk]);
    }
  }

  lemma {:induction false} OnePlays(f: LinkFrame, chunk: Frames.Frame)
    requires Stands(f, None, chunk)
    ensures Plays(None, [f], [chunk]) && ThroughAll(None, [chunk]) == None
  {
    hide Stands;
    assert [f][1..] == [] && [chunk][1..] == [];
  }

  // ---- Any run inside the window ----

  // The sender's window is no larger than the receiver's, and everything has been sent and has arrived.
  predicate Arrives(c: Config, run: seq<CreditLink.Event>) {
    && ValidConfig(c) && CreditTheorems.WithinWindow(c) && Legal(c, Init(c), run)
    && Run(c, Init(c), run).arrived == |c.frames|
  }

  // What the demultiplexer goes through in such a run is what a receiver with this window is promised:
  // the chunks in order, within the window, with its own grants among them.
  lemma {:induction false} RunCarries(c: Config, run: seq<CreditLink.Event>, start: Emitted, fs: seq<Fragment>, id: string, media: string)
    requires Arrives(c, run) && start.StartFrame?
    requires Plays(if start.isSequence then Some(EMPTY) else None, c.frames, Chunks(0, fs, id, media))
    ensures Carries(Body(c, Init(c), run, Chunks(0, fs, id, media), id), start, Numbered(0, fs), id, media, Some(c.receiverWindow))
  {
    hide Frames.Checksum, Plays;
    var chunks := Chunks(0, fs, id, media);
    var opening := Start(UNKNOWN, ToFrame(start, id, media), Some(c.receiverWindow));
    InitConserves(c);
    CreditTheorems.NoViolation(c, Init(c), run);
    AreChunks(0, fs, id, media);
    assert c.frames[0..] == c.frames && chunks[0..] == chunks;
    assert |chunks| == |c.frames| by { PlaysLength(if start.isSequence then Some(EMPTY) else None, c.frames, chunks); }
    RunFollows(c, Init(c), run, opening, chunks, id, c.receiverWindow);
    assert chunks[0..|c.frames|] == chunks;
  }

  lemma {:induction false} PlaysLength(a: Option<Partial>, fs: seq<LinkFrame>, chunks: seq<Frames.Frame>)
    requires Plays(a, fs, chunks)
    ensures |fs| == |chunks|
  {
  }

  // Values emitted on a sequence stream by a sender inside its window are handed to the reader one by
  // one, each with exactly its own metadata, under every interleaving of sends, arrivals, reads and
  // grants in which the frames arrive.
  lemma {:induction false} CreditedSequenceArrives(gate: Option<nat>, meta: Option<Meta>, calls: seq<ItemCall>, unbounded: bool, max: nat,
                                                   c: Config, run: seq<CreditLink.Event>, id: string, media: string)
    requires max >= 1 && AllCallsEncodable(calls)
    requires EmitItems(Core(0, 0, [], None, gate, [StartFrame(true, unbounded, meta)]), calls, max).ok
    requires c.frames == LinkFrames(LinkItems(calls, max)) && Arrives(c, run)
    ensures var start := ToFrame(StartFrame(true, unbounded, meta), id, media);
      var chunks := Chunks(0, ItemFraming.Emitted(ItemsOf(calls), max), id, media);
      && |chunks| == |c.frames|
      && RunStream(UNKNOWN, [Arrived(start)] + Body(c, Init(c), run, chunks, id) + [Arrived(Frames.StreamEnd(Some(id)))],
                   id, Some(c.receiverWindow)).log ==
         [Opened(media, meta, unbounded)] + Wrap(ItemDatas(calls)) + [Closed]
  {
    hide Frames.Checksum, RunStream, Carries, EmitItems, AllCallsEncodable, ItemFraming.Emitted, Plays, Body;
    var start := StartFrame(true, unbounded, meta);
    var fs := ItemFraming.Emitted(ItemsOf(calls), max);
    SequencePlays(calls, max, id, media);
    PlaysLength(Some(EMPTY), c.frames, Chunks(0, fs, id, media));
    RunCarries(c, run, start, fs, id, media);
    WholeSequence(gate, start, calls, unbounded, max);
    SentChunks(EmitItems(Core(0, 0, [], None, gate, [start]), calls, max).core.sent, start, Numbered(0, fs));
    SequenceStreamArrives(gate, meta, calls, unbounded, max, Body(c, Init(c), run, Chunks(0, fs, id, media), id),
                          Some(c.receiverWindow), id, media);
  }

  // The same for any mix of calls on a scalar stream: the reader collects the bytes of everything said.
  lemma {:induction false} CreditedScalarArrives(gate: Option<nat>, meta: Option<Meta>, ops: seq<Op>, unbounded: bool, max: nat,
                                                 c: Config, run: seq<CreditLink.Event>, id: string, media: string) returns (vs: seq<Value>)
    requires 1 <= max < TWO_64 && AllOpsEncodable(ops)
    requires var core := Core(0, 0, [], None, gate, [StartFrame(false, unbounded, meta)]);
      && AllDone(core, ops, max) && AllInPlace(core, ops, max) && Flush(ApplyAll(core, ops, max), max).ok
      && var sent := Flush(ApplyAll(core, ops, max), max).core.sent;
         sent != [] && c.frames == LinkFrames(Singles(|sent| - 1)) && Arrives(c, run)
    ensures var start := ToFrame(StartFrame(false, unbounded, meta), id, media);
      var chunks := Chunks(0, Scalars(vs), id, media);
      && |chunks| == |c.frames|
      && RunStream(UNKNOWN, [Arrived(start)] + Body(c, Init(c), run, chunks, id) + [Arrived(Frames.StreamEnd(Some(id)))],
                   id, Some(c.receiverWindow)).log ==
         [Opened(media, meta, unbounded)] + Wrap(Datas(vs)) + [Closed]
    ensures CollectFrom(Datas(vs)) == Collected(Serialize(SaidAll(ops)))
  {
    hide Frames.Checksum, Encode, Flush, ApplyAll, AllDone, AllInPlace, RunStream, CollectFrom, Serialize, SaidAll, AllOpsEncodable;
    hide AllEncodable, Carries, Plays, Body, LinkFrames;
    var start := StartFrame(false, unbounded, meta);
    ghost var sent := Flush(ApplyAll(Core(0, 0, [], None, gate, [start]), ops, max), max).core.sent;
    vs := WholeStream(gate, start, ops, unbounded, max);
    CollectDatas(vs);
    SentChunks(sent, start, Numbered(0, Scalars(vs)));
    assert |sent| - 1 == |vs|;
    EachEncodable(vs);
    ScalarPlays(vs, id, media);
    PlaysLength(None, c.frames, Chunks(0, Scalars(vs), id, media));
    RunCarries(c, run, start, Scalars(vs), id, media);
    ScalarFramesArrive(vs, meta, unbounded, |vs|, id, media);
    CarriedAsSent(Body(c, Init(c), run, Chunks(0, Scalars(vs), id, media), id), start, Numbered(0, Scalars(vs)),
                  if unbounded then None else Some(|vs|), id, media, Some(c.receiverWindow));
  }

  lemma {:induction false} EachEncodable(vs: seq<Value>)
    requires AllEncodable(vs)
    ensures forall i :: 0 <= i < |vs| ==> Encodable(vs[i])
  {
    if vs != [] {
      EachEncodable(vs[1..]);
      assert forall i :: 1 <= i < |vs| ==> vs[i] == vs[1..][i - 1];
    }
  }

  // A run that has delivered everything has seen every frame arrive.
  lemma {:induction false} DeliveredHasArrived(c: Config, run: seq<CreditLink.Event>)
    requires ValidConfig(c) && CreditTheorems.WithinWindow(c) && Legal(c, Init(c), run) && Quiet(c, Run(c, Init(c), run))
    requires Run(c, Init(c), run).taken == CreditTheorems.Slots(c.frames)
    ensures Arrives(c, run)
  {
    InitConserves(c);
    CreditTheorems.NoViolation(c, Init(c), run);
    var l := Run(c, Init(c), run);
    CreditTheorems.WhereRunsEnd(c, run);
    assert !Enabled(c, l, CreditLink.Arrive);
    var n := CreditTheorems.Limit(c);
    if n < |c.frames| {
      CreditLimits.LastFrameDelivers(c.frames, n);
    }
  }

  // With a sender's window of at least 2, inside the receiver's, every run read with `recv` that cannot go
  // on any more is such a run: whatever the batch, the values all arrive.
  lemma {:induction false} RecvGetsEverything(calls: seq<ItemCall>, max: nat, c: Config, run: seq<CreditLink.Event>)
    requires max >= 1 && AllCallsEncodable(calls) && c.frames == LinkFrames(LinkItems(calls, max))
    requires c.granting && c.batch >= 1 && 2 <= c.senderWindow <= c.receiverWindow && c.senderWindow <= Credit.U64_MAX
    requires Legal(c, Init(c), run) && Quiet(c, Run(c, Init(c), run))
    ensures Arrives(c, run)
  {
    hide AllCallsEncodable, Plays, Quiet;
    SequencePlays(calls, max, "", "");
    CreditTheorems.FramesWellCut(LinkItems(calls, max));
    CreditTheorems.SlotsOfFrames(LinkItems(calls, max));
    InitConserves(c);
    CreditTheorems.NoViolation(c, Init(c), run);
    CreditLimits.RecvDeliversIff(c, LinkItems(calls, max), run);
    DeliveredHasArrived(c, run);
  }
}
