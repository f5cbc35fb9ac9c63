// The two demultiplexers hand over the same items.
module Agreement {
  import opened Prelude
  import opened Reassembly
  import opened Frames
  import opened Demux
  import opened PeerDemux
  import Cbor

  function DataHead(item: PeerItem): seq<Delivery> {
    if item.PeerData? then [item.delivery] else []
  }

  function DataOf(items: seq<PeerItem>): seq<Delivery> {
    if items == [] then [] else DataHead(items[0]) + DataOf(items[1..])
  }

  lemma {:induction false} DataOfAppend(a: seq<PeerItem>, b: seq<PeerItem>)
    ensures DataOf(a + b) == DataOf(a) + DataOf(b)
  {
    if a == [] {
      assert a + b == b;
    } else {
      calc {
        DataOf(a + b);
        { assert (a + b)[1..] == a[1..] + b; }
        DataHead(a[0]) + DataOf(a[1..] + b);
        { DataOfAppend(a[1..], b); }
        DataHead(a[0]) + (DataOf(a[1..]) + DataOf(b));
        (DataHead(a[0]) + DataOf(a[1..])) + DataOf(b);
        DataOf(a) + DataOf(b);
      }
    }
  }

  lemma {:induction false} DataOfWrap(out: seq<Delivery>)
    ensures DataOf(PeerWrap(out)) == out
  {
    if out != [] {
      assert PeerWrap(out)[1..] == PeerWrap(out[1..]);
      DataOfWrap(out[1..]);
    }
  }

  // The body of a stream: its chunks, log lines and frames of no consequence, and the grants.
  predicate IsBody(i: Input, id: string) {
    match i
    case Arrived(f) => (f.Chunk? && KeyOf(f) == Some(id)) || f.Log? || f.Other?
    case Granted(to, _) => true
  }

  predicate AllBody(body: seq<Input>, id: string) {
    forall i :: 0 <= i < |body| ==> IsBody(body[i], id)
  }

  function FramesOf(inputs: seq<Input>): seq<Frame> {
    if inputs == [] then [] else FrameOf(inputs[0]) + FramesOf(inputs[1..])
  }

  function Feed(s: StreamState, inputs: seq<Input>, id: string, credit: Option<nat>): StreamState
    decreases |inputs|
  {
    if inputs == [] then s else Feed(StepInput(s, inputs[0], id, credit), inputs[1..], id, credit)
  }

  function PeerFeed(p: PeerState, frames: seq<Frame>): PeerState
    decreases |frames|
  {
    if frames == [] then p else PeerFeed(PeerStep(p, frames[0]), frames[1..])
  }

  // The sender stays inside its window.
  predicate Conforming(s: StreamState, inputs: seq<Input>, id: string, credit: Option<nat>)
    decreases |inputs|
  {
    inputs != [] ==>
      && (inputs[0].Arrived? && inputs[0].frame.Chunk? && s.window.Some? ==> s.window.value > 0)
      && Conforming(StepInput(s, inputs[0], id, credit), inputs[1..], id, credit)
  }

  // Both have handed over the same items and hold the same half-received one.
  predicate Alike(s: StreamState, p: PeerState, before: seq<Event>, credit: Option<nat>) {
    && s.open && p.running
    && s.log == before + Wrap(DataOf(p.items))
    && (s.assembly.Some? <==> p.assembly.Some?)
    && (s.assembly.Some? ==> s.assembly.value.partial == p.assembly.value && p.granting == credit.Some?)
    && s.fragmentCredits == p.fragmentCredits
  }

  lemma {:induction false} WrapAppend(a: seq<Delivery>, b: seq<Delivery>)
    ensures Wrap(a + b) == Wrap(a) + Wrap(b)
  {
  }

  lemma {:induction false} SameHanded(before: seq<Event>, items: seq<PeerItem>, out: seq<Delivery>)
    ensures before + Wrap(DataOf(items)) + Wrap(out) == before + Wrap(DataOf(items + PeerWrap(out)))
  {
    DataOfAppend(items, PeerWrap(out));
    DataOfWrap(out);
    WrapAppend(DataOf(items), out);
  }

  lemma {:induction false} AlikeAccept(s: StreamState, p: PeerState, before: seq<Event>, f: Frame, credit: Option<nat>)
    requires Alike(s, p, before, credit) && f.Chunk?
    ensures Alike(Accept(s, f, credit), if f.payload.Some? then PeerChunk(p, f.payload.value, f) else p, before, credit)
  {
    if f.payload.Some? {
      var refusal := Refusal(f.payload.value, f.checksum);
      if refusal.Some? {
        SameHanded(before, p.items, [Failed(refusal.value)]);
      } else if p.assembly.None? {
        SameHanded(before, p.items, [DecodeScalar(f.payload.value, f.meta)]);
      } else {
        SameHanded(before, p.items, Push(p.assembly.value, Fragment(f.payload.value, f.meta)).out);
      }
    }
  }

  function FrameOf(i: Input): seq<Frame> {
    if i.Arrived? then [i.frame] else []
  }

  lemma {:induction false} AlikeStep(s: StreamState, p: PeerState, before: seq<Event>, i: Input, id: string, credit: Option<nat>)
    requires Alike(s, p, before, credit) && IsBody(i, id)
    requires i.Arrived? && i.frame.Chunk? && s.window.Some? ==> s.window.value > 0
    ensures Alike(StepInput(s, i, id, credit), PeerFeed(p, FrameOf(i)), before, credit)
  {
    if i.Arrived? {
      var f := i.frame;
      assert PeerFeed(p, [f]) == PeerStep(p, f);
      if f.Log? {
        DataOfAppend(p.items, [PeerLog(f.text)]);
        assert DataOf([PeerLog(f.text)]) == [];
      } else if f.Chunk? {
        AlikeAccept(if s.window.Some? then s.(window := Some(s.window.value - 1)) else s, p, before, f, credit);
      }
    }
  }

  lemma {:induction false} AlikeFeed(s: StreamState, p: PeerState, before: seq<Event>, body: seq<Input>,
                                     id: string, credit: Option<nat>)
    requires Alike(s, p, before, credit) && AllBody(body, id) && Conforming(s, body, id, credit)
    ensures Alike(Feed(s, body, id, credit), PeerFeed(p, FramesOf(body)), before, credit)
    decreases |body|
  {
    if body != [] {
      AlikeStep(s, p, before, body[0], id, credit);
      var s' := StepInput(s, body[0], id, credit);
      var head := FrameOf(body[0]);
      AlikeFeed(s', PeerFeed(p, head), before, body[1..], id, credit);
      PeerFeedAppend(p, head, FramesOf(body[1..]));
    }
  }

  lemma {:induction false} PeerFeedAppend(p: PeerState, a: seq<Frame>, b: seq<Frame>)
    ensures PeerFeed(p, a + b) == PeerFeed(PeerFeed(p, a), b)
    decreases |a|
  {
    if a == [] {
      assert a + b == b;
    } else {
      assert (a + b)[1..] == a[1..] + b;
      PeerFeedAppend(PeerStep(p, a[0]), a[1..], b);
    }
  }

  lemma {:induction false} RunIsFeed(s: StreamState, body: seq<Input>, rest: seq<Input>, id: string, credit: Option<nat>)
    requires AllBody(body, id)
    ensures RunStream(s, body + rest, id, credit) == RunStream(Feed(s, body, id, credit), rest, id, credit)
    decreases |body|
  {
    if body == [] {
      assert body + rest == rest;
    } else {
      assert (body + rest)[1..] == body[1..] + rest;
      RunIsFeed(StepInput(s, body[0], id, credit), body[1..], rest, id, credit);
    }
  }

  predicate NeverEnds(frames: seq<Frame>) {
    forall i :: 0 <= i < |frames| ==> frames[i].Chunk? || frames[i].Log? || frames[i].Other?
  }

  lemma {:induction false} PeerRunIsFeed(p: PeerState, body: seq<Frame>, rest: seq<Frame>)
    requires NeverEnds(body) && p.running
    ensures PeerRun(p, body + rest) == PeerRun(PeerFeed(p, body), rest)
    ensures PeerFeed(p, body).running
    decreases |body|
  {
    if body == [] {
      assert body + rest == rest;
    } else {
      assert (body + rest)[1..] == body[1..] + rest;
      PeerRunIsFeed(PeerStep(p, body[0]), body[1..], rest);
    }
  }

  lemma {:induction false} BodyNeverEnds(body: seq<Input>, id: string)
    requires AllBody(body, id)
    ensures NeverEnds(FramesOf(body))
  {
    if body != [] {
      BodyNeverEnds(body[1..], id);
    }
  }

  // Both demultiplexers at the end of the body of the same stream.
  lemma {:induction false} AfterBody(start: Frame, body: seq<Input>, last: Frame, id: string, credit: Option<nat>)
    returns (s: StreamState, p: PeerState, opening: Event)
    requires start.StreamStart? && start.id == Some(id) && AllBody(body, id)
    requires Conforming(Start(UNKNOWN, start, credit), body, id, credit)
    ensures opening == Opened(OrElse(start.media, ""), start.startMeta, OrElse(start.unbounded, false))
    ensures Alike(s, p, [opening], credit)
    ensures p == PeerFeed(PeerStep(Initial(credit.Some?), start), FramesOf(body))
    ensures RunStream(UNKNOWN, [Arrived(start)] + body + [Arrived(last)], id, credit) ==
            RunStream(s, [Arrived(last)], id, credit)
    ensures PeerRun(Initial(credit.Some?), [start] + FramesOf(body) + [last]) == PeerRun(p, [last])
  {
    opening := Opened(OrElse(start.media, ""), start.startMeta, OrElse(start.unbounded, false));
    var s0 := Start(UNKNOWN, start, credit);
    var p0 := PeerStep(Initial(credit.Some?), start);
    assert s0.log == [opening] + Wrap(DataOf(p0.items));
    s, p := Feed(s0, body, id, credit), PeerFeed(p0, FramesOf(body));
    AlikeFeed(s0, p0, [opening], body, id, credit);
    var inputs := [Arrived(start)] + body + [Arrived(last)];
    assert inputs[1..] == body + [Arrived(last)];
    RunIsFeed(s0, body, [Arrived(last)], id, credit);
    var frames := [start] + FramesOf(body) + [last];
    assert frames[1..] == FramesOf(body) + [last];
    BodyNeverEnds(body, id);
    PeerRunIsFeed(p0, FramesOf(body), [last]);
  }

  // A stream sent as START, chunks and STREAM_END, scalar or sequence, with bad checksums, garbage
  // or truncation, and log lines and grants at any point, is handed over alike by both
  // demultiplexers as long as its sender keeps to its window.
  lemma {:induction false} TheDemuxesAgree(start: Frame, body: seq<Input>, id: string, credit: Option<nat>)
    requires start.StreamStart? && start.id == Some(id) && AllBody(body, id)
    requires Conforming(Start(UNKNOWN, start, credit), body, id, credit)
    ensures var last := StreamEnd(Some(id));
      var multi := RunStream(UNKNOWN, [Arrived(start)] + body + [Arrived(last)], id, credit);
      var single := PeerRun(Initial(credit.Some?), [start] + FramesOf(body) + [last]);
      && multi.log == [Opened(OrElse(start.media, ""), start.startMeta, OrElse(start.unbounded, false))]
                      + Wrap(DataOf(single.items)) + [Closed]
      && multi.fragmentCredits == single.fragmentCredits
      && !single.running
  {
    var last := StreamEnd(Some(id));
    var s, p, opening := AfterBody(start, body, last, id, credit);
    assert [Arrived(last)][1..] == [] && [last][1..] == [];
    if p.assembly.Some? {
      SameHanded([opening], p.items, AtStreamEnd(p.assembly.value));
    } else {
      SameHanded([opening], p.items, []);
    }
  }

  // Ended by END without a STREAM_END, the two differ exactly when an item was half received: the
  // peer demultiplexer reports it, the multi-stream one lets it vanish.
  lemma {:induction false} EndForgetsHalfItem(start: Frame, body: seq<Input>, id: string, credit: Option<nat>)
    requires start.StreamStart? && start.id == Some(id) && AllBody(body, id)
    requires Conforming(Start(UNKNOWN, start, credit), body, id, credit)
    ensures var held := PeerFeed(PeerStep(Initial(credit.Some?), start), FramesOf(body)).assembly;
      var multi := RunStream(UNKNOWN, [Arrived(start)] + body + [Arrived(End)], id, credit);
      var single := PeerRun(Initial(credit.Some?), [start] + FramesOf(body) + [End]);
      multi.log == [Opened(OrElse(start.media, ""), start.startMeta, OrElse(start.unbounded, false))]
                   + Wrap(DataOf(single.items)) + [Closed]
      <==> held.None? || held.value.buf == []
  {
    var s, p, opening := AfterBody(start, body, End, id, credit);
    assert [Arrived(End)][1..] == [] && [End][1..] == [];
    var report := if p.assembly.Some? then AtStreamEnd(p.assembly.value) else [];
    var single := PeerRun(p, [End]);
    assert single == PeerEnd(p);
    SameHanded([opening], p.items, report);
    assert RunStream(s, [Arrived(End)], id, credit).log == [opening] + Wrap(DataOf(p.items)) + [Closed];
    assert [opening] + Wrap(DataOf(single.items)) == [opening] + Wrap(DataOf(p.items)) + Wrap(report);
    if report != [] {
      assert |RunStream(s, [Arrived(End)], id, credit).log| < |[opening] + Wrap(DataOf(single.items)) + [Closed]|;
    }
  }

  // One byte of a two-byte item, and then END: the peer demultiplexer reports it, the other says nothing.
  lemma {:induction false} HalfItemVanishes(id: string)
    ensures var start := StreamStart(Some(id), None, None, Some(true), None);
      var half := Chunk(Some(id), Some([0x18]), Some(Checksum([0x18])), None);
      && RunStream(UNKNOWN, [Arrived(start), Arrived(half), Arrived(End)], id, None).log == [Opened("", None, false), Closed]
      && PeerRun(Initial(false), [start, half, End]).items == [PeerData(Failed(Truncated(1)))]
  {
    hide Checksum;
    var start := StreamStart(Some(id), None, None, Some(true), None);
    var half := Chunk(Some(id), Some([0x18]), Some(Checksum([0x18])), None);
    assert Cbor.Decode([0x18]).NeedMore?;
    assert [] + [0x18] == [0x18];
    var held := Partial([0x18], None);
    assert Push(EMPTY, Fragment([0x18], None)) == Progress(held, []);
    hide Cbor.Decode, Push;
    assert [start, half, End][1..] == [half, End] && [half, End][1..] == [End] && [End][1..] == [];
    assert PeerWrap([]) == [] && [] + PeerWrap([Failed(Truncated(1))]) == [PeerData(Failed(Truncated(1)))];
    var p1 := PeerStep(Initial(false), start);
    var p2 := PeerStep(p1, half);
    assert p2.items == [] && p2.assembly == Some(held);
    assert PeerRun(p2, [End]) == PeerStep(p2, End);
    var inputs := [Arrived(start), Arrived(half), Arrived(End)];
    assert inputs[1..] == [Arrived(half), Arrived(End)] && inputs[1..][1..] == [Arrived(End)];
    var s1 := StepInput(UNKNOWN, Arrived(start), id, None);
    assert s1.log == [Opened("", None, false)];
    var s2 := StepInput(s1, Arrived(half), id, None);
    assert s2.log == s1.log + Wrap([]) == s1.log;
    assert RunStream(s2, [Arrived(End)], id, None) == Close(s2);
  }
}
