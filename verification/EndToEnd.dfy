// From the sender's calls to what the handler collects: `OutputStream` frames through the
// multi-stream demultiplexer.
module EndToEnd {
  import opened Prelude
  import opened Cbor
  import opened Reassembly
  import opened Output
  import opened Lossless
  import opened Demux
  import Agreement
  import PeerDemux
  import Frames
  import ItemFraming
  import OutputStreams
  import Utf8

  // ---- Collecting ----

  datatype Collected = Collected(bytes: Bytes) | Failure(error: StreamError) | RefusedUnbounded

  function ValueBytes(v: Value): Bytes {
    match v
    case ByteString(bytes) => bytes
    case Text(text) => Utf8.Encode(text)
    case _ => Encode(v)
  }

  function CollectFrom(out: seq<Delivery>): Collected {
    if out == [] then Collected([])
    else match out[0]
      case Failed(error) => Failure(error)
      case Data(v, _) =>
        match CollectFrom(out[1..])
        case Collected(rest) => Collected(ValueBytes(v) + rest)
        case other => other
  }

  // `collect_bytes` on everything a closed stream delivered; refused on a stream without length promise.
  method CollectBytes(out: seq<Delivery>, unbounded: bool) returns (r: Collected)
    ensures r == if unbounded then RefusedUnbounded else CollectFrom(out)
  {
    if unbounded {
      return RefusedUnbounded;
    }
    var result := [];
    var i := 0;
    while i < |out|
      invariant 0 <= i <= |out|
      invariant CollectFrom(out) ==
                match CollectFrom(out[i..]) { case Collected(rest) => Collected(result + rest) case other => other }
    {
      assert out[i..][1..] == out[i + 1..];
      match out[i]
      case Failed(error) => return Failure(error);
      case Data(v, _) =>
        ghost var rest := CollectFrom(out[i + 1..]);
        assert rest.Collected? ==> result + (ValueBytes(v) + rest.bytes) == (result + ValueBytes(v)) + rest.bytes;
        result := result + ValueBytes(v);
        i := i + 1;
    }
    r := Collected(result);
  }

  // The bytes a scalar stream stands for.
  function TokenBytes(t: Token): Bytes {
    match t
    case Raw(b) => [b]
    case Char(c) => Utf8.EncodeChar(c)
    case Whole(v) => Encode(v)
  }

  function Serialize(ts: seq<Token>): Bytes {
    if ts == [] then [] else TokenBytes(ts[0]) + Serialize(ts[1..])
  }

  lemma {:induction false} SerializeAppend(a: seq<Token>, b: seq<Token>)
    ensures Serialize(a + b) == Serialize(a) + Serialize(b)
  {
    hide TokenBytes;
    if a == [] {
      assert a + b == b;
    } else {
      calc {
        Serialize(a + b);
        { assert (a + b)[1..] == a[1..] + b; }
        TokenBytes(a[0]) + Serialize(a[1..] + b);
        { SerializeAppend(a[1..], b); }
        TokenBytes(a[0]) + (Serialize(a[1..]) + Serialize(b));
        (TokenBytes(a[0]) + Serialize(a[1..])) + Serialize(b);
        Serialize(a) + Serialize(b);
      }
    }
  }

  lemma {:induction false} SerializeRaws(bytes: Bytes)
    ensures Serialize(Raws(bytes)) == bytes
  {
    if bytes != [] {
      assert Raws(bytes)[1..] == Raws(bytes[1..]);
      SerializeRaws(bytes[1..]);
    }
  }

  lemma {:induction false} SerializeChars(text: string)
    ensures Serialize(Chars(text)) == Utf8.Encode(text)
  {
    if text != "" {
      assert Chars(text)[1..] == Chars(text[1..]);
      SerializeChars(text[1..]);
    }
  }

  lemma {:induction false} SerializeValue(v: Value)
    ensures Serialize(ContentOf(v)) == ValueBytes(v)
  {
    match v
    case ByteString(bytes) => SerializeRaws(bytes);
    case Text(text) => SerializeChars(text);
    case _ => assert [Token.Whole(v)][1..] == [];
  }

  function Datas(vs: seq<Value>): seq<Delivery> {
    seq(|vs|, i requires 0 <= i < |vs| => Data(vs[i], None))
  }

  lemma {:induction false} CollectDatas(vs: seq<Value>)
    ensures CollectFrom(Datas(vs)) == Collected(Serialize(Content(vs)))
  {
    hide TokenBytes, ValueBytes;
    if vs != [] {
      assert Datas(vs)[1..] == Datas(vs[1..]);
      CollectDatas(vs[1..]);
      SerializeValue(vs[0]);
      SerializeAppend(ContentOf(vs[0]), Content(vs[1..]));
    }
  }

  // ---- Frames of an output stream, as the demultiplexer at the other end receives them ----

  function ToFrame(e: Emitted, id: string, media: string): Frames.Frame {
    match e
    case StartFrame(isSequence, unbounded, meta) =>
      Frames.StreamStart(Some(id), Some(media), meta, Some(isSequence), if unbounded then Some(true) else None)
    case ChunkFrame(_, payload, checksum, meta) => Frames.Chunk(Some(id), Some(payload), Some(checksum), meta)
    case EndFrame(_) => Frames.StreamEnd(Some(id))
  }

  function Inputs(es: seq<Emitted>, id: string, media: string): seq<Input> {
    seq(|es|, i requires 0 <= i < |es| => Arrived(ToFrame(es[i], id, media)))
  }

  // A stream that is open and charged for none of its chunks: an uncredited receiver.
  predicate Uncredited(s: StreamState) {
    s.open && s.window.None?
  }

  lemma {:induction false} ScalarChunk(s: StreamState, v: Value, index: nat, id: string, media: string)
    requires Uncredited(s) && s.assembly.None? && Encodable(v)
    ensures StepInput(s, Arrived(ToFrame(Chunk(index, Scalar(v)), id, media)), id, None) == Hand(s, [Data(v, None)])
  {
    hide Frames.Checksum;
    RoundTrip(v, []);
    assert Encode(v) + [] == Encode(v);
  }

  lemma {:induction false} ScalarChunks(s: StreamState, vs: seq<Value>, index: nat, rest: seq<Input>, id: string, media: string)
    requires Uncredited(s) && s.assembly.None? && AllEncodable(vs)
    ensures RunStream(s, Inputs(Numbered(index, Scalars(vs)), id, media) + rest, id, None) ==
            RunStream(Hand(s, Datas(vs)), rest, id, None)
    decreases |vs|
  {
    hide Frames.Checksum, Encode, StepInput;
    var inputs := Inputs(Numbered(index, Scalars(vs)), id, media);
    if vs == [] {
      assert inputs + rest == rest;
      assert s.log + Wrap(Datas(vs)) == s.log;
    } else {
      ScalarChunk(s, vs[0], index, id, media);
      var next := Hand(s, [Data(vs[0], None)]);
      ScalarChunks(next, vs[1..], index + 1, rest, id, media);
      assert (inputs + rest)[0] == Arrived(ToFrame(Chunk(index, Scalar(vs[0])), id, media));
      assert (inputs + rest)[1..] == Inputs(Numbered(index + 1, Scalars(vs[1..])), id, media) + rest;
      assert next.log + Wrap(Datas(vs[1..])) == s.log + Wrap(Datas(vs));
    }
  }

  // Every value a scalar stream sends, framed and numbered, is handed to the reader as it is.
  lemma {:induction false} ScalarFramesArrive(vs: seq<Value>, meta: Option<Meta>, unbounded: bool, count: nat, id: string, media: string)
    requires AllEncodable(vs)
    ensures RunStream(UNKNOWN, Inputs(Framed(vs, meta, unbounded, count), id, media), id, None).log ==
            [Opened(media, meta, unbounded)] + Wrap(Datas(vs)) + [Closed]
  {
    hide Frames.Checksum, Encode;
    var start := StartFrame(false, unbounded, meta);
    var end := OutputStreams.StreamEnd(unbounded, count);
    var inputs := Inputs(Framed(vs, meta, unbounded, count), id, media);
    var opening := Start(UNKNOWN, ToFrame(start, id, media), None);
    assert inputs[1..] == Inputs(Numbered(0, Scalars(vs)), id, media) + [Arrived(ToFrame(end, id, media))];
    ScalarChunks(opening, vs, 0, [Arrived(ToFrame(end, id, media))], id, media);
    LastFrame(Hand(opening, Datas(vs)), id, []);
    assert opening.log == [Opened(media, meta, unbounded)];
    assert opening.log + Wrap(Datas(vs)) + Wrap([]) == opening.log + Wrap(Datas(vs));
  }

  function Framed(vs: seq<Value>, meta: Option<Meta>, unbounded: bool, count: nat): seq<Emitted> {
    [StartFrame(false, unbounded, meta)] + Numbered(0, Scalars(vs)) + [OutputStreams.StreamEnd(unbounded, count)]
  }

  lemma {:induction false} LastFrame(s: StreamState, id: string, report: seq<Delivery>)
    requires Uncredited(s)
    requires report == if s.assembly.Some? then AtStreamEnd(s.assembly.value.partial) else []
    ensures RunStream(s, [Arrived(Frames.StreamEnd(Some(id)))], id, None).log == s.log + Wrap(report) + [Closed]
  {
    assert [Arrived(Frames.StreamEnd(Some(id)))][1..] == [];
  }

  // ---- Sequence streams ----

  lemma {:induction false} SequenceChunk(s: StreamState, f: Fragment, index: nat, id: string, media: string)
    requires Uncredited(s) && s.assembly.Some?
    ensures var r := Push(s.assembly.value.partial, f);
      StepInput(s, Arrived(ToFrame(Chunk(index, f), id, media)), id, None) ==
      Hand(s.(assembly := Some(s.assembly.value.(partial := r.state))), r.out)
  {
    hide Frames.Checksum;
  }

  lemma {:induction false} SequenceChunks(s: StreamState, fs: seq<Fragment>, index: nat, rest: seq<Input>, id: string, media: string)
    requires Uncredited(s) && s.assembly.Some?
    ensures var r := PushAll(s.assembly.value.partial, fs);
      RunStream(s, Inputs(Numbered(index, fs), id, media) + rest, id, None) ==
      RunStream(Hand(s.(assembly := Some(s.assembly.value.(partial := r.state))), r.out), rest, id, None)
    decreases |fs|
  {
    hide Frames.Checksum, Push;
    var inputs := Inputs(Numbered(index, fs), id, media);
    if fs == [] {
      assert inputs + rest == rest;
      assert s.log + Wrap([]) == s.log;
    } else {
      var first := Push(s.assembly.value.partial, fs[0]);
      var next := Hand(s.(assembly := Some(s.assembly.value.(partial := first.state))), first.out);
      SequenceChunk(s, fs[0], index, id, media);
      SequenceChunks(next, fs[1..], index + 1, rest, id, media);
      assert (inputs + rest)[0] == Arrived(ToFrame(Chunk(index, fs[0]), id, media));
      assert (inputs + rest)[1..] == Inputs(Numbered(index + 1, fs[1..]), id, media) + rest;
      Agreement.WrapAppend(first.out, PushAll(first.state, fs[1..]).out);
      assert next.log + Wrap(PushAll(first.state, fs[1..]).out) == s.log + Wrap(first.out + PushAll(first.state, fs[1..]).out);
    }
  }

  // Items emitted one by one, at any `max_chunk`, are handed to the reader one by one.
  lemma {:induction false} SequenceFramesArrive(items: seq<ItemFraming.ListItem>, meta: Option<Meta>, unbounded: bool, max: nat,
                                                 id: string, media: string)
    requires max >= 1 && ItemFraming.AllWhole(items)
    ensures var sent := [StartFrame(true, unbounded, meta)] + Numbered(0, ItemFraming.Emitted(items, max))
                        + [OutputStreams.StreamEnd(unbounded, |ItemFraming.Emitted(items, max)|)];
      RunStream(UNKNOWN, Inputs(sent, id, media), id, None).log ==
      [Opened(media, meta, unbounded)] + Wrap(ItemFraming.Delivered(items)) + [Closed]
  {
    hide Frames.Checksum;
    var fs := ItemFraming.Emitted(items, max);
    var start := StartFrame(true, unbounded, meta);
    var end := OutputStreams.StreamEnd(unbounded, |fs|);
    var inputs := Inputs([start] + Numbered(0, fs) + [end], id, media);
    var opening := Start(UNKNOWN, ToFrame(start, id, media), None);
    assert inputs[1..] == Inputs(Numbered(0, fs), id, media) + [Arrived(ToFrame(end, id, media))];
    SequenceChunks(opening, fs, 0, [Arrived(ToFrame(end, id, media))], id, media);
    ItemFraming.EmittedItemsArrive(items, max);
    LastFrame(Hand(opening, ItemFraming.Delivered(items)), id, []);
    assert opening.log == [Opened(media, meta, unbounded)];
    assert opening.log + Wrap(ItemFraming.Delivered(items)) + Wrap([]) + [Closed] ==
           [Opened(media, meta, unbounded)] + Wrap(ItemFraming.Delivered(items)) + [Closed];
  }

  // ---- A charged receiver, granting as it goes ----

  function FramesFor(es: seq<Emitted>, id: string, media: string): seq<Frames.Frame> {
    seq(|es|, i requires 0 <= i < |es| => ToFrame(es[i], id, media))
  }

  function AsInputs(fs: seq<Frames.Frame>): seq<Input> {
    seq(|fs|, i requires 0 <= i < |fs| => Arrived(fs[i]))
  }

  lemma {:induction false} FramesOfInputs(fs: seq<Frames.Frame>)
    ensures Agreement.FramesOf(AsInputs(fs)) == fs
  {
    if fs != [] {
      assert AsInputs(fs)[1..] == AsInputs(fs[1..]);
      FramesOfInputs(fs[1..]);
    }
  }

  lemma {:induction false} BodyFrames(body: seq<Input>, id: string)
    requires Agreement.AllBody(body, id)
    ensures Agreement.AllBody(AsInputs(Agreement.FramesOf(body)), id)
  {
    if body != [] {
      BodyFrames(body[1..], id);
      var rest := Agreement.FramesOf(body[1..]);
      var fs := Agreement.FramesOf(body);
      forall i | 0 <= i < |fs| ensures Agreement.IsBody(Arrived(fs[i]), id) {
        if !body[0].Arrived? {
          assert AsInputs(rest)[i] == Arrived(fs[i]);
        } else if i > 0 {
          assert AsInputs(rest)[i - 1] == Arrived(fs[i]);
        }
      }
    }
  }

  // A receiver that does not charge cannot be overrun.
  lemma {:induction false} UnchargedConforms(s: StreamState, fs: seq<Frames.Frame>, id: string)
    requires s.window.None? && Agreement.AllBody(AsInputs(fs), id)
    ensures Agreement.Conforming(s, AsInputs(fs), id, None)
    decreases |fs|
  {
    hide Push, Frames.Checksum;
    if fs != [] {
      var inputs := AsInputs(fs);
      assert inputs[1..] == AsInputs(fs[1..]);
      assert Agreement.IsBody(inputs[0], id);
      assert Agreement.AllBody(AsInputs(fs[1..]), id) by {
        assert forall i :: 0 <= i < |fs[1..]| ==> AsInputs(fs[1..])[i] == inputs[i + 1];
      }
      UnchargedConforms(StepInput(s, inputs[0], id, None), fs[1..], id);
    }
  }

  predicate SameItems(p: PeerDemux.PeerState, q: PeerDemux.PeerState) {
    p.items == q.items && p.assembly == q.assembly && p.running == q.running
  }

  lemma {:induction false} GrantsChangeNoItem(p: PeerDemux.PeerState, q: PeerDemux.PeerState, fs: seq<Frames.Frame>)
    requires SameItems(p, q)
    ensures SameItems(PeerDemux.PeerRun(p, fs), PeerDemux.PeerRun(q, fs))
    decreases |fs|
  {
    hide PeerDemux.PeerStep, SameItems;
    if fs != [] && p.running {
      GrantsChangeNoStep(p, q, fs[0]);
      assert q.running by { SameRunning(p, q); }
      GrantsChangeNoItem(PeerDemux.PeerStep(p, fs[0]), PeerDemux.PeerStep(q, fs[0]), fs[1..]);
    } else {
      SameRunning(p, q);
    }
  }

  lemma {:induction false} SameRunning(p: PeerDemux.PeerState, q: PeerDemux.PeerState)
    requires SameItems(p, q)
    ensures p.running == q.running
  {
  }

  lemma {:induction false} GrantsChangeNoStep(p: PeerDemux.PeerState, q: PeerDemux.PeerState, f: Frames.Frame)
    requires SameItems(p, q)
    ensures SameItems(PeerDemux.PeerStep(p, f), PeerDemux.PeerStep(q, f))
  {
    hide Push, Frames.Checksum, Frames.Refusal, Frames.DecodeScalar, Frames.RemoteFailure, AtStreamEnd, PeerDemux.PeerWrap;
  }

  // A stream whose sender keeps to its window is handed over as it would be without any window,
  // wherever the grants fall.
  lemma {:induction false} CreditIsInvisible(start: Frames.Frame, body: seq<Input>, id: string, window: Option<nat>)
    requires start.StreamStart? && start.id == Some(id) && Agreement.AllBody(body, id)
    requires Agreement.Conforming(Start(UNKNOWN, start, window), body, id, window)
    ensures var last := Arrived(Frames.StreamEnd(Some(id)));
      RunStream(UNKNOWN, [Arrived(start)] + body + [last], id, window).log ==
      RunStream(UNKNOWN, [Arrived(start)] + AsInputs(Agreement.FramesOf(body)) + [last], id, None).log
  {
    var fs := Agreement.FramesOf(body);
    BodyFrames(body, id);
    UnchargedConforms(Start(UNKNOWN, start, None), fs, id);
    FramesOfInputs(fs);
    Agreement.TheDemuxesAgree(start, body, id, window);
    Agreement.TheDemuxesAgree(start, AsInputs(fs), id, None);
    GrantsChangeNoItem(PeerDemux.Initial(window.Some?), PeerDemux.Initial(false), [start] + fs + [Frames.StreamEnd(Some(id))]);
  }

  // What the receiver goes through: START, the chunks with its own grants anywhere among them, within
  // the window, and STREAM_END.
  predicate Carries(body: seq<Input>, start: Emitted, chunks: seq<Emitted>, id: string, media: string, window: Option<nat>) {
    && start.StartFrame? && Agreement.AllBody(body, id)
    && Agreement.FramesOf(body) == FramesFor(chunks, id, media)
    && Agreement.Conforming(Start(UNKNOWN, ToFrame(start, id, media), window), body, id, window)
  }

  lemma {:induction false} CarriedAsSent(body: seq<Input>, start: Emitted, chunks: seq<Emitted>, count: Option<nat>,
                                         id: string, media: string, window: Option<nat>)
    requires Carries(body, start, chunks, id, media, window)
    ensures RunStream(UNKNOWN, [Arrived(ToFrame(start, id, media))] + body + [Arrived(Frames.StreamEnd(Some(id)))], id, window).log ==
            RunStream(UNKNOWN, Inputs([start] + chunks + [EndFrame(count)], id, media), id, None).log
  {
    hide RunStream, Agreement.Conforming;
    CreditIsInvisible(ToFrame(start, id, media), body, id, window);
    assert Inputs([start] + chunks + [EndFrame(count)], id, media) ==
           [Arrived(ToFrame(start, id, media))] + AsInputs(FramesFor(chunks, id, media)) + [Arrived(Frames.StreamEnd(Some(id)))];
  }

  // Any mix of successful calls on a scalar stream reaches the handler, charged or not, as data whose
  // collected bytes are those of everything said, in order, whatever was coalesced, split or flushed
  // on the way and wherever the receiver granted credit.
  lemma {:induction false} ScalarStreamArrives(gate: Option<nat>, meta: Option<Meta>, ops: seq<Op>, unbounded: bool, max: nat,
                                               body: seq<Input>, window: Option<nat>, id: string, media: string) returns (vs: seq<Value>)
    requires 1 <= max < TWO_64 && AllOpsEncodable(ops)
    requires var c := Core(0, 0, [], None, gate, [StartFrame(false, unbounded, meta)]);
      && AllDone(c, ops, max) && AllInPlace(c, ops, max) && Flush(ApplyAll(c, ops, max), max).ok
      && var sent := Flush(ApplyAll(c, ops, max), max).core.sent;
         sent != [] && Carries(body, StartFrame(false, unbounded, meta), sent[1..], id, media, window)
    ensures var start := ToFrame(StartFrame(false, unbounded, meta), id, media);
      RunStream(UNKNOWN, [Arrived(start)] + body + [Arrived(Frames.StreamEnd(Some(id)))], id, window).log ==
      [Opened(media, meta, unbounded)] + Wrap(Datas(vs)) + [Closed]
    ensures CollectFrom(Datas(vs)) == Collected(Serialize(SaidAll(ops)))
  {
    hide Frames.Checksum, Encode, Flush, ApplyAll, AllDone, AllInPlace, RunStream, CollectFrom, Serialize, SaidAll, AllOpsEncodable, AllEncodable, Carries;
    var start := StartFrame(false, unbounded, meta);
    ghost var sent := Flush(ApplyAll(Core(0, 0, [], None, gate, [start]), ops, max), max).core.sent;
    vs := WholeStream(gate, start, ops, unbounded, max);
    CollectDatas(vs);
    var chunks := Numbered(0, Scalars(vs));
    SentChunks(sent, start, chunks);
    ScalarFramesArrive(vs, meta, unbounded, |vs|, id, media);
    CarriedAsSent(body, start, chunks, if unbounded then None else Some(|vs|), id, media, window);
  }

  lemma {:induction false} SentChunks(sent: seq<Emitted>, start: Emitted, chunks: seq<Emitted>)
    requires exists last :: sent + [last] == [start] + chunks + [last]
    ensures sent != [] && sent[1..] == chunks
  {
    var last :| sent + [last] == [start] + chunks + [last];
    assert sent == (sent + [last])[..|sent|];
    assert sent == [start] + chunks;
  }

  function ItemDatas(calls: seq<ItemCall>): seq<Delivery> {
    seq(|calls|, i requires 0 <= i < |calls| => Data(calls[i].value, calls[i].meta))
  }

  // Values emitted one by one on a sequence stream, at any `max_chunk`, are handed to the reader,
  // charged or not, one by one, each with exactly its own metadata.
  lemma {:induction false} SequenceStreamArrives(gate: Option<nat>, meta: Option<Meta>, calls: seq<ItemCall>, unbounded: bool, max: nat,
                                                 body: seq<Input>, window: Option<nat>, id: string, media: string)
    requires max >= 1 && AllCallsEncodable(calls)
    requires var last := EmitItems(Core(0, 0, [], None, gate, [StartFrame(true, unbounded, meta)]), calls, max);
      && last.ok && last.core.sent != []
      && Carries(body, StartFrame(true, unbounded, meta), last.core.sent[1..], id, media, window)
    ensures var start := ToFrame(StartFrame(true, unbounded, meta), id, media);
      RunStream(UNKNOWN, [Arrived(start)] + body + [Arrived(Frames.StreamEnd(Some(id)))], id, window).log ==
      [Opened(media, meta, unbounded)] + Wrap(ItemDatas(calls)) + [Closed]
  {
    hide RunStream, Carries, Wrap, EmitItems, AllCallsEncodable, ItemFraming.AllWhole, ItemFraming.Emitted;
    var start := StartFrame(true, unbounded, meta);
    var items := ItemsOf(calls);
    var fs := ItemFraming.Emitted(items, max);
    WholeSequence(gate, start, calls, unbounded, max);
    SentChunks(EmitItems(Core(0, 0, [], None, gate, [start]), calls, max).core.sent, start, Numbered(0, fs));
    EncodedItemsAreWhole(calls);
    assert ItemFraming.Delivered(items) == ItemDatas(calls);
    SequenceFramesArrive(items, meta, unbounded, max, id, media);
    CarriedAsSent(body, start, Numbered(0, fs), if unbounded then None else Some(|fs|), id, media, window);
  }
}
