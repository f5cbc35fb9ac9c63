// The credited link's account of an arriving frame is what the demultiplexer does with a real one.
module LinkRefinement {
  import opened Prelude
  import opened Cbor
  import opened Reassembly
  import opened Demux
  import opened Credit
  import opened InputStream
  import Agreement
  import CreditLink
  import CreditTheorems
  import EndToEnd
  import Frames
  import ItemFraming
  import Output

  // The chunk does to the reassembly `a` what the link's frame stands for: it is refused, it is one
  // value, it completes one, or it leaves one unfinished.
  predicate Stands(f: CreditLink.LinkFrame, a: Option<Partial>, chunk: Frames.Frame) {
    && chunk.Chunk? && chunk.payload.Some?
    && if Frames.Refusal(chunk.payload.value, chunk.checksum).Some? then f.broken
       else if a.None? then f.last && (f.broken <==> Frames.DecodeScalar(chunk.payload.value, chunk.meta).Failed?)
       else
         var p := Push(a.value, Fragment(chunk.payload.value, chunk.meta));
         && !f.broken
         && if f.last then |p.out| == 1 && p.out[0].Data? && !IsContinuation(p.state)
            else p.out == [] && IsContinuation(p.state)
  }

  // The reassembly once the chunk has gone through it.
  function Through(a: Option<Partial>, chunk: Frames.Frame): Option<Partial> {
    if a.None? || !chunk.Chunk? || chunk.payload.None? || Frames.Refusal(chunk.payload.value, chunk.checksum).Some? then a
    else Some(Push(a.value, Fragment(chunk.payload.value, chunk.meta)).state)
  }

  function AssemblyOf(s: StreamState): Option<Partial> {
    if s.assembly.Some? then Some(s.assembly.value.partial) else None
  }

  // One window, one reassembly.
  predicate Mirrors(l: CreditLink.Link, s: StreamState) {
    && s.open && s.window == Some(l.reader.emission.window)
    && (if s.assembly.Some? then s.assembly.value.live && (l.mid <==> IsContinuation(s.assembly.value.partial)) else !l.mid)
  }

  predicate AlikeOne(d: Delivery, slot: Slot) {
    d.Data? <==> slot.Good?
  }

  // What was handed over, and how many of the failures are violations of the window.
  predicate AlikeAll(out: seq<Delivery>, slots: seq<Slot>, violations: int) {
    && |out| == |slots|
    && (forall i :: 0 <= i < |out| ==> AlikeOne(out[i], slots[i]))
    && violations == if out == [Failed(CreditViolation)] then 1 else 0
  }

  lemma {:induction false} ArrivalRefines(l: CreditLink.Link, s: StreamState, f: CreditLink.LinkFrame, chunk: Frames.Frame, credit: nat)
      returns (out: seq<Delivery>, slots: seq<Slot>)
    requires Mirrors(l, s) && Stands(f, AssemblyOf(s), chunk)
    ensures l.reader.emission.window > 0 ==> AssemblyOf(ReceiveChunk(s, chunk, Some(credit))) == Through(AssemblyOf(s), chunk)
    ensures var t := ReceiveChunk(s, chunk, Some(credit)); var m := CreditLink.ArriveFrame(l, f);
      && Mirrors(m, t)
      && t.log == s.log + Wrap(out) && m.reader.queue == l.reader.queue + slots
      && AlikeAll(out, slots, m.violations - l.violations)
      && t.fragmentCredits - s.fragmentCredits == |m.reader.emission.grants| - |l.reader.emission.grants|
  {
    hide Push, Frames.Checksum;
    if s.window.value <= 0 {
      out, slots := [Failed(CreditViolation)], [Bad];
    } else if f.broken {
      out := [if Frames.Refusal(chunk.payload.value, chunk.checksum).Some?
              then Failed(Frames.Refusal(chunk.payload.value, chunk.checksum).value)
              else Frames.DecodeScalar(chunk.payload.value, chunk.meta)];
      slots := [Bad];
    } else if s.assembly.None? {
      out, slots := [Frames.DecodeScalar(chunk.payload.value, chunk.meta)], [Good(f.item)];
    } else {
      out := Push(s.assembly.value.partial, Fragment(chunk.payload.value, chunk.meta)).out;
      slots := if f.last then [Good(f.item)] else [];
      assert s.log + Wrap([]) == s.log;
    }
  }

  // What the reader's emitter grants in going from one state to the next.
  function Granting(e: Emission, f: Emission): nat {
    if f.window > e.window then f.window - e.window else 0
  }

  // The window grows by what is granted, and it is granted in one frame.
  predicate GrantsOnce(e: Emission, f: Emission) {
    && f.window == e.window + Granting(e, f)
    && f.grants == e.grants + if Granting(e, f) == 0 then [] else [Granting(e, f)]
  }

  // Taking an item extends the window by what the reader's emitter grants,
  lemma {:induction false} TakingRefines(l: CreditLink.Link, s: StreamState, id: string, credit: Option<nat>, batch: nat, granting: bool)
    requires Mirrors(l, s) && l.reader.queue != []
    ensures var m := CreditLink.Receive(l, batch, granting); var n := Granting(l.reader.emission, m.reader.emission);
      && GrantsOnce(l.reader.emission, m.reader.emission)
      && Mirrors(m, StepInput(s, Granted(id, n), id, credit)) && AssemblyOf(StepInput(s, Granted(id, n), id, credit)) == AssemblyOf(s)
  {
  }

  // and so does the flush before it blocks.
  lemma {:induction false} BlockingRefines(l: CreditLink.Link, s: StreamState, id: string, credit: Option<nat>, granting: bool)
    requires Mirrors(l, s)
    ensures var m := l.(reader := Park(l.reader, granting)); var n := Granting(l.reader.emission, m.reader.emission);
      && GrantsOnce(l.reader.emission, m.reader.emission)
      && Mirrors(m, StepInput(s, Granted(id, n), id, credit)) && AssemblyOf(StepInput(s, Granted(id, n), id, credit)) == AssemblyOf(s)
  {
  }

  // A fragment of an item as `emit_list_item` cuts it stands for the link's frame at its place,
  lemma {:induction false} FragmentStands(e: Bytes, v: Value, meta: Option<Meta>, k: nat, max: nat, index: nat, item: nat, id: string, media: string)
    requires ItemFraming.IsWhole(e, v) && max >= 1 && k < |e|
    ensures |ItemFraming.Remaining(e, meta, k, max)| >= 1
    ensures var next := ItemFraming.Remaining(e, meta, k, max)[0]; var k' := k + Min(|e| - k, max);
      var chunk := EndToEnd.ToFrame(Output.Chunk(index, next), id, media);
      && Stands(CreditLink.LinkFrame(item, k == 0, k' == |e|, false), Some(ItemFraming.Received(e, meta, k)), chunk)
      && Through(Some(ItemFraming.Received(e, meta, k)), chunk) == Some(if k' < |e| then ItemFraming.Received(e, meta, k') else EMPTY)
  {
    hide Push, Frames.Checksum;
    ItemFraming.NextFragment(e, v, meta, k, max);
  }

  // and a scalar chunk for a frame that is an item by itself.
  lemma {:induction false} ScalarStands(v: Value, index: nat, item: nat, id: string, media: string)
    requires Encodable(v)
    ensures Stands(CreditLink.LinkFrame(item, true, true, false), None, EndToEnd.ToFrame(Output.Chunk(index, Output.Scalar(v)), id, media))
  {
    hide Frames.Checksum;
    RoundTrip(v, []);
    assert Encode(v) + [] == Encode(v);
  }

  // ---- Whole runs ----

  // Chunk by chunk, a stream plays the frames of the link.
  predicate Plays(a: Option<Partial>, fs: seq<CreditLink.LinkFrame>, chunks: seq<Frames.Frame>)
    decreases |fs|
  {
    && |fs| == |chunks|
    && (fs != [] ==> Stands(fs[0], a, chunks[0]) && Plays(Through(a, chunks[0]), fs[1..], chunks[1..]))
  }

  predicate AllChunksOf(chunks: seq<Frames.Frame>, id: string) {
    forall i :: 0 <= i < |chunks| ==> chunks[i].Chunk? && KeyOf(chunks[i]) == Some(id)
  }

  // What one event of the link is to the demultiplexer: a frame's arrival, a grant, or nothing.
  function InputOf(c: CreditLink.Config, l: CreditLink.Link, e: CreditLink.Event, chunks: seq<Frames.Frame>, id: string): seq<Input>
    requires CreditLink.Enabled(c, l, e) && |chunks| == |c.frames|
  {
    match e
    case Arrive => [Arrived(chunks[l.arrived])]
    case Recv => [Granted(id, Granting(l.reader.emission, CreditLink.Step(c, l, e).reader.emission))]
    case Block => [Granted(id, Granting(l.reader.emission, CreditLink.Step(c, l, e).reader.emission))]
    case _ => []
  }

  // The demultiplexer's view of a run: its chunks with the reader's grants woven in.
  function Body(c: CreditLink.Config, l: CreditLink.Link, run: seq<CreditLink.Event>, chunks: seq<Frames.Frame>, id: string): seq<Input>
    requires CreditLink.Legal(c, l, run) && |chunks| == |c.frames|
    decreases |run|
  {
    if run == [] then []
    else InputOf(c, l, run[0], chunks, id) + Body(c, CreditLink.Step(c, l, run[0]), run[1..], chunks, id)
  }

  predicate Follows(c: CreditLink.Config, l: CreditLink.Link, s: StreamState, chunks: seq<Frames.Frame>) {
    && |chunks| == |c.frames| && l.arrived <= |c.frames|
    && Mirrors(l, s) && Plays(AssemblyOf(s), c.frames[l.arrived..], chunks[l.arrived..])
  }

  lemma {:induction false} ArriveFollows(c: CreditLink.Config, l: CreditLink.Link, s: StreamState, chunks: seq<Frames.Frame>,
                                         id: string, credit: nat)
    requires Follows(c, l, s, chunks) && AllChunksOf(chunks, id) && CreditLink.Enabled(c, l, CreditLink.Arrive)
    requires l.reader.emission.window > 0
    ensures Follows(c, CreditLink.Step(c, l, CreditLink.Arrive), StepInput(s, Arrived(chunks[l.arrived]), id, Some(credit)), chunks)
    ensures CreditLink.Step(c, l, CreditLink.Arrive).arrived == l.arrived + 1
  {
    hide Push, Frames.Checksum, Stands, Through, Plays;
    var fs, rest := c.frames[l.arrived..], chunks[l.arrived..];
    PlaysOn(AssemblyOf(s), fs, rest);
    assert fs[0] == c.frames[l.arrived] && rest[0] == chunks[l.arrived];
    var out, slots := ArrivalRefines(l, s, fs[0], rest[0], credit);
    assert fs[1..] == c.frames[l.arrived + 1..] && rest[1..] == chunks[l.arrived + 1..];
    ArrivesByOne(c, l);
    IsReceived(s, rest[0], id, credit);
  }

  lemma {:induction false} PlaysOn(a: Option<Partial>, fs: seq<CreditLink.LinkFrame>, chunks: seq<Frames.Frame>)
    requires Plays(a, fs, chunks) && fs != []
    ensures |chunks| == |fs| && Stands(fs[0], a, chunks[0]) && Plays(Through(a, chunks[0]), fs[1..], chunks[1..])
  {
  }

  lemma {:induction false} ArrivesByOne(c: CreditLink.Config, l: CreditLink.Link)
    requires CreditLink.Enabled(c, l, CreditLink.Arrive)
    ensures CreditLink.Step(c, l, CreditLink.Arrive) == CreditLink.ArriveFrame(l, c.frames[l.arrived])
    ensures CreditLink.Step(c, l, CreditLink.Arrive).arrived == l.arrived + 1
  {
  }

  lemma {:induction false} IsReceived(s: StreamState, chunk: Frames.Frame, id: string, credit: nat)
    requires chunk.Chunk? && KeyOf(chunk) == Some(id)
    ensures StepInput(s, Arrived(chunk), id, Some(credit)) == ReceiveChunk(s, chunk, Some(credit))
  {
  }

  // One event: the demultiplexer's state follows the link's, and its sender conforms.
  lemma {:induction false} EventFollows(c: CreditLink.Config, l: CreditLink.Link, e: CreditLink.Event, s: StreamState,
                                        chunks: seq<Frames.Frame>, id: string, credit: nat)
    requires Follows(c, l, s, chunks) && AllChunksOf(chunks, id) && CreditLink.Enabled(c, l, e)
    requires e == CreditLink.Arrive ==> l.reader.emission.window > 0
    ensures var i := InputOf(c, l, e, chunks, id); var m := CreditLink.Step(c, l, e);
      && Follows(c, m, Agreement.Feed(s, i, id, Some(credit)), chunks)
      && Agreement.Conforming(s, i, id, Some(credit)) && Agreement.AllBody(i, id)
      && Agreement.FramesOf(i) == chunks[l.arrived..m.arrived]
  {
    hide Push, Frames.Checksum, Plays;
    match e
    case Arrive =>
      ArriveFollows(c, l, s, chunks, id, credit);
      FeedOne(s, Arrived(chunks[l.arrived]), id, Some(credit));
      assert chunks[l.arrived..l.arrived + 1] == [chunks[l.arrived]];
    case Recv =>
      TakingRefines(l, s, id, Some(credit), c.batch, c.granting);
      FeedOne(s, InputOf(c, l, e, chunks, id)[0], id, Some(credit));
    case Block =>
      BlockingRefines(l, s, id, Some(credit), c.granting);
      FeedOne(s, InputOf(c, l, e, chunks, id)[0], id, Some(credit));
    case _ =>
  }

  lemma {:induction false} FeedOne(s: StreamState, i: Input, id: string, credit: Option<nat>)
    ensures Agreement.Feed(s, [i], id, credit) == StepInput(s, i, id, credit)
    ensures Agreement.FramesOf([i]) == Agreement.FrameOf(i)
    ensures (i.Arrived? && i.frame.Chunk? && s.window.Some? ==> s.window.value > 0) ==> Agreement.Conforming(s, [i], id, credit)
  {
    assert [i][1..] == [];
    assert Agreement.FrameOf(i) + [] == Agreement.FrameOf(i);
  }

  lemma {:induction false} FeedAppend(s: StreamState, a: seq<Input>, b: seq<Input>, id: string, credit: Option<nat>)
    ensures Agreement.Feed(s, a + b, id, credit) == Agreement.Feed(Agreement.Feed(s, a, id, credit), b, id, credit)
    ensures Agreement.Conforming(s, a + b, id, credit) <==>
            Agreement.Conforming(s, a, id, credit) && Agreement.Conforming(Agreement.Feed(s, a, id, credit), b, id, credit)
    ensures Agreement.FramesOf(a + b) == Agreement.FramesOf(a) + Agreement.FramesOf(b)
    decreases |a|
  {
    hide StepInput;
    if a == [] {
      assert a + b == b;
    } else {
      assert (a + b)[1..] == a[1..] + b;
      FeedAppend(StepInput(s, a[0], id, credit), a[1..], b, id, credit);
    }
  }

  // A run of the link without a violation is a run of the demultiplexer whose sender conforms.
  lemma {:induction false} RunFollows(c: CreditLink.Config, l: CreditLink.Link, run: seq<CreditLink.Event>, s: StreamState,
                                      chunks: seq<Frames.Frame>, id: string, credit: nat)
    requires Follows(c, l, s, chunks) && AllChunksOf(chunks, id)
    requires CreditLink.Legal(c, l, run) && CreditLink.Run(c, l, run).violations == l.violations
    ensures var body := Body(c, l, run, chunks, id); var m := CreditLink.Run(c, l, run);
      && l.arrived <= m.arrived && Follows(c, m, Agreement.Feed(s, body, id, Some(credit)), chunks)
      && Agreement.Conforming(s, body, id, Some(credit)) && Agreement.AllBody(body, id)
      && Agreement.FramesOf(body) == chunks[l.arrived..m.arrived]
    decreases |run|
  {
    hide Plays, Mirrors, Agreement.AllBody, StepInput, InputOf, AllChunksOf;
    if run == [] {
      assert Agreement.AllBody([], id) by { NoBody(id); }
    } else {
      CreditTheorems.OpenAtArrival(c, l, run);
      EventFollows(c, l, run[0], s, chunks, id, credit);
      var i := InputOf(c, l, run[0], chunks, id);
      var m := CreditLink.Step(c, l, run[0]);
      var t := Agreement.Feed(s, i, id, Some(credit));
      RunFollows(c, m, run[1..], t, chunks, id, credit);
      var rest := Body(c, m, run[1..], chunks, id);
      FeedAppend(s, i, rest, id, Some(credit));
      BodyJoin(i, rest, id);
      var last := CreditLink.Run(c, l, run).arrived;
      assert chunks[l.arrived..m.arrived] + chunks[m.arrived..last] == chunks[l.arrived..last];
    }
  }

  lemma {:induction false} NoBody(id: string)
    ensures Agreement.AllBody([], id)
  {
  }

  lemma {:induction false} BodyJoin(a: seq<Input>, b: seq<Input>, id: string)
    requires Agreement.AllBody(a, id) && Agreement.AllBody(b, id)
    ensures Agreement.AllBody(a + b, id)
  {
  }
}
