// What goes wrong shows: a refused, uncredited or unfinished chunk is an error to the reader, and a
// stream with an error in it is never collected as if it were whole.
module Integrity {
  import opened Prelude
  import opened Reassembly
  import opened Demux
  import opened EndToEnd
  import Agreement
  import Cbor
  import Checksums
  import Frames
  import PeerDemux
  import Utf8

  // ---- Collecting ----

  predicate AllData(out: seq<Delivery>) {
    forall i :: 0 <= i < |out| ==> out[i].Data?
  }

  // The error that comes first.
  predicate FailsFirst(out: seq<Delivery>, e: StreamError) {
    exists i :: 0 <= i < |out| && out[i] == Failed(e) && AllData(out[..i])
  }

  lemma {:induction false} CollectFailsIff(out: seq<Delivery>, e: StreamError)
    ensures CollectFrom(out) == Failure(e) <==> FailsFirst(out, e)
  {
    if out != [] {
      CollectFailsIff(out[1..], e);
      if out[0].Failed? {
        assert out[0] == Failed(e) ==> AllData(out[..0]);
        forall i | 0 < i < |out| ensures !AllData(out[..i]) {
          assert out[..i][0] == out[0];
        }
      } else {
        LaterFailure(out, e);
      }
    }
  }

  lemma {:induction false} DataLater(out: seq<Delivery>)
    requires out != [] && AllData(out)
    ensures AllData(out[1..])
  {
  }

  lemma {:induction false} LaterFailure(out: seq<Delivery>, e: StreamError)
    requires out != [] && out[0].Data?
    ensures FailsFirst(out, e) <==> FailsFirst(out[1..], e)
  {
    if FailsFirst(out, e) {
      var i :| 0 <= i < |out| && out[i] == Failed(e) && AllData(out[..i]);
      assert out[1..][i - 1] == out[i];
      assert out[1..][..i - 1] == out[..i][1..];
      DataLater(out[..i]);
    }
    if FailsFirst(out[1..], e) {
      var i :| 0 <= i < |out[1..]| && out[1..][i] == Failed(e) && AllData(out[1..][..i]);
      assert out[..i + 1] == [out[0]] + out[1..][..i];
      assert out[i + 1] == Failed(e) && AllData(out[..i + 1]);
    }
  }

  // Byte strings and texts count for the bytes they hold, other values for their encoding.
  function Held(v: Cbor.Value): Bytes {
    match v
    case ByteString(bytes) => bytes
    case Text(text) => Utf8.Encode(text)
    case _ => Cbor.Encode(v)
  }

  // The bytes of the values, one after the other.
  function Joined(out: seq<Delivery>): Bytes {
    if out == [] || out[|out| - 1].Failed? then []
    else Joined(out[..|out| - 1]) + Held(out[|out| - 1].value)
  }

  lemma {:induction false} HeldIsCollected(v: Cbor.Value)
    ensures Held(v) == ValueBytes(v)
  {
  }

  lemma {:induction false} JoinedCons(d: Delivery, out: seq<Delivery>)
    requires d.Data? && AllData(out)
    ensures Joined([d] + out) == Held(d.value) + Joined(out)
  {
    hide Held;
    if out == [] {
      assert [d] + out == [d] && [d][..0] == [];
    } else {
      assert ([d] + out)[..|out|] == [d] + out[..|out| - 1];
      JoinedCons(d, out[..|out| - 1]);
    }
  }

  lemma {:induction false} CollectsAll(out: seq<Delivery>)
    requires AllData(out)
    ensures CollectFrom(out) == Collected(Joined(out))
  {
    if out != [] {
      CollectsAll(out[1..]);
      hide Held, ValueBytes;
      HeldIsCollected(out[0].value);
      JoinedCons(out[0], out[1..]);
      assert out == [out[0]] + out[1..];
    }
  }

  lemma {:induction false} FirstFailure(out: seq<Delivery>) returns (e: StreamError)
    requires !AllData(out)
    ensures FailsFirst(out, e)
  {
    if out[0].Failed? {
      e := out[0].error;
      assert AllData(out[..0]);
    } else {
      assert !AllData(out[1..]) by {
        var i :| 0 <= i < |out| && !out[i].Data?;
        assert out[1..][i - 1] == out[i];
      }
      e := FirstFailure(out[1..]);
      LaterFailure(out, e);
    }
  }

  // A collection succeeds exactly when nothing failed, and then it is everything, in order; otherwise it
  // is the first failure.
  lemma {:induction false} CollectIs(out: seq<Delivery>)
    ensures AllData(out) ==> CollectFrom(out) == Collected(Joined(out))
    ensures !AllData(out) ==> exists e :: FailsFirst(out, e) && CollectFrom(out) == Failure(e)
  {
    if AllData(out) {
      CollectsAll(out);
    } else {
      var e := FirstFailure(out);
      CollectFailsIff(out, e);
    }
  }

  // ---- Errors on a stream ----

  // What the reader was handed, in order.
  function Deliveries(log: seq<Event>): seq<Delivery> {
    if log == [] then []
    else
      var rest := Deliveries(log[..|log| - 1]);
      if log[|log| - 1].Handed? then rest + [log[|log| - 1].delivery] else rest
  }

  predicate HasFailure(log: seq<Event>) {
    exists i :: 0 <= i < |log| && log[i].Handed? && log[i].delivery.Failed?
  }

  lemma {:induction false} FailureIsDelivered(log: seq<Event>)
    ensures HasFailure(log) <==> !AllData(Deliveries(log))
  {
    if log != [] {
      var front, last := log[..|log| - 1], log[|log| - 1];
      FailureIsDelivered(front);
      var rest := Deliveries(front);
      assert forall i :: 0 <= i < |rest| ==> Deliveries(log)[i] == rest[i];
      if last.Handed? {
        assert Deliveries(log)[|rest|] == last.delivery;
      }
      if HasFailure(front) {
        var i :| 0 <= i < |front| && front[i].Handed? && front[i].delivery.Failed?;
        assert log[i] == front[i];
      }
    }
  }

  predicate Extends(a: seq<Event>, b: seq<Event>) {
    |a| <= |b| && b[..|a|] == a
  }

  lemma {:induction false} FailureStays(a: seq<Event>, b: seq<Event>)
    requires Extends(a, b) && HasFailure(a)
    ensures HasFailure(b)
  {
    var i :| 0 <= i < |a| && a[i].Handed? && a[i].delivery.Failed?;
    assert b[i] == b[..|a|][i];
  }

  lemma {:induction false} StepExtends(s: StreamState, i: Input, id: string, credit: Option<nat>)
    ensures Extends(s.log, StepInput(s, i, id, credit).log)
  {
    hide Push, Frames.Checksum, Frames.DecodeScalar, Frames.RemoteFailure, AtStreamEnd;
  }

  lemma {:induction false} RunExtends(s: StreamState, inputs: seq<Input>, id: string, credit: Option<nat>)
    ensures Extends(s.log, RunStream(s, inputs, id, credit).log)
    decreases |inputs|
  {
    hide StepInput;
    if inputs != [] {
      var next := StepInput(s, inputs[0], id, credit);
      StepExtends(s, inputs[0], id, credit);
      RunExtends(next, inputs[1..], id, credit);
      var end := RunStream(s, inputs, id, credit).log;
      if !Ends(inputs[0]) {
        assert end[..|s.log|] == end[..|next.log|][..|s.log|];
      }
    }
  }

  // Why a chunk is an error to its reader: no credit left for it, or a payload whose checksum is missing
  // or another's.
  predicate Spoiled(s: StreamState, f: Frames.Frame) {
    && f.Chunk?
    && ((s.window.Some? && s.window.value <= 0)
        || (f.payload.Some? && f.checksum != Some(Frames.Checksum(f.payload.value))))
  }

  // Exactly one failure is handed over, the credit is charged, and nothing else changes: nothing of the
  // payload is delivered or kept.
  lemma {:induction false} SpoiledChunkFails(s: StreamState, f: Frames.Frame, id: string, credit: Option<nat>)
    requires s.open && Spoiled(s, f) && KeyOf(f) == Some(id)
    ensures var t := StepInput(s, Arrived(f), id, credit);
      && |t.log| == |s.log| + 1 && t.log[..|s.log|] == s.log
      && t.log[|s.log|] == Handed(Failed(
           if s.window.Some? && s.window.value <= 0 then CreditViolation
           else if f.checksum.None? then MissingChecksum
           else ChecksumMismatch(f.checksum.value, Frames.Checksum(f.payload.value))))
      && t.assembly == s.assembly && t.open && t.fragmentCredits == s.fragmentCredits
      && t.window == if s.window.Some? then Some(s.window.value - 1) else None
  {
    hide Push, Frames.Checksum;
  }

  // An intact scalar chunk is handed over as its first value and its metadata, whatever follows the value.
  lemma {:induction false} IntactChunkArrives(s: StreamState, v: Cbor.Value, more: Bytes, meta: Option<Meta>, id: string, credit: Option<nat>)
    requires s.open && s.assembly.None? && Cbor.Encodable(v) && (s.window.Some? ==> s.window.value > 0)
    ensures var payload := Cbor.Encode(v) + more;
      var t := StepInput(s, Arrived(Frames.Chunk(Some(id), Some(payload), Some(Frames.Checksum(payload)), meta)), id, credit);
      t.log == s.log + [Handed(Data(v, meta))] && t.open && t.assembly.None?
  {
    hide Frames.Checksum;
    Cbor.RoundTrip(v, more);
  }

  // A chunk one byte of which was altered on the way is an error to its reader.
  lemma {:induction false} AlteredChunkFails(s: StreamState, sent: Bytes, came: Bytes, at: nat, meta: Option<Meta>, id: string, credit: Option<nat>)
    requires s.open && Checksums.OneByteApart(sent, came, at)
    ensures var f := Frames.Chunk(Some(id), Some(came), Some(Frames.Checksum(sent)), meta);
      Spoiled(s, f) && HasFailure(StepInput(s, Arrived(f), id, credit).log)
  {
    Checksums.OneAlteredByteShows(sent, came, at);
    var f := Frames.Chunk(Some(id), Some(came), Some(Frames.Checksum(sent)), meta);
    SpoiledChunkFails(s, f, id, credit);
    hide Frames.Checksum, StepInput;
    var t := StepInput(s, Arrived(f), id, credit);
    assert t.log[|s.log|].Handed?;
  }

  // A STREAM_END in the middle of an item is an error to its reader.
  lemma {:induction false} UnfinishedItemFails(s: StreamState, id: string, credit: Option<nat>)
    requires s.open && s.assembly.Some? && s.assembly.value.partial.buf != []
    ensures StepInput(s, Arrived(Frames.StreamEnd(Some(id))), id, credit).log ==
            s.log + [Handed(Failed(Truncated(|s.assembly.value.partial.buf|))), Closed]
  {
  }

  // A frame that is an error to the reader of a stream in this state.
  predicate Fails(s: StreamState, f: Frames.Frame, id: string) {
    && s.open
    && ((Spoiled(s, f) && KeyOf(f) == Some(id))
        || (f == Frames.StreamEnd(Some(id)) && s.assembly.Some? && s.assembly.value.partial.buf != [])
        || f.Err?)
  }

  lemma {:induction false} FailingFrame(s: StreamState, f: Frames.Frame, id: string, credit: Option<nat>)
    requires Fails(s, f, id)
    ensures HasFailure(StepInput(s, Arrived(f), id, credit).log)
  {
    var t := StepInput(s, Arrived(f), id, credit);
    if Spoiled(s, f) && KeyOf(f) == Some(id) {
      SpoiledChunkFails(s, f, id, credit);
    } else if f.Err? {
      assert t.log == s.log + [Handed(Failed(Frames.RemoteFailure(f)))] + [Closed];
    } else {
      UnfinishedItemFails(s, id, credit);
    }
    hide StepInput, Spoiled, Frames.Checksum, Frames.RemoteFailure;
    assert t.log[|s.log|].Handed?;
  }

  // Whatever comes before and after such a frame, what the reader was handed is never collected as bytes.
  lemma {:induction false} FailureIsNeverCollected(s: StreamState, f: Frames.Frame, rest: seq<Input>, id: string, credit: Option<nat>)
    requires Fails(s, f, id)
    ensures CollectFrom(Deliveries(RunStream(s, [Arrived(f)] + rest, id, credit).log)).Failure?
  {
    FailingFrame(s, f, id, credit);
    var next := StepInput(s, Arrived(f), id, credit);
    var log := RunStream(s, [Arrived(f)] + rest, id, credit).log;
    assert ([Arrived(f)] + rest)[1..] == rest;
    RunExtends(next, rest, id, credit);
    assert Extends(next.log, log);
    FailureStays(next.log, log);
    FailureIsDelivered(log);
    CollectIs(Deliveries(log));
  }

  // ---- ERR ----

  // The failure an ERR frame stands for: what the other side reported, or that the frame does not say.
  predicate Reports(f: Frames.Frame, e: StreamError)
    requires f.Err?
  {
    if f.code.Some? && f.message.Some? && f.badAttribution.None? then e == Remote(f.code.value, f.message.value)
    else
      && e.Protocol?
      && (f.code.None? ==> e.message == "ERR frame missing required text code")
      && (f.code.Some? && f.message.None? ==> e.message == "ERR frame missing required text message")
      && (f.code.Some? && f.message.Some? ==> e.message == f.badAttribution.value)
  }

  // An ERR ends a stream in both demultiplexers alike: the items so far, its failure, and no more.
  lemma {:induction false} ErrEndsBoth(start: Frames.Frame, body: seq<Input>, err: Frames.Frame, id: string, credit: Option<nat>)
      returns (e: StreamError)
    requires start.StreamStart? && start.id == Some(id) && Agreement.AllBody(body, id) && err.Err?
    requires Agreement.Conforming(Start(UNKNOWN, start, credit), body, id, credit)
    ensures Reports(err, e)
    ensures var multi := RunStream(UNKNOWN, [Arrived(start)] + body + [Arrived(err)], id, credit);
      var single := PeerDemux.PeerRun(PeerDemux.Initial(credit.Some?), [start] + Agreement.FramesOf(body) + [err]);
      && multi.log == [Opened(Frames.OrElse(start.media, ""), start.startMeta, Frames.OrElse(start.unbounded, false))]
                      + Wrap(Agreement.DataOf(single.items)) + [Closed]
      && single.items != [] && single.items[|single.items| - 1] == PeerDemux.PeerData(Failed(e))
      && !single.running
  {
    e := Frames.RemoteFailure(err);
    var s, p, opening := Agreement.AfterBody(start, body, err, id, credit);
    hide Push, Frames.RemoteFailure;
    assert [Arrived(err)][1..] == [] && [err][1..] == [];
    Agreement.SameHanded([opening], p.items, [Failed(e)]);
    assert Wrap([Failed(e)]) == [Handed(Failed(e))];
  }

  // ---- Log lines of a peer response ----

  function LogLines(frames: seq<Frames.Frame>): seq<string> {
    if frames == [] then []
    else
      var rest := LogLines(frames[..|frames| - 1]);
      if frames[|frames| - 1].Log? then rest + [frames[|frames| - 1].text] else rest
  }

  function LinesOf(items: seq<PeerDemux.PeerItem>): seq<string> {
    if items == [] then []
    else
      var rest := LinesOf(items[..|items| - 1]);
      if items[|items| - 1].PeerLog? then rest + [items[|items| - 1].text] else rest
  }

  lemma {:induction false} NoLines(items: seq<PeerDemux.PeerItem>, out: seq<Delivery>)
    ensures LinesOf(items + PeerDemux.PeerWrap(out)) == LinesOf(items)
    decreases |out|
  {
    if out == [] {
      assert items + PeerDemux.PeerWrap(out) == items;
    } else {
      var all := items + PeerDemux.PeerWrap(out);
      assert all[..|all| - 1] == items + PeerDemux.PeerWrap(out[..|out| - 1]);
      NoLines(items, out[..|out| - 1]);
    }
  }

  lemma {:induction false} FrameLines(p: PeerDemux.PeerState, f: Frames.Frame)
    ensures var q := PeerDemux.PeerStep(p, f);
      && |p.items| <= |q.items| && q.items[..|p.items|] == p.items
      && LinesOf(q.items) == LinesOf(p.items) + (if f.Log? then [f.text] else [])
  {
    hide Push, Frames.Refusal, Frames.DecodeScalar, Frames.RemoteFailure, AtStreamEnd;
    var q := PeerDemux.PeerStep(p, f);
    match f
    case Log(text) =>
      assert (p.items + [PeerDemux.PeerLog(text)])[..|p.items|] == p.items;
    case _ =>
      var out := GivenBy(p, f);
      NoLines(p.items, out);
  }

  // What a frame other than a log line adds to the items.
  lemma {:induction false} GivenBy(p: PeerDemux.PeerState, f: Frames.Frame) returns (out: seq<Delivery>)
    requires !f.Log?
    ensures PeerDemux.PeerStep(p, f).items == p.items + PeerDemux.PeerWrap(out)
  {
    hide Push, Frames.Refusal, Frames.DecodeScalar, Frames.RemoteFailure, AtStreamEnd;
    assert p.items + PeerDemux.PeerWrap([]) == p.items;
    match f
    case Chunk(_, payload, checksum, meta) =>
      if payload.None? {
        out := [];
      } else if Frames.Refusal(payload.value, checksum).Some? {
        out := [Failed(Frames.Refusal(payload.value, checksum).value)];
      } else if p.assembly.None? {
        out := [Frames.DecodeScalar(payload.value, meta)];
      } else {
        out := Push(p.assembly.value, Fragment(payload.value, meta)).out;
      }
    case StreamEnd(_) => out := if p.assembly.Some? then AtStreamEnd(p.assembly.value) else [];
    case End => out := if p.assembly.Some? then AtStreamEnd(p.assembly.value) else [];
    case Err(_, _, _) => out := [Failed(Frames.RemoteFailure(f))];
    case _ => out := [];
  }

  // The log lines of a response are handed over each where it came among the items.
  lemma {:induction false} LinesInPlace(p: PeerDemux.PeerState, frames: seq<Frames.Frame>)
    ensures var q := Agreement.PeerFeed(p, frames);
      && |p.items| <= |q.items| && q.items[..|p.items|] == p.items
      && LinesOf(q.items) == LinesOf(p.items) + LogLines(frames)
    decreases |frames|
  {
    hide PeerDemux.PeerStep;
    if frames == [] {
      assert LinesOf(p.items) + [] == LinesOf(p.items);
    } else {
      var n := |frames| - 1;
      LinesInPlace(p, frames[..n]);
      var mid := Agreement.PeerFeed(p, frames[..n]);
      assert frames == frames[..n] + [frames[n]];
      Agreement.PeerFeedAppend(p, frames[..n], [frames[n]]);
      assert [frames[n]][1..] == [];
      FrameLines(mid, frames[n]);
      var q := PeerDemux.PeerStep(mid, frames[n]);
      assert q.items[..|p.items|] == q.items[..|mid.items|][..|p.items|];
    }
  }

  // ---- Readers and announcements ----

  // Whether the log of a stream leaves a reader waiting; None if it makes no sense: something handed over
  // or closed without a reader, or a reader opened before the last was closed.
  function WaitsFor(log: seq<Event>): Option<bool> {
    if log == [] then Some(false)
    else match log[|log| - 1]
      case Opened(_, _, _) => if WaitsFor(log[..|log| - 1]) == Some(false) then Some(true) else None
      case Handed(_) => if WaitsFor(log[..|log| - 1]) == Some(true) then Some(true) else None
      case Closed => if WaitsFor(log[..|log| - 1]) == Some(true) then Some(false) else None
  }

  predicate InStep(s: StreamState) {
    WaitsFor(s.log) == Some(s.open)
  }

  lemma {:induction false} WaitsAfter(log: seq<Event>, e: Event)
    ensures WaitsFor(log + [e]) ==
      match e
      case Opened(_, _, _) => if WaitsFor(log) == Some(false) then Some(true) else None
      case Handed(_) => if WaitsFor(log) == Some(true) then Some(true) else None
      case Closed => if WaitsFor(log) == Some(true) then Some(false) else None
  {
    assert (log + [e])[..|log|] == log;
  }

  lemma {:induction false} HandInStep(s: StreamState, out: seq<Delivery>)
    requires InStep(s) && s.open
    ensures InStep(Hand(s, out)) && Hand(s, out).open
    decreases |out|
  {
    hide WaitsFor;
    if out == [] {
      assert s.log + Wrap(out) == s.log;
    } else {
      var front := out[..|out| - 1];
      HandInStep(s, front);
      WaitsAfter(Hand(s, front).log, Handed(out[|out| - 1]));
      assert s.log + Wrap(out) == (s.log + Wrap(front)) + [Handed(out[|out| - 1])];
    }
  }

  lemma {:induction false} CloseInStep(s: StreamState)
    requires InStep(s)
    ensures InStep(Close(s)) && !Close(s).open
  {
    WaitsAfter(s.log, Closed);
    hide WaitsFor;
  }

  lemma {:induction false} ChunkInStep(s: StreamState, f: Frames.Frame, credit: Option<nat>)
    requires InStep(s) && f.Chunk?
    ensures InStep(ReceiveChunk(s, f, credit))
  {
    var charged := if s.window.Some? then s.(window := Some(s.window.value - 1)) else s;
    hide WaitsFor, Push, Frames.Refusal, Frames.DecodeScalar;
    if s.open {
      HandInStep(charged, [Failed(CreditViolation)]);
      if f.payload.Some? {
        var refusal := Frames.Refusal(f.payload.value, f.checksum);
        if refusal.Some? {
          HandInStep(charged, [Failed(refusal.value)]);
        } else if s.assembly.None? {
          HandInStep(charged, [Frames.DecodeScalar(f.payload.value, f.meta)]);
        } else {
          var pushed := Push(s.assembly.value.partial, Fragment(f.payload.value, f.meta));
          HandInStep(charged.(assembly := Some(s.assembly.value.(partial := pushed.state))), pushed.out);
        }
      }
    }
  }

  lemma {:induction false} StepInStep(s: StreamState, i: Input, id: string, credit: Option<nat>)
    requires InStep(s)
    ensures InStep(StepInput(s, i, id, credit)) && (Ends(i) ==> !StepInput(s, i, id, credit).open)
  {
    hide WaitsFor, ReceiveChunk, AtStreamEnd, Frames.RemoteFailure;
    CloseInStep(s);
    if i.Arrived? {
      var f := i.frame;
      match f
      case StreamStart(_, media, meta, _, unbounded) =>
        WaitsAfter(Close(s).log, Opened(Frames.OrElse(media, ""), meta, Frames.OrElse(unbounded, false)));
      case Chunk(_, _, _, _) => ChunkInStep(s, f, credit);
      case StreamEnd(_) =>
        if s.assembly.Some? && s.open {
          HandInStep(s, AtStreamEnd(s.assembly.value.partial));
          CloseInStep(Hand(s, AtStreamEnd(s.assembly.value.partial)).(assembly := None));
        }
      case Err(_, _, _) =>
        if s.open {
          HandInStep(s, [Failed(Frames.RemoteFailure(f))]);
          CloseInStep(Hand(s, [Failed(Frames.RemoteFailure(f))]));
        }
      case _ =>
    }
  }

  // Every reader of a stream is opened once, given what it is given while it is open, and closed once, and
  // none is left waiting when the demultiplexer ends.
  lemma {:induction false} EveryReaderIsClosed(s: StreamState, inputs: seq<Input>, id: string, credit: Option<nat>)
    requires InStep(s)
    ensures WaitsFor(RunStream(s, inputs, id, credit).log) == Some(false)
    decreases |inputs|
  {
    hide StepInput, Ends;
    if inputs == [] {
      CloseInStep(s);
    } else {
      StepInStep(s, inputs[0], id, credit);
      if !Ends(inputs[0]) {
        EveryReaderIsClosed(StepInput(s, inputs[0], id, credit), inputs[1..], id, credit);
      }
    }
  }

  // Whether any input before the `n`th ends the demultiplexer.
  predicate OverBefore(inputs: seq<Input>, n: nat) {
    exists j :: 0 <= j < n <= |inputs| && inputs[j].Arrived? &&
      (inputs[j].frame.End? || inputs[j].frame.Err? || (inputs[j].frame.StreamStart? && inputs[j].frame.id.None?))
  }

  // The ids of the STARTs that come in time, in order.
  function Starts(inputs: seq<Input>): seq<string> {
    if inputs == [] then []
    else
      var n := |inputs| - 1;
      var rest := Starts(inputs[..n]);
      if inputs[n].Arrived? && inputs[n].frame.StreamStart? && inputs[n].frame.id.Some? && !OverBefore(inputs, n)
      then rest + [inputs[n].frame.id.value] else rest
  }

  function NewStreams(told: seq<Announcement>): seq<string> {
    if told == [] then []
    else (if told[0].NewStream? then [told[0].id] else []) + NewStreams(told[1..])
  }

  lemma {:induction false} NewStreamsAppend(a: seq<Announcement>, b: seq<Announcement>)
    ensures NewStreams(a + b) == NewStreams(a) + NewStreams(b)
  {
    if a == [] {
      assert a + b == b;
    } else {
      assert (a + b)[1..] == a[1..] + b;
      NewStreamsAppend(a[1..], b);
    }
  }

  lemma {:induction false} AnnouncedSnoc(inputs: seq<Input>, last: Input)
    ensures AnnouncedBy(inputs + [last]) ==
            AnnouncedBy(inputs) +
            (if !OverBefore(inputs, |inputs|) && last.Arrived? then Announces(last.frame) else [])
  {
    hide Announces;
    if inputs == [] {
      assert inputs + [last] == [last] && [last][1..] == [];
    } else {
      assert (inputs + [last])[1..] == inputs[1..] + [last];
      AnnouncedSnoc(inputs[1..], last);
      OverLater(inputs);
    }
  }

  lemma {:induction false} OverLater(inputs: seq<Input>)
    requires inputs != []
    ensures OverBefore(inputs, |inputs|) <==> Ends(inputs[0]) || OverBefore(inputs[1..], |inputs| - 1)
  {
    if OverBefore(inputs[1..], |inputs| - 1) {
      var j :| 0 <= j < |inputs| - 1 && Ends(inputs[1..][j]);
      assert inputs[j + 1] == inputs[1..][j];
    }
    if OverBefore(inputs, |inputs|) && !Ends(inputs[0]) {
      var j :| 0 <= j < |inputs| && Ends(inputs[j]);
      assert inputs[1..][j - 1] == inputs[j];
    }
  }

  // The handler is told of every stream that is started, once each time and in order.
  lemma {:induction false} StartsAreAnnounced(inputs: seq<Input>)
    ensures NewStreams(AnnouncedBy(inputs)) == Starts(inputs)
  {
    if inputs != [] {
      var n := |inputs| - 1;
      StartsAreAnnounced(inputs[..n]);
      assert inputs == inputs[..n] + [inputs[n]];
      AnnouncedSnoc(inputs[..n], inputs[n]);
      assert OverBefore(inputs, n) <==> OverBefore(inputs[..n], n);
      var told := if !OverBefore(inputs, n) && inputs[n].Arrived? then Announces(inputs[n].frame) else [];
      NewStreamsAppend(AnnouncedBy(inputs[..n]), told);
      if told != [] {
        assert told[1..] == [];
      }
    }
  }

  lemma {:induction false} NewStreamsOnly(inputs: seq<Input>)
    requires !OverBefore(inputs, |inputs|)
    ensures AnnouncedBy(inputs) == seq(|Starts(inputs)|, i requires 0 <= i < |Starts(inputs)| => NewStream(Starts(inputs)[i]))
  {
    if inputs != [] {
      var n := |inputs| - 1;
      forall j | 0 <= j < n ensures !Ends(inputs[..n][j]) {
        assert inputs[..n][j] == inputs[j];
      }
      NewStreamsOnly(inputs[..n]);
      assert inputs == inputs[..n] + [inputs[n]];
      AnnouncedSnoc(inputs[..n], inputs[n]);
      assert !Ends(inputs[n]);
    }
  }

  // And of nothing else before the end; after it of nothing at all. END is not told, ERR by its error, a START
  // without an id as a protocol error.
  lemma {:induction false} EndIsAnnounced(before: seq<Input>, end: Frames.Frame, rest: seq<Input>) returns (last: seq<Announcement>)
    requires !OverBefore(before, |before|) && Ends(Arrived(end))
    ensures AnnouncedBy(before) == seq(|Starts(before)|, i requires 0 <= i < |Starts(before)| => NewStream(Starts(before)[i]))
    ensures AnnouncedBy(before + [Arrived(end)] + rest) == AnnouncedBy(before) + last
    ensures end.End? ==> last == []
    ensures end.Err? ==> exists e :: Reports(end, e) && last == [Refused(e)]
    ensures end.StreamStart? ==> end.id.None? && last == [Refused(Protocol("STREAM_START missing stream_id"))]
    decreases |before|
  {
    NewStreamsOnly(before);
    if before == [] {
      last := Announces(end);
      assert before + [Arrived(end)] + rest == [Arrived(end)] + rest;
      if end.Err? {
        assert Reports(end, Frames.RemoteFailure(end));
      }
    } else {
      assert (before + [Arrived(end)] + rest)[1..] == before[1..] + [Arrived(end)] + rest;
      OverLater(before);
      last := EndIsAnnounced(before[1..], end, rest);
    }
  }
}
