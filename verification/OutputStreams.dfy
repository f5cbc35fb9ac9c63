// The writable stream handle a handler holds, and the handle it can detach.
module OutputStreams {
  import opened Prelude
  import opened Cbor
  import opened Reassembly
  import opened Output
  import Frames
  import ItemFraming
  import TextSplit
  import Utf8

  function ModeCheck(mode: Option<bool>, isSequence: bool): Outcome {
    match mode
    case None => Refused(NotStarted)
    case Some(existing) => if existing == isSequence then Done else Refused(WrongMode)
  }

  function StreamEnd(unbounded: bool, count: nat): Emitted {
    EndFrame(if unbounded then None else Some(count))
  }

  lemma {:induction false} PieceText(s: string, max: nat)
    ensures var k := TextSplit.Fit(s, max); var size := |Utf8.Encode(s[..k])|;
      && size <= |Utf8.Encode(s)|
      && Utf8.Decode(Utf8.Encode(s)[..size]) == Some(s[..k])
      && (size == 0 <==> k == 0)
  {
    var k := TextSplit.Fit(s, max);
    Utf8.EncodeAppend(s[..k], s[k..]);
    assert s[..k] + s[k..] == s;
    Utf8.RoundTrip(s[..k]);
    assert Utf8.Encode(s)[..|Utf8.Encode(s[..k])|] == Utf8.Encode(s[..k]);
    if k > 0 {
      Utf8.EncodeCharShape(s[..k][0]);
    }
  }

  lemma {:induction false} TextStep(rest: string, max: nat)
    requires TextSplit.Fit(rest, max) > 0
    ensures var k := TextSplit.Fit(rest, max); var t := TextSplit.Split(rest[k..], max);
      && Scalars(TextValues(TextSplit.Split(rest, max).done)) == [Scalar(Text(rest[..k]))] + Scalars(TextValues(t.done))
      && TextSplit.Split(rest, max).rest == t.rest
  {
    var k := TextSplit.Fit(rest, max);
    PieceFirst(rest[..k], TextSplit.Split(rest[k..], max).done);
  }

  lemma {:induction false} PieceFirst(piece: string, more: seq<string>)
    ensures Scalars(TextValues([piece] + more)) == [Scalar(Text(piece))] + Scalars(TextValues(more))
  {
    assert TextValues([piece] + more) == [Text(piece)] + TextValues(more);
  }

  lemma {:induction false} FragmentStep(bytes: Bytes, offset: nat, meta: Option<Meta>, max: nat)
    requires max >= 1 && offset < |bytes|
    ensures var size := Min(|bytes| - offset, max);
      ItemFraming.ItemFragments(bytes[offset..], meta, max) ==
      [Fragment(bytes[offset..offset + size], meta)] + ItemFraming.ItemFragments(bytes[offset + size..], None, max)
  {
    var size := Min(|bytes| - offset, max);
    assert bytes[offset..][size..] == bytes[offset + size..];
    assert bytes[offset..][..size] == bytes[offset..offset + size];
  }

  class OutputStream {
    const core: StreamCore
    const maxChunk: nat
    var mode: Option<bool>
    var closed: bool
    var unbounded: bool

    constructor (maxChunk: nat, credit: Option<nat>)
      requires maxChunk >= 1
      ensures fresh(core) && core.State() == Core(0, 0, [], None, credit, [])
      ensures this.maxChunk == maxChunk && mode == None && !closed && !unbounded
    {
      core := new StreamCore(credit);
      this.maxChunk, mode, closed, unbounded := maxChunk, None, false, false;
    }

    method Start(isSequence: bool, meta: Option<Meta>, noLengthPromise: bool) returns (r: Outcome)
      modifies `mode, `unbounded, core`sent
      ensures old(mode).Some? ==> r == Refused(AlreadyStarted) && mode == old(mode) && unbounded == old(unbounded)
                                  && core.sent == old(core.sent)
      ensures old(mode).None? ==>
                && r == Done && mode == Some(isSequence)
                && unbounded == (noLengthPromise || old(unbounded))
                && core.sent == old(core.sent) + [StartFrame(isSequence, noLengthPromise, meta)]
    {
      if mode.Some? {
        return Refused(AlreadyStarted);
      }
      mode := Some(isSequence);
      if noLengthPromise {
        unbounded := true;
      }
      core.sent := core.sent + [StartFrame(isSequence, noLengthPromise, meta)];
      return Done;
    }

    method Write(data: Bytes, now: nat, later: nat) returns (r: Outcome)
      requires maxChunk >= 1
      modifies core
      ensures mode != Some(false) ==> r == Refused(if mode.None? then NotStarted else WrongMode) && core.State() == old(core.State())
      ensures mode == Some(false) ==>
                var s := AppendAndShip(old(core.State()), data, now, later, maxChunk);
                core.State() == s.core && r == ToOutcome(s.ok)
    {
      r := ModeCheck(mode, false);
      if r == Done && data != [] {
        var batch := core.CoalesceAppend(data, now, later);
        if batch.Some? {
          var ok := core.WriteBatch(batch.value, maxChunk);
          r := ToOutcome(ok);
        }
      }
    }

    method Flush() returns (r: Outcome)
      requires maxChunk >= 1
      modifies core
      ensures var s := Output.Flush(old(core.State()), maxChunk); core.State() == s.core && r == ToOutcome(s.ok)
    {
      var batch := core.CoalesceTake();
      r := Done;
      if batch.Some? {
        var ok := core.WriteBatch(batch.value, maxChunk);
        r := ToOutcome(ok);
      }
    }

    // One item: its encoding in pieces of at most `maxChunk` bytes, metadata on the first.
    method EmitListItem(v: Value, meta: Option<Meta>) returns (r: Outcome)
      requires maxChunk >= 1
      modifies core
      ensures mode != Some(true) ==> r == Refused(if mode.None? then NotStarted else WrongMode) && core.State() == old(core.State())
      ensures mode == Some(true) ==>
                var s := Ship(old(core.State()), ItemFraming.ItemFragments(Encode(v), meta, maxChunk));
                core.State() == s.core && r == ToOutcome(s.ok)
    {
      r := ModeCheck(mode, true);
      if r == Done {
        r := SendItem(Encode(v), meta);
      }
    }

    method SendItem(bytes: Bytes, meta: Option<Meta>) returns (r: Outcome)
      requires maxChunk >= 1
      modifies core
      ensures var s := Ship(old(core.State()), ItemFraming.ItemFragments(bytes, meta, maxChunk));
        core.State() == s.core && r == ToOutcome(s.ok)
    {
      hide Frames.Checksum;
      r := Done;
      var offset, first := 0, true;
      assert bytes[0..] == bytes;
      while offset < |bytes|
        invariant 0 <= offset <= |bytes| && first == (offset == 0) && r == Done
        invariant Ship(core.State(), ItemFraming.ItemFragments(bytes[offset..], if first then meta else None, maxChunk)) ==
                  Ship(old(core.State()), ItemFraming.ItemFragments(bytes, meta, maxChunk))
      {
        var size := Min(|bytes| - offset, maxChunk);
        FragmentStep(bytes, offset, if first then meta else None, maxChunk);
        var ok := core.AcquireAndSend(Fragment(bytes[offset..offset + size], if first then meta else None));
        if !ok {
          return Refused(GateClosed);
        }
        first := false;
        offset := offset + size;
      }
    }

    method EmitText(text: string) returns (r: Outcome)
      requires maxChunk >= 1
      modifies core
      ensures (core.State(), r) == Emit(old(core.State()), Text(text), 0, 0, maxChunk)
    {
      r := Flush();
      if r != Done {
        return;
      }
      var rest := text;
      ghost var all := TextSplit.Split(text, maxChunk);
      ghost var flushed := core.State();
      while rest != ""
        invariant r == Done
        invariant Ship(core.State(), Scalars(TextValues(TextSplit.Split(rest, maxChunk).done))) == Ship(flushed, Scalars(TextValues(all.done)))
        invariant TextSplit.Split(rest, maxChunk).rest == all.rest
        decreases |rest|
      {
        var size := TextSplit.NextPiece(rest, maxChunk);
        PieceText(rest, maxChunk);
        if size == 0 {
          assert TextValues([]) == [] && Scalars([]) == [];
          return Refused(UnsplittableText);
        }
        TextStep(rest, maxChunk);
        var piece := Utf8.Decode(Utf8.Encode(rest)[..size]).value;
        var ok := core.AcquireAndSend(Scalar(Text(piece)));
        if !ok {
          return Refused(GateClosed);
        }
        rest := rest[|piece|..];
      }
      assert TextValues([]) == [] && Scalars([]) == [];
    }

    method EmitCbor(v: Value, now: nat, later: nat) returns (r: Outcome)
      requires maxChunk >= 1
      modifies core
      ensures mode != Some(false) ==> r == Refused(if mode.None? then NotStarted else WrongMode) && core.State() == old(core.State())
      ensures mode == Some(false) ==> (core.State(), r) == Emit(old(core.State()), v, now, later, maxChunk)
    {
      r := ModeCheck(mode, false);
      if r != Done {
        return;
      }
      match v
      case ByteString(bytes) => r := Write(bytes, now, later);
      case Text(text) => r := EmitText(text);
      case Array(items) =>
        var ok := core.SendValues(items);
        r := ToOutcome(ok);
      case Map(flat) => r := FlushAndSend(Entries(flat));
      case _ => r := FlushAndSend([v]);
    }

    method FlushAndSend(vs: seq<Value>) returns (r: Outcome)
      requires maxChunk >= 1
      modifies core
      ensures var s := ThenShip(Output.Flush(old(core.State()), maxChunk), vs); core.State() == s.core && r == ToOutcome(s.ok)
    {
      r := Flush();
      if r == Done {
        var ok := core.SendValues(vs);
        r := ToOutcome(ok);
      }
    }

    // Idempotent; a stream that never started sends nothing.
    method Close() returns (r: Outcome)
      requires maxChunk >= 1
      modifies this, core
      ensures closed && mode == old(mode) && unbounded == old(unbounded)
      ensures old(closed) || mode.None? ==> r == Done && core.State() == old(core.State())
      ensures !old(closed) && mode.Some? ==>
                var s := Output.Flush(old(core.State()), maxChunk);
                && r == ToOutcome(s.ok)
                && core.State() == if s.ok then s.core.(sent := s.core.sent + [StreamEnd(unbounded, s.core.count)]) else s.core
    {
      if closed {
        return Done;
      }
      closed := true;
      if mode.None? {
        return Done;
      }
      r := Flush();
      if r == Done {
        core.sent := core.sent + [EndFrame(if unbounded then None else Some(core.chunkCount))];
      }
    }

    method Detach() returns (s: StreamSender)
      ensures fresh(s) && s.core == core && s.maxChunk == maxChunk
    {
      s := new StreamSender(core, maxChunk);
    }
  }

  /** Shares the numbering, the gate and the coalescing buffer of the stream it was detached from. */
  class StreamSender {
    const core: StreamCore
    const maxChunk: nat

    constructor (core: StreamCore, maxChunk: nat)
      ensures this.core == core && this.maxChunk == maxChunk
    {
      this.core, this.maxChunk := core, maxChunk;
    }

    method EmitCbor(v: Value, now: nat, later: nat) returns (r: Outcome)
      requires maxChunk >= 1
      modifies core
      ensures var s := SenderEmit(old(core.State()), v, now, later, maxChunk); core.State() == s.core && r == ToOutcome(s.ok)
    {
      r := Done;
      if v.ByteString? {
        if v.bytes == [] {
          return;
        }
        var batch := core.CoalesceAppend(v.bytes, now, later);
        if batch.Some? {
          var ok := core.WriteBatch(batch.value, maxChunk);
          r := ToOutcome(ok);
        }
        return;
      }
      var batch := core.CoalesceTake();
      if batch.Some? {
        var ok := core.WriteBatch(batch.value, maxChunk);
        if !ok {
          return Refused(GateClosed);
        }
      }
      var ok := core.SendValues([v]);
      r := ToOutcome(ok);
    }
  }
}
