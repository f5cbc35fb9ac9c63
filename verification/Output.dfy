// `OutputStream` and the `StreamSender` handles detached from it: framing, coalescing, numbering.
module Output {
  import opened Prelude
  import opened Cbor
  import opened Reassembly
  import Frames
  import TextSplit

  const COALESCE_MAX_BYTES: nat := 4096
  const COALESCE_MAX_AGE: nat := 20_000_000    // nanoseconds

  datatype Emitted =
    | StartFrame(isSequence: bool, unbounded: bool, startMeta: Option<Meta>)
    | ChunkFrame(index: nat, payload: Bytes, checksum: nat, meta: Option<Meta>)
    | EndFrame(chunkCount: Option<nat>)

  // Why a call failed: the gate closed under it, or the call was out of place.
  datatype CallError = GateClosed | NotStarted | AlreadyStarted | WrongMode | UnsplittableText

  datatype Outcome = Done | Refused(why: CallError)

  // What a stream and its detached senders share. `credit` foretells the gate: the chunks it will
  // still let through, sooner or later, before it closes; None when it never closes.
  datatype Core = Core(
    index: nat,
    count: nat,
    buf: Bytes,
    oldest: Option<nat>,
    credit: Option<nat>,
    sent: seq<Emitted>)

  datatype Shipped = Shipped(core: Core, ok: bool)

  function Chunk(index: nat, f: Fragment): Emitted {
    ChunkFrame(index, f.payload, Frames.Checksum(f.payload), f.meta)
  }

  // One credit, one number, one frame; a closed gate stops the rest.
  function Ship(c: Core, chunks: seq<Fragment>): Shipped
    decreases |chunks|
  {
    if chunks == [] then Shipped(c, true)
    else if c.credit == Some(0) then Shipped(c, false)
    else Ship(AfterChunk(c, chunks[0]), chunks[1..])
  }

  function AfterChunk(c: Core, f: Fragment): Core
    requires c.credit != Some(0)
  {
    c.(index := c.index + 1, count := c.count + 1,
       credit := if c.credit.Some? then Some(c.credit.value - 1) else None,
       sent := c.sent + [Chunk(c.index, f)])
  }

  function Scalar(v: Value): Fragment {
    Fragment(Encode(v), None)
  }

  function Scalars(vs: seq<Value>): seq<Fragment> {
    seq(|vs|, i requires 0 <= i < |vs| => Scalar(vs[i]))
  }

  // The values a batch of bytes is sent as.
  function BatchValues(bytes: Bytes, max: nat): seq<Value>
    requires max >= 1
    decreases |bytes|
  {
    if bytes == [] then []
    else var k := Min(|bytes|, max); [ByteString(bytes[..k])] + BatchValues(bytes[k..], max)
  }

  function TextValues(pieces: seq<string>): seq<Value> {
    seq(|pieces|, i requires 0 <= i < |pieces| => Text(pieces[i]))
  }

  // The two-element arrays a map is sent as.
  function Entries(flat: seq<Value>): seq<Value> {
    if |flat| < 2 then [] else [Array([flat[0], flat[1]])] + Entries(flat[2..])
  }

  // Appending to the coalescing buffer at clock reading `now`, judged at the later reading `later`.
  function Append(c: Core, data: Bytes, now: nat, later: nat): (Core, Option<Bytes>) {
    var oldest := if c.buf == [] then Some(now) else c.oldest;
    var buf := c.buf + data;
    if |buf| >= COALESCE_MAX_BYTES || (oldest.Some? && later - oldest.value >= COALESCE_MAX_AGE)
    then (c.(buf := [], oldest := None), Some(buf))
    else (c.(buf := buf, oldest := oldest), None)
  }

  function ShipBatch(c: Core, batch: Option<Bytes>, max: nat): Shipped
    requires max >= 1
  {
    match batch
    case None => Shipped(c, true)
    case Some(bytes) => Ship(c, Scalars(BatchValues(bytes, max)))
  }

  function AppendAndShip(c: Core, data: Bytes, now: nat, later: nat, max: nat): Shipped
    requires max >= 1
  {
    if data == [] then Shipped(c, true)
    else var (next, due) := Append(c, data, now, later); ShipBatch(next, due, max)
  }

  function Flush(c: Core, max: nat): Shipped
    requires max >= 1
  {
    if c.buf == [] then Shipped(c, true)
    else ShipBatch(c.(buf := [], oldest := None), Some(c.buf), max)
  }

  function ThenShip(s: Shipped, vs: seq<Value>): Shipped {
    if s.ok then Ship(s.core, Scalars(vs)) else s
  }

  function ToOutcome(ok: bool): Outcome {
    if ok then Done else Refused(GateClosed)
  }

  // `OutputStream::emit_cbor` in write mode.
  function Emit(c: Core, v: Value, now: nat, later: nat, max: nat): (Core, Outcome)
    requires max >= 1
  {
    match v
    case ByteString(bytes) =>
      var s := AppendAndShip(c, bytes, now, later, max); (s.core, ToOutcome(s.ok))
    case Text(text) =>
      var pieces := TextSplit.Split(text, max);
      var s := ThenShip(Flush(c, max), TextValues(pieces.done));
      (s.core, if s.ok && pieces.rest != "" then Refused(UnsplittableText) else ToOutcome(s.ok))
    case Array(items) =>
      var s := Ship(c, Scalars(items)); (s.core, ToOutcome(s.ok))
    case Map(flat) =>
      var s := ThenShip(Flush(c, max), Entries(flat)); (s.core, ToOutcome(s.ok))
    case _ =>
      var s := ThenShip(Flush(c, max), [v]); (s.core, ToOutcome(s.ok))
  }

  // `StreamSender::emit_cbor`: every value but bytes goes out whole.
  function SenderEmit(c: Core, v: Value, now: nat, later: nat, max: nat): Shipped
    requires max >= 1
  {
    match v
    case ByteString(bytes) => AppendAndShip(c, bytes, now, later, max)
    case _ => ThenShip(Flush(c, max), [v])
  }

  // ---- The objects ----

  class StreamCore {
    var chunkIndex: nat
    var chunkCount: nat
    var buf: Bytes
    var oldest: Option<nat>
    var credit: Option<nat>
    var sent: seq<Emitted>

    ghost function State(): Core
      reads this
    {
      Core(chunkIndex, chunkCount, buf, oldest, credit, sent)
    }

    constructor (credit: Option<nat>)
      ensures State() == Core(0, 0, [], None, credit, [])
    {
      chunkIndex, chunkCount, buf, oldest, this.credit, sent := 0, 0, [], None, credit, [];
    }

    method Acquire() returns (ok: bool)
      modifies `credit
      ensures ok == (old(credit) != Some(0))
      ensures credit == if ok && old(credit).Some? then Some(old(credit).value - 1) else old(credit)
    {
      ok := credit != Some(0);
      if ok && credit.Some? {
        credit := Some(credit.value - 1);
      }
    }

    method SendChunk(payload: Bytes, meta: Option<Meta>)
      modifies `chunkIndex, `chunkCount, `sent
      ensures sent == old(sent) + [Chunk(old(chunkIndex), Fragment(payload, meta))]
      ensures chunkIndex == old(chunkIndex) + 1 && chunkCount == old(chunkCount) + 1
    {
      var current := chunkIndex;
      chunkIndex := chunkIndex + 1;
      chunkCount := chunkCount + 1;
      sent := sent + [ChunkFrame(current, payload, Frames.Checksum(payload), meta)];
    }

    // `coalesce_append`: the batch that is due, if it is.
    method CoalesceAppend(data: Bytes, now: nat, later: nat) returns (batch: Option<Bytes>)
      modifies `buf, `oldest
      ensures (State(), batch) == Append(old(State()), data, now, later)
    {
      if buf == [] {
        oldest := Some(now);
      }
      buf := buf + data;
      if |buf| >= COALESCE_MAX_BYTES || (oldest.Some? && later - oldest.value >= COALESCE_MAX_AGE) {
        oldest := None;
        batch := Some(buf);
        buf := [];
      } else {
        batch := None;
      }
    }

    // `coalesce_take`.
    method CoalesceTake() returns (batch: Option<Bytes>)
      modifies `buf, `oldest
      ensures batch == if old(buf) == [] then None else Some(old(buf))
      ensures State() == if old(buf) == [] then old(State()) else old(State()).(buf := [], oldest := None)
    {
      if buf == [] {
        return None;
      }
      oldest := None;
      batch := Some(buf);
      buf := [];
    }

    // One credit, then one frame.
    method AcquireAndSend(f: Fragment) returns (ok: bool)
      modifies `chunkIndex, `chunkCount, `credit, `sent
      ensures ok == (old(credit) != Some(0))
      ensures State() == if ok then AfterChunk(old(State()), f) else old(State())
    {
      ok := Acquire();
      if ok {
        SendChunk(f.payload, f.meta);
      }
    }

    // Splits a batch at `max` bytes, one credit per chunk.
    method WriteBatch(data: Bytes, max: nat) returns (ok: bool)
      requires max >= 1
      modifies `chunkIndex, `chunkCount, `credit, `sent
      ensures Shipped(State(), ok) == ShipBatch(old(State()), Some(data), max)
    {
      hide Frames.Checksum, Encode;
      var offset := 0;
      ok := true;
      assert data[0..] == data;
      while offset < |data|
        invariant 0 <= offset <= |data| && ok
        invariant Ship(State(), Scalars(BatchValues(data[offset..], max))) == ShipBatch(old(State()), Some(data), max)
      {
        var size := Min(|data| - offset, max);
        BatchStep(data, offset, max);
        ok := AcquireAndSend(Scalar(ByteString(data[offset..offset + size])));
        if !ok {
          return;
        }
        offset := offset + size;
      }
    }

    // One credit and one frame for each value in turn.
    method SendValues(vs: seq<Value>) returns (ok: bool)
      modifies `chunkIndex, `chunkCount, `credit, `sent
      ensures Shipped(State(), ok) == Ship(old(State()), Scalars(vs))
    {
      hide Frames.Checksum, Encode;
      ok := true;
      var i := 0;
      assert vs[0..] == vs;
      while i < |vs|
        invariant 0 <= i <= |vs| && ok
        invariant Ship(State(), Scalars(vs[i..])) == Ship(old(State()), Scalars(vs))
      {
        ScalarsStep(vs, i);
        ok := AcquireAndSend(Scalar(vs[i]));
        if !ok {
          return;
        }
        i := i + 1;
      }
    }
  }

  lemma {:induction false} ScalarsStep(vs: seq<Value>, i: nat)
    requires i < |vs|
    ensures Scalars(vs[i..]) == [Scalar(vs[i])] + Scalars(vs[i + 1..])
  {
  }

  lemma {:induction false} BatchStep(data: Bytes, offset: nat, max: nat)
    requires max >= 1 && offset < |data|
    ensures var size := Min(|data| - offset, max);
      Scalars(BatchValues(data[offset..], max)) ==
      [Scalar(ByteString(data[offset..offset + size]))] + Scalars(BatchValues(data[offset + size..], max))
  {
    var size := Min(|data| - offset, max);
    assert data[offset..][size..] == data[offset + size..];
    assert data[offset..][..size] == data[offset..offset + size];
    ScalarsStep(BatchValues(data[offset..], max), 0);
    assert BatchValues(data[offset..], max)[0..] == BatchValues(data[offset..], max);
    assert BatchValues(data[offset..], max)[1..] == BatchValues(data[offset + size..], max);
  }
}
