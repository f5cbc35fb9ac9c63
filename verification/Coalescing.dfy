// When buffered bytes leave, and in what pieces.
module Coalescing {
  import opened Prelude
  import opened Cbor
  import opened Reassembly
  import opened Output
  import opened Lossless
  import Frames
  import ItemFraming
  import TextSplit

  // A buffered byte and the clock reading when it was written.
  datatype Stamped = Stamped(b: Byte, at: nat)

  function Stamp(data: Bytes, now: nat): seq<Stamped> {
    seq(|data|, i requires 0 <= i < |data| => Stamped(data[i], now))
  }

  function BytesOf(waiting: seq<Stamped>): Bytes {
    seq(|waiting|, i requires 0 <= i < |waiting| => waiting[i].b)
  }

  // The buffer holds the waiting bytes, and remembers when the first of them was written.
  predicate Holds(c: Core, waiting: seq<Stamped>) {
    c.buf == BytesOf(waiting) && c.oldest == if waiting == [] then None else Some(waiting[0].at)
  }

  // The bytes leave when there are 4096 of them or the first has waited for 20 milliseconds.
  predicate Leaves(waiting: seq<Stamped>, clock: nat) {
    |waiting| >= 4096 || (waiting != [] && clock - waiting[0].at >= 20_000_000)
  }

  // Appended bytes wait with those before them, and all leave together when it is time.
  lemma {:induction false} AppendIs(c: Core, waiting: seq<Stamped>, data: Bytes, now: nat, later: nat)
    requires Holds(c, waiting) && data != []
    ensures var all := waiting + Stamp(data, now); var (next, batch) := Append(c, data, now, later);
      if Leaves(all, later) then batch == Some(BytesOf(all)) && Holds(next, []) else batch == None && Holds(next, all)
  {
    var all := waiting + Stamp(data, now);
    assert BytesOf(all) == BytesOf(waiting) + data;
    assert all[0] == if waiting == [] then Stamped(data[0], now) else waiting[0];
  }

  // Sending takes nothing from the buffer and puts nothing in.
  lemma {:induction false} ShipHolds(c: Core, chunks: seq<Fragment>)
    ensures Ship(c, chunks).core.buf == c.buf && Ship(c, chunks).core.oldest == c.oldest
  {
    ShipIs(c, chunks);
    hide Frames.Checksum, Ship;
  }

  lemma {:induction false} FlushHolds(c: Core, max: nat)
    requires max >= 1 && (c.buf == [] ==> c.oldest.None?)
    ensures Holds(Flush(c, max).core, [])
  {
    hide Frames.Checksum, Ship, Encode;
    ShipHolds(c.(buf := [], oldest := None), Scalars(BatchValues(c.buf, max)));
  }

  lemma {:induction false} AppendAndShipHolds(c: Core, waiting: seq<Stamped>, data: Bytes, now: nat, later: nat, max: nat)
    requires max >= 1 && Holds(c, waiting)
    ensures var all := waiting + Stamp(data, now);
      Holds(AppendAndShip(c, data, now, later, max).core, if data != [] && Leaves(all, later) then [] else all)
  {
    if data == [] {
      assert waiting + Stamp(data, now) == waiting;
    } else {
      AppendIs(c, waiting, data, now, later);
      var (next, due) := Append(c, data, now, later);
      hide Append, Frames.Checksum, Ship, Encode, Leaves;
      if due.Some? {
        ShipHolds(next, Scalars(BatchValues(due.value, max)));
      }
    }
  }

  // What waits after a call: byte strings join what waits until it is time, an array passes by, and any
  // other call lets everything go first.
  function WaitingAfter(waiting: seq<Stamped>, op: Op): seq<Stamped> {
    match op
    case Write(data, now, later) => Joined(waiting, data, now, later)
    case FlushNow => []
    case EmitValue(v, now, later) => if v.ByteString? then Joined(waiting, v.bytes, now, later) else if v.Array? then waiting else []
    case SendValue(v, now, later) => if v.ByteString? then Joined(waiting, v.bytes, now, later) else []
  }

  function Joined(waiting: seq<Stamped>, data: Bytes, now: nat, later: nat): seq<Stamped> {
    var all := waiting + Stamp(data, now);
    if data != [] && Leaves(all, later) then [] else all
  }

  lemma {:induction false} ThenShipHolds(c: Core, vs: seq<Value>, max: nat)
    requires max >= 1 && (c.buf == [] ==> c.oldest.None?)
    ensures Holds(ThenShip(Flush(c, max), vs).core, [])
  {
    hide Flush;
    FlushHolds(c, max);
    ShipHolds(Flush(c, max).core, Scalars(vs));
    hide Frames.Checksum, Ship, Encode;
  }

  lemma {:induction false} OpHolds(c: Core, waiting: seq<Stamped>, op: Op, max: nat)
    requires max >= 1 && Holds(c, waiting)
    ensures Holds(Apply(c, op, max).0, WaitingAfter(waiting, op))
  {
    hide Ship, Flush, AppendAndShip, Frames.Checksum, Encode, Stamp, Leaves, ThenShip;
    match op
    case Write(data, now, later) => AppendAndShipHolds(c, waiting, data, now, later, max);
    case FlushNow => FlushHolds(c, max);
    case EmitValue(v, now, later) => EmitHolds(c, waiting, v, now, later, max);
    case SendValue(v, now, later) =>
      if v.ByteString? {
        AppendAndShipHolds(c, waiting, v.bytes, now, later, max);
      } else {
        ThenShipHolds(c, [v], max);
      }
  }

  lemma {:induction false} EmitHolds(c: Core, waiting: seq<Stamped>, v: Value, now: nat, later: nat, max: nat)
    requires max >= 1 && Holds(c, waiting)
    ensures Holds(Emit(c, v, now, later, max).0, WaitingAfter(waiting, EmitValue(v, now, later)))
  {
    hide Ship, Flush, AppendAndShip, Frames.Checksum, Encode, Stamp, Leaves, ThenShip, TextSplit.Split, Entries;
    match v
    case ByteString(bytes) => AppendAndShipHolds(c, waiting, bytes, now, later, max);
    case Text(text) => ThenShipHolds(c, TextValues(TextSplit.Split(text, max).done), max);
    case Array(items) => ShipHolds(c, Scalars(items));
    case Map(flat) => ThenShipHolds(c, Entries(flat), max);
    case _ => ThenShipHolds(c, [v], max);
  }

  function WaitingAll(waiting: seq<Stamped>, ops: seq<Op>): seq<Stamped>
    decreases |ops|
  {
    if ops == [] then waiting else WaitingAll(WaitingAfter(waiting, ops[0]), ops[1..])
  }

  // Through any calls, failed ones included, the buffer holds just the bytes that have not had to leave
  // yet, with the age of the first; never 4096 of them.
  lemma {:induction false} CallsHold(c: Core, waiting: seq<Stamped>, ops: seq<Op>, max: nat)
    requires max >= 1 && Holds(c, waiting) && |waiting| < 4096
    ensures Holds(ApplyAll(c, ops, max), WaitingAll(waiting, ops)) && |WaitingAll(waiting, ops)| < 4096
    decreases |ops|
  {
    hide Apply, Holds;
    if ops != [] {
      OpHolds(c, waiting, ops[0], max);
      CallsHold(Apply(c, ops[0], max).0, WaitingAfter(waiting, ops[0]), ops[1..], max);
    }
  }

  // ---- Pieces ----

  // Pieces of `max` bytes and one last of no more.
  predicate CutAt(sizes: seq<nat>, max: nat) {
    forall i :: 0 <= i < |sizes| ==> 1 <= sizes[i] <= max && (i < |sizes| - 1 ==> sizes[i] == max)
  }

  function SizesOf(vs: seq<Value>): seq<nat> {
    seq(|vs|, i requires 0 <= i < |vs| => if vs[i].ByteString? then |vs[i].bytes| else 0)
  }

  function PayloadSizes(fs: seq<Fragment>): seq<nat> {
    seq(|fs|, i requires 0 <= i < |fs| => |fs[i].payload|)
  }

  lemma {:induction false} CutCons(first: nat, rest: seq<nat>, max: nat)
    requires CutAt(rest, max) && 1 <= first <= max && (rest != [] ==> first == max)
    ensures CutAt([first] + rest, max)
  {
  }

  // A batch of bytes leaves in full pieces and a remainder.
  lemma {:induction false} BatchIsCut(bytes: Bytes, max: nat)
    requires max >= 1
    ensures CutAt(SizesOf(BatchValues(bytes, max)), max)
    decreases |bytes|
  {
    if bytes != [] {
      var k := Min(|bytes|, max);
      BatchIsCut(bytes[k..], max);
      var rest := BatchValues(bytes[k..], max);
      assert SizesOf([ByteString(bytes[..k])] + rest) == [k] + SizesOf(rest);
      CutCons(k, SizesOf(rest), max);
    }
  }

  // And so does the encoding of an item.
  lemma {:induction false} ItemIsCut(bytes: Bytes, meta: Option<Meta>, max: nat)
    requires max >= 1
    ensures CutAt(PayloadSizes(ItemFraming.ItemFragments(bytes, meta, max)), max)
    decreases |bytes|
  {
    if bytes != [] {
      var k := Min(|bytes|, max);
      ItemIsCut(bytes[k..], None, max);
      var rest := ItemFraming.ItemFragments(bytes[k..], None, max);
      assert PayloadSizes([Fragment(bytes[..k], meta)] + rest) == [k] + PayloadSizes(rest);
      CutCons(k, PayloadSizes(rest), max);
    }
  }
}
