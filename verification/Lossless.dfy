// Coalescing and splitting lose, reorder and renumber nothing.
module Lossless {
  import opened Prelude
  import opened Cbor
  import opened Reassembly
  import opened Output
  import Frames
  import ItemFraming
  import OutputStreams
  import TextSplit

  // What a scalar stream says, whatever its chunk boundaries: bytes, characters and whole values.
  datatype Token = Raw(b: Byte) | Char(c: char) | Whole(v: Value)

  function Raws(bytes: Bytes): seq<Token> {
    seq(|bytes|, i requires 0 <= i < |bytes| => Raw(bytes[i]))
  }

  function Chars(text: string): seq<Token> {
    seq(|text|, i requires 0 <= i < |text| => Char(text[i]))
  }

  function ContentOf(v: Value): seq<Token> {
    match v
    case ByteString(bytes) => Raws(bytes)
    case Text(text) => Chars(text)
    case _ => [Whole(v)]
  }

  function Content(vs: seq<Value>): seq<Token> {
    if vs == [] then [] else ContentOf(vs[0]) + Content(vs[1..])
  }

  // A call that adds to a scalar stream, with the clock readings it takes.
  datatype Op =
    | Write(data: Bytes, now: nat, later: nat)
    | FlushNow
    | EmitValue(value: Value, now: nat, later: nat)
    | SendValue(value: Value, now: nat, later: nat)      // by a detached sender

  function Apply(c: Core, op: Op, max: nat): (Core, Outcome)
    requires max >= 1
  {
    match op
    case Write(data, now, later) => var s := AppendAndShip(c, data, now, later, max); (s.core, ToOutcome(s.ok))
    case FlushNow => var s := Flush(c, max); (s.core, ToOutcome(s.ok))
    case EmitValue(v, now, later) => Emit(c, v, now, later, max)
    case SendValue(v, now, later) => var s := SenderEmit(c, v, now, later, max); (s.core, ToOutcome(s.ok))
  }

  function Said(op: Op): seq<Token> {
    match op
    case Write(data, _, _) => Raws(data)
    case FlushNow => []
    case EmitValue(v, _, _) =>
      if v.Array? then Content(v.items) else if v.Map? then Content(Entries(v.flat)) else ContentOf(v)
    case SendValue(v, _, _) => ContentOf(v)
  }

  // An array's elements are sent at once, past any bytes still in the buffer. That they are in place
  // all the same means that it makes no difference which of the two comes first.
  predicate InPlace(c: Core, op: Op) {
    op.EmitValue? && op.value.Array? ==> Swaps(c.buf, op.value.items)
  }

  predicate Swaps(buf: Bytes, items: seq<Value>) {
    Content(items) + Raws(buf) == Raws(buf) + Content(items)
  }

  function ApplyAll(c: Core, ops: seq<Op>, max: nat): Core
    requires max >= 1
    decreases |ops|
  {
    if ops == [] then c else ApplyAll(Apply(c, ops[0], max).0, ops[1..], max)
  }

  // Every call succeeds,
  predicate AllDone(c: Core, ops: seq<Op>, max: nat)
    requires max >= 1
    decreases |ops|
  {
    ops != [] ==>
      && Apply(c, ops[0], max).1 == Done
      && AllDone(Apply(c, ops[0], max).0, ops[1..], max)
  }

  // and every array finds the buffer empty, or filled with bytes it may as well go before.
  predicate AllInPlace(c: Core, ops: seq<Op>, max: nat)
    requires max >= 1
    decreases |ops|
  {
    ops != [] ==> InPlace(c, ops[0]) && AllInPlace(Apply(c, ops[0], max).0, ops[1..], max)
  }

  function SaidAll(ops: seq<Op>): seq<Token> {
    if ops == [] then [] else Said(ops[0]) + SaidAll(ops[1..])
  }

  predicate OpEncodable(op: Op) {
    match op
    case EmitValue(v, _, _) => Encodable(v)
    case SendValue(v, _, _) => Encodable(v)
    case _ => true
  }

  predicate AllOpsEncodable(ops: seq<Op>) {
    forall i :: 0 <= i < |ops| ==> OpEncodable(ops[i])
  }

  function Numbered(from: nat, chunks: seq<Fragment>): seq<Emitted> {
    seq(|chunks|, i requires 0 <= i < |chunks| => Chunk(from + i, chunks[i]))
  }

  // ---- Shipping ----

  lemma {:induction false} NumberedHead(from: nat, chunks: seq<Fragment>, k: nat)
    requires 0 < k <= |chunks|
    ensures Numbered(from, chunks[..k]) == [Chunk(from, chunks[0])] + Numbered(from + 1, chunks[1..][..k - 1])
  {
  }

  // The chunks go out in order and numbered on; a gate that closes lets a prefix through.
  lemma {:induction false} ShipIs(c: Core, chunks: seq<Fragment>)
    ensures var k := if c.credit.Some? then Min(|chunks|, c.credit.value) else |chunks|;
      && Ship(c, chunks).ok == (k == |chunks|)
      && Ship(c, chunks).core == c.(
           index := c.index + k, count := c.count + k, sent := c.sent + Numbered(c.index, chunks[..k]),
           credit := if c.credit.Some? then Some(c.credit.value - k) else None)
    decreases |chunks|
  {
    hide Frames.Checksum;
    var k := if c.credit.Some? then Min(|chunks|, c.credit.value) else |chunks|;
    if k == 0 {
      assert c.sent + Numbered(c.index, chunks[..k]) == c.sent;
    } else {
      ShipIs(AfterChunk(c, chunks[0]), chunks[1..]);
      NumberedHead(c.index, chunks, k);
      assert c.sent + [Chunk(c.index, chunks[0])] + Numbered(c.index + 1, chunks[1..][..k - 1]) ==
             c.sent + Numbered(c.index, chunks[..k]);
    }
  }

  lemma {:induction false} ShipDone(c: Core, vs: seq<Value>)
    requires Ship(c, Scalars(vs)).ok
    ensures var next := Ship(c, Scalars(vs)).core;
      && next.sent == c.sent + Numbered(c.index, Scalars(vs))
      && next.index == c.index + |vs| && next.count == c.count + |vs| && next.buf == c.buf
  {
    ShipIs(c, Scalars(vs));
    assert Scalars(vs)[..|vs|] == Scalars(vs);
  }

  // A gate that never closes lets everything through.
  lemma {:induction false} ShipDoneAll(c: Core, vs: seq<Value>)
    requires c.credit.None?
    ensures Ship(c, Scalars(vs)).ok && Ship(c, Scalars(vs)).core.sent == c.sent + Numbered(c.index, Scalars(vs))
    ensures Ship(c, Scalars(vs)).core.buf == c.buf
  {
    ShipIs(c, Scalars(vs));
    assert Scalars(vs)[..|vs|] == Scalars(vs);
  }

  // ---- Contents ----

  lemma {:induction false} ContentAppend(a: seq<Value>, b: seq<Value>)
    ensures Content(a + b) == Content(a) + Content(b)
  {
    if a == [] {
      assert a + b == b;
    } else {
      calc {
        Content(a + b);
        { assert (a + b)[1..] == a[1..] + b; }
        ContentOf(a[0]) + Content(a[1..] + b);
        { ContentAppend(a[1..], b); }
        ContentOf(a[0]) + (Content(a[1..]) + Content(b));
        (ContentOf(a[0]) + Content(a[1..])) + Content(b);
        Content(a) + Content(b);
      }
    }
  }

  lemma {:induction false} BatchContent(bytes: Bytes, max: nat)
    requires max >= 1
    ensures Content(BatchValues(bytes, max)) == Raws(bytes)
    decreases |bytes|
  {
    if bytes != [] {
      var k := Min(|bytes|, max);
      var head, tail := ByteString(bytes[..k]), BatchValues(bytes[k..], max);
      calc {
        Content(BatchValues(bytes, max));
        { assert ([head] + tail)[1..] == tail; }
        Raws(bytes[..k]) + Content(tail);
        { BatchContent(bytes[k..], max); }
        Raws(bytes[..k]) + Raws(bytes[k..]);
        Raws(bytes);
      }
    }
  }

  lemma {:induction false} TextContent(pieces: seq<string>)
    ensures Content(TextValues(pieces)) == Chars(TextSplit.Join(pieces))
  {
    if pieces != [] {
      TextContent(pieces[1..]);
      assert TextValues(pieces)[1..] == TextValues(pieces[1..]);
      assert Chars(TextSplit.Join(pieces)) == Chars(pieces[0]) + Chars(TextSplit.Join(pieces[1..]));
    }
  }

  lemma {:induction false} SingleContent(v: Value)
    ensures Content([v]) == ContentOf(v)
  {
    assert [v][1..] == [];
  }

  // ---- One call ----

  // A successful call sends some values, and then the stream with its buffer says exactly what it
  // said before followed by what the call says.
  predicate Says(c: Core, next: Core, vs: seq<Value>, said: seq<Token>) {
    && next.sent == c.sent + Numbered(c.index, Scalars(vs))
    && next.index == c.index + |vs| && next.count == c.count + |vs|
    && Content(vs) + Raws(next.buf) == Raws(c.buf) + said
  }

  lemma {:induction false} AppendSays(c: Core, data: Bytes, now: nat, later: nat, max: nat) returns (vs: seq<Value>)
    requires max >= 1 && AppendAndShip(c, data, now, later, max).ok
    ensures Says(c, AppendAndShip(c, data, now, later, max).core, vs, Raws(data))
    ensures vs == [] || exists bytes :: vs == BatchValues(bytes, max)
  {
    vs := [];
    assert Raws(c.buf + data) == Raws(c.buf) + Raws(data);
    if data != [] {
      var (next, due) := Append(c, data, now, later);
      if due.Some? {
        vs := BatchValues(due.value, max);
        ShipDone(next, vs);
        BatchContent(due.value, max);
      }
    }
  }

  lemma {:induction false} FlushSays(c: Core, max: nat) returns (vs: seq<Value>)
    requires max >= 1 && Flush(c, max).ok
    ensures Flush(c, max).core.buf == []
    ensures Says(c, Flush(c, max).core, vs, [])
    ensures vs == BatchValues(c.buf, max)
  {
    vs := BatchValues(c.buf, max);
    BatchContent(c.buf, max);
    if c.buf != [] {
      ShipDone(c.(buf := [], oldest := None), vs);
    }
  }

  lemma {:induction false} NumberedAppend(from: nat, a: seq<Value>, b: seq<Value>)
    ensures Numbered(from, Scalars(a + b)) == Numbered(from, Scalars(a)) + Numbered(from + |a|, Scalars(b))
  {
    assert Scalars(a + b) == Scalars(a) + Scalars(b);
    NumberedConcat(from, Scalars(a), Scalars(b));
  }

  lemma {:induction false} NumberedConcat(from: nat, x: seq<Fragment>, y: seq<Fragment>)
    ensures Numbered(from, x + y) == Numbered(from, x) + Numbered(from + |x|, y)
  {
  }

  // Saying one thing and then another.
  lemma {:induction false} SaysThen(c: Core, mid: Core, next: Core, a: seq<Value>, b: seq<Value>, said: seq<Token>, more: seq<Token>)
    requires Says(c, mid, a, said) && Says(mid, next, b, more)
    ensures Says(c, next, a + b, said + more)
  {
    hide Frames.Checksum, Content;
    NumberedAppend(c.index, a, b);
    ContentAppend(a, b);
    calc {
      Content(a + b) + Raws(next.buf);
      Content(a) + (Content(b) + Raws(next.buf));
      Content(a) + (Raws(mid.buf) + more);
      (Content(a) + Raws(mid.buf)) + more;
      Raws(c.buf) + said + more;
      Raws(c.buf) + (said + more);
    }
  }

  lemma {:induction false} ShipSays(c: Core, vs: seq<Value>)
    requires Ship(c, Scalars(vs)).ok
    ensures Says(c, Ship(c, Scalars(vs)).core, vs, Content(vs)) <==> Swaps(c.buf, vs)
  {
    ShipDone(c, vs);
  }

  lemma {:induction false} EmptyBufferSwaps(vs: seq<Value>)
    ensures Swaps([], vs)
  {
    assert Raws([]) == [];
  }

  lemma {:induction false} ThenShipSays(c: Core, more: seq<Value>, max: nat) returns (vs: seq<Value>)
    requires max >= 1 && ThenShip(Flush(c, max), more).ok
    ensures Says(c, ThenShip(Flush(c, max), more).core, vs, Content(more))
    ensures vs == BatchValues(c.buf, max) + more
  {
    var first := FlushSays(c, max);
    var flushed := Flush(c, max).core;
    ShipSays(flushed, more);
    EmptyBufferSwaps(more);
    SaysThen(c, flushed, ThenShip(Flush(c, max), more).core, first, more, [], Content(more));
    assert [] + Content(more) == Content(more);
    vs := first + more;
  }

  lemma {:induction false} BatchEncodable(bytes: Bytes, max: nat)
    requires 1 <= max < TWO_64
    ensures AllEncodable(BatchValues(bytes, max))
    decreases |bytes|
  {
    if bytes != [] {
      BatchEncodable(bytes[Min(|bytes|, max)..], max);
    }
  }

  lemma {:induction false} EncodableAppend(a: seq<Value>, b: seq<Value>)
    requires AllEncodable(a) && AllEncodable(b)
    ensures AllEncodable(a + b)
  {
    if a == [] {
      assert a + b == b;
    } else {
      assert (a + b)[1..] == a[1..] + b;
      EncodableAppend(a[1..], b);
    }
  }

  // A map is sent as its pairs in order, each key before its value.
  lemma {:induction false} EntriesArePairs(flat: seq<Value>)
    ensures |Entries(flat)| == |flat| / 2
    ensures forall i :: 0 <= i < |flat| / 2 ==> Entries(flat)[i] == Array([flat[2 * i], flat[2 * i + 1]])
  {
    if |flat| >= 2 {
      EntriesArePairs(flat[2..]);
    }
  }

  lemma {:induction false} EntriesEncodable(flat: seq<Value>)
    requires AllEncodable(flat)
    ensures AllEncodable(Entries(flat))
    decreases |flat|
  {
    if |flat| >= 2 {
      assert flat[1..][1..] == flat[2..];
      EntriesEncodable(flat[2..]);
      PairEncodable(flat[0], flat[1]);
      assert Entries(flat)[1..] == Entries(flat[2..]);
    }
  }

  lemma {:induction false} PairEncodable(k: Value, v: Value)
    requires Encodable(k) && Encodable(v)
    ensures Encodable(Array([k, v]))
  {
    assert [k, v][1..] == [v] && [v][1..] == [];
    assert AllEncodable([v]);
  }

  lemma {:induction false} TextEncodable(pieces: seq<string>, max: nat)
    requires TextSplit.GoodPieces(pieces, max) && max < TWO_64
    ensures AllEncodable(TextValues(pieces))
  {
    if pieces != [] {
      TextEncodable(pieces[1..], max);
      assert TextValues(pieces)[1..] == TextValues(pieces[1..]);
    }
  }

  // The values a non-bytes emission ships after its flush.
  function Shipments(v: Value, max: nat): seq<Value> {
    match v
    case Text(text) => TextValues(TextSplit.Split(text, max).done)
    case Map(flat) => Entries(flat)
    case _ => [v]
  }

  lemma {:induction false} EmitSays(c: Core, v: Value, now: nat, later: nat, max: nat) returns (vs: seq<Value>)
    requires 1 <= max < TWO_64 && (v.ByteString? || Encodable(v))
    requires Emit(c, v, now, later, max).1 == Done && InPlace(c, EmitValue(v, now, later))
    ensures Says(c, Emit(c, v, now, later, max).0, vs, Said(EmitValue(v, now, later))) && AllEncodable(vs)
  {
    if v.ByteString? {
      vs := AppendSays(c, v.bytes, now, later, max);
      if vs != [] {
        var bytes :| vs == BatchValues(bytes, max);
        BatchEncodable(bytes, max);
      }
    } else if v.Array? {
      vs := v.items;
      ShipSays(c, vs);
    } else {
      var more := Shipments(v, max);
      vs := ThenShipSays(c, more, max);
      BatchEncodable(c.buf, max);
      ShipmentsAre(v, max);
      EncodableAppend(BatchValues(c.buf, max), more);
    }
  }

  lemma {:induction false} ShipmentsAre(v: Value, max: nat)
    requires Encodable(v) && !v.ByteString? && !v.Array? && max < TWO_64
    ensures AllEncodable(Shipments(v, max))
    ensures (v.Text? ==> TextSplit.Split(v.text, max).rest == "") ==>
              Content(Shipments(v, max)) == Said(EmitValue(v, 0, 0))
  {
    if v.Text? {
      var pieces := TextSplit.Split(v.text, max);
      TextSplit.SplitIsExact(v.text, max);
      TextEncodable(pieces.done, max);
      TextContent(pieces.done);
      assert pieces.rest == "" ==> TextSplit.Join(pieces.done) + "" == v.text;
    } else if v.Map? {
      EntriesEncodable(v.flat);
    } else {
      SingleContent(v);
      assert [v][1..] == [];
    }
  }

  lemma {:induction false} OpSays(c: Core, op: Op, max: nat) returns (vs: seq<Value>)
    requires 1 <= max < TWO_64 && OpEncodable(op) && Apply(c, op, max).1 == Done && InPlace(c, op)
    ensures Says(c, Apply(c, op, max).0, vs, Said(op)) && AllEncodable(vs)
  {
    match op
    case Write(data, now, later) => vs := EmitSays(c, ByteString(data), now, later, max);
    case FlushNow =>
      vs := FlushSays(c, max);
      BatchEncodable(c.buf, max);
    case EmitValue(v, now, later) => vs := EmitSays(c, v, now, later, max);
    case SendValue(v, now, later) =>
      if v.ByteString? {
        vs := EmitSays(c, v, now, later, max);
      } else {
        vs := ThenShipSays(c, [v], max);
        SingleContent(v);
        BatchEncodable(c.buf, max);
        assert [v][1..] == [];
        EncodableAppend(BatchValues(c.buf, max), [v]);
      }
  }

  // Any mix of successful calls with their arrays in place, with age flushes falling anywhere: the
  // values sent, followed by the bytes still buffered, say what the calls said, in order; the frames
  // are numbered on and counted.
  lemma {:induction false} CallsAreLossless(c: Core, ops: seq<Op>, max: nat) returns (vs: seq<Value>)
    requires 1 <= max < TWO_64 && AllDone(c, ops, max) && AllInPlace(c, ops, max) && AllOpsEncodable(ops)
    ensures Says(c, ApplyAll(c, ops, max), vs, SaidAll(ops)) && AllEncodable(vs)
    decreases |ops|
  {
    if ops == [] {
      vs := [];
      assert c.sent + Numbered(c.index, Scalars([])) == c.sent;
    } else {
      var next := Apply(c, ops[0], max).0;
      var first := OpSays(c, ops[0], max);
      var rest := CallsAreLossless(next, ops[1..], max);
      SaysThen(c, next, ApplyAll(c, ops, max), first, rest, Said(ops[0]), SaidAll(ops[1..]));
      EncodableAppend(first, rest);
      vs := first + rest;
    }
  }

  // In place or not, nothing is lost or said twice: the same tokens, in some order.
  predicate Keeps(c: Core, next: Core, vs: seq<Value>, said: seq<Token>) {
    && next.sent == c.sent + Numbered(c.index, Scalars(vs))
    && next.index == c.index + |vs| && next.count == c.count + |vs|
    && multiset(Content(vs) + Raws(next.buf)) == multiset(Raws(c.buf) + said)
  }

  lemma {:induction false} OpKeeps(c: Core, op: Op, max: nat) returns (vs: seq<Value>)
    requires 1 <= max < TWO_64 && OpEncodable(op) && Apply(c, op, max).1 == Done
    ensures Keeps(c, Apply(c, op, max).0, vs, Said(op))
  {
    if op.EmitValue? && op.value.Array? {
      vs := op.value.items;
      ShipDone(c, vs);
      assert multiset(Content(vs) + Raws(c.buf)) == multiset(Content(vs)) + multiset(Raws(c.buf)) == multiset(Raws(c.buf) + Content(vs));
    } else {
      vs := OpSays(c, op, max);
    }
  }

  lemma {:induction false} KeepsThen(c: Core, mid: Core, next: Core, a: seq<Value>, b: seq<Value>, said: seq<Token>, more: seq<Token>)
    requires Keeps(c, mid, a, said) && Keeps(mid, next, b, more)
    ensures Keeps(c, next, a + b, said + more)
  {
    hide Frames.Checksum, Content;
    NumberedAppend(c.index, a, b);
    ContentAppend(a, b);
    assert multiset(Content(a + b) + Raws(next.buf)) == multiset(Content(a)) + multiset(Content(b) + Raws(next.buf));
    assert multiset(Raws(mid.buf) + more) == multiset(Raws(mid.buf)) + multiset(more);
    assert multiset(Content(a) + Raws(mid.buf)) == multiset(Content(a)) + multiset(Raws(mid.buf));
    assert multiset(Raws(c.buf) + (said + more)) == multiset(Raws(c.buf) + said) + multiset(more);
  }

  lemma {:induction false} CallsLoseNothing(c: Core, ops: seq<Op>, max: nat) returns (vs: seq<Value>)
    requires 1 <= max < TWO_64 && AllDone(c, ops, max) && AllOpsEncodable(ops)
    ensures Keeps(c, ApplyAll(c, ops, max), vs, SaidAll(ops))
    decreases |ops|
  {
    if ops == [] {
      vs := [];
      assert c.sent + Numbered(c.index, Scalars([])) == c.sent;
      assert Content([]) + Raws(c.buf) == Raws(c.buf) + [];
    } else {
      var next := Apply(c, ops[0], max).0;
      var first := OpKeeps(c, ops[0], max);
      var rest := CallsLoseNothing(next, ops[1..], max);
      KeepsThen(c, next, ApplyAll(c, ops, max), first, rest, Said(ops[0]), SaidAll(ops[1..]));
      vs := first + rest;
    }
  }

  // A whole scalar stream, from START through any such calls to `close`: the chunks are numbered
  // from 0, STREAM_END of a bounded stream tells their number, and their content is what was said.
  lemma {:induction false} WholeStream(credit: Option<nat>, start: Emitted, ops: seq<Op>, unbounded: bool, max: nat) returns (vs: seq<Value>)
    requires 1 <= max < TWO_64 && start.StartFrame? && AllOpsEncodable(ops)
    requires var c := Core(0, 0, [], None, credit, [start]);
      AllDone(c, ops, max) && AllInPlace(c, ops, max) && Flush(ApplyAll(c, ops, max), max).ok
    ensures var c := Core(0, 0, [], None, credit, [start]); var last := Flush(ApplyAll(c, ops, max), max).core;
      && last.sent + [OutputStreams.StreamEnd(unbounded, last.count)] ==
         [start] + Numbered(0, Scalars(vs)) + [EndFrame(if unbounded then None else Some(|vs|))]
      && Content(vs) == SaidAll(ops)
      && AllEncodable(vs)
  {
    var c := Core(0, 0, [], None, credit, [start]);
    var body := CallsAreLossless(c, ops, max);
    var done := ApplyAll(c, ops, max);
    var tail := FlushSays(done, max);
    BatchEncodable(done.buf, max);
    EncodableAppend(body, tail);
    SaysThen(c, done, Flush(done, max).core, body, tail, SaidAll(ops), []);
    vs := body + tail;
    assert Content(vs) + Raws([]) == Content(vs);
    assert Raws([]) + (SaidAll(ops) + []) == SaidAll(ops);
  }

  // ---- Sequence streams ----

  // A call of `emit_list_item`.
  datatype ItemCall = ItemCall(value: Value, meta: Option<Meta>)

  function ItemsOf(calls: seq<ItemCall>): seq<ItemFraming.ListItem> {
    seq(|calls|, i requires 0 <= i < |calls| => ItemFraming.EncodeItem(calls[i].value, calls[i].meta))
  }

  function EmitItems(c: Core, calls: seq<ItemCall>, max: nat): Shipped
    requires max >= 1
    decreases |calls|
  {
    if calls == [] then Shipped(c, true)
    else
      var first := Ship(c, ItemFraming.ItemFragments(Encode(calls[0].value), calls[0].meta, max));
      if first.ok then EmitItems(first.core, calls[1..], max) else first
  }

  predicate AllCallsEncodable(calls: seq<ItemCall>) {
    forall i :: 0 <= i < |calls| ==> Encodable(calls[i].value)
  }

  lemma {:induction false} EncodedItemsAreWhole(calls: seq<ItemCall>)
    requires AllCallsEncodable(calls)
    ensures ItemFraming.AllWhole(ItemsOf(calls))
  {
    hide ItemFraming.IsWhole, Encode, Encodable;
    forall i | 0 <= i < |calls| ensures ItemFraming.IsWhole(ItemsOf(calls)[i].bytes, ItemsOf(calls)[i].value) {
      ItemFraming.EncodedIsWhole(calls[i].value);
    }
  }

  // Successful emissions leave the fragments of their items behind, numbered on and counted.
  lemma {:induction false} EmissionsAre(c: Core, calls: seq<ItemCall>, max: nat)
    requires max >= 1 && EmitItems(c, calls, max).ok
    ensures var next := EmitItems(c, calls, max).core; var fs := ItemFraming.Emitted(ItemsOf(calls), max);
      && next.sent == c.sent + Numbered(c.index, fs)
      && next.index == c.index + |fs| && next.count == c.count + |fs| && next.buf == c.buf
    decreases |calls|
  {
    hide Frames.Checksum, Encode, ItemFraming.ItemFragments, Ship;
    if calls == [] {
      assert c.sent + Numbered(c.index, []) == c.sent;
    } else {
      var head := ItemFraming.ItemFragments(Encode(calls[0].value), calls[0].meta, max);
      ShipIs(c, head);
      assert head[..|head|] == head;
      var rest := ItemFraming.Emitted(ItemsOf(calls[1..]), max);
      assert ItemsOf(calls)[1..] == ItemsOf(calls[1..]);
      assert ItemFraming.Emitted(ItemsOf(calls), max) == head + rest;
      EmissionsAre(Ship(c, head).core, calls[1..], max);
      NumberedConcat(c.index, head, rest);
    }
  }

  // A whole sequence stream, from START through its items to `close`: nothing but their fragments,
  // numbered from 0, and a STREAM_END that tells their number if the stream is bounded.
  lemma {:induction false} WholeSequence(credit: Option<nat>, start: Emitted, calls: seq<ItemCall>, unbounded: bool, max: nat)
    requires max >= 1 && EmitItems(Core(0, 0, [], None, credit, [start]), calls, max).ok
    ensures var last := EmitItems(Core(0, 0, [], None, credit, [start]), calls, max).core;
      var fs := ItemFraming.Emitted(ItemsOf(calls), max);
      && Flush(last, max) == Shipped(last, true)
      && last.sent + [OutputStreams.StreamEnd(unbounded, last.count)] ==
         [start] + Numbered(0, fs) + [EndFrame(if unbounded then None else Some(|fs|))]
  {
    EmissionsAre(Core(0, 0, [], None, credit, [start]), calls, max);
  }

  // ---- The one call that can reorder ----

  // Position of the first token that is not a plain byte.
  function FirstMark(ts: seq<Token>): nat {
    if ts == [] || !ts[0].Raw? then 0 else 1 + FirstMark(ts[1..])
  }

  lemma {:induction false} MarkAfterBytes(bytes: Bytes, ts: seq<Token>)
    ensures FirstMark(Raws(bytes) + ts) == |bytes| + FirstMark(ts)
  {
    if bytes == [] {
      assert Raws(bytes) + ts == ts;
    } else {
      assert (Raws(bytes) + ts)[1..] == Raws(bytes[1..]) + ts;
      MarkAfterBytes(bytes[1..], ts);
    }
  }

  lemma {:induction false} MarkBeforeMore(ts: seq<Token>, more: seq<Token>)
    requires exists i :: 0 <= i < |ts| && !ts[i].Raw?
    ensures FirstMark(ts + more) == FirstMark(ts)
  {
    if ts[0].Raw? {
      assert (ts + more)[1..] == ts[1..] + more;
      var i :| 0 <= i < |ts| && !ts[i].Raw?;
      assert !ts[1..][i - 1].Raw?;
      MarkBeforeMore(ts[1..], more);
    }
  }

  // An array keeps its place in the stream if and only if putting its content before the bytes in the
  // coalescing buffer is the same as putting it after them: this arm has no ordering barrier.
  lemma {:induction false} ArrayKeepsItsPlaceIff(c: Core, items: seq<Value>, now: nat, later: nat, max: nat)
    requires max >= 1 && Emit(c, Array(items), now, later, max).1 == Done
    ensures Says(c, Emit(c, Array(items), now, later, max).0, items, Content(items)) <==> Swaps(c.buf, items)
  {
    hide Frames.Checksum, Encode, Ship, Content, Says, Swaps, Scalars, Numbered, Flush, ThenShip, AppendAndShip, Entries, TextSplit.Split;
    var s := Ship(c, Scalars(items));
    assert Emit(c, Array(items), now, later, max) == (s.core, ToOutcome(s.ok));
    ShipSays(c, items);
  }

  // With anything but bytes in it, that is: if and only if the buffer is empty.
  lemma {:induction false} MixedArrayKeepsItsPlaceIff(c: Core, items: seq<Value>, now: nat, later: nat, max: nat)
    requires max >= 1 && Emit(c, Array(items), now, later, max).1 == Done
    requires exists i :: 0 <= i < |Content(items)| && !Content(items)[i].Raw?
    ensures Says(c, Emit(c, Array(items), now, later, max).0, items, Content(items)) <==> c.buf == []
  {
    ArrayKeepsItsPlaceIff(c, items, now, later, max);
    Commutes(c.buf, Content(items));
  }

  // A fresh stream, one byte written and then another in an array: the second is sent, the first waits.
  lemma {:induction false} ArrayOvertakesBytes(a: Byte, b: Byte, now: nat, max: nat)
    requires a != b && 1 <= max < TWO_64
    ensures var c := Core(0, 0, [], None, None, []);
      var ops := [Write([a], now, now), EmitValue(Array([ByteString([b])]), now, now)];
      var last := ApplyAll(c, ops, max);
      && AllDone(c, ops, max) && !AllInPlace(c, ops, max) && SaidAll(ops) == [Raw(a), Raw(b)]
      && last.sent == [Chunk(0, Scalar(ByteString([b])))] && last.buf == [a]
  {
    hide Frames.Checksum, Encode;
    var c := Core(0, 0, [], None, None, []);
    var write, emit := Write([a], now, now), EmitValue(Array([ByteString([b])]), now, now);
    var ops := [write, emit];
    assert ops[1..] == [emit] && [emit][1..] == [];
    var mid := Apply(c, write, max).0;
    assert [] + [a] == [a];
    assert Append(c, [a], now, now) == (Core(0, 0, [a], Some(now), None, []), None);
    assert mid == Core(0, 0, [a], Some(now), None, []);
    var items := [ByteString([b])];
    assert Scalars(items) == [Scalar(ByteString([b]))];
    assert Scalars(items)[1..] == [];
    ShipDoneAll(mid, items);
    assert [] + Numbered(0, Scalars(items)) == [Chunk(0, Scalar(ByteString([b])))];
    SingleContent(ByteString([b]));
    assert Raws([b]) == [Raw(b)] && Raws([a]) == [Raw(a)];
    assert (Content(items) + Raws([a]))[0] != (Raws([a]) + Content(items))[0];
    var last := Apply(mid, emit, max).0;
    assert Apply(mid, emit, max).1 == Done && last == Ship(mid, Scalars(items)).core;
    assert AllDone(last, [], max) && ApplyAll(last, [], max) == last;
    assert AllDone(mid, [emit], max) && ApplyAll(mid, [emit], max) == last;
    assert !InPlace(mid, emit);
    assert SaidAll([emit]) == [Raw(b)] + [];
    assert SaidAll(ops) == [Raw(a)] + [Raw(b)];
  }

  lemma {:induction false} Commutes(bytes: Bytes, ts: seq<Token>)
    requires exists i :: 0 <= i < |ts| && !ts[i].Raw?
    ensures ts + Raws(bytes) == Raws(bytes) + ts <==> bytes == []
  {
    if bytes == [] {
      assert ts + Raws(bytes) == ts == Raws(bytes) + ts;
    } else {
      MarkAfterBytes(bytes, ts);
      MarkBeforeMore(ts, Raws(bytes));
    }
  }
}
