// Sequence-mode framing: how an item is cut into CHUNK payloads and put together again.
module Reassembly {
  import opened Prelude
  import opened Cbor

  type Meta = map<string, Value>

  datatype StreamError =
    | MissingChecksum
    | ChecksumMismatch(expected: nat, actual: nat)
    | Undecodable
    | Truncated(trailing: nat)
    | CreditViolation
    | Remote(code: string, message: string)
    | Protocol(message: string)

  // What the consumer of one stream is handed.
  datatype Delivery = Data(value: Value, meta: Option<Meta>) | Failed(error: StreamError)

  // One CHUNK payload with the metadata its frame carries.
  datatype Fragment = Fragment(payload: Bytes, meta: Option<Meta>)

  // The item being received: its bytes so far and the metadata of its first fragment.
  datatype Partial = Partial(buf: Bytes, meta: Option<Meta>)

  datatype Progress = Progress(state: Partial, out: seq<Delivery>)

  const EMPTY := Partial([], None)

  // Every item that is complete at the front of the buffer leaves it; only the first takes the
  // metadata. Bytes that are not CBOR are reported once and the buffer is dropped.
  function Drain(p: Partial): Progress
    decreases |p.buf|
  {
    match Decode(p.buf)
    case NeedMore => Progress(p, [])
    case Malformed => Progress(Partial([], p.meta), [Failed(Undecodable)])
    case Item(v, used) =>
      var rest := Drain(Partial(p.buf[used..], None));
      Progress(rest.state, [Data(v, p.meta)] + rest.out)
  }

  function Push(p: Partial, f: Fragment): Progress {
    Drain(Partial(p.buf + f.payload, if p.buf == [] then f.meta else p.meta))
  }

  // A fragment that continues an item is credited as soon as it arrives.
  predicate IsContinuation(p: Partial) {
    p.buf != []
  }

  function PushAll(p: Partial, fs: seq<Fragment>): Progress
    decreases |fs|
  {
    if fs == [] then Progress(p, [])
    else
      var first := Push(p, fs[0]);
      var rest := PushAll(first.state, fs[1..]);
      Progress(rest.state, first.out + rest.out)
  }

  // How many of the fragments continue an item.
  function Continuations(p: Partial, fs: seq<Fragment>): nat
    decreases |fs|
  {
    if fs == [] then 0
    else (if IsContinuation(p) then 1 else 0) + Continuations(Push(p, fs[0]).state, fs[1..])
  }

  // Buffers one fragment and delivers what it completes. `credit` tells whether the fragment
  // continued an item, so that its credit goes back at once.
  method Receive(p: Partial, f: Fragment) returns (r: Progress, credit: bool)
    ensures r == Push(p, f)
    ensures credit == IsContinuation(p)
  {
    var buf, itemMeta, out := p.buf, p.meta, [];
    credit := buf != [];
    if !credit {
      itemMeta := f.meta;
    }
    buf := buf + f.payload;
    ghost var start := Partial(buf, itemMeta);
    var pending := true;
    while pending
      invariant pending ==> Drain(start) == Resume(out, Drain(Partial(buf, itemMeta)))
      invariant !pending ==> Drain(start) == Progress(Partial(buf, itemMeta), out)
      decreases pending, |buf|
    {
      match Decode(buf)
      case Item(value, used) =>
        ghost var rest := Drain(Partial(buf[used..], None));
        assert out + ([Data(value, itemMeta)] + rest.out) == out + [Data(value, itemMeta)] + rest.out;
        buf := buf[used..];
        out := out + [Data(value, itemMeta)];
        itemMeta := None;
        if buf == [] {
          pending := false;
          assert Drain(EMPTY) == Progress(EMPTY, []);
        }
      case NeedMore =>
        pending := false;
      case Malformed =>
        out := out + [Failed(Undecodable)];
        buf := [];
        pending := false;
    }
    r := Progress(Partial(buf, itemMeta), out);
  }

  ghost function Resume(out: seq<Delivery>, rest: Progress): Progress {
    Progress(rest.state, out + rest.out)
  }

  function AtStreamEnd(p: Partial): seq<Delivery> {
    if p.buf == [] then [] else [Failed(Truncated(|p.buf|))]
  }

  // ---- Incremental reassembly is batch decoding ----

  // Draining whole bytes at once: the values up to the first error, whether there is one, and
  // what is left when there is none.
  datatype Batch = Batch(values: seq<Value>, failed: bool, rest: Bytes)

  function BatchDecode(b: Bytes): Batch
    decreases |b|
  {
    match Decode(b)
    case NeedMore => Batch([], false, b)
    case Malformed => Batch([], true, [])
    case Item(v, used) =>
      var t := BatchDecode(b[used..]);
      Batch([v] + t.values, t.failed, t.rest)
  }

  // Decoding more bytes goes on from where decoding fewer stopped.
  lemma {:induction false} BatchExtends(b: Bytes, more: Bytes)
    ensures var t := BatchDecode(b);
      if t.failed then BatchDecode(b + more) == t
      else var u := BatchDecode(t.rest + more);
        BatchDecode(b + more) == Batch(t.values + u.values, u.failed, u.rest)
    decreases |b|
  {
    Stable(b, more);
    match Decode(b)
    case NeedMore =>
    case Malformed =>
    case Item(v, used) =>
      var tail := b[used..];
      assert (b + more)[used..] == tail + more;
      BatchExtends(tail, more);
      var t := BatchDecode(tail);
      var u := BatchDecode(t.rest + more);
      assert [v] + (t.values + u.values) == [v] + t.values + u.values;
  }

  // How the output of the reassembler relates to a batch result: without an error it is exactly
  // the values; with one it starts with the values before the error and then the error.
  predicate Matches(out: seq<Delivery>, t: Batch) {
    var n := |t.values|;
    && n + (if t.failed then 1 else 0) <= |out|
    && (forall i :: 0 <= i < n ==> out[i].Data? && out[i].value == t.values[i])
    && (if t.failed then out[n] == Failed(Undecodable) else |out| == n)
  }

  lemma {:induction false} DrainIsBatch(p: Partial)
    ensures var d := Drain(p); var t := BatchDecode(p.buf);
      Matches(d.out, t) && d.state.buf == t.rest && (t.failed ==> |d.out| == |t.values| + 1)
    decreases |p.buf|
  {
    match Decode(p.buf)
    case NeedMore =>
    case Malformed =>
    case Item(v, used) => DrainIsBatch(Partial(p.buf[used..], None));
  }

  function Payloads(fs: seq<Fragment>): Bytes {
    if fs == [] then [] else fs[0].payload + Payloads(fs[1..])
  }

  // However the bytes of a sequence stream are cut into fragments, valid or not, the values that
  // reach the consumer before any error are those of decoding all the bytes at once, in order; an
  // error shows in one exactly when it shows in the other, and without one the same tail is left.
  lemma {:induction false} IncrementalIsBatch(p: Partial, fs: seq<Fragment>)
    requires Decode(p.buf).NeedMore?
    ensures var r := PushAll(p, fs); var t := BatchDecode(p.buf + Payloads(fs));
      Matches(r.out, t) && (!t.failed ==> r.state.buf == t.rest)
    decreases |fs|
  {
    if fs == [] {
      assert p.buf + Payloads(fs) == p.buf;
    } else {
      var first := Push(p, fs[0]);
      var joined := p.buf + fs[0].payload;
      assert p.buf + Payloads(fs) == joined + Payloads(fs[1..]);
      DrainIsBatch(Partial(joined, if p.buf == [] then fs[0].meta else p.meta));
      BatchExtends(joined, Payloads(fs[1..]));
      if BatchDecode(joined).failed {
        MatchesLonger(first.out, PushAll(first.state, fs[1..]).out, BatchDecode(joined));
      } else {
        RestNeedsMore(joined);
        IncrementalIsBatch(first.state, fs[1..]);
        MatchesJoin(first.out, BatchDecode(joined), PushAll(first.state, fs[1..]).out,
                    BatchDecode(first.state.buf + Payloads(fs[1..])));
      }
    }
  }

  lemma {:induction false} MatchesJoin(a: seq<Delivery>, t: Batch, b: seq<Delivery>, u: Batch)
    requires Matches(a, t) && !t.failed && Matches(b, u)
    ensures Matches(a + b, Batch(t.values + u.values, u.failed, u.rest))
  {
  }

  lemma {:induction false} MatchesLonger(a: seq<Delivery>, b: seq<Delivery>, t: Batch)
    requires Matches(a, t) && t.failed
    ensures Matches(a + b, t)
  {
  }

  lemma {:induction false} RestNeedsMore(b: Bytes)
    requires !BatchDecode(b).failed
    ensures Decode(BatchDecode(b).rest).NeedMore?
    decreases |b|
  {
    if Decode(b).Item? {
      RestNeedsMore(b[Decode(b).used..]);
    }
  }
}
