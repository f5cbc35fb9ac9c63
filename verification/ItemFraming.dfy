// `emit_list_item` framing: one encoded item cut at `max_chunk`, metadata on its first frame only.
module ItemFraming {
  import opened Prelude
  import opened Cbor
  import opened Reassembly

  // One item as `emit_list_item` sends it: its encoding, the value it stands for, its metadata.
  datatype ListItem = ListItem(bytes: Bytes, value: Value, meta: Option<Meta>)

  function EncodeItem(value: Value, meta: Option<Meta>): ListItem {
    ListItem(Encode(value), value, meta)
  }

  function ItemFragments(bytes: Bytes, meta: Option<Meta>, max: nat): seq<Fragment>
    requires max >= 1
    decreases |bytes|
  {
    if bytes == [] then []
    else
      var k := Min(|bytes|, max);
      [Fragment(bytes[..k], meta)] + ItemFragments(bytes[k..], None, max)
  }

  function Emitted(items: seq<ListItem>, max: nat): seq<Fragment>
    requires max >= 1
  {
    if items == [] then []
    else ItemFragments(items[0].bytes, items[0].meta, max) + Emitted(items[1..], max)
  }

  function Delivered(items: seq<ListItem>): seq<Delivery> {
    seq(|items|, i requires 0 <= i < |items| => Data(items[i].value, items[i].meta))
  }

  predicate AllWhole(items: seq<ListItem>) {
    forall i :: 0 <= i < |items| ==> IsWhole(items[i].bytes, items[i].value)
  }

  // `e` is one self-delimiting item: it decodes as a whole, and no proper prefix of it decodes.
  predicate IsWhole(e: Bytes, v: Value) {
    && |e| >= 1
    && Decode(e) == Item(v, |e|)
    && forall k :: 0 <= k < |e| ==> IsShort(e, k)
  }

  predicate IsShort(e: Bytes, k: nat)
    requires k <= |e|
  {
    Decode(e[..k]) == NeedMore
  }

  lemma {:induction false} EncodedIsWhole(v: Value)
    requires Encodable(v)
    ensures IsWhole(Encode(v), v)
  {
    RoundTrip(v, []);
    assert Encode(v) + [] == Encode(v);
    forall k | 0 <= k < |Encode(v)| ensures IsShort(Encode(v), k) {
      ProperPrefixNeedsMore(v, k);
    }
  }

  // The reassembly state when `k` bytes of an item have arrived, and the fragments still to come.
  function Received(e: Bytes, meta: Option<Meta>, k: nat): Partial
    requires k <= |e|
  {
    Partial(e[..k], if k == 0 then None else meta)
  }

  function Remaining(e: Bytes, meta: Option<Meta>, k: nat, max: nat): seq<Fragment>
    requires k <= |e| && max >= 1
  {
    ItemFragments(e[k..], if k == 0 then meta else None, max)
  }

  lemma {:induction false} PushAllAppend(p: Partial, a: seq<Fragment>, b: seq<Fragment>)
    ensures var r := PushAll(p, a); var t := PushAll(r.state, b);
      PushAll(p, a + b) == Progress(t.state, r.out + t.out)
    ensures Continuations(p, a + b) == Continuations(p, a) + Continuations(PushAll(p, a).state, b)
    decreases |a|
  {
    if a == [] {
      assert a + b == b;
    } else {
      var first := Push(p, a[0]);
      assert (a + b)[1..] == a[1..] + b;
      PushAllAppend(first.state, a[1..], b);
      var r := PushAll(first.state, a[1..]);
      assert first.out + (r.out + PushAll(r.state, b).out) == first.out + r.out + PushAll(r.state, b).out;
    }
  }

  // One more fragment of an item: either it is still short of the item, or it completes it.
  lemma {:induction false} NextFragment(e: Bytes, v: Value, meta: Option<Meta>, k: nat, max: nat)
    requires IsWhole(e, v) && max >= 1 && k < |e|
    ensures var fs := Remaining(e, meta, k, max); var k' := k + Min(|e| - k, max);
      && |fs| >= 1
      && fs[1..] == Remaining(e, meta, k', max)
      && Push(Received(e, meta, k), fs[0]) ==
         (if k' < |e| then Progress(Received(e, meta, k'), []) else Progress(EMPTY, [Data(v, meta)]))
  {
    var k' := k + Min(|e| - k, max);
    assert e[k..][k' - k..] == e[k'..];
    assert e[k..][..k' - k] == e[k..k'];
    PushSlice(e, v, meta, k, k');
  }

  lemma {:induction false} PushSlice(e: Bytes, v: Value, meta: Option<Meta>, k: nat, k': nat)
    requires IsWhole(e, v) && k < k' <= |e|
    ensures Push(Received(e, meta, k), Fragment(e[k..k'], if k == 0 then meta else None)) ==
            (if k' < |e| then Progress(Received(e, meta, k'), []) else Progress(EMPTY, [Data(v, meta)]))
  {
    assert e[..k] + e[k..k'] == e[..k'];
    if k' == |e| {
      assert e[..k'] == e;
      DrainWhole(e, v, meta);
    } else {
      assert IsShort(e, k');
    }
  }

  lemma {:induction false} DrainWhole(e: Bytes, v: Value, meta: Option<Meta>)
    requires Decode(e) == Item(v, |e|)
    ensures Drain(Partial(e, meta)) == Progress(EMPTY, [Data(v, meta)])
  {
    assert e[|e|..] == [];
    assert Drain(EMPTY) == Progress(EMPTY, []);
  }

  lemma {:induction false} ItemArrives(e: Bytes, v: Value, meta: Option<Meta>, k: nat, max: nat)
    requires IsWhole(e, v) && max >= 1 && k < |e|
    ensures var fs := Remaining(e, meta, k, max);
      && PushAll(Received(e, meta, k), fs) == Progress(EMPTY, [Data(v, meta)])
      && Continuations(Received(e, meta, k), fs) == |fs| - (if k == 0 then 1 else 0)
    decreases |e| - k
  {
    hide Push, Drain;
    var fs := Remaining(e, meta, k, max);
    var k' := k + Min(|e| - k, max);
    NextFragment(e, v, meta, k, max);
    if k' < |e| {
      PushAllCons(Received(e, meta, k), fs, Progress(Received(e, meta, k'), []));
      ItemArrives(e, v, meta, k', max);
    } else {
      PushAllCons(Received(e, meta, k), fs, Progress(EMPTY, [Data(v, meta)]));
    }
  }

  lemma {:induction false} PushAllCons(p: Partial, fs: seq<Fragment>, first: Progress)
    requires fs != [] && Push(p, fs[0]) == first
    ensures var rest := PushAll(first.state, fs[1..]);
      PushAll(p, fs) == Progress(rest.state, first.out + rest.out)
    ensures Continuations(p, fs) == (if IsContinuation(p) then 1 else 0) + Continuations(first.state, fs[1..])
  {
  }

  // Items sent with `emit_list_item`, at any `max_chunk`, arrive one by one in order, each with
  // exactly its own metadata, and every frame but the first of each item is credited on arrival.
  lemma {:induction false} EmittedItemsArrive(items: seq<ListItem>, max: nat)
    requires AllWhole(items) && max >= 1
    ensures PushAll(EMPTY, Emitted(items, max)) == Progress(EMPTY, Delivered(items))
    ensures Continuations(EMPTY, Emitted(items, max)) == |Emitted(items, max)| - |items|
  {
    if items != [] {
      FirstItemArrives(items, max, Emitted(items[1..], max));
      EmittedItemsArrive(items[1..], max);
      DeliveredCons(items[0], items[1..]);
      assert [items[0]] + items[1..] == items;
    }
  }

  lemma {:induction false} DeliveredCons(item: ListItem, rest: seq<ListItem>)
    ensures Delivered([item] + rest) == [Data(item.value, item.meta)] + Delivered(rest)
  {
  }

  lemma {:induction false} FirstItemArrives(items: seq<ListItem>, max: nat, rest: seq<Fragment>)
    requires AllWhole(items) && max >= 1 && items != []
    ensures var fs := ItemFragments(items[0].bytes, items[0].meta, max); var t := PushAll(EMPTY, rest);
      && PushAll(EMPTY, fs + rest) == Progress(t.state, [Data(items[0].value, items[0].meta)] + t.out)
      && Continuations(EMPTY, fs + rest) == |fs| - 1 + Continuations(EMPTY, rest)
  {
    var e := items[0].bytes;
    assert e[0..] == e && e[..0] == [];
    ItemArrives(e, items[0].value, items[0].meta, 0, max);
    PushAllAppend(EMPTY, Remaining(e, items[0].meta, 0, max), rest);
  }

  // Some but not all of the fragments of one item: nothing is delivered yet.
  lemma {:induction false} ItemCut(e: Bytes, v: Value, meta: Option<Meta>, k: nat, max: nat, j: nat)
    requires IsWhole(e, v) && max >= 1 && k < |e|
    requires j < |Remaining(e, meta, k, max)|
    ensures var r := PushAll(Received(e, meta, k), Remaining(e, meta, k, max)[..j]);
      r.out == [] && (r.state.buf == [] <==> k == 0 && j == 0)
    decreases j
  {
    if j > 0 {
      NextFragment(e, v, meta, k, max);
      var k' := k + Min(|e| - k, max);
      var fs := Remaining(e, meta, k, max);
      assert fs[..j][1..] == Remaining(e, meta, k', max)[..j - 1];
      if k' < |e| {
        ItemCut(e, v, meta, k', max, j - 1);
      }
    }
  }

  function FirstFragments(items: seq<ListItem>, max: nat): seq<Fragment>
    requires max >= 1 && items != []
  {
    ItemFragments(items[0].bytes, items[0].meta, max)
  }

  // `whole` items are complete after `n` fragments, and no more.
  predicate CompleteAfter(items: seq<ListItem>, max: nat, n: nat, whole: nat)
    requires max >= 1
  {
    && whole <= |items| && |Emitted(items[..whole], max)| <= n
    && (whole < |items| ==> n < |Emitted(items[..whole + 1], max)|)
  }

  // A stream cut after any number `n` of frames has delivered the items that are complete, and
  // STREAM_END then reports one error if and only if the cut falls inside an item.
  lemma {:induction false} CutStream(items: seq<ListItem>, max: nat, n: nat) returns (whole: nat)
    requires AllWhole(items) && max >= 1 && n <= |Emitted(items, max)|
    ensures CompleteAfter(items, max, n, whole)
    ensures var r := PushAll(EMPTY, Emitted(items, max)[..n]);
      && r.out == Delivered(items[..whole])
      && |AtStreamEnd(r.state)| == (if n == |Emitted(items[..whole], max)| then 0 else 1)
  {
    hide Push, Drain, ItemFragments;
    whole := 0;
    if items != [] {
      var head := FirstFragments(items, max);
      if n < |head| {
        CutFirst(items, max, n);
        assert items[..1] == [items[0]];
      } else {
        var rest := CutStream(items[1..], max, n - |head|);
        whole := rest + 1;
        CompleteLater(items, max, n, rest);
        CutLater(items, max, n, rest);
      }
    }
  }

  lemma {:induction false} CompleteLater(items: seq<ListItem>, max: nat, n: nat, rest: nat)
    requires max >= 1 && items != [] && n >= |FirstFragments(items, max)|
    requires CompleteAfter(items[1..], max, n - |FirstFragments(items, max)|, rest)
    ensures CompleteAfter(items, max, n, rest + 1)
    ensures |Emitted(items[..rest + 1], max)| == |FirstFragments(items, max)| + |Emitted(items[1..][..rest], max)|
  {
    EmittedPrefix(items, max, rest);
    if rest + 1 < |items| {
      EmittedPrefix(items, max, rest + 1);
    }
  }

  lemma {:induction false} CutLater(items: seq<ListItem>, max: nat, n: nat, rest: nat)
    requires AllWhole(items) && max >= 1 && items != [] && rest < |items|
    requires |FirstFragments(items, max)| <= n <= |Emitted(items, max)|
    requires PushAll(EMPTY, Emitted(items[1..], max)[..n - |FirstFragments(items, max)|]).out == Delivered(items[1..][..rest])
    ensures var tail := PushAll(EMPTY, Emitted(items[1..], max)[..n - |FirstFragments(items, max)|]);
      PushAll(EMPTY, Emitted(items, max)[..n]) == Progress(tail.state, Delivered(items[..rest + 1]))
  {
    hide PushAll, ItemFragments, Delivered;
    var head, tail := FirstFragments(items, max), Emitted(items[1..], max);
    assert Emitted(items, max)[..n] == head + tail[..n - |head|];
    FirstItemArrives(items, max, tail[..n - |head|]);
    assert items[..rest + 1] == [items[0]] + items[1..][..rest];
    DeliveredCons(items[0], items[1..][..rest]);
  }

  lemma {:induction false} EmittedPrefix(items: seq<ListItem>, max: nat, n: nat)
    requires max >= 1 && items != [] && n <= |items[1..]|
    ensures Emitted(items[..n + 1], max) ==
            FirstFragments(items, max) + Emitted(items[1..][..n], max)
  {
    assert items[..n + 1] == [items[0]] + items[1..][..n];
  }

  lemma {:induction false} CutFirst(items: seq<ListItem>, max: nat, n: nat)
    requires AllWhole(items) && max >= 1 && items != []
    requires n < |FirstFragments(items, max)|
    ensures var r := PushAll(EMPTY, Emitted(items, max)[..n]);
      r.out == [] && (r.state.buf == [] <==> n == 0)
  {
    var e := items[0].bytes;
    assert e[0..] == e && e[..0] == [];
    ItemCut(e, items[0].value, items[0].meta, 0, max, n);
    assert Emitted(items, max)[..n] == ItemFragments(e, items[0].meta, max)[..n];
  }
}
