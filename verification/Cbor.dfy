// Definite-length CBOR (section 3 of RFC 8949): the codec under CHUNK payloads and under the
// self-delimiting items of a CBOR sequence (section 2 of RFC 8742).
module Cbor {
  import opened Prelude
  import Utf8

  datatype Value =
    | Unsigned(n: nat)
    | Negative(n: nat)                       // the integer -1 - n
    | ByteString(bytes: Bytes)
    | Text(text: string)
    | Array(items: seq<Value>)
    | Map(flat: seq<Value>)                  // key, value, key, value, ...
    | Tagged(tag: nat, content: Value)
    | Bool(b: bool)
    | Null
    | Float(raw: Bytes)                      // the 2, 4 or 8 bytes of a half, single or double

  // What the encoding can carry at all: 64-bit arguments and lengths, floats of a real width.
  predicate Encodable(v: Value)
    decreases v
  {
    match v
    case Unsigned(n) => n < TWO_64
    case Negative(n) => n < TWO_64
    case ByteString(bytes) => |bytes| < TWO_64
    case Text(text) => |Utf8.Encode(text)| < TWO_64
    case Array(items) => |items| < TWO_64 && AllEncodable(items)
    case Map(flat) => |flat| % 2 == 0 && |flat| / 2 < TWO_64 && AllEncodable(flat)
    case Tagged(tag, content) => tag < TWO_64 && Encodable(content)
    case Float(raw) => |raw| == 2 || |raw| == 4 || |raw| == 8
    case _ => true
  }

  predicate AllEncodable(vs: seq<Value>)
    decreases vs
  {
    vs == [] || (Encodable(vs[0]) && AllEncodable(vs[1..]))
  }

  // ---- Heads: a 3-bit major type and an unsigned argument in shortest form ----

  function BigEndian(n: nat, width: nat): Bytes {
    if width == 0 then [] else BigEndian(n / 256, width - 1) + [n % 256]
  }

  function FromBigEndian(b: Bytes): nat {
    if b == [] then 0 else FromBigEndian(b[..|b| - 1]) * 256 + b[|b| - 1]
  }

  function Pow256(k: nat): nat {
    if k == 0 then 1 else 256 * Pow256(k - 1)
  }

  // The additional information (low five bits) that announces the argument `n`.
  function Info(n: nat): (r: nat)
    ensures r < 28
  {
    if n < 24 then n else if n < 0x100 then 24 else if n < 0x1_0000 then 25 else if n < 0x1_0000_0000 then 26 else 27
  }

  function ArgWidth(info: nat): nat {
    if info == 24 then 1 else if info == 25 then 2 else if info == 26 then 4 else if info == 27 then 8 else 0
  }

  function Head(major: nat, n: nat): Bytes
    requires major < 8
  {
    [major * 32 + Info(n)] + BigEndian(n, ArgWidth(Info(n)))
  }

  function Encode(v: Value): Bytes
    decreases v
  {
    match v
    case Unsigned(n) => Head(0, n)
    case Negative(n) => Head(1, n)
    case ByteString(bytes) => Head(2, |bytes|) + bytes
    case Text(text) => Head(3, |Utf8.Encode(text)|) + Utf8.Encode(text)
    case Array(items) => Head(4, |items|) + EncodeAll(items)
    case Map(flat) => Head(5, |flat| / 2) + EncodeAll(flat)
    case Tagged(tag, content) => Head(6, tag) + Encode(content)
    case Bool(b) => [if b then 0xF5 else 0xF4]
    case Null => [0xF6]
    case Float(raw) => [if |raw| == 2 then 0xF9 else if |raw| == 4 then 0xFA else 0xFB] + raw
  }

  function EncodeAll(vs: seq<Value>): Bytes
    decreases vs
  {
    if vs == [] then [] else Encode(vs[0]) + EncodeAll(vs[1..])
  }

  // ---- Decoding from the front of a buffer ----

  datatype HeadResult = HeadOk(major: nat, info: nat, arg: nat, used: nat) | HeadMore | HeadBad

  // Any argument width is accepted, shortest or not; reserved and indefinite forms are not.
  function DecodeHead(b: Bytes): (r: HeadResult)
    ensures r.HeadOk? ==> 1 <= r.used <= |b| && r.major < 8
  {
    if b == [] then HeadMore
    else
      var info := b[0] % 32;
      var width := ArgWidth(info);
      if info >= 28 then HeadBad
      else if |b| < 1 + width then HeadMore
      else HeadOk(b[0] / 32, info, if info < 24 then info else FromBigEndian(b[1..1 + width]), 1 + width)
  }

  datatype Decoded = Item(value: Value, used: nat) | NeedMore | Malformed

  datatype DecodedAll = Items(values: seq<Value>, used: nat) | NeedMoreItems | MalformedItems

  function Decode(b: Bytes): (r: Decoded)
    ensures r.Item? ==> 1 <= r.used <= |b|
    decreases |b|, 0
  {
    match DecodeHead(b)
    case HeadMore => NeedMore
    case HeadBad => Malformed
    case HeadOk(major, info, arg, used) =>
      if major == 0 then Item(Unsigned(arg), used)
      else if major == 1 then Item(Negative(arg), used)
      else if major == 2 || major == 3 then
        if |b| < used + arg then NeedMore else DecodeString(major, b[used..used + arg], used)
      else if major == 4 || major == 5 then
        match DecodeAll(if major == 4 then arg else 2 * arg, b[used..])
        case NeedMoreItems => NeedMore
        case MalformedItems => Malformed
        case Items(vs, n) => Item(if major == 4 then Array(vs) else Map(vs), used + n)
      else if major == 6 then
        match Decode(b[used..])
        case Item(v, n) => Item(Tagged(arg, v), used + n)
        case other => other
      else DecodeSimple(info, b[1..used], used)
  }

  function DecodeString(major: nat, body: Bytes, used: nat): (r: Decoded)
    requires used >= 1
    ensures r.Item? ==> r.used == used + |body|
    ensures !r.NeedMore?
  {
    if major == 2 then Item(ByteString(body), used + |body|)
    else match Utf8.Decode(body)
      case None => Malformed
      case Some(text) => Item(Text(text), used + |body|)
  }

  function DecodeSimple(info: nat, raw: Bytes, used: nat): (r: Decoded)
    ensures r.Item? ==> r.used == used
    ensures !r.NeedMore?
  {
    if info == 20 || info == 21 then Item(Bool(info == 21), used)
    else if info == 22 then Item(Null, used)
    else if 25 <= info <= 27 then Item(Float(raw), used)
    else Malformed
  }

  // `n` items in a row.
  function DecodeAll(n: nat, b: Bytes): (r: DecodedAll)
    ensures r.Items? ==> r.used <= |b| && |r.values| == n
    decreases |b|, 1
  {
    if n == 0 then Items([], 0)
    else match Decode(b)
      case NeedMore => NeedMoreItems
      case Malformed => MalformedItems
      case Item(v, used) =>
        match DecodeAll(n - 1, b[used..])
        case Items(vs, rest) => Items([v] + vs, used + rest)
        case other => other
  }

  // ---- Decoding undoes encoding ----

  lemma {:induction false} BigEndianRoundTrip(n: nat, width: nat)
    requires n < Pow256(width)
    ensures |BigEndian(n, width)| == width
    ensures FromBigEndian(BigEndian(n, width)) == n
  {
    if width > 0 {
      BigEndianRoundTrip(n / 256, width - 1);
      assert BigEndian(n, width)[..width - 1] == BigEndian(n / 256, width - 1);
    }
  }

  lemma {:induction false} HeadRoundTrip(major: nat, n: nat, rest: Bytes)
    requires major < 8 && n < TWO_64
    ensures DecodeHead(Head(major, n) + rest) == HeadOk(major, Info(n), n, |Head(major, n)|)
  {
    var width := ArgWidth(Info(n));
    assert Pow256(1) == 0x100 && Pow256(2) == 0x1_0000 && Pow256(3) == 0x100_0000 && Pow256(4) == 0x1_0000_0000;
    assert Pow256(5) == 0x100_0000_0000 && Pow256(6) == 0x1_0000_0000_0000 && Pow256(7) == 0x100_0000_0000_0000;
    assert Pow256(8) == TWO_64;
    if n >= 24 {
      BigEndianRoundTrip(n, width);
    }
    var b := Head(major, n) + rest;
    assert b[0] == major * 32 + Info(n);
    assert b[1..1 + width] == BigEndian(n, width);
  }

  // A whole encoded value, whatever follows it, decodes to that value and to nothing more.
  lemma {:induction false} RoundTrip(v: Value, rest: Bytes)
    requires Encodable(v)
    ensures Decode(Encode(v) + rest) == Item(v, |Encode(v)|)
    decreases v, 0
  {
    hide Head, Info, DecodeHead, DecodeString, DecodeSimple;
    match v
    case Array(items) =>
      RoundTripAll(items, rest);
      RoundTripMany(v, items, rest);
    case Map(flat) =>
      RoundTripAll(flat, rest);
      RoundTripMany(v, flat, rest);
    case Tagged(tag, content) =>
      HeadThenBody(6, tag, Encode(content), rest);
      RoundTrip(content, rest);
    case _ => RoundTripLeaf(v, rest);
  }

  lemma {:induction false} RoundTripMany(v: Value, vs: seq<Value>, rest: Bytes)
    requires Encodable(v) && (v == Array(vs) || v == Map(vs))
    requires DecodeAll(|vs|, EncodeAll(vs) + rest) == Items(vs, |EncodeAll(vs)|)
    ensures Decode(Encode(v) + rest) == Item(v, |Encode(v)|)
  {
    hide Head, Info, DecodeHead, DecodeString, DecodeSimple;
    HeadThenBody(if v.Array? then 4 else 5, if v.Array? then |vs| else |vs| / 2, EncodeAll(vs), rest);
  }

  lemma {:induction false} RoundTripLeaf(v: Value, rest: Bytes)
    requires Encodable(v) && !v.Array? && !v.Map? && !v.Tagged?
    ensures Decode(Encode(v) + rest) == Item(v, |Encode(v)|)
  {
    hide Head, Info, BigEndian, FromBigEndian;
    match v
    case Unsigned(n) => HeadRoundTrip(0, n, rest);
    case Negative(n) => HeadRoundTrip(1, n, rest);
    case ByteString(bytes) => HeadThenBody(2, |bytes|, bytes, rest);
    case Text(text) =>
      HeadThenBody(3, |Utf8.Encode(text)|, Utf8.Encode(text), rest);
      Utf8.RoundTrip(text);
    case Float(raw) => FloatRoundTrip(raw, rest);
    case _ =>
  }

  lemma {:induction false} FloatRoundTrip(raw: Bytes, rest: Bytes)
    requires Encodable(Float(raw))
    ensures Decode(Encode(Float(raw)) + rest) == Item(Float(raw), 1 + |raw|)
  {
    assert (Encode(Float(raw)) + rest)[1..1 + |raw|] == raw;
  }

  lemma {:induction false} HeadThenBody(major: nat, n: nat, body: Bytes, rest: Bytes)
    requires major < 8 && n < TWO_64
    ensures var h := Head(major, n); var b := h + body + rest;
      && DecodeHead(b) == HeadOk(major, Info(n), n, |h|)
      && b[|h|..|h| + |body|] == body
      && b[|h|..] == body + rest
  {
    var h := Head(major, n);
    HeadRoundTrip(major, n, body + rest);
    assert h + body + rest == h + (body + rest);
  }

  lemma {:induction false} RoundTripAll(vs: seq<Value>, rest: Bytes)
    requires AllEncodable(vs)
    ensures DecodeAll(|vs|, EncodeAll(vs) + rest) == Items(vs, |EncodeAll(vs)|)
    decreases vs, 0
  {
    hide Encode, Decode;
    if vs != [] {
      var first := Encode(vs[0]);
      RoundTrip(vs[0], EncodeAll(vs[1..]) + rest);
      assert EncodeAll(vs) + rest == first + (EncodeAll(vs[1..]) + rest);
      assert (EncodeAll(vs) + rest)[|first|..] == EncodeAll(vs[1..]) + rest;
      RoundTripAll(vs[1..], rest);
      assert [vs[0]] + vs[1..] == vs;
    }
  }

  // ---- More bytes never change an answer already given ----

  // Holds of every buffer, valid or not: this is what makes waiting for more frames safe.
  lemma {:induction false} Stable(b: Bytes, more: Bytes)
    ensures !Decode(b).NeedMore? ==> Decode(b + more) == Decode(b)
    decreases |b|, 0
  {
    hide FromBigEndian, DecodeString, DecodeSimple;
    var h := DecodeHead(b);
    if h.HeadOk? {
      assert (b + more)[1..h.used] == b[1..h.used];
      assert (b + more)[h.used..] == b[h.used..] + more;
      if (h.major == 2 || h.major == 3) && |b| >= h.used + h.arg {
        assert (b + more)[h.used..h.used + h.arg] == b[h.used..h.used + h.arg];
      } else if h.major == 4 || h.major == 5 {
        StableAll(if h.major == 4 then h.arg else 2 * h.arg, b[h.used..], more);
      } else if h.major == 6 {
        Stable(b[h.used..], more);
      }
    }
  }

  lemma {:induction false} StableAll(n: nat, b: Bytes, more: Bytes)
    ensures !DecodeAll(n, b).NeedMoreItems? ==> DecodeAll(n, b + more) == DecodeAll(n, b)
    decreases |b|, 1
  {
    if n > 0 {
      Stable(b, more);
      var d := Decode(b);
      if d.Item? {
        assert (b + more)[d.used..] == b[d.used..] + more;
        StableAll(n - 1, b[d.used..], more);
      }
    }
  }

  // The encoding is prefix-free, and a truncated item is never mistaken for garbage.
  lemma {:induction false} ProperPrefixNeedsMore(v: Value, k: nat)
    requires Encodable(v) && k < |Encode(v)|
    ensures Decode(Encode(v)[..k]) == NeedMore
  {
    var e := Encode(v);
    RoundTrip(v, []);
    assert e + [] == e;
    Stable(e[..k], e[k..]);
    assert e[..k] + e[k..] == e;
  }
}
