// UTF-8 (section 3 of RFC 3629). A Dafny `char` is a Unicode scalar value, as a Rust `char` is.
module Utf8 {
  import opened Prelude

  function EncodeChar(c: char): Bytes {
    var n := c as int;
    if n < 0x80 then [n]
    else if n < 0x800 then [0xC0 + n / 0x40, 0x80 + n % 0x40]
    else if n < 0x1_0000 then [0xE0 + n / 0x1000, 0x80 + (n / 0x40) % 0x40, 0x80 + n % 0x40]
    else [0xF0 + n / 0x4_0000, 0x80 + (n / 0x1000) % 0x40, 0x80 + (n / 0x40) % 0x40, 0x80 + n % 0x40]
  }

  function Encode(s: string): Bytes {
    if s == "" then [] else EncodeChar(s[0]) + Encode(s[1..])
  }

  predicate IsContinuation(b: Byte) {
    0x80 <= b < 0xC0
  }

  // Six more bits, carried by a continuation byte.
  function Join(high: int, b: Byte): int {
    high * 0x40 + (b as int - 0x80)
  }

  // The first character of `b` and the number of bytes it takes; None when `b` does not start with
  // a well-formed, shortest-form encoding of a scalar value.
  function DecodeFirst(b: Bytes): (r: Option<(char, nat)>)
    ensures r.Some? ==> 0 < r.value.1 <= |b|
  {
    if b == [] then None
    else if b[0] < 0x80 then Some((b[0] as char, 1))
    else if 0xC2 <= b[0] < 0xE0 && |b| >= 2 && IsContinuation(b[1]) then
      Some((Join(b[0] as int - 0xC0, b[1]) as char, 2))
    else if 0xE0 <= b[0] < 0xF0 && |b| >= 3 && IsContinuation(b[1]) && IsContinuation(b[2]) then
      var n := Join(Join(b[0] as int - 0xE0, b[1]), b[2]);
      if n < 0x800 || 0xD800 <= n < 0xE000 then None else Some((n as char, 3))
    else if 0xF0 <= b[0] < 0xF5 && |b| >= 4 && IsContinuation(b[1]) && IsContinuation(b[2]) && IsContinuation(b[3]) then
      var n := Join(Join(Join(b[0] as int - 0xF0, b[1]), b[2]), b[3]);
      if n < 0x1_0000 || 0x11_0000 <= n then None else Some((n as char, 4))
    else None
  }

  function Decode(b: Bytes): Option<string> {
    if b == [] then Some("")
    else match DecodeFirst(b)
      case None => None
      case Some((c, n)) =>
        match Decode(b[n..])
        case None => None
        case Some(rest) => Some([c] + rest)
  }

  lemma {:induction false} EncodeCharShape(c: char)
    ensures 1 <= |EncodeChar(c)| <= 4
    ensures !IsContinuation(EncodeChar(c)[0])
    ensures forall i :: 1 <= i < |EncodeChar(c)| ==> IsContinuation(EncodeChar(c)[i])
  {
  }

  lemma {:induction false} DecodeFirstOfEncode(c: char, rest: Bytes)
    ensures DecodeFirst(EncodeChar(c) + rest) == Some((c, |EncodeChar(c)|))
  {
    var e := EncodeChar(c);
    var b := e + rest;
    var n := c as int;
    assert b[0] == e[0];
    if n < 0x80 {
    } else if n < 0x800 {
      assert b[1] == e[1];
    } else if n < 0x1_0000 {
      assert b[1] == e[1] && b[2] == e[2];
      DivTwice(n);
    } else {
      assert b[1] == e[1] && b[2] == e[2] && b[3] == e[3];
      DivTwice(n);
    }
  }

  lemma {:induction false} EncodeOfDecodeFirst(b: Bytes)
    requires DecodeFirst(b).Some?
    ensures var (c, n) := DecodeFirst(b).value; EncodeChar(c) == b[..n]
  {
    if b[0] < 0x80 {
    } else if b[0] < 0xE0 {
      SplitJoin(b[0] as int - 0xC0, b[1]);
    } else if b[0] < 0xF0 {
      var high := Join(b[0] as int - 0xE0, b[1]);
      SplitJoin(b[0] as int - 0xE0, b[1]);
      SplitJoin(high, b[2]);
      DivTwice(Join(high, b[2]));
    } else {
      var high := Join(b[0] as int - 0xF0, b[1]);
      var mid := Join(high, b[2]);
      SplitJoin(b[0] as int - 0xF0, b[1]);
      SplitJoin(high, b[2]);
      SplitJoin(mid, b[3]);
      DivTwice(Join(mid, b[3]));
    }
  }

  lemma {:induction false} SplitJoin(high: int, b: Byte)
    requires 0 <= high && IsContinuation(b)
    ensures Join(high, b) / 0x40 == high && 0x80 + Join(high, b) % 0x40 == b
  {
  }

  lemma {:induction false} DivTwice(n: nat)
    ensures n / 0x1000 == n / 0x40 / 0x40 && n / 0x4_0000 == n / 0x40 / 0x40 / 0x40
  {
  }

  lemma {:induction false} RoundTrip(s: string)
    ensures Decode(Encode(s)) == Some(s)
  {
    if s != "" {
      DecodeFirstOfEncode(s[0], Encode(s[1..]));
      RoundTrip(s[1..]);
      assert Encode(s)[|EncodeChar(s[0])|..] == Encode(s[1..]);
      assert [s[0]] + s[1..] == s;
    }
  }

  lemma {:induction false} DecodedEncodes(b: Bytes)
    requires Decode(b).Some?
    ensures Encode(Decode(b).value) == b
    decreases |b|
  {
    if b != [] {
      var (c, n) := DecodeFirst(b).value;
      var rest := Decode(b[n..]).value;
      calc {
        Encode([c] + rest);
        { assert ([c] + rest)[1..] == rest; }
        EncodeChar(c) + Encode(rest);
        { EncodeOfDecodeFirst(b); DecodedEncodes(b[n..]); }
        b[..n] + b[n..];
        b;
      }
    }
  }

  // Decoding is exact: bytes decode to a text if and only if they are its encoding.
  lemma {:induction false} DecodeIsExact(b: Bytes, s: string)
    ensures Decode(b) == Some(s) <==> Encode(s) == b
  {
    RoundTrip(s);
    if Decode(b).Some? {
      DecodedEncodes(b);
    }
  }

  lemma {:induction false} EncodeAppend(s: string, t: string)
    ensures Encode(s + t) == Encode(s) + Encode(t)
  {
    if s == "" {
      assert s + t == t;
    } else {
      calc {
        Encode(s + t);
        { assert (s + t)[1..] == s[1..] + t; }
        EncodeChar(s[0]) + Encode(s[1..] + t);
        { EncodeAppend(s[1..], t); }
        EncodeChar(s[0]) + (Encode(s[1..]) + Encode(t));
        (EncodeChar(s[0]) + Encode(s[1..])) + Encode(t);
        Encode(s) + Encode(t);
      }
    }
  }
}
