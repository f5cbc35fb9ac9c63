// The two base64 decoders: the runtime's, by groups of 24 bits, and the build gate's, a bit stream.
module Base64 {
  import opened Prelude

  const PAD: Byte := 61

  // The standard alphabet, `A`-`Z` `a`-`z` `0`-`9` `+` `/`, as bytes.
  function Symbol(v: nat): Byte
    requires v < 64
  {
    if v < 26 then 65 + v
    else if v < 52 then 71 + v
    else if v < 62 then v - 4
    else if v == 62 then 43
    else 47
  }

  // The position of a byte in the alphabet.
  function ValueOf(ch: Byte): (r: Option<nat>)
    ensures r.Some? ==> r.value < 64 && Symbol(r.value) == ch
    ensures r.None? ==> forall v: nat :: v < 64 ==> Symbol(v) != ch
  {
    if 65 <= ch <= 90 then Some(ch - 65)
    else if 97 <= ch <= 122 then Some(ch - 71)
    else if 48 <= ch <= 57 then Some(ch + 4)
    else if ch == 43 then Some(62)
    else if ch == 47 then Some(63)
    else None
  }

  predicate IsSymbol(ch: Byte) {
    ValueOf(ch).Some?
  }

  // Padding stands for six zero bits.
  function Sextet(ch: Byte): (v: nat)
    ensures v < 64
  {
    var found := ValueOf(ch);
    if found.Some? then found.value else 0
  }

  function Sextets(text: Bytes): (vs: seq<nat>)
    ensures |vs| == |text| && AllSextets(vs)
  {
    seq(|text|, i requires 0 <= i < |text| => Sextet(text[i]))
  }

  function Quad(a: nat, b: nat, c: nat, d: nat): Bytes
    requires a < 64 && b < 64 && c < 64 && d < 64
  {
    [a * 4 + b / 16, b % 16 * 16 + c / 4, c % 4 * 64 + d]
  }

  predicate AllSextets(vs: seq<nat>) {
    forall i :: 0 <= i < |vs| ==> vs[i] < 64
  }

  // Three bytes for every four sextets.
  function Groups(vs: seq<nat>): Bytes
    requires AllSextets(vs)
  {
    if |vs| < 4 then [] else Quad(vs[0], vs[1], vs[2], vs[3]) + Groups(vs[4..])
  }

  // `=` stands only in the last two places, and nothing follows it but itself.
  predicate WellPadded(text: Bytes) {
    forall i :: 0 <= i < |text| && !IsSymbol(text[i]) ==>
      text[i] == PAD && i + 2 >= |text| && (i + 1 < |text| ==> text[i + 1] == PAD)
  }

  function Padding(text: Bytes): nat {
    if text == [] || text[|text| - 1] != PAD then 0
    else if |text| == 1 || text[|text| - 2] != PAD then 1
    else 2
  }

  // Section 4 of RFC 4648, read leniently: the bits left over before the padding need not be zero.
  function Decode(text: Bytes): Option<Bytes> {
    if text == [] || |text| % 4 != 0 || !WellPadded(text) then None
    else Some(Shortened(Groups(Sextets(text)), Padding(text)))
  }

  function Shortened(bytes: Bytes, n: nat): Bytes {
    if n <= |bytes| then bytes[..|bytes| - n] else []
  }

  lemma {:induction false} GroupsLength(vs: seq<nat>)
    requires AllSextets(vs)
    ensures |Groups(vs)| == |vs| / 4 * 3
  {
    if |vs| >= 4 {
      GroupsLength(vs[4..]);
    }
  }

  lemma {:induction false} GroupsAppend(vs: seq<nat>, a: nat, b: nat, c: nat, d: nat)
    requires AllSextets(vs) && |vs| % 4 == 0 && a < 64 && b < 64 && c < 64 && d < 64
    ensures Groups(vs + [a, b, c, d]) == Groups(vs) + Quad(a, b, c, d)
  {
    if |vs| >= 4 {
      assert (vs + [a, b, c, d])[4..] == vs[4..] + [a, b, c, d];
      GroupsAppend(vs[4..], a, b, c, d);
    }
  }

  // ---- The runtime decoder ----

  // The low 24 bits of the buffer, byte by byte.
  function ThreeBytes(n: nat): Bytes {
    [n / 65536 % 256, n / 256 % 256, n % 256]
  }

  // The sextets gathered since the last whole group.
  function Gathered(vs: seq<nat>, from: nat, to: nat): nat
    requires from <= to <= |vs|
  {
    if from == to then 0 else Gathered(vs, from, to - 1) * 64 + vs[to - 1]
  }

  lemma {:induction false} GroupBytes(vs: seq<nat>, from: nat)
    requires AllSextets(vs) && from + 4 <= |vs| && from % 4 == 0
    ensures var buffer := Gathered(vs, from, from + 4);
      && buffer < 0x100_0000
      && Groups(vs[..from + 4]) == Groups(vs[..from]) + ThreeBytes(buffer)
  {
    var a, b, c, d := vs[from], vs[from + 1], vs[from + 2], vs[from + 3];
    assert Gathered(vs, from, from + 4) == ((a * 64 + b) * 64 + c) * 64 + d by {
      assert Gathered(vs, from, from + 1) == a;
      assert Gathered(vs, from, from + 2) == a * 64 + b;
      assert Gathered(vs, from, from + 3) == (a * 64 + b) * 64 + c;
    }
    assert vs[..from + 4] == vs[..from] + [a, b, c, d];
    GroupsAppend(vs[..from], a, b, c, d);
    SplitGroup(a, b, c, d);
  }

  lemma {:induction false} SplitGroup(a: nat, b: nat, c: nat, d: nat)
    requires a < 64 && b < 64 && c < 64 && d < 64
    ensures var buffer := ((a * 64 + b) * 64 + c) * 64 + d;
      && buffer < 0x100_0000
      && Quad(a, b, c, d) == ThreeBytes(buffer)
  {
    Digits(a * 4 + b / 16, b % 16 * 16 + c / 4, c % 4 * 64 + d);
  }

  lemma {:induction false} Digits(x: nat, y: nat, z: nat)
    requires x < 256 && y < 256 && z < 256
    ensures var n := x * 65536 + y * 256 + z; n / 65536 % 256 == x && n / 256 % 256 == y && n % 256 == z
  {
    assert (x * 65536 + y * 256 + z) / 65536 == x;
    assert (x * 65536 + y * 256 + z) / 256 == x * 256 + y;
  }

  // What the loop knows of the first `i` characters, the last `padding` of them padding.
  predicate ReadSoFar(text: Bytes, i: nat, padding: nat) {
    && padding <= i <= |text|
    && (forall j :: 0 <= j < i - padding ==> IsSymbol(text[j]))
    && (forall j :: i - padding <= j < i ==> text[j] == PAD)
    && (padding > 0 ==> i - padding + 2 >= |text|)
  }

  lemma {:induction false} ReadAll(text: Bytes, padding: nat)
    requires text != [] && ReadSoFar(text, |text|, padding)
    ensures WellPadded(text) && Padding(text) == padding
  {
    assert !IsSymbol(PAD);
    var n := |text|;
    assert padding < n ==> IsSymbol(text[n - padding - 1]);
  }

  lemma {:induction false} ReadOne(text: Bytes, i: nat, padding: nat)
    requires i < |text| && ReadSoFar(text, i, padding)
    ensures text[i] == PAD && i + 2 >= |text| ==> ReadSoFar(text, i + 1, padding + 1)
    ensures padding == 0 && IsSymbol(text[i]) ==> ReadSoFar(text, i + 1, 0)
  {
  }

  // The three ways a character is refused.
  lemma {:induction false} Misplaced(text: Bytes, i: nat, padding: nat)
    requires i < |text| && ReadSoFar(text, i, padding)
    requires if text[i] == PAD then i + 2 < |text| else padding > 0 || !IsSymbol(text[i])
    ensures Decode(text).None?
  {
    assert !IsSymbol(PAD);
    if text[i] != PAD && padding > 0 {
      assert text[i - 1] == PAD;
    }
  }

  // The decoder's registers after `i` characters.
  predicate Grouping(vs: seq<nat>, i: nat, buffer: nat, bits: nat, out: Bytes)
    requires AllSextets(vs)
  {
    && i <= |vs| && bits == i % 4 * 6
    && buffer == Gathered(vs, i - i % 4, i)
    && out == Groups(vs[..i - i % 4])
  }

  lemma {:induction false} GroupingStep(vs: seq<nat>, i: nat, buffer: nat, bits: nat, out: Bytes)
    requires AllSextets(vs) && i < |vs| && Grouping(vs, i, buffer, bits, out)
    ensures var next := buffer * 64 + vs[i];
      if bits == 18 then Grouping(vs, i + 1, 0, 0, out + ThreeBytes(next))
      else Grouping(vs, i + 1, next, bits + 6, out)
  {
    hide Groups, ThreeBytes;
    if i % 4 == 3 {
      GroupBytes(vs, i - 3);
      assert buffer * 64 + vs[i] == Gathered(vs, i - 3, i + 1);
    } else {
      assert i + 1 - (i + 1) % 4 == i - i % 4;
    }
  }

  method RuntimeDecode(text: Bytes) returns (r: Option<Bytes>)
    ensures r == Decode(text)
  {
    if |text| == 0 || |text| % 4 != 0 {
      return None;
    }
    var out: Bytes := [];
    var buffer: nat, bits: nat, padding: nat := 0, 0, 0;
    var i := 0;
    ghost var vs := Sextets(text);
    assert Grouping(vs, 0, 0, 0, []) by { GroupsLength(vs[..0]); }
    hide Decode, IsSymbol, ValueOf, Symbol, Grouping, ReadSoFar, ThreeBytes;
    while i < |text|
      invariant 0 <= i <= |text|
      invariant Grouping(vs, i, buffer, bits, out)
      invariant ReadSoFar(text, i, padding)
    {
      var ch := text[i];
      GroupingStep(vs, i, buffer, bits, out);
      ReadOne(text, i, padding);
      if ch == PAD {
        if i + 2 < |text| {
          Misplaced(text, i, padding);
          return None;
        }
        padding := padding + 1;
        PadIsZero();
        buffer := buffer * 64;
      } else {
        if padding > 0 {
          Misplaced(text, i, padding);
          return None;
        }
        var value := ValueOf(ch);
        Found(ch);
        if value.None? {
          Misplaced(text, i, padding);
          return None;
        }
        buffer := buffer * 64 + value.value;
      }
      bits := bits + 6;
      i := i + 1;
      if bits == 24 {
        out := out + ThreeBytes(buffer);
        buffer, bits := 0, 0;
      }
    }
    AllRead(text, padding, buffer, bits, out);
    r := Some(out[..|out| - padding]);
  }

  lemma {:induction false} AllRead(text: Bytes, padding: nat, buffer: nat, bits: nat, out: Bytes)
    requires text != [] && |text| % 4 == 0 && ReadSoFar(text, |text|, padding)
    requires Grouping(Sextets(text), |text|, buffer, bits, out)
    ensures padding <= |out| && Decode(text) == Some(out[..|out| - padding])
  {
    var vs := Sextets(text);
    assert vs[..|vs|] == vs;
    GroupsLength(vs);
    ReadAll(text, padding);
    hide WellPadded, ReadSoFar, IsSymbol;
  }

  lemma {:induction false} PadIsZero()
    ensures Sextet(PAD) == 0
  {
  }

  lemma {:induction false} Found(ch: Byte)
    ensures if ValueOf(ch).Some? then IsSymbol(ch) && Sextet(ch) == ValueOf(ch).value else !IsSymbol(ch)
  {
  }

  // ---- The build gate ----

  // The byte completed by a sextet, if it completes one: the low bits of the one before it and its own
  // high bits. `phase` is the number of sextets before it, modulo 4.
  function Completed(phase: nat, prev: nat, v: nat): Bytes
    requires prev < 64 && v < 64
  {
    if phase == 0 then []
    else if phase == 1 then [prev * 4 + v / 16]
    else if phase == 2 then [prev % 16 * 16 + v / 4]
    else [prev % 4 * 64 + v]
  }

  function Last(vs: seq<nat>): nat {
    if vs == [] then 0 else vs[|vs| - 1]
  }

  function Stream(vs: seq<nat>): Bytes
    requires AllSextets(vs)
  {
    if vs == [] then []
    else var n := |vs| - 1; Stream(vs[..n]) + Completed(n % 4, Last(vs[..n]), vs[n])
  }

  lemma {:induction false} StreamNext(vs: seq<nat>, v: nat)
    requires AllSextets(vs) && v < 64
    ensures Stream(vs + [v]) == Stream(vs) + Completed(|vs| % 4, Last(vs), v)
  {
    assert (vs + [v])[..|vs|] == vs;
  }

  lemma {:induction false} StreamGroup(vs: seq<nat>, a: nat, b: nat, c: nat, d: nat)
    requires AllSextets(vs) && |vs| % 4 == 0 && a < 64 && b < 64 && c < 64 && d < 64
    ensures Stream(vs + [a, b, c, d]) == Stream(vs) + Quad(a, b, c, d)
  {
    hide Stream, Completed, Quad;
    var one := vs + [a];
    var two := one + [b];
    var three := two + [c];
    assert vs + [a, b, c, d] == three + [d];
    StreamNext(vs, a);
    StreamNext(one, b);
    StreamNext(two, c);
    StreamNext(three, d);
    CompletedQuad(Last(vs), a, b, c, d);
  }

  lemma {:induction false} CompletedQuad(p: nat, a: nat, b: nat, c: nat, d: nat)
    requires p < 64 && a < 64 && b < 64 && c < 64 && d < 64
    ensures Completed(0, p, a) + Completed(1, a, b) + Completed(2, b, c) + Completed(3, c, d) == Quad(a, b, c, d)
  {
  }

  lemma {:induction false} StreamIsGroups(vs: seq<nat>)
    requires AllSextets(vs) && |vs| % 4 == 0
    ensures Stream(vs) == Groups(vs)
  {
    if vs != [] {
      var n := |vs| - 4;
      StreamIsGroups(vs[..n]);
      assert vs == vs[..n] + [vs[n], vs[n + 1], vs[n + 2], vs[n + 3]];
      hide Stream, Groups, Quad;
      GroupsAppend(vs[..n], vs[n], vs[n + 1], vs[n + 2], vs[n + 3]);
      StreamGroup(vs[..n], vs[n], vs[n + 1], vs[n + 2], vs[n + 3]);
    }
  }

  const ED: Bytes := [69, 100]

  // Why the gate stops the build over a key, if it does.
  function Gate(key: Bytes): Option<string> {
    if |key| != 56 then Some("must be 56 base64 characters")
    else if exists i :: 0 <= i < |key| && !IsSymbol(key[i]) then Some("contains a non-base64 character")
    else if |Stream(Sextets(key))| != 42 then Some("does not decode to 42 bytes")
    else if Stream(Sextets(key))[..2] != ED then Some("does not carry the ed25519 'Ed' algorithm tag")
    else None
  }

  // The buffer is a 32-bit word: bits shifted out at the top are lost.
  lemma {:induction false} ShiftIn(buffer: nat, prev: nat, v: nat, phase: nat)
    requires prev < 64 && v < 64 && phase < 4 && (phase > 0 ==> buffer % 64 == prev)
    ensures var next := buffer * 64 % TWO_32 + v;
      && next % 64 == v
      && Completed(phase, prev, v) ==
         (if phase == 0 then [] else [(if phase == 1 then next / 16 else if phase == 2 then next / 4 else next) % 256])
  {
    ShiftBits(buffer, v);
  }

  lemma {:induction false} ShiftBits(buffer: nat, v: nat)
    requires v < 64
    ensures var next := buffer * 64 % TWO_32 + v;
      var prev := buffer % 64;
      && next % 64 == v
      && next / 16 % 256 == prev * 4 + v / 16
      && next / 4 % 256 == prev % 16 * 16 + v / 4
      && next % 256 == prev % 4 * 64 + v
  {
    var prev := buffer % 64;
    var high := buffer / 64;
    var lost := buffer * 64 / TWO_32;
    var kept: int := high - 0x10_0000 * lost;
    assert buffer * 64 % TWO_32 == 4096 * kept + 64 * prev;
    LowBits(kept, 64 * prev + v);
    LowDigits(prev, v);
  }

  lemma {:induction false} LowBits(high: nat, low: nat)
    requires low < 4096
    ensures var n := 4096 * high + low;
      n % 64 == low % 64 && n / 16 % 256 == low / 16 && n / 4 % 256 == low / 4 % 256 && n % 256 == low % 256
  {
    var n := 4096 * high + low;
    By64(64 * high, low);
    By256(16 * high, low);
    By16(256 * high, low);
    By256(high, low / 16);
    By4(1024 * high, low);
    By256(4 * high, low / 4);
  }

  lemma {:induction false} By4(q: nat, r: nat)
    ensures (4 * q + r) / 4 == q + r / 4
  {
  }

  lemma {:induction false} By16(q: nat, r: nat)
    ensures (16 * q + r) / 16 == q + r / 16
  {
  }

  lemma {:induction false} By64(q: nat, r: nat)
    ensures (64 * q + r) % 64 == r % 64
  {
  }

  lemma {:induction false} By256(q: nat, r: nat)
    ensures (256 * q + r) % 256 == r % 256
  {
  }

  lemma {:induction false} LowDigits(prev: nat, v: nat)
    requires prev < 64 && v < 64
    ensures var low := 64 * prev + v;
      low % 64 == v && low / 16 == prev * 4 + v / 16 && low / 4 % 256 == prev % 16 * 16 + v / 4 && low % 256 == prev % 4 * 64 + v
  {
    By64(prev, v);
    By16(4 * prev, v);
    By4(16 * prev, v);
    By256(prev / 16, prev % 16 * 16 + v / 4);
    By256(prev / 4, prev % 4 * 64 + v);
  }

  // Six more bits in a 32-bit word, and the byte above its low `bits` bits.
  function Shift(buffer: nat, v: nat): nat {
    buffer * 64 % TWO_32 + v
  }

  function ByteAbove(buffer: nat, bits: nat): Byte {
    (if bits == 4 then buffer / 16 else if bits == 2 then buffer / 4 else buffer) % 256
  }

  // The gate's registers after `i` characters.
  predicate Streaming(vs: seq<nat>, i: nat, buffer: nat, bits: nat, bytes: Bytes)
    requires AllSextets(vs)
  {
    && i <= |vs| && bits == (if i % 4 == 0 then 0 else 8 - i % 4 * 2)
    && (i > 0 ==> buffer % 64 == vs[i - 1])
    && bytes == Stream(vs[..i])
  }

  lemma {:induction false} StreamingStep(vs: seq<nat>, i: nat, buffer: nat, bits: nat, bytes: Bytes)
    requires AllSextets(vs) && i < |vs| && Streaming(vs, i, buffer, bits, bytes)
    ensures var next := Shift(buffer, vs[i]);
      if bits + 6 >= 8 then
        bits - 2 in {0, 2, 4} && Streaming(vs, i + 1, next, bits - 2, bytes + [ByteAbove(next, bits - 2)])
      else Streaming(vs, i + 1, next, bits + 6, bytes)
  {
    hide Stream, Completed;
    assert vs[..i + 1] == vs[..i] + [vs[i]];
    StreamNext(vs[..i], vs[i]);
    var prev := Last(vs[..i]);
    ShiftIn(buffer, prev, vs[i], i % 4);
    assert (i + 1) % 4 == if i % 4 == 3 then 0 else i % 4 + 1;
    assert Stream(vs[..i + 1]) == Stream(vs[..i]) + Completed(i % 4, prev, vs[i]);
  }

  lemma {:induction false} GateFinds(key: Bytes, i: nat)
    requires |key| == 56 && i < 56 && !IsSymbol(key[i])
    ensures Gate(key) == Some("contains a non-base64 character")
  {
  }

  method ValidateKey(key: Bytes) returns (r: Option<string>, bytes: Bytes)
    ensures r == Gate(key)
    ensures r.None? ==> bytes == Stream(Sextets(key))
  {
    bytes := [];
    if |key| != 56 {
      return Some("must be 56 base64 characters"), bytes;
    }
    var buffer: nat, bits: nat := 0, 0;
    ghost var vs := Sextets(key);
    var i := 0;
    assert Streaming(vs, 0, 0, 0, []);
    while i < |key|
      invariant 0 <= i <= |key|
      invariant Streaming(vs, i, buffer, bits, bytes)
      invariant forall j :: 0 <= j < i ==> IsSymbol(key[j])
    {
      hide Streaming, Stream, IsSymbol, ValueOf, Symbol, Gate, Shift, ByteAbove;
      var value := ValueOf(key[i]);
      Found(key[i]);
      if value.None? {
        GateFinds(key, i);
        return Some("contains a non-base64 character"), bytes;
      }
      StreamingStep(vs, i, buffer, bits, bytes);
      buffer := Shift(buffer, value.value);
      bits := bits + 6;
      if bits >= 8 {
        bits := bits - 8;
        bytes := bytes + [ByteAbove(buffer, bits)];
      }
      i := i + 1;
    }
    assert vs[..|key|] == vs;
    assert bytes == Stream(vs);
    hide Streaming, Stream, IsSymbol, ValueOf, Symbol;
    if |bytes| != 42 {
      return Some("does not decode to 42 bytes"), bytes;
    }
    if bytes[..2] != ED {
      return Some("does not carry the ed25519 'Ed' algorithm tag"), bytes;
    }
    r := None;
  }

  // ---- The parser ----

  datatype Parsed = Key(keynum: Bytes, ed25519: Bytes) | NotBase64 | WrongLength(got: nat) | NoTag

  // `parse_minisign_public_key` on a trimmed key.
  function Parse(key: Bytes): Parsed {
    match Decode(key)
    case None => NotBase64
    case Some(bytes) =>
      if |bytes| != 42 then WrongLength(|bytes|)
      else if bytes[..2] != ED then NoTag
      else Key(bytes[2..10], bytes[10..42])
  }

  // The gate lets through exactly the keys the parser accepts, and reads the same 42 bytes in them.
  lemma {:induction false} GateMeetsParser(key: Bytes)
    ensures Gate(key).None? <==> Parse(key).Key?
    ensures Gate(key).None? ==>
      var bytes := Stream(Sextets(key));
      && |bytes| == 42 && Decode(key) == Some(bytes)
      && bytes == [0x45, 0x64] + Parse(key).keynum + Parse(key).ed25519
      && |Parse(key).keynum| == 8 && |Parse(key).ed25519| == 32
  {
    hide Stream, Groups, IsSymbol;
    if |key| == 56 {
      GateReadsTheSame(key);
    } else {
      GroupsLength(Sextets(key));
    }
  }

  lemma {:induction false} GateReadsTheSame(key: Bytes)
    requires |key| == 56
    ensures |Stream(Sextets(key))| == 42
    ensures if (exists i :: 0 <= i < |key| && !IsSymbol(key[i])) then Decode(key).None? || |Decode(key).value| != 42
            else Decode(key) == Some(Stream(Sextets(key)))
  {
    hide Stream, Groups, IsSymbol, Sextets, WellPadded, Padding;
    var vs := Sextets(key);
    GroupsLength(vs);
    StreamIsGroups(vs);
    WithoutPadding(key);
    PaddingIsShort(key);
    assert Shortened(Groups(vs), 0) == Groups(vs);
    assert |key| % 4 == 0 && key != [];
  }

  lemma {:induction false} WithoutPadding(key: Bytes)
    requires |key| == 56
    ensures (forall i :: 0 <= i < |key| ==> IsSymbol(key[i])) <==> WellPadded(key) && Padding(key) == 0
  {
    assert !IsSymbol(PAD);
  }

  // ---- The encoding of section 4 of RFC 4648 ----

  function Encode(b: Bytes): Bytes {
    if b == [] then []
    else if |b| == 1 then [Symbol(b[0] / 4), Symbol(b[0] % 4 * 16), PAD, PAD]
    else if |b| == 2 then [Symbol(b[0] / 4), Symbol(b[0] % 4 * 16 + b[1] / 16), Symbol(b[1] % 16 * 4), PAD]
    else
      [Symbol(b[0] / 4), Symbol(b[0] % 4 * 16 + b[1] / 16), Symbol(b[1] % 16 * 4 + b[2] / 64), Symbol(b[2] % 64)]
      + Encode(b[3..])
  }

  lemma {:induction false} SymbolIs(v: nat)
    requires v < 64
    ensures ValueOf(Symbol(v)) == Some(v) && Sextet(Symbol(v)) == v && Symbol(v) != PAD
  {
  }

  lemma {:induction false} PaddingAfter(group: Bytes, rest: Bytes)
    requires |group| == 4 && |rest| >= 4 && WellPadded(rest) && forall i :: 0 <= i < 4 ==> IsSymbol(group[i])
    ensures WellPadded(group + rest) && Padding(group + rest) == Padding(rest)
  {
    hide IsSymbol;
    var text := group + rest;
    forall i | 0 <= i < |text| && !IsSymbol(text[i])
      ensures text[i] == PAD && i + 2 >= |text| && (i + 1 < |text| ==> text[i + 1] == PAD)
    {
      assert text[i] == rest[i - 4];
      if i + 1 < |text| {
        assert text[i + 1] == rest[i - 3];
      }
    }
  }

  lemma {:induction false} GroupsFirst(a: nat, b: nat, c: nat, d: nat, vs: seq<nat>)
    requires AllSextets(vs) && a < 64 && b < 64 && c < 64 && d < 64
    ensures Groups([a, b, c, d] + vs) == Quad(a, b, c, d) + Groups(vs)
  {
    assert ([a, b, c, d] + vs)[4..] == vs;
  }

  lemma {:induction false} SextetsFirst(a: nat, b: nat, c: nat, d: nat, rest: Bytes)
    requires a < 64 && b < 64 && c < 64 && d < 64
    ensures Sextets([Symbol(a), Symbol(b), Symbol(c), Symbol(d)] + rest) == [a, b, c, d] + Sextets(rest)
  {
    hide ValueOf, Symbol, Sextet;
    SymbolIs(a); SymbolIs(b); SymbolIs(c); SymbolIs(d);
  }

  // A text of whole groups decodes group by group.
  lemma {:induction false} DecodeGroup(a: nat, b: nat, c: nat, d: nat, rest: Bytes)
    requires a < 64 && b < 64 && c < 64 && d < 64 && Decode(rest).Some?
    ensures Decode([Symbol(a), Symbol(b), Symbol(c), Symbol(d)] + rest) == Some(Quad(a, b, c, d) + Decode(rest).value)
  {
    hide ValueOf, Symbol, Quad, Sextet, Groups, Sextets, Shortened, Padding;
    var group := [Symbol(a), Symbol(b), Symbol(c), Symbol(d)];
    SymbolIs(a); SymbolIs(b); SymbolIs(c); SymbolIs(d);
    assert |rest| >= 4;
    assert forall i :: 0 <= i < 4 ==> IsSymbol(group[i]);
    PaddingAfter(group, rest);
    hide WellPadded, IsSymbol;
    SextetsFirst(a, b, c, d, rest);
    GroupsFirst(a, b, c, d, Sextets(rest));
    GroupsLength(Sextets(rest));
    PaddingIsShort(rest);
    ShortenedAppend(Quad(a, b, c, d), Groups(Sextets(rest)), Padding(rest));
  }

  lemma {:induction false} PaddingIsShort(text: Bytes)
    ensures Padding(text) <= 2
  {
  }

  lemma {:induction false} ShortenedAppend(a: Bytes, b: Bytes, n: nat)
    requires n <= |b|
    ensures Shortened(a + b, n) == a + Shortened(b, n)
  {
  }

  lemma {:induction false} Regroup(x: Byte, y: Byte, z: Byte)
    ensures Quad(x / 4, x % 4 * 16 + y / 16, y % 16 * 4 + z / 64, z % 64) == [x, y, z]
  {
    assert (x % 4 * 16 + y / 16) / 16 == x % 4 && (x % 4 * 16 + y / 16) % 16 == y / 16;
    assert (y % 16 * 4 + z / 64) / 4 == y % 16 && (y % 16 * 4 + z / 64) % 4 == z / 64;
  }

  lemma {:induction false} RoundTrip(b: Bytes)
    requires b != []
    ensures Decode(Encode(b)) == Some(b)
  {
    hide Symbol, Decode, Quad;
    if |b| == 1 {
      Regroup(b[0], 0, 0);
      LastGroup(Encode(b), b[0] / 4, b[0] % 4 * 16, 0, 2);
      assert b == [b[0], 0, 0][..1];
    } else if |b| == 2 {
      Regroup(b[0], b[1], 0);
      LastGroup(Encode(b), b[0] / 4, b[0] % 4 * 16 + b[1] / 16, b[1] % 16 * 4, 1);
      assert b == [b[0], b[1], 0][..2];
    } else {
      var w, x, y, z := b[0] / 4, b[0] % 4 * 16 + b[1] / 16, b[1] % 16 * 4 + b[2] / 64, b[2] % 64;
      Regroup(b[0], b[1], b[2]);
      assert b == [b[0], b[1], b[2]] + b[3..];
      if |b| == 3 {
        WholeGroup(w, x, y, z);
        assert b == [b[0], b[1], b[2]];
        assert Encode(b[3..]) == [];
        assert Encode(b) == [Symbol(w), Symbol(x), Symbol(y), Symbol(z)];
      } else {
        RoundTrip(b[3..]);
        DecodeGroup(w, x, y, z, Encode(b[3..]));
      }
    }
  }

  lemma {:induction false} WholeGroup(a: nat, b: nat, c: nat, d: nat)
    requires a < 64 && b < 64 && c < 64 && d < 64
    ensures Decode([Symbol(a), Symbol(b), Symbol(c), Symbol(d)]) == Some(Quad(a, b, c, d))
  {
    hide ValueOf, Symbol;
    SymbolIs(a); SymbolIs(b); SymbolIs(c); SymbolIs(d);
    var text := [Symbol(a), Symbol(b), Symbol(c), Symbol(d)];
    assert Sextets(text) == [a, b, c, d];
    var vs := [a, b, c, d];
    assert vs[4..] == [];
    assert Groups(vs) == Quad(a, b, c, d) + Groups(vs[4..]);
    assert Groups(vs)[..3] == Groups(vs);
  }

  lemma {:induction false} LastGroup(text: Bytes, a: nat, b: nat, c: nat, padding: nat)
    requires a < 64 && b < 64 && c < 64 && (padding == 1 || (padding == 2 && c == 0))
    requires text == if padding == 1 then [Symbol(a), Symbol(b), Symbol(c), PAD] else [Symbol(a), Symbol(b), PAD, PAD]
    ensures Decode(text) == Some(Quad(a, b, c, 0)[..3 - padding])
  {
    SymbolIs(a); SymbolIs(b); SymbolIs(c);
    assert Sextet(PAD) == 0 && !IsSymbol(PAD);
    hide ValueOf, Symbol;
    assert Sextets(text) == [a, b, c, 0];
    assert WellPadded(text);
    assert Padding(text) == padding;
    var vs := [a, b, c, 0];
    assert vs[4..] == [];
    assert Groups(vs) == Quad(a, b, c, 0) + Groups(vs[4..]);
    assert Groups(vs) == Quad(a, b, c, 0);
  }

  // ---- Which texts are encodings ----

  // The bits of the last symbol that no byte takes.
  function Leftover(text: Bytes): nat {
    if Padding(text) == 2 && |text| >= 3 then Sextet(text[|text| - 3]) % 16
    else if Padding(text) == 1 && |text| >= 2 then Sextet(text[|text| - 2]) % 4
    else 0
  }

  function FirstGroup(text: Bytes): Bytes
    requires |text| >= 4
  {
    Quad(Sextet(text[0]), Sextet(text[1]), Sextet(text[2]), Sextet(text[3]))
  }

  lemma {:induction false} SymbolOf(ch: Byte)
    requires IsSymbol(ch)
    ensures Symbol(Sextet(ch)) == ch && ch != PAD
  {
  }

  lemma {:induction false} PaddingWithin(text: Bytes)
    requires WellPadded(text) && |text| >= 8
    ensures forall i :: 0 <= i < 4 ==> IsSymbol(text[i])
    ensures WellPadded(text[4..]) && Padding(text[4..]) == Padding(text)
  {
    hide IsSymbol;
    var rest := text[4..];
    assert forall i :: 0 <= i < |rest| ==> rest[i] == text[i + 4];
  }

  lemma {:induction false} SymbolOfPad()
    ensures !IsSymbol(PAD) && Sextet(PAD) == 0
  {
  }

  // The first of several groups is whole, and what follows is a text by itself.
  lemma {:induction false} SplitFirst(text: Bytes)
    requires Decode(text).Some? && |text| > 4
    ensures forall i :: 0 <= i < 4 ==> IsSymbol(text[i])
    ensures Decode(text[4..]).Some? && Leftover(text[4..]) == Leftover(text)
    ensures Decode(text) == Some(FirstGroup(text) + Decode(text[4..]).value)
  {
    hide IsSymbol, Sextet, Symbol, ValueOf, Groups, Quad, WellPadded, Sextets, Shortened, Padding;
    assert |text| >= 8;
    PaddingWithin(text);
    var rest := text[4..];
    assert |rest| >= 4 && |rest| % 4 == 0;
    assert rest[|rest| - 3] == text[|text| - 3] && rest[|rest| - 2] == text[|text| - 2];
    var a, b, c, d := Sextet(text[0]), Sextet(text[1]), Sextet(text[2]), Sextet(text[3]);
    SymbolOf(text[0]); SymbolOf(text[1]); SymbolOf(text[2]); SymbolOf(text[3]);
    DecodeGroup(a, b, c, d, rest);
    assert text == [Symbol(a), Symbol(b), Symbol(c), Symbol(d)] + rest;
  }

  lemma {:induction false} Ungroup(a: nat, b: nat, c: nat, d: nat)
    requires a < 64 && b < 64 && c < 64 && d < 64
    ensures var q := Quad(a, b, c, d);
      q[0] / 4 == a && q[0] % 4 * 16 + q[1] / 16 == b && q[1] % 16 * 4 + q[2] / 64 == c && q[2] % 64 == d
  {
    By4(a, b / 16);
    By16(b % 16, c / 4);
    By64(c % 4, d);
  }

  lemma {:induction false} EncodeGroup(a: nat, b: nat, c: nat, d: nat, more: Bytes)
    requires a < 64 && b < 64 && c < 64 && d < 64
    ensures Encode(Quad(a, b, c, d) + more) == [Symbol(a), Symbol(b), Symbol(c), Symbol(d)] + Encode(more)
  {
    Ungroup(a, b, c, d);
    assert (Quad(a, b, c, d) + more)[3..] == more;
    hide Symbol;
  }

  // Decoding undoes encoding and, except for texts with stray bits before the padding, the reverse:
  // a decodable text is the encoding of what it decodes to exactly when those bits are zero.
  lemma {:induction false} CanonicalIff(text: Bytes)
    requires Decode(text).Some?
    ensures Encode(Decode(text).value) == text <==> Leftover(text) == 0
    decreases |text|
  {
    if |text| > 4 {
      SplitFirst(text);
      hide Symbol, Decode, Leftover, ValueOf, Encode, Quad, Sextet;
      var a, b, c, d := Sextet(text[0]), Sextet(text[1]), Sextet(text[2]), Sextet(text[3]);
      SymbolOf(text[0]); SymbolOf(text[1]); SymbolOf(text[2]); SymbolOf(text[3]);
      var group := [Symbol(a), Symbol(b), Symbol(c), Symbol(d)];
      assert text == group + text[4..];
      EncodeGroup(a, b, c, d, Decode(text[4..]).value);
      var again := Encode(Decode(text[4..]).value);
      assert (group + again)[4..] == again;
      CanonicalIff(text[4..]);
    } else {
      LastCanonicalIff(text);
    }
  }

  lemma {:induction false} LastCanonicalIff(text: Bytes)
    requires Decode(text).Some? && |text| <= 4
    ensures Encode(Decode(text).value) == text <==> Leftover(text) == 0
  {
    assert |text| == 4 && WellPadded(text);
    hide Decode, Encode, Quad;
    LastShape(text);
    hide WellPadded, IsSymbol, ValueOf, Symbol;
    var n := Padding(text);
    if n == 0 {
      NoPad(Sextet(text[0]), Sextet(text[1]), Sextet(text[2]), Sextet(text[3]));
    } else if n == 1 {
      OnePad(Sextet(text[0]), Sextet(text[1]), Sextet(text[2]));
    } else {
      TwoPads(Sextet(text[0]), Sextet(text[1]));
    }
    hide Sextet;
  }

  lemma {:induction false} LastShape(text: Bytes)
    requires |text| == 4 && WellPadded(text)
    ensures var a, b, c, d := Sextet(text[0]), Sextet(text[1]), Sextet(text[2]), Sextet(text[3]);
      text == if Padding(text) == 0 then [Symbol(a), Symbol(b), Symbol(c), Symbol(d)]
              else if Padding(text) == 1 then [Symbol(a), Symbol(b), Symbol(c), PAD]
              else [Symbol(a), Symbol(b), PAD, PAD]
  {
    hide ValueOf, Symbol, Sextet, IsSymbol;
    SymbolOfPad();
    assert IsSymbol(text[0]) && IsSymbol(text[1]);
    SymbolOf(text[0]); SymbolOf(text[1]);
    if Padding(text) < 2 {
      SymbolOf(text[2]);
    }
    if Padding(text) == 0 {
      SymbolOf(text[3]);
    }
  }

  lemma {:induction false} NoPad(a: nat, b: nat, c: nat, d: nat)
    requires a < 64 && b < 64 && c < 64 && d < 64
    ensures var text := [Symbol(a), Symbol(b), Symbol(c), Symbol(d)];
      Decode(text).Some? && Encode(Decode(text).value) == text
  {
    WholeGroup(a, b, c, d);
    EncodeGroup(a, b, c, d, []);
    EmptyEncodes();
    hide Symbol, Decode, Encode;
    assert Quad(a, b, c, d) + [] == Quad(a, b, c, d);
  }

  lemma {:induction false} EmptyEncodes()
    ensures Encode([]) == []
  {
  }

  lemma {:induction false} EncodeTwo(x: Byte, y: Byte)
    ensures Encode([x, y]) == [Symbol(x / 4), Symbol(x % 4 * 16 + y / 16), Symbol(y % 16 * 4), PAD]
  {
  }

  lemma {:induction false} EncodeOne(x: Byte)
    ensures Encode([x]) == [Symbol(x / 4), Symbol(x % 4 * 16), PAD, PAD]
  {
  }

  lemma {:induction false} UngroupTwo(a: nat, b: nat, c: nat)
    requires a < 64 && b < 64 && c < 64
    ensures var q := Quad(a, b, c, 0)[..2];
      |q| == 2 && q == [q[0], q[1]] && q[0] / 4 == a && q[0] % 4 * 16 + q[1] / 16 == b && q[1] % 16 * 4 == c / 4 * 4
  {
    By4(a, b / 16);
    By16(b % 16, c / 4);
  }

  lemma {:induction false} UngroupOne(a: nat, b: nat)
    requires a < 64 && b < 64
    ensures var q := Quad(a, b, 0, 0)[..1];
      |q| == 1 && q == [q[0]] && q[0] / 4 == a && q[0] % 4 * 16 == b / 16 * 16
  {
    By4(a, b / 16);
  }

  lemma {:induction false} OnePad(a: nat, b: nat, c: nat)
    requires a < 64 && b < 64 && c < 64
    ensures var text := [Symbol(a), Symbol(b), Symbol(c), PAD];
      Decode(text).Some? && (Encode(Decode(text).value) == text <==> c % 4 == 0)
  {
    LastGroup([Symbol(a), Symbol(b), Symbol(c), PAD], a, b, c, 1);
    var q := Quad(a, b, c, 0)[..2];
    UngroupTwo(a, b, c);
    hide Quad;
    SymbolIs(c); SymbolIs(c / 4 * 4);
    EncodeTwo(q[0], q[1]);
    hide Symbol, Decode, ValueOf, Sextet, Encode;
    assert Encode(q) == [Symbol(a), Symbol(b), Symbol(c / 4 * 4), PAD];
  }

  lemma {:induction false} TwoPads(a: nat, b: nat)
    requires a < 64 && b < 64
    ensures var text := [Symbol(a), Symbol(b), PAD, PAD];
      Decode(text).Some? && (Encode(Decode(text).value) == text <==> b % 16 == 0)
  {
    LastGroup([Symbol(a), Symbol(b), PAD, PAD], a, b, 0, 2);
    var q := Quad(a, b, 0, 0)[..1];
    UngroupOne(a, b);
    hide Quad;
    SymbolIs(b); SymbolIs(b / 16 * 16);
    EncodeOne(q[0]);
    hide Symbol, Decode, ValueOf, Sextet, Encode;
    assert Encode(q) == [Symbol(a), Symbol(b / 16 * 16), PAD, PAD];
  }

  // "QR==" and "QQ==" both decode to the one byte of "A", and only the second is its encoding.
  lemma {:induction false} StrayBitsAreAccepted()
    ensures Decode([81, 82, 61, 61]) == Some([65]) == Decode([81, 81, 61, 61])
    ensures Encode([65]) == [81, 81, 61, 61]
  {
    assert Symbol(16) == 81 && Symbol(17) == 82;
    assert Quad(16, 17, 0, 0)[..1] == [65] && Quad(16, 16, 0, 0)[..1] == [65];
    EncodeOne(65);
    hide Decode, Encode, Symbol, ValueOf, Quad;
    LastGroup([81, 82, 61, 61], 16, 17, 0, 2);
    LastGroup([81, 81, 61, 61], 16, 16, 0, 2);
  }
}
